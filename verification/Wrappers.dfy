/** Small types and functions that several models share. */
module Wrappers {
  datatype Option<+T> = None | Some(value: T)

  function Min(a: nat, b: nat): nat { if a < b then a else b }

  function MinReal(a: real, b: real): real { if a < b then a else b }
}

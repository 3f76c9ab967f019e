/** Sequences: distinct elements, filtering, and the stable sort that the
    services get from the standard library, for an arbitrary strict order. */
module Sequences {

  ghost predicate Distinct<T>(s: seq<T>)
  {
    forall i, j :: 0 <= i < j < |s| ==> s[i] != s[j]
  }

  lemma PrefixStep<T>(s: seq<T>, k: nat)
    requires k < |s|
    ensures s[..k + 1] == s[..k] + [s[k]]
  {
  }

  ghost function Elements<T>(s: seq<T>): set<T> { set x | x in s }

  lemma DistinctConcat<T>(a: seq<T>, b: seq<T>)
    requires Distinct(a) && Distinct(b) && forall x :: x in a ==> x !in b
    ensures Distinct(a + b)
  {
    forall i, j | 0 <= i < j < |a + b| ensures (a + b)[i] != (a + b)[j] {
      if i < |a| <= j {
        assert a[i] in a && b[j - |a|] in b;
      }
    }
  }

  lemma {:induction false} DistinctCount<T>(s: seq<T>)
    requires Distinct(s)
    ensures |Elements(s)| == |s|
  {
    if s == [] {
      assert Elements(s) == {};
    } else {
      var t := s[..|s| - 1];
      DistinctCount(t);
      assert s == t + [s[|s| - 1]];
      assert Elements(s) == Elements(t) + {s[|s| - 1]};
    }
  }

  lemma {:induction false} SetOfAtMost<T>(s: seq<T>)
    ensures |Elements(s)| <= |s|
  {
    if s == [] {
      assert Elements(s) == {};
    } else {
      var t := s[..|s| - 1];
      SetOfAtMost(t);
      assert s == t + [s[|s| - 1]];
      assert Elements(s) == Elements(t) + {s[|s| - 1]};
    }
  }

  lemma {:induction false} SubsetCount<T>(a: set<T>, b: set<T>)
    requires a <= b
    ensures |a| <= |b|
  {
    if a != {} {
      var x :| x in a;
      SubsetCount(a - {x}, b - {x});
    }
  }

  lemma SubsetEqual<T>(a: set<T>, b: set<T>)
    requires a <= b && |a| == |b|
    ensures a == b
  {
    if x :| x in b && x !in a {
      SubsetCount(a, b - {x});
    }
  }

  lemma ElementsSplit<T>(s: seq<T>)
    requires s != [] && Distinct(s)
    ensures Elements(s) == Elements(s[..|s| - 1]) + {s[|s| - 1]}
    ensures s[|s| - 1] !in Elements(s[..|s| - 1])
  {
    var k := |s| - 1;
    assert s == s[..k] + [s[k]];
  }

  function Filter<T(!new)>(s: seq<T>, keep: T -> bool): (r: seq<T>)
    ensures forall x :: x in r <==> x in s && keep(x)
  {
    if s == [] then [] else
      var k := |s| - 1;
      assert s == s[..k] + [s[k]];
      Filter(s[..k], keep) + (if keep(s[k]) then [s[k]] else [])
  }

  lemma {:induction false} FilterKeepsDistinct<T(!new)>(s: seq<T>, keep: T -> bool)
    requires Distinct(s)
    ensures Distinct(Filter(s, keep))
  {
    if s != [] {
      FilterKeepsDistinct(s[..|s| - 1], keep);
    }
  }

  /** The places that hold an element to keep. */
  function KeptAt<T>(s: seq<T>, keep: T -> bool): set<int>
  {
    set i | 0 <= i < |s| && keep(s[i])
  }

  lemma KeptAtLast<T>(before: seq<T>, x: T, keep: T -> bool)
    ensures |KeptAt(before + [x], keep)| == |KeptAt(before, keep)| + (if keep(x) then 1 else 0)
  {
    assert KeptAt(before + [x], keep) == KeptAt(before, keep) + (if keep(x) then {|before|} else {});
  }

  lemma {:induction false} FilterCount<T(!new)>(s: seq<T>, keep: T -> bool)
    ensures |Filter(s, keep)| == |KeptAt(s, keep)|
  {
    if s != [] {
      var k := |s| - 1;
      FilterCount(s[..k], keep);
      assert s == s[..k] + [s[k]];
      KeptAtLast(s[..k], s[k], keep);
    }
  }

  // --------------------------------------------------- concatenated sequences

  function Concat<T>(f: nat -> seq<T>, n: nat): seq<T>
  {
    if n == 0 then [] else Concat(f, n - 1) + f(n - 1)
  }

  lemma {:induction false} ConcatEmpty<T>(f: nat -> seq<T>, n: nat)
    requires forall k: nat :: k < n ==> f(k) == []
    ensures Concat(f, n) == []
  {
    if n > 0 {
      ConcatEmpty(f, n - 1);
    }
  }

  lemma NothingMore<T>(s: seq<T>)
    ensures s + [] == s
  {
  }

  /** The pieces written one by one after what is already there. */
  function ConcatOnto<T>(base: seq<T>, f: nat -> seq<T>, n: nat): seq<T>
  {
    if n == 0 then base else ConcatOnto(base, f, n - 1) + f(n - 1)
  }

  lemma {:induction false} ConcatOntoIsConcat<T>(base: seq<T>, f: nat -> seq<T>, n: nat)
    ensures ConcatOnto(base, f, n) == base + Concat(f, n)
  {
    if n > 0 {
      ConcatOntoIsConcat(base, f, n - 1);
    }
  }

  lemma {:induction false} ConcatMember<T>(f: nat -> seq<T>, n: nat, x: T)
    ensures x in Concat(f, n) <==> exists k: nat :: k < n && x in f(k)
  {
    if n > 0 {
      ConcatMember(f, n - 1, x);
    }
  }

  lemma {:induction false} ConcatPadded<T>(f: nat -> seq<T>, m: nat, n: nat)
    requires m <= n && forall k: nat :: m <= k < n ==> f(k) == []
    ensures Concat(f, n) == Concat(f, m)
    decreases n
  {
    if m < n {
      ConcatPadded(f, m, n - 1);
    }
  }

  lemma {:induction false} ConcatSame<T>(f: nat -> seq<T>, g: nat -> seq<T>, n: nat)
    requires forall k: nat :: k < n ==> f(k) == g(k)
    ensures Concat(f, n) == Concat(g, n)
  {
    if n > 0 {
      ConcatSame(f, g, n - 1);
    }
  }

  // ------------------------------------------------------------- stable sort

  /** `lt` orders by some key: what is not below is transitive. */
  ghost predicate StrictOrder<T(!new)>(lt: (T, T) -> bool)
  {
    && (forall a, b :: lt(a, b) ==> !lt(b, a))
    && (forall a, b, c :: !lt(b, a) && !lt(c, b) ==> !lt(c, a))
  }

  /** Inserts after all elements that are not above `x`. */
  function Insert<T>(lt: (T, T) -> bool, list: seq<T>, x: T): (out: seq<T>)
    ensures |out| == |list| + 1
  {
    if list == [] || !lt(x, list[|list| - 1]) then list + [x] else
      Insert(lt, list[..|list| - 1], x) + [list[|list| - 1]]
  }

  function Sort<T>(lt: (T, T) -> bool, s: seq<T>): (out: seq<T>)
    ensures |out| == |s|
  {
    if s == [] then [] else Insert(lt, Sort(lt, s[..|s| - 1]), s[|s| - 1])
  }

  ghost predicate Sorted<T>(lt: (T, T) -> bool, s: seq<T>)
  {
    forall i, j :: 0 <= i < j < |s| ==> !lt(s[j], s[i])
  }

  lemma {:induction false} InsertPermutes<T>(lt: (T, T) -> bool, list: seq<T>, x: T)
    ensures multiset(Insert(lt, list, x)) == multiset(list) + multiset{x}
  {
    if list != [] && lt(x, list[|list| - 1]) {
      var n := |list| - 1;
      InsertPermutes(lt, list[..n], x);
      assert list == list[..n] + [list[n]];
      assert Insert(lt, list, x) == Insert(lt, list[..n], x) + [list[n]];
    }
  }

  lemma {:induction false} SortPermutes<T>(lt: (T, T) -> bool, s: seq<T>)
    ensures multiset(Sort(lt, s)) == multiset(s)
  {
    if s != [] {
      var n := |s| - 1;
      SortPermutes(lt, s[..n]);
      InsertPermutes(lt, Sort(lt, s[..n]), s[n]);
      assert s == s[..n] + [s[n]];
    }
  }

  lemma SortMember<T>(lt: (T, T) -> bool, s: seq<T>, x: T)
    ensures x in Sort(lt, s) <==> x in s
  {
    SortPermutes(lt, s);
    assert x in Sort(lt, s) <==> x in multiset(Sort(lt, s));
    assert x in s <==> x in multiset(s);
  }

  lemma InsertMember<T>(lt: (T, T) -> bool, list: seq<T>, x: T, y: T)
    ensures y in Insert(lt, list, x) <==> y in list || y == x
  {
    InsertPermutes(lt, list, x);
    assert y in Insert(lt, list, x) <==> y in multiset(Insert(lt, list, x));
    assert y in list <==> y in multiset(list);
  }

  lemma AppendKeepsSorted<T>(lt: (T, T) -> bool, list: seq<T>, x: T)
    requires Sorted(lt, list) && forall y :: y in list ==> !lt(x, y)
    ensures Sorted(lt, list + [x])
  {
    var out := list + [x];
    forall i, j | 0 <= i < j < |out| ensures !lt(out[j], out[i]) {
      assert out[i] == list[i];
      assert j < |list| ==> out[j] == list[j];
    }
  }

  lemma LastIsGreatest<T(!new)>(lt: (T, T) -> bool, list: seq<T>, x: T, y: T)
    requires StrictOrder(lt) && Sorted(lt, list) && list != [] && !lt(x, list[|list| - 1]) && y in list
    ensures !lt(x, y)
  {
    var i :| 0 <= i < |list| && list[i] == y;
    var last := list[|list| - 1];
    assert i == |list| - 1 || !lt(last, y);
  }

  lemma {:induction false} InsertKeepsSorted<T(!new)>(lt: (T, T) -> bool, list: seq<T>, x: T)
    requires StrictOrder(lt) && Sorted(lt, list)
    ensures Sorted(lt, Insert(lt, list, x))
  {
    if list != [] && lt(x, list[|list| - 1]) {
      var n := |list| - 1;
      InsertKeepsSorted(lt, list[..n], x);
      forall y | y in Insert(lt, list[..n], x) ensures !lt(list[n], y) {
        InsertMember(lt, list[..n], x, y);
        if y != x {
          var i :| 0 <= i < n && list[i] == y;
        }
      }
      AppendKeepsSorted(lt, Insert(lt, list[..n], x), list[n]);
    } else {
      forall y | y in list ensures !lt(x, y) {
        LastIsGreatest(lt, list, x, y);
      }
      AppendKeepsSorted(lt, list, x);
    }
  }

  lemma {:induction false} SortIsSorted<T(!new)>(lt: (T, T) -> bool, s: seq<T>)
    requires StrictOrder(lt)
    ensures Sorted(lt, Sort(lt, s))
  {
    if s != [] {
      SortIsSorted(lt, s[..|s| - 1]);
      InsertKeepsSorted(lt, Sort(lt, s[..|s| - 1]), s[|s| - 1]);
    }
  }

  lemma {:induction false} SortOfSorted<T>(lt: (T, T) -> bool, s: seq<T>)
    requires Sorted(lt, s)
    ensures Sort(lt, s) == s
  {
    if s != [] {
      SortOfSorted(lt, s[..|s| - 1]);
    }
  }

  /** Where an element is inserted: behind all that are not above it. */
  lemma {:induction false} InsertSplits<T(!new)>(lt: (T, T) -> bool, list: seq<T>, x: T) returns (p: nat)
    requires StrictOrder(lt) && Sorted(lt, list)
    ensures p <= |list| && Insert(lt, list, x) == list[..p] + [x] + list[p..]
    ensures forall i :: p <= i < |list| ==> lt(x, list[i])
  {
    if list != [] && lt(x, list[|list| - 1]) {
      var n := |list| - 1;
      p := InsertSplits(lt, list[..n], x);
      assert list[p..] == list[..n][p..] + [list[n]];
      assert list[..n][..p] == list[..p];
    } else {
      p := |list|;
    }
  }

  ghost predicate ComesBefore<T(!new)>(s: seq<T>, x: T, y: T)
  {
    exists a, b :: 0 <= a < b < |s| && s[a] == x && s[b] == y
  }

  lemma ComesBeforeStill<T(!new)>(s: seq<T>, z: T, x: T, y: T)
    requires ComesBefore(s, x, y)
    ensures ComesBefore(s + [z], x, y)
  {
    var a, b :| 0 <= a < b < |s| && s[a] == x && s[b] == y;
    assert (s + [z])[a] == x && (s + [z])[b] == y;
  }

  lemma ComesBeforeLast<T(!new)>(s: seq<T>, z: T, x: T)
    requires x in s
    ensures ComesBefore(s + [z], x, z)
  {
    var a :| 0 <= a < |s| && s[a] == x;
    assert (s + [z])[a] == x && (s + [z])[|s|] == z;
  }

  /** Each element of `list` that ties with a later one came before it. */
  ghost predicate TiesInOrder<T(!new)>(lt: (T, T) -> bool, s: seq<T>, list: seq<T>)
  {
    forall i, j :: 0 <= i < j < |list| && !lt(list[i], list[j]) ==> ComesBefore(s, list[i], list[j])
  }

  lemma InsertKeepsTies<T(!new)>(lt: (T, T) -> bool, before: seq<T>, list: seq<T>, x: T, p: nat)
    requires TiesInOrder(lt, before, list) && (forall y :: y in list ==> y in before)
    requires p <= |list| && forall i :: p <= i < |list| ==> lt(x, list[i])
    ensures TiesInOrder(lt, before + [x], list[..p] + [x] + list[p..])
  {
    var out := list[..p] + [x] + list[p..];
    forall i, j | 0 <= i < j < |out| && !lt(out[i], out[j]) ensures ComesBefore(before + [x], out[i], out[j]) {
      if j == p {
        assert out[i] == list[i];
        ComesBeforeLast(before, x, out[i]);
      } else if i != p {
        var a, b := if i < p then i else i - 1, if j < p then j else j - 1;
        assert out[i] == list[a] && out[j] == list[b];
        ComesBeforeStill(before, x, out[i], out[j]);
      }
    }
  }

  /** Sorting is stable: what ties comes in the order it came in. */
  lemma {:induction false} SortKeepsTies<T(!new)>(lt: (T, T) -> bool, s: seq<T>)
    requires StrictOrder(lt)
    ensures TiesInOrder(lt, s, Sort(lt, s))
  {
    if s != [] {
      var k := |s| - 1;
      SortKeepsTies(lt, s[..k]);
      SortIsSorted(lt, s[..k]);
      SortSnoc(lt, s[..k], s[k]);
      assert s == s[..k] + [s[k]];
      SortedInsertKeepsTies(lt, s[..k], Sort(lt, s[..k]), s[k]);
    }
  }

  lemma SortedInsertKeepsTies<T(!new)>(lt: (T, T) -> bool, before: seq<T>, list: seq<T>, x: T)
    requires StrictOrder(lt) && Sorted(lt, list) && TiesInOrder(lt, before, list) && list == Sort(lt, before)
    ensures TiesInOrder(lt, before + [x], Insert(lt, list, x))
  {
    forall y | y in list ensures y in before {
      SortMember(lt, before, y);
    }
    var p := InsertSplits(lt, list, x);
    InsertKeepsTies(lt, before, list, x, p);
  }

  lemma SortKeepsDistinct<T>(lt: (T, T) -> bool, s: seq<T>)
    requires Distinct(s)
    ensures Distinct(Sort(lt, s))
  {
    var out := Sort(lt, s);
    SortPermutes(lt, s);
    forall i, j | 0 <= i < j < |out| ensures out[i] != out[j] {
      if out[i] == out[j] {
        Twice(out, i, j);
        CountOfDistinct(s, out[i]);
      }
    }
  }

  lemma Twice<T>(s: seq<T>, i: nat, j: nat)
    requires i < j < |s| && s[i] == s[j]
    ensures multiset(s)[s[i]] >= 2
  {
    assert s == s[..j] + s[j..];
    assert s[i] in s[..j] && s[j] in s[j..];
    assert multiset(s[..j])[s[i]] >= 1 && multiset(s[j..])[s[i]] >= 1;
  }

  lemma {:induction false} CountOfDistinct<T>(s: seq<T>, x: T)
    requires Distinct(s)
    ensures multiset(s)[x] <= 1
  {
    if s != [] {
      var n := |s| - 1;
      assert s == s[..n] + [s[n]];
      CountOfDistinct(s[..n], x);
      if x == s[n] {
        assert x !in s[..n];
      }
    }
  }

  // ----------------------------------------------- taking the first least one

  /** The position of the element that a stable sort puts first. */
  function LeastIndex<T>(lt: (T, T) -> bool, s: seq<T>): (i: nat)
    requires s != []
    ensures i < |s|
  {
    var n := |s| - 1;
    if n == 0 then 0 else
      var m := LeastIndex(lt, s[..n]);
      if lt(s[n], s[m]) then n else m
  }

  lemma {:induction false} LeastIsLeast<T(!new)>(lt: (T, T) -> bool, s: seq<T>)
    requires s != [] && StrictOrder(lt)
    ensures forall j :: 0 <= j < |s| ==> !lt(s[j], s[LeastIndex(lt, s)])
  {
    var n := |s| - 1;
    if n > 0 {
      LeastIsLeast(lt, s[..n]);
      var m := LeastIndex(lt, s[..n]);
      forall j | 0 <= j < |s| ensures !lt(s[j], s[LeastIndex(lt, s)]) {
        if j < n {
          assert !lt(s[..n][j], s[..n][m]);
        }
      }
    }
  }

  /** The least element found is the first of those it ties with. */
  lemma {:induction false} LeastIsFirst<T(!new)>(lt: (T, T) -> bool, s: seq<T>, j: nat)
    requires s != [] && StrictOrder(lt) && j < LeastIndex(lt, s)
    ensures lt(s[LeastIndex(lt, s)], s[j])
  {
    var n := |s| - 1;
    var m := LeastIndex(lt, s[..n]);
    if lt(s[n], s[m]) {
      LeastIsLeast(lt, s[..n]);
      assert !lt(s[..n][j], s[..n][m]);
    } else {
      LeastIsFirst(lt, s[..n], j);
    }
  }

  function Without<T>(s: seq<T>, i: nat): seq<T>
    requires i < |s|
  {
    s[..i] + s[i + 1..]
  }

  lemma {:induction false} InsertFront<T>(lt: (T, T) -> bool, list: seq<T>, x: T)
    requires forall y :: y in list ==> lt(x, y)
    ensures Insert(lt, list, x) == [x] + list
  {
    if list != [] {
      InsertFront(lt, list[..|list| - 1], x);
    }
  }

  lemma {:induction false} InsertBehind<T>(lt: (T, T) -> bool, m: T, list: seq<T>, x: T)
    requires !lt(x, m)
    ensures Insert(lt, [m] + list, x) == [m] + Insert(lt, list, x)
  {
    if list != [] && lt(x, list[|list| - 1]) {
      var n := |list| - 1;
      assert ([m] + list)[..|list|] == [m] + list[..n];
      InsertBehind(lt, m, list[..n], x);
    }
  }

  lemma NewLeastGoesFirst<T(!new)>(lt: (T, T) -> bool, t: seq<T>, x: T)
    requires StrictOrder(lt) && t != [] && lt(x, t[LeastIndex(lt, t)])
    ensures Insert(lt, Sort(lt, t), x) == [x] + Sort(lt, t)
  {
    LeastIsLeast(lt, t);
    forall y | y in Sort(lt, t) ensures lt(x, y) {
      SortMember(lt, t, y);
      var j :| 0 <= j < |t| && t[j] == y;
      assert !lt(t[j], t[LeastIndex(lt, t)]);
    }
    InsertFront(lt, Sort(lt, t), x);
  }

  lemma WithoutOfAppend<T>(t: seq<T>, x: T, k: nat)
    requires k < |t|
    ensures Without(t + [x], k) == Without(t, k) + [x]
    ensures Without(t + [x], |t|) == t
    ensures (Without(t, k) + [x])[..|t| - 1] == Without(t, k)
  {
  }

  /** The head of the sorted sequence is the first least element, and its tail is
      the sorted rest. */
  lemma {:induction false} ShiftIsRemoval<T(!new)>(lt: (T, T) -> bool, s: seq<T>)
    requires StrictOrder(lt) && s != []
    ensures Sort(lt, s) == [s[LeastIndex(lt, s)]] + Sort(lt, Without(s, LeastIndex(lt, s)))
  {
    var n := |s| - 1;
    var t, x := s[..n], s[n];
    assert s == t + [x];
    if n > 0 {
      var k := LeastIndex(lt, t);
      ShiftIsRemoval(lt, t);
      WithoutOfAppend(t, x, k);
      if lt(x, t[k]) {
        NewLeastGoesFirst(lt, t, x);
      } else {
        InsertBehind(lt, t[k], Sort(lt, Without(t, k)), x);
        assert Sort(lt, Without(t, k) + [x]) == Insert(lt, Sort(lt, Without(t, k)), x);
      }
    } else {
      assert Without(s, 0) == [];
    }
  }

  /** Sorting depends on what precedes the appended part only through its sort. */
  lemma {:induction false} SortAppend<T>(lt: (T, T) -> bool, a: seq<T>, b: seq<T>, c: seq<T>)
    requires Sort(lt, a) == Sort(lt, b)
    ensures Sort(lt, a + c) == Sort(lt, b + c)
  {
    if c == [] {
      assert a + c == a && b + c == b;
    } else {
      var n := |c| - 1;
      SortAppend(lt, a, b, c[..n]);
      SortSnoc(lt, a + c[..n], c[n]);
      SortSnoc(lt, b + c[..n], c[n]);
      assert (a + c[..n]) + [c[n]] == a + c;
      assert (b + c[..n]) + [c[n]] == b + c;
    }
  }

  lemma SortSnoc<T>(lt: (T, T) -> bool, s: seq<T>, x: T)
    ensures Sort(lt, s + [x]) == Insert(lt, Sort(lt, s), x)
  {
    assert (s + [x])[..|s + [x]| - 1] == s;
  }

  /** A queue that is re-sorted and shifted on every turn behaves like one from
      which the first least element is removed: the same element is taken, and
      the two stay equal once sorted. */
  lemma TurnOnSortedQueue<T(!new)>(lt: (T, T) -> bool, queue: seq<T>, waiting: seq<T>, pushed: seq<T>)
    requires StrictOrder(lt) && waiting != [] && Sort(lt, queue) == Sort(lt, waiting)
    ensures Sort(lt, queue)[0] == waiting[LeastIndex(lt, waiting)]
    ensures Sort(lt, Sort(lt, queue)[1..] + pushed) == Sort(lt, Without(waiting, LeastIndex(lt, waiting)) + pushed)
  {
    var rest := Without(waiting, LeastIndex(lt, waiting));
    ShiftIsRemoval(lt, waiting);
    assert Sort(lt, queue)[1..] == Sort(lt, rest);
    SortIsSorted(lt, rest);
    SortOfSorted(lt, Sort(lt, rest));
    SortAppend(lt, Sort(lt, rest), rest, pushed);
  }

  // ------------------------------------------------------- sorting by a rank

  function RankOrder<T>(rank: T -> nat): (T, T) -> bool
  {
    (a: T, b: T) => rank(a) < rank(b)
  }

  function OfRank<T>(rank: T -> nat, r: nat): T -> bool
  {
    (x: T) => rank(x) == r
  }

  /** The elements of each rank below `n`, rank by rank, in their given order. */
  function Buckets<T(!new)>(rank: T -> nat, s: seq<T>, n: nat): seq<T>
  {
    if n == 0 then [] else Buckets(rank, s, n - 1) + Filter(s, OfRank(rank, n - 1))
  }

  lemma {:induction false} BucketsMember<T(!new)>(rank: T -> nat, s: seq<T>, n: nat, x: T)
    requires x in Buckets(rank, s, n)
    ensures rank(x) < n
  {
    if x in Buckets(rank, s, n - 1) {
      BucketsMember(rank, s, n - 1, x);
    }
  }

  lemma FilterAppend<T(!new)>(s: seq<T>, x: T, keep: T -> bool)
    ensures Filter(s + [x], keep) == Filter(s, keep) + (if keep(x) then [x] else [])
  {
    assert (s + [x])[..|s|] == s;
  }

  lemma {:induction false} BucketsAppend<T(!new)>(rank: T -> nat, s: seq<T>, x: T, n: nat)
    ensures Buckets(rank, s + [x], n) ==
      if rank(x) >= n then Buckets(rank, s, n) else Insert(RankOrder(rank), Buckets(rank, s, n), x)
  {
    if n > 0 {
      var r, t := n - 1, s + [x];
      BucketsAppend(rank, s, x, r);
      FilterAppend(s, x, OfRank(rank, r));
      forall y | y in Buckets(rank, s, r) ensures rank(y) < r {
        BucketsMember(rank, s, r, y);
      }
      TopBucket(rank, Buckets(rank, s, r), Filter(s, OfRank(rank, r)), x, r, Buckets(rank, t, r), Filter(t, OfRank(rank, r)));
    }
  }

  /** The last bucket is put behind the lower ones. */
  lemma TopBucket<T(!new)>(rank: T -> nat, lower: seq<T>, top: seq<T>, x: T, r: nat, lower': seq<T>, top': seq<T>)
    requires forall y :: y in lower ==> rank(y) < r
    requires forall y :: y in top ==> rank(y) == r
    requires lower' == if rank(x) >= r then lower else Insert(RankOrder(rank), lower, x)
    requires top' == top + if rank(x) == r then [x] else []
    ensures lower' + top' == if rank(x) >= r + 1 then lower + top else Insert(RankOrder(rank), lower + top, x)
  {
    if rank(x) < r {
      InsertBelow(RankOrder(rank), lower, top, x);
      assert top' == top;
    } else if rank(x) == r {
      InsertLast(rank, lower, top, x, r);
    } else {
      assert top' == top;
    }
  }

  lemma InsertLast<T(!new)>(rank: T -> nat, lower: seq<T>, top: seq<T>, x: T, r: nat)
    requires rank(x) == r
    requires forall y :: y in top ==> rank(y) == r
    requires lower != [] ==> rank(lower[|lower| - 1]) <= r
    ensures Insert(RankOrder(rank), lower + top, x) == lower + (top + [x])
  {
    var all := lower + top;
    if all != [] {
      var last := all[|all| - 1];
      assert last == if top != [] then top[|top| - 1] else lower[|lower| - 1];
    }
  }

  lemma {:induction false} InsertBelow<T>(lt: (T, T) -> bool, a: seq<T>, b: seq<T>, x: T)
    requires forall y :: y in b ==> lt(x, y)
    ensures Insert(lt, a + b, x) == Insert(lt, a, x) + b
  {
    if b == [] {
      assert a + b == a;
    } else {
      var k := |b| - 1;
      assert (a + b)[..|a + b| - 1] == a + b[..k];
      InsertBelow(lt, a, b[..k], x);
    }
  }

  /** A stable sort by rank lists the ranks one after the other. */
  lemma {:induction false} SortIsBuckets<T(!new)>(rank: T -> nat, s: seq<T>, n: nat)
    requires forall x :: x in s ==> rank(x) < n
    ensures Sort(RankOrder(rank), s) == Buckets(rank, s, n)
  {
    if s == [] {
      NoBuckets(rank, n);
    } else {
      var k := |s| - 1;
      assert s == s[..k] + [s[k]];
      SortIsBuckets(rank, s[..k], n);
      BucketsAppend(rank, s[..k], s[k], n);
    }
  }

  lemma {:induction false} NoBuckets<T(!new)>(rank: T -> nat, n: nat)
    ensures Buckets(rank, [], n) == []
  {
    if n > 0 {
      NoBuckets(rank, n - 1);
    }
  }

  lemma {:induction false} SameBuckets<T(!new)>(rank: T -> nat, s: seq<T>, t: seq<T>, n: nat)
    requires forall r: nat :: r < n ==> Filter(s, OfRank(rank, r)) == Filter(t, OfRank(rank, r))
    ensures Buckets(rank, s, n) == Buckets(rank, t, n)
  {
    if n > 0 {
      SameBuckets(rank, s, t, n - 1);
    }
  }
}

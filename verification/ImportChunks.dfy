/** Chunked storage of imported sheets and of converted graphs. */
module ImportChunks {
  import opened Wrappers

  datatype Sheet = Sheet(importId: nat, fileId: nat, sheetIndex: nat)

  datatype Key = Key(sheet: Sheet, chunkIndex: nat)

  datatype Chunk<T> = Chunk(rowStart: int, rowEnd: int, rows: seq<T>)

  type Store<T> = map<Key, Chunk<T>>

  // ------------------------------------------------------------ what is stored

  /** How many chunks of `size` rows hold `n` rows. */
  function Count(n: nat, size: nat): nat
    requires size > 0
  {
    (n + size - 1) / size
  }

  function Slice<T>(rows: seq<T>, size: nat, i: nat): seq<T>
    requires i * size <= |rows|
  {
    rows[i * size..Min(i * size + size, |rows|)]
  }

  /** The rows of the first `k` chunks. */
  function Prefix<T>(rows: seq<T>, size: nat, k: nat): seq<T>
  {
    Times(0, k, size);
    rows[..Min(k * size, |rows|)]
  }

  function ChunkOf<T>(rows: seq<T>, size: nat, i: nat): Chunk<T>
    requires i * size <= |rows|
  {
    Chunk(i * size + 1, i * size + |Slice(rows, size, i)|, Slice(rows, size, i))
  }

  lemma CountBounds(n: nat, size: nat, i: nat)
    requires size > 0
    ensures i < Count(n, size) <==> i * size < n
  {
    var c := Count(n, size);
    assert c * size <= n + size - 1 < (c + 1) * size by { assert (n + size - 1) == c * size + (n + size - 1) % size; }
    if i < c {
      Times(i, c - 1, size);
    } else {
      Times(c, i, size);
    }
  }

  lemma Times(a: int, b: int, size: nat)
    requires a <= b
    ensures a * size <= b * size
  {
  }

  lemma NextStart(i: nat, size: nat)
    ensures (i + 1) * size == i * size + size
  {
  }

  /** What a reader gets from the chunks `from` to `upto` of a sheet. */
  function Read<T>(s: Store<T>, sheet: Sheet, from: nat, upto: nat): seq<T>
    decreases upto
  {
    if upto <= from then [] else
      Read(s, sheet, from, upto - 1) + (if Key(sheet, upto - 1) in s then s[Key(sheet, upto - 1)].rows else [])
  }

  ghost predicate Covers<T>(s: Store<T>, sheet: Sheet, n: nat)
  {
    forall k :: k in s && k.sheet == sheet ==> k.chunkIndex < n
  }

  lemma {:induction false} ReadFar<T>(s: Store<T>, sheet: Sheet, from: nat, n: nat, m: nat)
    requires Covers(s, sheet, n) && n <= m
    ensures Read(s, sheet, from, m) == Read(s, sheet, from, n)
    decreases m
  {
    if n < m {
      ReadFar(s, sheet, from, n, m - 1);
      if m > from {
        assert Key(sheet, m - 1) !in s;
      }
    }
  }

  lemma {:induction false} ReadSplit<T>(s: Store<T>, sheet: Sheet, a: nat, b: nat, c: nat)
    requires a <= b <= c
    ensures Read(s, sheet, a, c) == Read(s, sheet, a, b) + Read(s, sheet, b, c)
    decreases c
  {
    if b < c {
      ReadSplit(s, sheet, a, b, c - 1);
    }
  }

  lemma {:induction false} ReadSame<T>(s: Store<T>, s': Store<T>, sheet: Sheet, a: nat, b: nat)
    requires forall i: nat :: a <= i < b ==> (Key(sheet, i) in s <==> Key(sheet, i) in s')
    requires forall i: nat :: a <= i < b && Key(sheet, i) in s ==> s[Key(sheet, i)] == s'[Key(sheet, i)]
    ensures Read(s, sheet, a, b) == Read(s', sheet, a, b)
    decreases b
  {
    if a < b {
      ReadSame(s, s', sheet, a, b - 1);
    }
  }

  /** The last stored chunk of the sheet and its last row, or (-1, 0) if there is
      none. */
  ghost predicate IsCheckpoint<T>(s: Store<T>, sheet: Sheet, chunkIndex: int, rowEnd: int)
  {
    if chunkIndex == -1 then rowEnd == 0 && forall k :: k in s ==> k.sheet != sheet
    else chunkIndex >= 0 && Covers(s, sheet, chunkIndex + 1) && Key(sheet, chunkIndex) in s && rowEnd == s[Key(sheet, chunkIndex)].rowEnd
  }

  // ----------------------------------------------------- the effect of a pass

  /** The store after chunk `i` of the sheet has been (re)written. */
  function Put<T>(s: Store<T>, sheet: Sheet, rows: seq<T>, size: nat, i: nat): Store<T>
    requires i * size <= |rows|
  {
    s[Key(sheet, i) := ChunkOf(rows, size, i)]
  }

  class ChunkStore<T> {
    var chunks: Store<T>

    constructor ()
      ensures chunks == map[]
    {
      chunks := map[];
    }

    /** Inserts the chunk, or replaces the one stored under the same key. */
    method Append(sheet: Sheet, chunkIndex: nat, rowStart: int, rows: seq<T>)
      modifies this
      ensures chunks == old(chunks)[Key(sheet, chunkIndex) := Chunk(rowStart, rowStart + |rows| - 1, rows)]
    {
      chunks := chunks[Key(sheet, chunkIndex) := Chunk(rowStart, rowStart + |rows| - 1, rows)];
    }

    /** One pass over a parsed sheet; `stamina` appends succeed before it is
        interrupted. */
    method StoreSheet(sheet: Sheet, rows: seq<T>, size: nat, stamina: nat) returns (finished: bool)
      requires size > 0
      modifies this
      ensures chunks == Written(old(chunks), sheet, rows, size, Min(stamina, Count(|rows|, size)))
      ensures finished <==> stamina >= Count(|rows|, size)
    {
      var start, chunkIndex := 0, 0;
      while start < |rows|
        invariant start == chunkIndex * size && chunkIndex <= Count(|rows|, size) && chunkIndex <= stamina
        invariant chunks == Written(old(chunks), sheet, rows, size, chunkIndex)
        decreases Count(|rows|, size) - chunkIndex
      {
        CountBounds(|rows|, size, chunkIndex);
        if chunkIndex == stamina {
          return false;
        }
        NextStart(chunkIndex, size);
        assert Chunk(start + 1, start + 1 + |Slice(rows, size, chunkIndex)| - 1, Slice(rows, size, chunkIndex)) == ChunkOf(rows, size, chunkIndex);
        Append(sheet, chunkIndex, start + 1, rows[start..Min(start + size, |rows|)]);
        start, chunkIndex := start + size, chunkIndex + 1;
      }
      CountBounds(|rows|, size, chunkIndex);
      return true;
    }

    method Bound(sheet: Sheet) returns (n: nat)
      ensures Covers(chunks, sheet, n)
      ensures n > 0 ==> Key(sheet, n - 1) in chunks
    {
      n := 0;
      var keys := chunks.Keys;
      while keys != {}
        invariant keys <= chunks.Keys
        invariant forall k :: k in chunks && k !in keys && k.sheet == sheet ==> k.chunkIndex < n
        invariant n > 0 ==> Key(sheet, n - 1) in chunks
        decreases |keys|
      {
        var k :| k in keys;
        keys := keys - {k};
        if k.sheet == sheet && k.chunkIndex >= n {
          n := k.chunkIndex + 1;
        }
      }
    }

    /** All stored rows of a sheet, chunk by chunk in index order. */
    method Rows(sheet: Sheet) returns (rows: seq<T>)
      ensures forall n :: Covers(chunks, sheet, n) ==> rows == Read(chunks, sheet, 0, n)
    {
      var n := Bound(sheet);
      rows := [];
      for i := 0 to n
        invariant rows == Read(chunks, sheet, 0, i)
      {
        if Key(sheet, i) in chunks {
          rows := rows + chunks[Key(sheet, i)].rows;
        }
      }
      forall m | Covers(chunks, sheet, m) ensures rows == Read(chunks, sheet, 0, m) {
        if m <= n { ReadFar(chunks, sheet, 0, m, n); } else { ReadFar(chunks, sheet, 0, n, m); }
      }
    }

    /** The last stored chunk and its last row, or (-1, 0). */
    method LastCheckpoint(sheet: Sheet) returns (chunkIndex: int, rowEnd: int)
      ensures IsCheckpoint(chunks, sheet, chunkIndex, rowEnd)
    {
      var n := Bound(sheet);
      if n == 0 {
        chunkIndex, rowEnd := -1, 0;
      } else {
        chunkIndex, rowEnd := n - 1, chunks[Key(sheet, n - 1)].rowEnd;
      }
    }
  }

  /** The store after the first `k` chunks of a pass. */
  function Written<T>(s: Store<T>, sheet: Sheet, rows: seq<T>, size: nat, k: nat): Store<T>
    requires size > 0 && k <= Count(|rows|, size)
  {
    if k == 0 then s else
      CountBounds(|rows|, size, k - 1);
      Put(Written(s, sheet, rows, size, k - 1), sheet, rows, size, k - 1)
  }

  /** Chunk `c` holds the rows from `start` on, at most `size` of them, with the
      numbers of the first and the last. */
  ghost predicate IsSlice<T>(c: Chunk<T>, rows: seq<T>, size: nat, start: nat)
  {
    && start < |rows|
    && c.rows == rows[start..Min(start + size, |rows|)]
    && c.rowStart == start + 1 && c.rowEnd == Min(start + size, |rows|)
  }

  lemma ChunkIsSlice<T>(rows: seq<T>, size: nat, i: nat)
    requires size > 0 && i < Count(|rows|, size)
    ensures i * size <= |rows| && IsSlice(ChunkOf(rows, size, i), rows, size, i * size)
  {
    CountBounds(|rows|, size, i);
    SliceAt(rows, size, i, i * size);
  }

  lemma SliceAt<T>(rows: seq<T>, size: nat, i: nat, start: nat)
    requires start == i * size && start < |rows|
    ensures IsSlice(ChunkOf(rows, size, i), rows, size, start)
  {
  }

  /** The first `k` chunks of a pass are the slices of `size` rows, in order and
      numbered from 0; every other chunk is as before. */
  lemma {:induction false} PassWritesSlices<T>(s: Store<T>, sheet: Sheet, rows: seq<T>, size: nat, k: nat, key: Key)
    requires size > 0 && k <= Count(|rows|, size)
    ensures var s' := Written(s, sheet, rows, size, k);
      if key.sheet == sheet && key.chunkIndex < k
      then key in s' && IsSlice(s'[key], rows, size, key.chunkIndex * size)
      else (key in s' <==> key in s) && (key in s ==> s'[key] == s[key])
    decreases k
  {
    if k > 0 {
      PassWritesSlices(s, sheet, rows, size, k - 1, key);
      ChunkIsSlice(rows, size, k - 1);
    }
  }

  // ------------------------------------------------------ interleaved passes

  /** One append of some pass over the sheet. */
  datatype Write = Write(pass: nat, chunkIndex: nat)

  /** How far pass `p` has come after the writes `ws`. */
  function Progress(ws: seq<Write>, p: nat): nat
  {
    if ws == [] then 0 else Progress(ws[..|ws| - 1], p) + (if ws[|ws| - 1].pass == p then 1 else 0)
  }

  /** Any interleaving of passes, each of which appends its chunks in order and
      may stop anywhere. */
  ghost predicate Interleaving(ws: seq<Write>, count: nat)
  {
    forall i :: 0 <= i < |ws| ==> ws[i].chunkIndex == Progress(ws[..i], ws[i].pass) && ws[i].chunkIndex < count
  }

  lemma InterleavingInit(ws: seq<Write>, count: nat)
    requires Interleaving(ws, count) && ws != []
    ensures Interleaving(ws[..|ws| - 1], count)
    ensures ws[|ws| - 1].chunkIndex < count
  {
    var init := ws[..|ws| - 1];
    forall i | 0 <= i < |init| ensures init[i].chunkIndex == Progress(init[..i], init[i].pass) && init[i].chunkIndex < count {
      assert init[..i] == ws[..i];
    }
  }

  function Stored<T>(s: Store<T>, sheet: Sheet, rows: seq<T>, size: nat, ws: seq<Write>): Store<T>
    requires size > 0 && forall w :: w in ws ==> w.chunkIndex < Count(|rows|, size)
  {
    if ws == [] then s else
      var k := |ws| - 1;
      CountBounds(|rows|, size, ws[k].chunkIndex);
      Put(Stored(s, sheet, rows, size, ws[..k]), sheet, rows, size, ws[k].chunkIndex)
  }

  lemma StoredMore<T>(s: Store<T>, sheet: Sheet, rows: seq<T>, size: nat, ws: seq<Write>, w: Write)
    requires size > 0 && w.chunkIndex * size <= |rows| && w.chunkIndex < Count(|rows|, size)
    requires forall v :: v in ws ==> v.chunkIndex < Count(|rows|, size)
    ensures Stored(s, sheet, rows, size, ws + [w]) == Put(Stored(s, sheet, rows, size, ws), sheet, rows, size, w.chunkIndex)
  {
    assert (ws + [w])[..|ws|] == ws;
  }

  ghost predicate Wrote(ws: seq<Write>, i: nat)
  {
    exists w :: w in ws && w.chunkIndex == i
  }

  lemma {:induction false} PassWrites(ws: seq<Write>, count: nat, p: nat, i: nat)
    requires Interleaving(ws, count) && i < Progress(ws, p)
    ensures Wrote(ws, i)
  {
    var k := |ws| - 1;
    InterleavingInit(ws, count);
    assert ws == ws[..k] + [ws[k]];
    if i < Progress(ws[..k], p) {
      PassWrites(ws[..k], count, p, i);
      var w :| w in ws[..k] && w.chunkIndex == i;
      assert w in ws;
    } else {
      assert ws[k] in ws && ws[k].chunkIndex == i;
    }
  }

  lemma {:induction false} StoredContents<T>(s: Store<T>, sheet: Sheet, rows: seq<T>, size: nat, ws: seq<Write>, k: Key)
    requires size > 0 && forall w :: w in ws ==> w.chunkIndex < Count(|rows|, size)
    ensures k in Stored(s, sheet, rows, size, ws) <==> k in s || (k.sheet == sheet && Wrote(ws, k.chunkIndex))
    ensures k.sheet == sheet && Wrote(ws, k.chunkIndex) ==>
      k.chunkIndex * size <= |rows| && Stored(s, sheet, rows, size, ws)[k] == ChunkOf(rows, size, k.chunkIndex)
    ensures k in s && !(k.sheet == sheet && Wrote(ws, k.chunkIndex)) ==> Stored(s, sheet, rows, size, ws)[k] == s[k]
  {
    if ws != [] {
      var n := |ws| - 1;
      StoredContents(s, sheet, rows, size, ws[..n], k);
      CountBounds(|rows|, size, ws[n].chunkIndex);
      assert ws == ws[..n] + [ws[n]];
      assert Wrote(ws, k.chunkIndex) <==> Wrote(ws[..n], k.chunkIndex) || ws[n].chunkIndex == k.chunkIndex;
    }
  }

  /** The appends of one pass that stops after `k` chunks. */
  function OnePass(p: nat, k: nat): seq<Write>
  {
    seq(k, i requires 0 <= i < k => Write(p, i))
  }

  lemma OnePassGrows(p: nat, k: nat)
    requires k > 0
    ensures OnePass(p, k) == OnePass(p, k - 1) + [Write(p, k - 1)]
    ensures OnePass(p, k)[..k - 1] == OnePass(p, k - 1)
  {
  }

  lemma InterleavingAppend(ws: seq<Write>, w: Write, count: nat)
    requires Interleaving(ws, count) && w.chunkIndex == Progress(ws, w.pass) < count
    ensures Interleaving(ws + [w], count)
    ensures Progress(ws + [w], w.pass) == Progress(ws, w.pass) + 1
  {
    var all := ws + [w];
    assert all[..|ws|] == ws;
    forall i | 0 <= i < |all| ensures all[i].chunkIndex == Progress(all[..i], all[i].pass) && all[i].chunkIndex < count {
      if i < |ws| {
        assert all[..i] == ws[..i];
      }
    }
  }

  lemma {:induction false} OnePassInOrder(p: nat, k: nat, count: nat)
    requires k <= count
    ensures Interleaving(OnePass(p, k), count) && Progress(OnePass(p, k), p) == k
  {
    if k > 0 {
      OnePassInOrder(p, k - 1, count);
      OnePassGrows(p, k);
      InterleavingAppend(OnePass(p, k - 1), Write(p, k - 1), count);
    }
  }

  /** An interrupted or uninterrupted run of the chunking loop is such a pass. */
  lemma {:induction false} WrittenIsOnePass<T>(s: Store<T>, sheet: Sheet, rows: seq<T>, size: nat, p: nat, k: nat)
    requires size > 0 && k <= Count(|rows|, size)
    ensures Written(s, sheet, rows, size, k) == Stored(s, sheet, rows, size, OnePass(p, k))
  {
    if k > 0 {
      var before := OnePass(p, k - 1);
      WrittenIsOnePass(s, sheet, rows, size, p, k - 1);
      OnePassGrows(p, k);
      CountBounds(|rows|, size, k - 1);
      StoredMore(s, sheet, rows, size, before, Write(p, k - 1));
    }
  }

  /** Chunk `i` of the sheet is stored as a pass writes it. */
  ghost predicate Holds<T>(s: Store<T>, sheet: Sheet, rows: seq<T>, size: nat, i: nat)
  {
    i * size <= |rows| && Key(sheet, i) in s && s[Key(sheet, i)] == ChunkOf(rows, size, i)
  }

  lemma PrefixJoins<T>(rows: seq<T>, from: nat, upto: nat)
    requires from <= upto <= |rows|
    ensures rows[..from] + rows[from..upto] == rows[..upto]
  {
  }

  /** The slices of a sheet, put together, are the sheet. */
  lemma {:induction false} SlicesJoin<T>(s: Store<T>, sheet: Sheet, rows: seq<T>, size: nat, k: nat)
    requires size > 0 && k <= Count(|rows|, size)
    requires forall i: nat :: i < k ==> Holds(s, sheet, rows, size, i)
    ensures Read(s, sheet, 0, k) == Prefix(rows, size, k)
    decreases k
  {
    if k > 0 {
      var i := k - 1;
      SlicesJoin(s, sheet, rows, size, i);
      CountBounds(|rows|, size, i);
      NextStart(i, size);
      assert Holds(s, sheet, rows, size, i);
      PrefixJoins(rows, i * size, Min(i * size + size, |rows|));
    }
  }

  /** A complete pass over the rows is among the writes. */
  ghost predicate Delivers(ws: seq<Write>, count: nat)
  {
    && Interleaving(ws, count) && (forall w :: w in ws ==> w.chunkIndex < count)
    && exists p :: Progress(ws, p) == count
  }

  lemma DeliveredChunk<T>(s: Store<T>, sheet: Sheet, rows: seq<T>, size: nat, ws: seq<Write>, i: nat)
    requires size > 0 && Delivers(ws, Count(|rows|, size)) && i < Count(|rows|, size)
    ensures Holds(Stored(s, sheet, rows, size, ws), sheet, rows, size, i)
  {
    var p :| Progress(ws, p) == Count(|rows|, size);
    CountBounds(|rows|, size, i);
    PassWrites(ws, Count(|rows|, size), p, i);
    StoredContents(s, sheet, rows, size, ws, Key(sheet, i));
  }

  /** Exactly-once effect of redelivery: after any interleaving of partial or
      repeated passes over the same rows that contains one full pass, the sheet
      reads as exactly those rows, followed only by what the store held before
      beyond the last chunk of the pass. */
  lemma RedeliveryIsIdempotent<T>(s: Store<T>, sheet: Sheet, rows: seq<T>, size: nat, ws: seq<Write>, n: nat)
    requires size > 0 && Delivers(ws, Count(|rows|, size)) && Count(|rows|, size) <= n
    ensures Read(Stored(s, sheet, rows, size, ws), sheet, 0, n) == rows + Read(s, sheet, Count(|rows|, size), n)
  {
    var c := Count(|rows|, size);
    var s' := Stored(s, sheet, rows, size, ws);
    forall i: nat | i < c ensures Holds(s', sheet, rows, size, i) {
      DeliveredChunk(s, sheet, rows, size, ws, i);
    }
    SlicesJoin(s', sheet, rows, size, c);
    CountBounds(|rows|, size, c);
    assert Prefix(rows, size, c) == rows;
    forall i: nat | c <= i < n ensures Key(sheet, i) in s <==> Key(sheet, i) in s'
      ensures Key(sheet, i) in s ==> s[Key(sheet, i)] == s'[Key(sheet, i)]
    {
      StoredContents(s, sheet, rows, size, ws, Key(sheet, i));
      assert !Wrote(ws, i);
    }
    ReadSame(s, s', sheet, c, n);
    ReadSplit(s', sheet, 0, c, n);
  }

  /** So the sheet reads as exactly the rows if and only if no rows are left
      behind the last chunk. */
  lemma ReadsExactlyWhenNothingIsLeft<T>(s: Store<T>, sheet: Sheet, rows: seq<T>, size: nat, ws: seq<Write>, n: nat)
    requires size > 0 && Delivers(ws, Count(|rows|, size)) && Count(|rows|, size) <= n
    ensures Read(Stored(s, sheet, rows, size, ws), sheet, 0, n) == rows <==> Read(s, sheet, Count(|rows|, size), n) == []
  {
    RedeliveryIsIdempotent(s, sheet, rows, size, ws, n);
    var tail := Read(s, sheet, Count(|rows|, size), n);
    assert |rows + tail| == |rows| + |tail|;
    if tail == [] {
      assert rows + tail == rows;
    }
  }

  /** The row ranges of the chunks of a pass tile 1..n without gap or overlap. */
  lemma RangesTile<T>(rows: seq<T>, size: nat, i: nat)
    requires size > 0 && i < Count(|rows|, size)
    ensures i * size <= |rows|
    ensures var c := ChunkOf(rows, size, i);
      && c.rowStart <= c.rowEnd
      && (i == 0 ==> c.rowStart == 1)
      && (i > 0 ==> Follows(rows, size, i - 1, c))
      && (i == Count(|rows|, size) - 1 ==> c.rowEnd == |rows|)
  {
    CountBounds(|rows|, size, i);
    ChunkRange(rows, size, i, i * size);
    if i > 0 {
      ChunksMeet(rows, size, i - 1);
    }
    if i == Count(|rows|, size) - 1 {
      LastChunkEnds(rows, size, i, i * size);
    }
  }

  /** Chunk `c` starts with the row after chunk `i`. */
  predicate Follows<T>(rows: seq<T>, size: nat, i: nat, c: Chunk<T>)
  {
    i * size <= |rows| && c.rowStart == ChunkOf(rows, size, i).rowEnd + 1
  }

  lemma ChunkRange<T>(rows: seq<T>, size: nat, i: nat, from: nat)
    requires from == i * size && from <= |rows|
    ensures ChunkOf(rows, size, i).rowStart == from + 1
    ensures ChunkOf(rows, size, i).rowEnd == from + Min(size, |rows| - from)
  {
  }

  lemma ChunksMeet<T>(rows: seq<T>, size: nat, i: nat)
    requires (i + 1) * size < |rows|
    ensures Follows(rows, size, i, ChunkOf(rows, size, i + 1))
  {
    NextStart(i, size);
    MeetAt(rows, size, i, i * size, (i + 1) * size);
  }

  lemma MeetAt<T>(rows: seq<T>, size: nat, i: nat, from: nat, next: nat)
    requires from == i * size && next == (i + 1) * size && next == from + size && next < |rows|
    ensures Follows(rows, size, i, ChunkOf(rows, size, i + 1))
  {
    ChunkRange(rows, size, i, from);
    ChunkRange(rows, size, i + 1, next);
  }

  lemma LastChunkEnds<T>(rows: seq<T>, size: nat, i: nat, from: nat)
    requires size > 0 && i == Count(|rows|, size) - 1 && from == i * size && from <= |rows|
    ensures ChunkOf(rows, size, i).rowEnd == |rows|
  {
    CountBounds(|rows|, size, i + 1);
    NextStart(i, size);
    ChunkRange(rows, size, i, from);
  }

  // ------------------------------------------------------------ the checkpoint

  lemma DeliveredBound<T>(s: Store<T>, sheet: Sheet, rows: seq<T>, size: nat, ws: seq<Write>)
    requires size > 0 && Delivers(ws, Count(|rows|, size)) && Covers(s, sheet, Count(|rows|, size))
    ensures Covers(Stored(s, sheet, rows, size, ws), sheet, Count(|rows|, size))
  {
    forall k | k in Stored(s, sheet, rows, size, ws) && k.sheet == sheet ensures k.chunkIndex < Count(|rows|, size) {
      StoredContents(s, sheet, rows, size, ws, k);
      if Wrote(ws, k.chunkIndex) {
        var w :| w in ws && w.chunkIndex == k.chunkIndex;
      }
    }
  }

  /** After a delivery with nothing left behind it, the checkpoint is the last chunk
      and its last row the last row delivered. */
  lemma DeliveryCheckpoint<T>(s: Store<T>, sheet: Sheet, rows: seq<T>, size: nat, ws: seq<Write>, chunkIndex: int, rowEnd: int)
    requires size > 0 && Delivers(ws, Count(|rows|, size)) && Covers(s, sheet, Count(|rows|, size))
    requires IsCheckpoint(Stored(s, sheet, rows, size, ws), sheet, chunkIndex, rowEnd)
    ensures chunkIndex == Count(|rows|, size) - 1 && rowEnd == |rows|
  {
    var c, s' := Count(|rows|, size), Stored(s, sheet, rows, size, ws);
    DeliveredBound(s, sheet, rows, size, ws);
    if c == 0 {
      CountBounds(|rows|, size, 0);
    } else {
      DeliveredChunk(s, sheet, rows, size, ws, c - 1);
      RangesTile(rows, size, c - 1);
      assert Key(sheet, c - 1) in s';
    }
  }

  // ------------------------------------------------------- one import after another

  lemma {:induction false} ReadSome<T>(s: Store<T>, sheet: Sheet, from: nat, upto: nat, i: nat)
    requires from <= i < upto && Key(sheet, i) in s && s[Key(sheet, i)].rows != []
    ensures Read(s, sheet, from, upto) != []
    decreases upto
  {
    if i < upto - 1 {
      ReadSome(s, sheet, from, upto - 1, i);
    }
  }

  lemma {:induction false} ReadNone<T>(s: Store<T>, sheet: Sheet, from: nat, upto: nat)
    requires Covers(s, sheet, from)
    ensures Read(s, sheet, from, upto) == []
    decreases upto
  {
    if from < upto {
      ReadNone(s, sheet, from, upto - 1);
      assert Key(sheet, upto - 1) !in s;
    }
  }

  /** Two imports of a sheet in a row, the first one into an empty store: the sheet
      then reads as exactly the rows of the second if and only if the second has at
      least as many chunks as the first. */
  lemma SecondImportReads<T>(sheet: Sheet, rows0: seq<T>, size0: nat, ws0: seq<Write>, rows: seq<T>, size: nat, ws: seq<Write>, n: nat)
    requires size0 > 0 && size > 0
    requires Delivers(ws0, Count(|rows0|, size0)) && Delivers(ws, Count(|rows|, size))
    requires n >= Count(|rows0|, size0) && n >= Count(|rows|, size)
    ensures Read(Stored(Stored(map[], sheet, rows0, size0, ws0), sheet, rows, size, ws), sheet, 0, n) == rows
       <==> Count(|rows0|, size0) <= Count(|rows|, size)
  {
    var c0, c := Count(|rows0|, size0), Count(|rows|, size);
    var s := Stored(map[], sheet, rows0, size0, ws0);
    ReadsExactlyWhenNothingIsLeft(s, sheet, rows, size, ws, n);
    DeliveredBound(map[], sheet, rows0, size0, ws0);
    if c0 <= c {
      ReadNone(s, sheet, c, n);
    } else {
      DeliveredChunk(map[], sheet, rows0, size0, ws0, c0 - 1);
      RangesTile(rows0, size0, c0 - 1);
      ReadSome(s, sheet, c, n, c0 - 1);
    }
  }

  /** Importing `n` + 1 rows and then only the first `n` of them, in chunks of one
      row, leaves the last row to be read, whatever the rows are. */
  lemma ShorterImportLeavesRow<T>(sheet: Sheet, rows: seq<T>, n: nat)
    requires |rows| == n + 1
    ensures var longer := Stored(map[], sheet, rows, 1, OnePass(0, n + 1));
      Delivers(OnePass(0, n + 1), Count(n + 1, 1)) && Delivers(OnePass(1, n), Count(n, 1))
        && Read(Stored(longer, sheet, rows[..n], 1, OnePass(1, n)), sheet, 0, n + 1) != rows[..n]
  {
    FullPassDelivers(0, n + 1);
    FullPassDelivers(1, n);
    SecondImportReads(sheet, rows, 1, OnePass(0, n + 1), rows[..n], 1, OnePass(1, n), n + 1);
  }

  /** Importing the same rows once more in fewer, larger chunks, as after a change of
      the configured size, reads wrong as well, whatever the rows and sizes are. */
  lemma LargerChunksLeaveRows<T>(sheet: Sheet, rows: seq<T>, size0: nat, size: nat)
    requires size0 > 0 && size > 0 && Count(|rows|, size) < Count(|rows|, size0)
    ensures var c0, c := Count(|rows|, size0), Count(|rows|, size);
      Delivers(OnePass(0, c0), c0) && Delivers(OnePass(1, c), c)
        && Read(Stored(Stored(map[], sheet, rows, size0, OnePass(0, c0)), sheet, rows, size, OnePass(1, c)), sheet, 0, c0) != rows
  {
    var c0, c := Count(|rows|, size0), Count(|rows|, size);
    OnePassInOrder(0, c0, c0);
    OnePassInOrder(1, c, c);
    SecondImportReads(sheet, rows, size0, OnePass(0, c0), rows, size, OnePass(1, c), c0);
  }

  /** For instance all rows in one chunk after chunks that held fewer of them. */
  lemma OneChunkIsFewer(n: nat, size0: nat)
    requires 0 < size0 < n
    ensures Count(n, n) < Count(n, size0)
  {
    CountBounds(n, n, 1);
    CountBounds(n, size0, 1);
  }

  lemma FullPassDelivers(p: nat, count: nat)
    ensures Delivers(OnePass(p, count), count) && Count(count, 1) == count
  {
    OnePassInOrder(p, count, count);
  }
}

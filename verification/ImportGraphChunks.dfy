/** Durable storage of a converted graph as numbered chunks of its nodes and of
    its relationships. */
module ImportGraphChunks {
  import opened Wrappers

  datatype Kind = NodeKind | RelationshipKind

  datatype Key = Key(importId: nat, kind: Kind, chunkIndex: nat)

  /** Some of the values, with the positions of the first and the last of them. */
  datatype Chunk<T> = Chunk(itemStart: int, itemEnd: int, items: seq<T>)

  type Store<T> = map<Key, Chunk<T>>

  /** The store without the chunks of one import. */
  function Deleted<T>(s: Store<T>, importId: nat): Store<T>
  {
    map k | k in s && k.importId != importId :: s[k]
  }

  /** The chunk of at most `size` values from `start` on. */
  function ChunkAt<T>(values: seq<T>, size: nat, start: nat): Chunk<T>
    requires start <= |values|
  {
    var items := values[start..Min(start + size, |values|)];
    Chunk(start, start + |items| - 1, items)
  }

  /** The values from `start` on, stored in chunks numbered from `chunkIndex`. */
  function Inserted<T>(s: Store<T>, importId: nat, kind: Kind, values: seq<T>, size: nat, start: nat, chunkIndex: nat): Store<T>
    requires size > 0
    decreases |values| - start
  {
    if start >= |values| then s else
      Inserted(s[Key(importId, kind, chunkIndex) := ChunkAt(values, size, start)],
               importId, kind, values, size, start + size, chunkIndex + 1)
  }

  function Replaced<T>(s: Store<T>, importId: nat, nodes: seq<T>, relationships: seq<T>, size: nat): Store<T>
    requires size > 0
  {
    Inserted(Inserted(Deleted(s, importId), importId, NodeKind, nodes, size, 0, 0),
             importId, RelationshipKind, relationships, size, 0, 0)
  }

  ghost function Later<T>(s: Store<T>, importId: nat, kind: Kind, from: nat): set<Key>
  {
    set k | k in s && k.importId == importId && k.kind == kind && k.chunkIndex >= from
  }

  lemma LaterShrinks<T>(s: Store<T>, importId: nat, kind: Kind, from: nat)
    requires Key(importId, kind, from) in s
    ensures |Later(s, importId, kind, from + 1)| < |Later(s, importId, kind, from)|
  {
    assert Later(s, importId, kind, from + 1) == Later(s, importId, kind, from) - {Key(importId, kind, from)};
  }

  /** Everything a reader is given from chunk `from` until a number is missing. */
  function ReadFrom<T>(s: Store<T>, importId: nat, kind: Kind, from: nat): seq<T>
    decreases |Later(s, importId, kind, from)|
  {
    if Key(importId, kind, from) !in s then [] else
      LaterShrinks(s, importId, kind, from);
      s[Key(importId, kind, from)].items + ReadFrom(s, importId, kind, from + 1)
  }

  class GraphChunkStore<T> {
    var chunks: Store<T>

    constructor ()
      ensures chunks == map[]
    {
      chunks := map[];
    }

    method Insert(importId: nat, kind: Kind, values: seq<T>, size: nat)
      requires size > 0
      modifies this
      ensures chunks == Inserted(old(chunks), importId, kind, values, size, 0, 0)
    {
      var start, chunkIndex := 0, 0;
      while start < |values|
        invariant Inserted(chunks, importId, kind, values, size, start, chunkIndex)
               == Inserted(old(chunks), importId, kind, values, size, 0, 0)
      {
        var items := values[start..Min(start + size, |values|)];
        chunks := chunks[Key(importId, kind, chunkIndex) := Chunk(start, start + |items| - 1, items)];
        start, chunkIndex := start + size, chunkIndex + 1;
      }
    }

    /** Replaces the stored graph of an import in one transaction. */
    method Replace(importId: nat, nodes: seq<T>, relationships: seq<T>, size: nat)
      requires size > 0
      modifies this
      ensures chunks == Replaced(old(chunks), importId, nodes, relationships, size)
    {
      chunks := map k | k in chunks && k.importId != importId :: chunks[k];
      Insert(importId, NodeKind, nodes, size);
      Insert(importId, RelationshipKind, relationships, size);
    }

    method ReadKind(importId: nat, kind: Kind) returns (values: seq<T>)
      ensures values == ReadFrom(chunks, importId, kind, 0)
    {
      var chunkIndex := 0;
      values := [];
      while Key(importId, kind, chunkIndex) in chunks
        invariant values + ReadFrom(chunks, importId, kind, chunkIndex) == ReadFrom(chunks, importId, kind, 0)
        decreases |Later(chunks, importId, kind, chunkIndex)|
      {
        LaterShrinks(chunks, importId, kind, chunkIndex);
        var items := chunks[Key(importId, kind, chunkIndex)].items;
        assert values + (items + ReadFrom(chunks, importId, kind, chunkIndex + 1))
            == (values + items) + ReadFrom(chunks, importId, kind, chunkIndex + 1);
        values := values + items;
        chunkIndex := chunkIndex + 1;
      }
      assert values + [] == values;
    }

    method Load(importId: nat) returns (nodes: seq<T>, links: seq<T>)
      ensures nodes == ReadFrom(chunks, importId, NodeKind, 0)
      ensures links == ReadFrom(chunks, importId, RelationshipKind, 0)
    {
      nodes := ReadKind(importId, NodeKind);
      links := ReadKind(importId, RelationshipKind);
    }
  }

  // ------------------------------------------------------------- round trip

  /** Inserting touches only chunks of its own kind from its first number on. */
  lemma {:induction false} InsertedElsewhere<T>(s: Store<T>, importId: nat, kind: Kind, values: seq<T>, size: nat,
                                                start: nat, chunkIndex: nat, k: Key)
    requires size > 0 && (k.importId != importId || k.kind != kind || k.chunkIndex < chunkIndex)
    ensures k in Inserted(s, importId, kind, values, size, start, chunkIndex) <==> k in s
    ensures k in s ==> Inserted(s, importId, kind, values, size, start, chunkIndex)[k] == s[k]
    decreases |values| - start
  {
    if start < |values| {
      InsertedElsewhere(s[Key(importId, kind, chunkIndex) := ChunkAt(values, size, start)], importId, kind, values, size, start + size, chunkIndex + 1, k);
    }
  }

  ghost predicate NoneFrom<T>(s: Store<T>, importId: nat, kind: Kind, from: nat)
  {
    forall i: nat :: i >= from ==> Key(importId, kind, i) !in s
  }

  lemma {:induction false} InsertedReads<T>(s: Store<T>, importId: nat, kind: Kind, values: seq<T>, size: nat, start: nat, chunkIndex: nat)
    requires size > 0 && NoneFrom(s, importId, kind, chunkIndex)
    ensures ReadFrom(Inserted(s, importId, kind, values, size, start, chunkIndex), importId, kind, chunkIndex)
         == if start < |values| then values[start..] else []
    decreases |values| - start
  {
    if start < |values| {
      var key := Key(importId, kind, chunkIndex);
      var items := values[start..Min(start + size, |values|)];
      var s1 := s[key := ChunkAt(values, size, start)];
      var s2 := Inserted(s1, importId, kind, values, size, start + size, chunkIndex + 1);
      InsertedReads(s1, importId, kind, values, size, start + size, chunkIndex + 1);
      InsertedElsewhere(s1, importId, kind, values, size, start + size, chunkIndex + 1, key);
      assert ReadFrom(s2, importId, kind, chunkIndex) == items + ReadFrom(s2, importId, kind, chunkIndex + 1);
      SliceRest(values, start, size);
    }
  }

  /** Chunk `i` of the values holds those from position `i * size` on, at most `size`
      of them, and says which; there is a chunk as long as such a position exists. */
  ghost predicate StoredInSlices<T>(s: Store<T>, importId: nat, kind: Kind, values: seq<T>, size: nat)
  {
    forall i: nat ::
      && (Key(importId, kind, i) in s <==> i * size < |values|)
      && (i * size < |values| ==>
            && s[Key(importId, kind, i)].items == values[i * size..Min(i * size + size, |values|)]
            && s[Key(importId, kind, i)].itemStart == i * size
            && s[Key(importId, kind, i)].itemEnd == Min(i * size + size, |values|) - 1)
  }

  lemma Steps(chunkIndex: nat, i: nat, size: nat)
    requires size > 0
    ensures (chunkIndex + 1) * size == chunkIndex * size + size
    ensures chunkIndex <= i ==> chunkIndex * size <= i * size
  {
  }

  lemma {:induction false} InsertedChunk<T>(s: Store<T>, importId: nat, kind: Kind, values: seq<T>, size: nat, start: nat, chunkIndex: nat, i: nat)
    requires size > 0 && start == chunkIndex * size && chunkIndex <= i && NoneFrom(s, importId, kind, chunkIndex)
    ensures var r := Inserted(s, importId, kind, values, size, start, chunkIndex);
      && (Key(importId, kind, i) in r <==> i * size < |values|)
      && (i * size < |values| ==> r[Key(importId, kind, i)] == ChunkAt(values, size, i * size))
    decreases |values| - start
  {
    Steps(chunkIndex, i, size);
    if start < |values| {
      var key := Key(importId, kind, chunkIndex);
      var s1 := s[key := ChunkAt(values, size, start)];
      if i == chunkIndex {
        InsertedElsewhere(s1, importId, kind, values, size, start + size, chunkIndex + 1, key);
      } else {
        InsertedChunk(s1, importId, kind, values, size, start + size, chunkIndex + 1, i);
      }
    }
  }

  lemma InsertedInSlices<T>(s: Store<T>, importId: nat, kind: Kind, values: seq<T>, size: nat)
    requires size > 0 && NoneFrom(s, importId, kind, 0)
    ensures StoredInSlices(Inserted(s, importId, kind, values, size, 0, 0), importId, kind, values, size)
  {
    var r := Inserted(s, importId, kind, values, size, 0, 0);
    forall i: nat
      ensures Key(importId, kind, i) in r <==> i * size < |values|
      ensures i * size < |values| ==> r[Key(importId, kind, i)] == ChunkAt(values, size, i * size)
    {
      InsertedChunk(s, importId, kind, values, size, 0, 0, i);
    }
  }

  /** What a replacement stores, chunk by chunk. */
  lemma ReplacedInSlices<T>(s: Store<T>, importId: nat, nodes: seq<T>, relationships: seq<T>, size: nat)
    requires size > 0
    ensures StoredInSlices(Replaced(s, importId, nodes, relationships, size), importId, NodeKind, nodes, size)
    ensures StoredInSlices(Replaced(s, importId, nodes, relationships, size), importId, RelationshipKind, relationships, size)
  {
    var s0 := Deleted(s, importId);
    var s1 := Inserted(s0, importId, NodeKind, nodes, size, 0, 0);
    InsertedInSlices(s0, importId, NodeKind, nodes, size);
    InsertKeeps(s0, importId, NodeKind, nodes, size, importId, RelationshipKind);
    InsertedInSlices(s1, importId, RelationshipKind, relationships, size);
    InsertKeeps(s1, importId, RelationshipKind, relationships, size, importId, NodeKind);
  }

  lemma SliceRest<T>(values: seq<T>, start: nat, size: nat)
    requires start < |values|
    ensures values[start..] ==
      values[start..Min(start + size, |values|)] + (if start + size < |values| then values[start + size..] else [])
  {
  }

  ghost predicate SameChunks<T>(s: Store<T>, s': Store<T>, importId: nat, kind: Kind)
  {
    && (forall i: nat :: Key(importId, kind, i) in s <==> Key(importId, kind, i) in s')
    && (forall i: nat :: Key(importId, kind, i) in s ==> s[Key(importId, kind, i)] == s'[Key(importId, kind, i)])
  }

  lemma {:induction false} ReadSame<T>(s: Store<T>, s': Store<T>, importId: nat, kind: Kind, from: nat)
    requires SameChunks(s, s', importId, kind)
    ensures ReadFrom(s, importId, kind, from) == ReadFrom(s', importId, kind, from)
    decreases |Later(s, importId, kind, from)|
  {
    if Key(importId, kind, from) in s {
      LaterShrinks(s, importId, kind, from);
      ReadSame(s, s', importId, kind, from + 1);
    }
  }

  lemma InsertKeeps<T>(s: Store<T>, importId: nat, kind: Kind, values: seq<T>, size: nat, other: nat, otherKind: Kind)
    requires size > 0 && (other != importId || otherKind != kind)
    ensures SameChunks(s, Inserted(s, importId, kind, values, size, 0, 0), other, otherKind)
  {
    var s' := Inserted(s, importId, kind, values, size, 0, 0);
    forall i: nat
      ensures Key(other, otherKind, i) in s <==> Key(other, otherKind, i) in s'
      ensures Key(other, otherKind, i) in s ==> s[Key(other, otherKind, i)] == s'[Key(other, otherKind, i)]
    {
      InsertedElsewhere(s, importId, kind, values, size, 0, 0, Key(other, otherKind, i));
    }
  }

  /** A stored graph is loaded back complete and in order, whatever the store held
      before and whatever the chunk size. */
  lemma ReplaceThenLoad<T>(s: Store<T>, importId: nat, nodes: seq<T>, relationships: seq<T>, size: nat)
    requires size > 0
    ensures ReadFrom(Replaced(s, importId, nodes, relationships, size), importId, NodeKind, 0) == nodes
    ensures ReadFrom(Replaced(s, importId, nodes, relationships, size), importId, RelationshipKind, 0) == relationships
  {
    var s0 := Deleted(s, importId);
    var s1 := Inserted(s0, importId, NodeKind, nodes, size, 0, 0);
    var s2 := Inserted(s1, importId, RelationshipKind, relationships, size, 0, 0);
    InsertedReads(s0, importId, NodeKind, nodes, size, 0, 0);
    InsertKeeps(s0, importId, NodeKind, nodes, size, importId, RelationshipKind);
    InsertedReads(s1, importId, RelationshipKind, relationships, size, 0, 0);
    InsertKeeps(s1, importId, RelationshipKind, relationships, size, importId, NodeKind);
    ReadSame(s1, s2, importId, NodeKind, 0);
  }

  /** Replacing one import's graph leaves every other import's graph as it was. */
  lemma ReplaceKeepsOthers<T>(s: Store<T>, importId: nat, nodes: seq<T>, relationships: seq<T>, size: nat, other: nat, kind: Kind)
    requires size > 0 && other != importId
    ensures ReadFrom(Replaced(s, importId, nodes, relationships, size), other, kind, 0) == ReadFrom(s, other, kind, 0)
  {
    var s0 := Deleted(s, importId);
    var s1 := Inserted(s0, importId, NodeKind, nodes, size, 0, 0);
    InsertKeeps(s0, importId, NodeKind, nodes, size, other, kind);
    InsertKeeps(s1, importId, RelationshipKind, relationships, size, other, kind);
    ReadSame(s, s0, other, kind, 0);
    ReadSame(s0, s1, other, kind, 0);
    ReadSame(s1, Replaced(s, importId, nodes, relationships, size), other, kind, 0);
  }
}

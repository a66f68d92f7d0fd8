/** The workspace: a Python dict from string keys to artifacts, in insertion
    order, that the steps read and write. */
module Workspace {
  import opened Exceptions
  import opened Signals

  /** `[chunk_a, chunk_b]`, one element of a pair list. */
  datatype ChunkPair = ChunkPair(a: TimeSeries, b: TimeSeries)

  /** The kinds of value a workspace holds. */
  datatype Artifact =
    | Series(ts: TimeSeries)
    | Chunked(cts: ChunkedTimeSeries)
    | Array(arr: NdArray)
    | PairList(pairs: seq<ChunkPair>)
    /** Any other Python object: not a TimeSeries and not an ndarray. */
    | Other

  /** The value of a dict: its keys in insertion order and its entries. */
  datatype Dict = Dict(order: seq<string>, entries: map<string, Artifact>) {

    ghost predicate Valid()
    {
      && (forall k :: k in entries <==> k in order)
      && (forall i, j :: 0 <= i < j < |order| ==> order[i] != order[j])
    }

    /** `d[k] = v`: a new key goes last, an existing key keeps its place. */
    function Put(k: string, v: Artifact): Dict
    {
      Dict(if k in entries then order else order + [k], entries[k := v])
    }

    /** `d.get(k)`. */
    function Get(k: string): Option<Artifact>
    {
      if k in entries then Some(entries[k]) else None
    }

    /** `d.update(writes)` item by item. */
    function PutAll(writes: seq<(string, Artifact)>): (d: Dict)
      decreases |writes|
    {
      if |writes| == 0 then this
      else Put(writes[0].0, writes[0].1).PutAll(writes[1..])
    }
  }

  /** After `d[k] = v`, `d.get(k)` is v, every other key reads as before, and
      a later assignment to k overrides this one. */
  lemma PutGet(d: Dict, k: string, v: Artifact, w: Artifact)
    ensures d.Put(k, v).Get(k) == Some(v)
    ensures forall k2 :: k2 != k ==> d.Put(k, v).Get(k2) == d.Get(k2)
    ensures d.Put(k, v).Put(k, w) == d.Put(k, w)
    ensures k in d.entries ==> d.Put(k, v).order == d.order
    ensures k !in d.entries ==> d.Put(k, v).order == d.order + [k]
  {
  }

  lemma PutValid(d: Dict, k: string, v: Artifact)
    requires d.Valid()
    ensures d.Put(k, v).Valid()
  {
    var d' := d.Put(k, v);
    if k !in d.entries {
      forall i, j | 0 <= i < j < |d'.order|
        ensures d'.order[i] != d'.order[j]
      {
        if j == |d.order| {
          assert d.order[i] in d.entries;
        }
      }
    }
  }

  /** Writing keeps the dict well formed; the written keys map to their last
      written value and every other key keeps its value. */
  lemma PutAllEffect(d: Dict, writes: seq<(string, Artifact)>)
    requires d.Valid()
    ensures d.PutAll(writes).Valid()
    ensures d.PutAll(writes).entries.Keys == d.entries.Keys + set w | w in writes :: w.0
    ensures forall k :: k in d.entries && (forall w :: w in writes ==> w.0 != k) ==>
              d.PutAll(writes).entries[k] == d.entries[k]
  {
    PutAllValid(d, writes);
    PutAllKeys(d, writes);
    PutAllKeeps(d, writes);
  }

  lemma {:induction false} PutAllValid(d: Dict, writes: seq<(string, Artifact)>)
    requires d.Valid()
    ensures d.PutAll(writes).Valid()
    decreases |writes|
  {
    if |writes| > 0 {
      PutValid(d, writes[0].0, writes[0].1);
      PutAllValid(d.Put(writes[0].0, writes[0].1), writes[1..]);
    }
  }

  lemma {:induction false} PutAllKeys(d: Dict, writes: seq<(string, Artifact)>)
    ensures d.PutAll(writes).entries.Keys == d.entries.Keys + set w | w in writes :: w.0
    decreases |writes|
  {
    if |writes| > 0 {
      PutAllKeys(d.Put(writes[0].0, writes[0].1), writes[1..]);
      WrittenKeysStep(writes);
    }
  }

  lemma WrittenKeysStep(writes: seq<(string, Artifact)>)
    requires |writes| > 0
    ensures (set w | w in writes :: w.0) == {writes[0].0} + set w | w in writes[1..] :: w.0
  {
    assert forall w :: w in writes <==> w == writes[0] || w in writes[1..];
  }

  lemma {:induction false} PutAllKeeps(d: Dict, writes: seq<(string, Artifact)>)
    ensures forall k :: k in d.entries && (forall w :: w in writes ==> w.0 != k) ==>
              k in d.PutAll(writes).entries && d.PutAll(writes).entries[k] == d.entries[k]
    decreases |writes|
  {
    if |writes| > 0 {
      PutAllKeeps(d.Put(writes[0].0, writes[0].1), writes[1..]);
      assert forall w :: w in writes[1..] ==> w in writes;
    }
  }

  /** Writing a list and then one more item is writing the longer list. */
  lemma {:induction false} PutAllAppend(d: Dict, writes: seq<(string, Artifact)>, w: (string, Artifact))
    ensures d.PutAll(writes + [w]) == d.PutAll(writes).Put(w.0, w.1)
    decreases |writes|
  {
    if |writes| > 0 {
      assert (writes + [w])[1..] == writes[1..] + [w];
      PutAllAppend(d.Put(writes[0].0, writes[0].1), writes[1..], w);
    } else {
      assert ([] + [w])[1..] == [];
    }
  }

  /** The workspace object that the runner and the steps share and mutate. */
  class Workspace {
    var order: seq<string>
    var entries: map<string, Artifact>

    constructor (d: Dict)
      ensures Snapshot() == d
    {
      order, entries := d.order, d.entries;
    }

    function Snapshot(): Dict
      reads this
    {
      Dict(order, entries)
    }

    method Put(k: string, v: Artifact)
      modifies this
      ensures Snapshot() == old(Snapshot()).Put(k, v)
    {
      if k !in entries {
        order := order + [k];
      }
      entries := entries[k := v];
    }

    method PutAll(writes: seq<(string, Artifact)>)
      modifies this
      ensures Snapshot() == old(Snapshot()).PutAll(writes)
    {
      var i := 0;
      while i < |writes|
        invariant i <= |writes|
        invariant Snapshot().PutAll(writes[i..]) == old(Snapshot()).PutAll(writes)
      {
        assert writes[i..][1..] == writes[i + 1..];
        Put(writes[i].0, writes[i].1);
        i := i + 1;
      }
    }
  }
}

/** A keyed registry that remembers the order in which keys were first
    inserted. It models the engine's `Dictionary<string, T>` registries:
    lookups by key, and enumeration of `Values` in insertion order (which
    decides "the first matching track" for spawning and "the first offending
    track" for the safety monitor). Overwriting an existing key keeps its
    position, as the dictionary's indexer does. */
module Registries {
  import opened Base

  datatype Registry<V> = Registry(keys: seq<string>, entries: map<string, V>) {

    /** Keys are distinct and are exactly the keys of the map. */
    ghost predicate Valid() {
      && (forall i, j :: 0 <= i < j < |keys| ==> keys[i] != keys[j])
      && (forall k :: k in entries <==> k in keys)
    }

    function Get(k: string): (r: Option<V>)
      ensures r.Some? <==> k in entries
      ensures r.Some? ==> r.value == entries[k]
    {
      if k in entries then Some(entries[k]) else None
    }

    /** Indexer assignment `d[k] = v`: insert or overwrite. */
    function Put(k: string, v: V): (r: Registry<V>)
      requires Valid()
      ensures r.Valid()
      ensures r.entries == entries[k := v]
      ensures k in entries ==> r.keys == keys
      ensures k !in entries ==> r.keys == keys + [k]
    {
      if k in entries then Registry(keys, entries[k := v])
      else Registry(keys + [k], entries[k := v])
    }

    /** `if (!d.ContainsKey(k)) d[k] = v`: the first value stored wins. */
    function PutIfAbsent(k: string, v: V): (r: Registry<V>)
      requires Valid()
      ensures r.Valid()
      ensures k in entries ==> r == this
      ensures k !in entries ==> r.entries == entries[k := v] && r.keys == keys + [k]
    {
      if k in entries then this else Put(k, v)
    }

    /** Replaces the value of an existing key; position and key set unchanged. */
    function Update(k: string, v: V): (r: Registry<V>)
      requires k in entries
      ensures r.keys == keys
      ensures r.entries == entries[k := v]
      ensures Valid() ==> r.Valid()
    {
      Registry(keys, entries[k := v])
    }

    /** The values in enumeration order. */
    function Values(): (vs: seq<V>)
      requires Valid()
      ensures |vs| == |keys|
      ensures forall i :: 0 <= i < |keys| ==> vs[i] == entries[keys[i]]
    {
      seq(|keys|, i requires 0 <= i < |keys| => entries[keys[i]])
    }
  }

  function EmptyRegistry<V>(): (r: Registry<V>)
    ensures r.Valid()
    ensures r.entries == map[] && r.keys == []
  {
    Registry([], map[])
  }

  /** `kvs[i]` is the last pair with its key. */
  ghost predicate IsLastOccurrence<V>(kvs: seq<(string, V)>, i: int) {
    0 <= i < |kvs| && forall j :: i < j < |kvs| ==> kvs[j].0 != kvs[i].0
  }

  /** `kvs[i]` is the first pair with its key. */
  ghost predicate IsFirstOccurrence<V>(kvs: seq<(string, V)>, i: int) {
    0 <= i < |kvs| && forall j :: 0 <= j < i ==> kvs[j].0 != kvs[i].0
  }

  ghost predicate HasKey<V>(kvs: seq<(string, V)>, k: string) {
    exists i :: 0 <= i < |kvs| && kvs[i].0 == k
  }

  lemma HasKeyCons<V>(kvs: seq<(string, V)>)
    requires |kvs| > 0
    ensures forall k :: HasKey(kvs, k) <==> k == kvs[0].0 || HasKey(kvs[1..], k)
  {
    forall k | HasKey(kvs[1..], k) ensures HasKey(kvs, k) {
      var i :| 0 <= i < |kvs[1..]| && kvs[1..][i].0 == k;
      assert kvs[i + 1].0 == k;
    }
    forall k | HasKey(kvs, k) && k != kvs[0].0 ensures HasKey(kvs[1..], k) {
      var i :| 0 <= i < |kvs| && kvs[i].0 == k;
      assert i > 0 && kvs[1..][i - 1].0 == k;
    }
    assert HasKey(kvs, kvs[0].0);
  }

  /** The keys a batch of insertions appends to the enumeration order: the
      keys of `kvs` not among `known`, each once, in order of first
      occurrence. */
  function NewKeys<V>(known: seq<string>, kvs: seq<(string, V)>): seq<string>
    decreases |kvs|
  {
    if |kvs| == 0 then []
    else if kvs[0].0 in known then NewKeys(known, kvs[1..])
    else [kvs[0].0] + NewKeys(known + [kvs[0].0], kvs[1..])
  }

  /** Inserting the first pair and then the rest appends the same keys as
      the whole batch. */
  lemma NewKeysStep<V, W>(r: Registry<V>, keys1: seq<string>, kvs: seq<(string, W)>)
    requires r.Valid() && |kvs| > 0
    requires keys1 == if kvs[0].0 in r.entries then r.keys else r.keys + [kvs[0].0]
    ensures keys1 + NewKeys(keys1, kvs[1..]) == r.keys + NewKeys(r.keys, kvs)
  {
    if kvs[0].0 !in r.entries {
      assert kvs[0].0 !in r.keys;
      assert keys1 + NewKeys(keys1, kvs[1..]) == r.keys + ([kvs[0].0] + NewKeys(keys1, kvs[1..]));
    }
  }

  /** Stores every pair in order with `Put`: for a repeated key the last
      value stays, at the position of the first insertion (see
      `PutAllLastWins`). */
  function PutAll<V>(r: Registry<V>, kvs: seq<(string, V)>): (res: Registry<V>)
    requires r.Valid()
    ensures res.Valid()
    ensures res.keys == r.keys + NewKeys(r.keys, kvs)
    ensures forall k :: k in res.entries <==> k in r.entries || HasKey(kvs, k)
    ensures forall k :: k in r.entries && !HasKey(kvs, k) ==> res.entries[k] == r.entries[k]
    decreases |kvs|
  {
    if |kvs| == 0 then r
    else
      HasKeyCons(kvs);
      var r1 := r.Put(kvs[0].0, kvs[0].1);
      var res := PutAll(r1, kvs[1..]);
      NewKeysStep(r, r1.keys, kvs);
      res
  }

  /** The value stored for a key is the one of its last pair. */
  lemma {:induction false} PutAllLastWins<V>(r: Registry<V>, kvs: seq<(string, V)>, i: int)
    requires r.Valid() && IsLastOccurrence(kvs, i)
    ensures kvs[i].0 in PutAll(r, kvs).entries
    ensures PutAll(r, kvs).entries[kvs[i].0] == kvs[i].1
    decreases |kvs|
  {
    HasKeyCons(kvs);
    var r1 := r.Put(kvs[0].0, kvs[0].1);
    if i == 0 {
      assert forall j :: 0 <= j < |kvs[1..]| ==> kvs[1..][j].0 != kvs[0].0 by {
        forall j | 0 <= j < |kvs[1..]| ensures kvs[1..][j].0 != kvs[0].0 {
          assert kvs[1..][j] == kvs[j + 1];
        }
      }
      assert !HasKey(kvs[1..], kvs[0].0);
    } else {
      assert kvs[1..][i - 1] == kvs[i];
      assert IsLastOccurrence(kvs[1..], i - 1);
      PutAllLastWins(r1, kvs[1..], i - 1);
    }
  }

  /** Stores every pair in order with `PutIfAbsent`: keys already present
      keep their value, and for a repeated key the first value stays (see
      `PutAllIfAbsentFirstWins`). */
  function PutAllIfAbsent<V>(r: Registry<V>, kvs: seq<(string, V)>): (res: Registry<V>)
    requires r.Valid()
    ensures res.Valid()
    ensures res.keys == r.keys + NewKeys(r.keys, kvs)
    ensures forall k :: k in res.entries <==> k in r.entries || HasKey(kvs, k)
    ensures forall k :: k in r.entries ==> res.entries[k] == r.entries[k]
    decreases |kvs|
  {
    if |kvs| == 0 then r
    else
      HasKeyCons(kvs);
      var r1 := r.PutIfAbsent(kvs[0].0, kvs[0].1);
      var res := PutAllIfAbsent(r1, kvs[1..]);
      NewKeysStep(r, r1.keys, kvs);
      res
  }

  /** The value stored for a new key is the one of its first pair. */
  lemma {:induction false} PutAllIfAbsentFirstWins<V>(r: Registry<V>, kvs: seq<(string, V)>, i: int)
    requires r.Valid() && IsFirstOccurrence(kvs, i) && kvs[i].0 !in r.entries
    ensures kvs[i].0 in PutAllIfAbsent(r, kvs).entries
    ensures PutAllIfAbsent(r, kvs).entries[kvs[i].0] == kvs[i].1
    decreases |kvs|
  {
    var r1 := r.PutIfAbsent(kvs[0].0, kvs[0].1);
    if i > 0 {
      assert kvs[1..][i - 1] == kvs[i];
      assert IsFirstOccurrence(kvs[1..], i - 1);
      PutAllIfAbsentFirstWins(r1, kvs[1..], i - 1);
    }
  }
}

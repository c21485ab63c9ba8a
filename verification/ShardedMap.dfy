// The worker's concurrent map: 32 shards keyed by FNV-1, each with its own map
// and lock. One lock-protected section is one atomic step, so each method is
// described by what it does to the one plain map that the shards make up.
module ShardedMap {
  import opened Wrappers

  const SHARD_COUNT := 32

  const FNV_OFFSET: bv32 := 2166136261
  const FNV_PRIME: bv32 := 16777619

  function Byte(c: char): bv32 { (c as int % 256) as bv32 }

  function Mix(hash: bv32, b: bv32): bv32 { (hash * FNV_PRIME) ^ b }

  /** FNV-1 over the bytes of the key. */
  function Fnv(key: string): bv32
  {
    if key == "" then FNV_OFFSET
    else
      var n := |key| - 1;
      Mix(Fnv(key[..n]), Byte(key[n]))
  }

  /** The only shard in which the key may live. */
  function ShardOf(key: string): (i: nat)
    ensures i < SHARD_COUNT
  {
    Fnv(key) as int % SHARD_COUNT
  }

  /** The hash is FNV-1 of 32 bits: its values of some short keys. */
  lemma KnownHashes()
    ensures Fnv("") == 0x811c9dc5 && Fnv("a") == 0x050c5d7e && Fnv("b") == 0x050c5d7d
    ensures ShardOf("") == 0x811c9dc5 % 32 && ShardOf("a") == 0x050c5d7e % 32
  {
    var a, b := "a", "b";
    assert a[..0] == "" && b[..0] == "";
    assert Byte('a') == 97 && Byte('b') == 98;
    assert Fnv("") * 16777619 == 0x050c5d1f;
    assert (0x050c5d1f as bv32) ^ 97 == 0x050c5d7e && (0x050c5d1f as bv32) ^ 98 == 0x050c5d7d;
  }

  method Fnv32(key: string) returns (hash: bv32)
    ensures hash == Fnv(key)
  {
    hash := FNV_OFFSET;
    for i := 0 to |key|
      invariant hash == Fnv(key[..i])
    {
      assert key[..i + 1][..i] == key[..i];
      hash := Stir(hash, Byte(key[i]));
    }
    assert key[..|key|] == key;
  }

  /** The body of the hash loop: multiply, then exclusive or. */
  method Stir(hash: bv32, b: bv32) returns (stirred: bv32)
    ensures stirred == Mix(hash, b)
  {
    stirred := hash * FNV_PRIME;
    stirred := stirred ^ b;
  }

  // ---- a sequence of shard contents as one map -------------------------

  ghost predicate Placed<V>(ms: seq<map<string, V>>)
  {
    forall i, k :: 0 <= i < |ms| && k in ms[i] ==> ShardOf(k) == i
  }

  ghost function Merged<V>(ms: seq<map<string, V>>): map<string, V>
  {
    if ms == [] then map[] else Merged(ms[..|ms| - 1]) + ms[|ms| - 1]
  }

  ghost function Total<V>(ms: seq<map<string, V>>): nat
  {
    if ms == [] then 0 else Total(ms[..|ms| - 1]) + |ms[|ms| - 1]|
  }

  /** Looking a key up in its own shard is looking it up in the union. */
  lemma {:induction false} MergedLookup<V>(ms: seq<map<string, V>>, k: string)
    requires Placed(ms)
    ensures k in Merged(ms) <==> ShardOf(k) < |ms| && k in ms[ShardOf(k)]
    ensures k in Merged(ms) ==> Merged(ms)[k] == ms[ShardOf(k)][k]
  {
    if ms != [] {
      MergedLookup(ms[..|ms| - 1], k);
    }
  }

  lemma EarlierShards<V>(ms: seq<map<string, V>>, i: nat)
    requires Placed(ms) && i < |ms|
    ensures Merged(ms[..i]).Keys !! ms[i].Keys
    ensures Merged(ms[..i + 1]) == Merged(ms[..i]) + ms[i]
  {
    assert ms[..i + 1][..i] == ms[..i];
    forall k | k in Merged(ms[..i]) ensures k !in ms[i] {
      MergedLookup(ms[..i], k);
    }
  }

  /** Shards are disjoint, so their sizes add up to the size of the union. */
  lemma {:induction false} MergedCount<V>(ms: seq<map<string, V>>)
    requires Placed(ms)
    ensures |Merged(ms)| == Total(ms)
  {
    if ms != [] {
      var front, last := ms[..|ms| - 1], ms[|ms| - 1];
      MergedCount(front);
      forall k | k in Merged(front) ensures k !in last {
        MergedLookup(front, k);
      }
      assert Merged(ms).Keys == Merged(front).Keys + last.Keys;
      assert |Merged(ms).Keys| == |Merged(front).Keys| + |last.Keys|;
    }
  }

  /** Changing one key in its shard changes that key alone in the union. */
  lemma MergedChange<V>(ms: seq<map<string, V>>, k: string, changed: map<string, V>)
    requires Placed(ms) && |ms| == SHARD_COUNT
    requires forall j :: j != k ==> (j in changed <==> j in ms[ShardOf(k)])
    requires forall j :: j != k && j in changed ==> changed[j] == ms[ShardOf(k)][j]
    ensures Placed(ms[ShardOf(k) := changed])
    ensures k in changed ==> Merged(ms[ShardOf(k) := changed]) == Merged(ms)[k := changed[k]]
    ensures k !in changed ==> Merged(ms[ShardOf(k) := changed]) == Merged(ms) - {k}
  {
    var after := ms[ShardOf(k) := changed];
    assert Placed(after);
    forall j
      ensures j in Merged(after) <==> (if j == k then k in changed else j in Merged(ms))
      ensures j in Merged(after) ==> Merged(after)[j] == if j == k then changed[k] else Merged(ms)[j]
    {
      MergedLookup(ms, j);
      MergedLookup(after, j);
    }
  }

  // ---- listings of a map -----------------------------------------------

  /** Storing the listed entries one after the other into an empty map. */
  function Collect<V>(entries: seq<(string, V)>): map<string, V>
  {
    if entries == [] then map[]
    else
      var n := |entries| - 1;
      Collect(entries[..n])[entries[n].0 := entries[n].1]
  }

  /** entries lists exactly the entries of m, each once. */
  ghost predicate Lists<V>(entries: seq<(string, V)>, m: map<string, V>)
  {
    Collect(entries) == m && |entries| == |m|
  }

  lemma ListsOneMore<V>(entries: seq<(string, V)>, m: map<string, V>, key: string, value: V)
    requires Lists(entries, m) && key !in m
    ensures Lists(entries + [(key, value)], m[key := value])
  {
    assert (entries + [(key, value)])[..|entries|] == entries;
    assert m[key := value].Keys == m.Keys + {key};
  }

  lemma {:induction false} CollectSize<V>(entries: seq<(string, V)>)
    ensures |Collect(entries)| <= |entries|
    ensures forall i :: 0 <= i < |entries| ==> entries[i].0 in Collect(entries)
  {
    if entries != [] {
      var n := |entries| - 1;
      CollectSize(entries[..n]);
      assert Collect(entries).Keys == Collect(entries[..n]).Keys + {entries[n].0};
    }
  }

  lemma {:induction false} CollectedFrom<V>(entries: seq<(string, V)>, k: string)
    requires k in Collect(entries)
    ensures (k, Collect(entries)[k]) in entries
  {
    var n := |entries| - 1;
    if k == entries[n].0 {
      assert entries[n] == (k, Collect(entries)[k]);
    } else {
      CollectedFrom(entries[..n], k);
    }
  }

  lemma MoveOne<V>(before: map<string, V>, items: map<string, V>, todo: set<string>, key: string)
    requires key in todo && todo <= items.Keys
    ensures key !in before ==> key !in before + (items - todo)
    ensures before + (items - (todo - {key})) == (before + (items - todo))[key := items[key]]
  {}

  lemma NoneMoved<V>(before: map<string, V>, items: map<string, V>)
    ensures before + (items - items.Keys) == before
  {}

  lemma AllMoved<V>(before: map<string, V>, items: map<string, V>)
    ensures before + (items - {}) == before + items
  {}

  lemma FullSizeLast<V>(entries: seq<(string, V)>)
    requires entries != [] && |Collect(entries)| == |entries|
    ensures var front, last := entries[..|entries| - 1], entries[|entries| - 1];
            |Collect(front)| == |front| && last.0 !in Collect(front) && Collect(entries) == Collect(front)[last.0 := last.1]
  {
    var front, last := entries[..|entries| - 1], entries[|entries| - 1];
    CollectSize(front);
    assert Collect(entries).Keys == Collect(front).Keys + {last.0};
    assert last.0 in Collect(front) ==> Collect(front).Keys + {last.0} == Collect(front).Keys;
  }

  lemma {:induction false} ListsNoKeyTwice<V>(entries: seq<(string, V)>)
    requires |Collect(entries)| == |entries|
    ensures forall i, j :: 0 <= i < j < |entries| ==> entries[i].0 != entries[j].0
  {
    if entries != [] {
      var n := |entries| - 1;
      var front := entries[..n];
      FullSizeLast(entries);
      ListsNoKeyTwice(front);
      CollectSize(front);
      forall i | 0 <= i < n ensures entries[i].0 != entries[n].0 {
        assert front[i].0 in Collect(front);
      }
    }
  }

  /** What a listing is: no key twice, and exactly the entries of the map. */
  lemma {:induction false} ListsExactly<V>(entries: seq<(string, V)>, m: map<string, V>)
    requires Lists(entries, m)
    ensures forall i, j :: 0 <= i < j < |entries| ==> entries[i].0 != entries[j].0
    ensures forall e :: e in entries <==> e.0 in m && m[e.0] == e.1
  {
    ListsNoKeyTwice(entries);
    CollectSize(entries);
    forall e | e in entries ensures e.0 in m && m[e.0] == e.1 {
      ListedValue(entries, e);
    }
    forall e: (string, V) | e.0 in m && m[e.0] == e.1 ensures e in entries {
      CollectedFrom(entries, e.0);
    }
  }

  lemma {:induction false} ListedValue<V>(entries: seq<(string, V)>, e: (string, V))
    requires |Collect(entries)| == |entries| && e in entries
    ensures e.0 in Collect(entries) && Collect(entries)[e.0] == e.1
  {
    var n := |entries| - 1;
    FullSizeLast(entries);
    if e != entries[n] {
      assert e in entries[..n];
      ListedValue(entries[..n], e);
    }
  }

  // ---- the objects -----------------------------------------------------

  class Shard<V> {
    var items: map<string, V>

    constructor ()
      ensures items == map[]
    {
      items := map[];
    }
  }

  class ConcurrentMap<V> {
    const shards: seq<Shard<V>>

    ghost predicate Valid()
      reads this, shards
    {
      && |shards| == SHARD_COUNT
      && (forall i, j :: 0 <= i < j < |shards| ==> shards[i] != shards[j])
      && Placed(Maps())
    }

    ghost function Maps(): (ms: seq<map<string, V>>)
      reads this, shards
      ensures |ms| == |shards|
    {
      seq(|shards|, i requires 0 <= i < |shards| reads this, shards => shards[i].items)
    }

    /** The one plain map that the shards stand for. */
    ghost function Contents(): map<string, V>
      reads this, shards
    {
      Merged(Maps())
    }

    /** NewConcurrentMap. */
    constructor ()
      ensures Valid() && fresh(shards) && Contents() == map[]
    {
      var made: seq<Shard<V>> := [];
      while |made| < SHARD_COUNT
        invariant |made| <= SHARD_COUNT
        invariant fresh(made)
        invariant forall s :: s in made ==> s.items == map[]
        invariant forall i, j :: 0 <= i < j < |made| ==> made[i] != made[j]
      {
        var shard := new Shard<V>();
        made := made + [shard];
      }
      shards := made;
      new;
      assert forall i :: 0 <= i < |shards| ==> shards[i] in made;
      forall k ensures k !in Contents() {
        MergedLookup(Maps(), k);
      }
    }

    method GetShard(key: string) returns (shard: Shard<V>)
      requires Valid()
      ensures shard == shards[ShardOf(key)]
    {
      var hash := Fnv32(key);
      shard := shards[hash as int % SHARD_COUNT];
    }

    /** What one store into a key's shard does to the whole map. */
    twostate lemma Stored(key: string)
      requires old(Valid())
      requires forall i :: 0 <= i < |shards| && i != ShardOf(key) ==> shards[i].items == old(shards[i].items)
      requires forall j :: j != key ==> (j in shards[ShardOf(key)].items <==> j in old(shards[ShardOf(key)].items))
      requires forall j :: j != key && j in shards[ShardOf(key)].items ==> shards[ShardOf(key)].items[j] == old(shards[ShardOf(key)].items)[j]
      ensures Valid()
      ensures key in shards[ShardOf(key)].items ==> Contents() == old(Contents())[key := shards[ShardOf(key)].items[key]]
      ensures key !in shards[ShardOf(key)].items ==> Contents() == old(Contents()) - {key}
    {
      MergedChange(old(Maps()), key, shards[ShardOf(key)].items);
      assert Maps() == old(Maps())[ShardOf(key) := shards[ShardOf(key)].items];
    }

    method Set(key: string, value: V)
      requires Valid()
      modifies shards
      ensures Valid() && Contents() == old(Contents())[key := value]
    {
      var shard := GetShard(key);
      shard.items := shard.items[key := value];
      Stored(key);
    }

    /** The range over data visits its keys in no particular order. */
    method MSet(data: map<string, V>)
      requires Valid()
      modifies shards
      ensures Valid() && Contents() == old(Contents()) + data
    {
      ghost var before := Contents();
      var todo := data.Keys;
      NoneMoved(before, data);
      while todo != {}
        invariant Valid() && todo <= data.Keys
        invariant Contents() == before + (data - todo)
      {
        var key :| key in todo;
        MoveOne(before, data, todo, key);
        Set(key, data[key]);
        todo := todo - {key};
      }
      AllMoved(before, data);
    }

    method Upsert(key: string, value: V, cb: (Option<V>, V) -> V) returns (res: V)
      requires Valid()
      modifies shards
      ensures res == cb(if key in old(Contents()) then Some(old(Contents())[key]) else None, value)
      ensures Valid() && Contents() == old(Contents())[key := res]
    {
      var shard := GetShard(key);
      MergedLookup(Maps(), key);
      var v := if key in shard.items then Some(shard.items[key]) else None;
      res := cb(v, value);
      shard.items := shard.items[key := res];
      Stored(key);
    }

    method SetIfAbsent(key: string, value: V) returns (stored: bool)
      requires Valid()
      modifies shards
      ensures stored <==> key !in old(Contents())
      ensures Valid() && Contents() == if stored then old(Contents())[key := value] else old(Contents())
    {
      var shard := GetShard(key);
      MergedLookup(Maps(), key);
      stored := key !in shard.items;
      if stored {
        shard.items := shard.items[key := value];
        Stored(key);
      }
    }

    method Get(key: string) returns (val: Option<V>)
      requires Valid()
      ensures val == if key in Contents() then Some(Contents()[key]) else None
    {
      var shard := GetShard(key);
      MergedLookup(Maps(), key);
      val := if key in shard.items then Some(shard.items[key]) else None;
    }

    method Has(key: string) returns (found: bool)
      requires Valid()
      ensures found <==> key in Contents()
    {
      var shard := GetShard(key);
      MergedLookup(Maps(), key);
      found := key in shard.items;
    }

    method Remove(key: string)
      requires Valid()
      modifies shards
      ensures Valid() && Contents() == old(Contents()) - {key}
    {
      var shard := GetShard(key);
      shard.items := shard.items - {key};
      Stored(key);
    }

    method Pop(key: string) returns (v: Option<V>)
      requires Valid()
      modifies shards
      ensures v == if key in old(Contents()) then Some(old(Contents())[key]) else None
      ensures Valid() && Contents() == old(Contents()) - {key}
    {
      var shard := GetShard(key);
      MergedLookup(Maps(), key);
      v := if key in shard.items then Some(shard.items[key]) else None;
      shard.items := shard.items - {key};
      Stored(key);
    }

    /** At quiescence the sum over the shards is the size of the map. */
    method Count() returns (count: nat)
      requires Valid()
      ensures count == |Contents()|
    {
      count := 0;
      for i := 0 to SHARD_COUNT
        invariant count == Total(Maps()[..i])
      {
        assert Maps()[..i + 1][..i] == Maps()[..i];
        count := count + |shards[i].items|;
      }
      assert Maps()[..SHARD_COUNT] == Maps();
      MergedCount(Maps());
    }

    method IsEmpty() returns (empty: bool)
      requires Valid()
      ensures empty <==> Contents() == map[]
    {
      var n := Count();
      empty := n == 0;
    }

    /** IterCb at quiescence; the calls made to the callback are returned. Each
        entry of the map is passed exactly once, shard by shard. */
    method IterCb() returns (calls: seq<(string, V)>)
      requires Valid()
      ensures Lists(calls, Contents())
    {
      ghost var ms := Maps();
      calls := [];
      var idx := 0;
      while idx < SHARD_COUNT
        invariant 0 <= idx <= SHARD_COUNT
        invariant Lists(calls, Merged(ms[..idx]))
      {
        EarlierShards(ms, idx);
        calls := EachEntry(shards[idx].items, calls, Merged(ms[..idx]));
        idx := idx + 1;
      }
      assert ms[..SHARD_COUNT] == ms;
    }

    /** The range over one shard, in no particular order. */
    static method EachEntry(items: map<string, V>, calls: seq<(string, V)>, ghost before: map<string, V>)
      returns (after: seq<(string, V)>)
      requires Lists(calls, before) && before.Keys !! items.Keys
      ensures Lists(after, before + items)
    {
      after := calls;
      var todo := items.Keys;
      NoneMoved(before, items);
      while todo != {}
        invariant todo <= items.Keys
        invariant Lists(after, before + (items - todo))
      {
        var key :| key in todo;
        MoveOne(before, items, todo, key);
        ListsOneMore(after, before + (items - todo), key, items[key]);
        after := after + [(key, items[key])];
        todo := todo - {key};
      }
      AllMoved(before, items);
    }
  }
}

/**
 * The group-by accumulator the statistics pages build with `reduce` or `forEach`
 * over a plain object: for each record, create the entry for its key when there is
 * none, then add the record's burns to it and count it. `Object.values` then lists
 * the entries in the order their keys first appeared.
 */
module Grouping {
  import opened Common

  /** One accumulator entry: its key, the burns added to it and how many records it counted. */
  datatype Bucket<K> = Bucket(key: K, burns: int, count: nat)

  /** The accumulator object: keys in insertion order and the entry stored under each key. */
  datatype Groups<K> = Groups(order: seq<K>, table: map<K, Bucket<K>>)

  /** Every listed key has exactly one entry, stored under its own key, and nothing else is stored. */
  predicate WellFormed<K>(g: Groups<K>) {
    && NoDuplicates(g.order)
    && g.table.Keys == (set k | k in g.order)
    && (forall k | k in g.table :: g.table[k].key == k)
  }

  /** One step of the accumulator: the record with key `k` and `b` burns. */
  function AddEntry<K>(g: Groups<K>, k: K, b: int): Groups<K> {
    if k in g.table then
      var e := g.table[k];
      Groups(g.order, g.table[k := e.(burns := e.burns + b, count := e.count + 1)])
    else
      Groups(g.order + [k], g.table[k := Bucket(k, b, 1)])
  }

  /** The accumulator after folding every record of `data` in order. */
  function Accumulate<T, K>(data: seq<T>, keyOf: T -> K, burnsOf: T -> int): (g: Groups<K>)
    ensures WellFormed(g)
    decreases |data|
  {
    if data == [] then Groups([], map[])
    else
      var g0 := Accumulate(data[..|data| - 1], keyOf, burnsOf);
      var x := data[|data| - 1];
      var g := AddEntry(g0, keyOf(x), burnsOf(x));
      assert forall k | k in g.order :: k in g0.order || k == keyOf(x);
      g
  }

  /** `Object.values` of the accumulator. */
  function Values<K>(g: Groups<K>): seq<Bucket<K>>
    requires forall k | k in g.order :: k in g.table
  {
    seq(|g.order|, i requires 0 <= i < |g.order| => g.table[g.order[i]])
  }

  /** The grouped entries of `data`. */
  function Grouped<T, K(==)>(data: seq<T>, keyOf: T -> K, burnsOf: T -> int): seq<Bucket<K>> {
    Values(Accumulate(data, keyOf, burnsOf))
  }

  /** The accumulator loop itself: one pass over the records, then `Object.values`. */
  method GroupBurns<T, K(==)>(data: seq<T>, keyOf: T -> K, burnsOf: T -> int) returns (buckets: seq<Bucket<K>>)
    ensures buckets == Grouped(data, keyOf, burnsOf)
  {
    var order: seq<K> := [];
    var table: map<K, Bucket<K>> := map[];
    var i := 0;
    while i < |data|
      invariant 0 <= i <= |data|
      invariant Groups(order, table) == Accumulate(data[..i], keyOf, burnsOf)
    {
      order, table := AddRecord(order, table, keyOf(data[i]), burnsOf(data[i]));
      AccumulateStep(data, i, keyOf, burnsOf);
      i := i + 1;
    }
    assert data[..|data|] == data;
    buckets := ObjectValues(order, table);
  }

  /** The loop body: create the entry for `k` with zero burns when it is missing, then add `b` burns and one record to it. */
  method AddRecord<K>(order: seq<K>, table: map<K, Bucket<K>>, k: K, b: int) returns (order': seq<K>, table': map<K, Bucket<K>>)
    ensures Groups(order', table') == AddEntry(Groups(order, table), k, b)
  {
    order', table' := order, table;
    if k !in table' {
      table' := table'[k := Bucket(k, 0, 0)];
      order' := order' + [k];
    }
    var e := table'[k];
    table' := table'[k := e.(burns := e.burns + b, count := e.count + 1)];
    CreateThenAdd(Groups(order, table), k, b);
  }

  /** Folding one more record is one more `AddEntry` step. */
  lemma AccumulateStep<T, K>(data: seq<T>, i: nat, keyOf: T -> K, burnsOf: T -> int)
    requires i < |data|
    ensures Accumulate(data[..i + 1], keyOf, burnsOf)
      == AddEntry(Accumulate(data[..i], keyOf, burnsOf), keyOf(data[i]), burnsOf(data[i]))
  {
    assert data[..i + 1][..i] == data[..i];
  }

  /** Creating a missing entry with zero burns and then adding to it is one `AddEntry` step. */
  lemma CreateThenAdd<K>(g: Groups<K>, k: K, b: int)
    ensures var t := if k in g.table then g.table else g.table[k := Bucket(k, 0, 0)];
      var o := if k in g.table then g.order else g.order + [k];
      Groups(o, t[k := t[k].(burns := t[k].burns + b, count := t[k].count + 1)]) == AddEntry(g, k, b)
  {
  }

  /** `Object.values`: the entry of each key, in key order. */
  method ObjectValues<K(==)>(order: seq<K>, table: map<K, Bucket<K>>) returns (values: seq<Bucket<K>>)
    requires forall k | k in order :: k in table
    ensures values == Values(Groups(order, table))
  {
    values := [];
    var j := 0;
    while j < |order|
      invariant 0 <= j <= |order|
      invariant values == Values(Groups(order, table))[..j]
    {
      values := values + [table[order[j]]];
      j := j + 1;
    }
  }

  // ---------------------------------------------------------------------------
  // What the entries mean

  /** The burns a record contributes to key `k`. */
  function BurnsUnder<T, K(==)>(keyOf: T -> K, burnsOf: T -> int, k: K): T -> int {
    x => if keyOf(x) == k then burnsOf(x) else 0
  }

  /** 1 for a record with key `k`, 0 otherwise. */
  function CountUnder<T, K(==)>(keyOf: T -> K, k: K): T -> int {
    x => if keyOf(x) == k then 1 else 0
  }

  function KeysOf<T, K>(data: seq<T>, keyOf: T -> K): seq<K> {
    seq(|data|, i requires 0 <= i < |data| => keyOf(data[i]))
  }

  function BucketKey<K>(b: Bucket<K>): K { b.key }
  function BucketBurns<K>(b: Bucket<K>): int { b.burns }
  function BucketCount<K>(b: Bucket<K>): int { b.count }

  /**
   * The entry for `k` holds the burns and the number of exactly the records with key
   * `k`, and there is an entry for `k` exactly when some record has that key.
   */
  lemma {:induction false} AccumulateEntry<T, K>(data: seq<T>, keyOf: T -> K, burnsOf: T -> int, k: K)
    ensures var g := Accumulate(data, keyOf, burnsOf);
      && (k in g.table <==> k in KeysOf(data, keyOf))
      && Sum(data, BurnsUnder(keyOf, burnsOf, k)) == (if k in g.table then g.table[k].burns else 0)
      && Sum(data, CountUnder(keyOf, k)) == (if k in g.table then g.table[k].count else 0)
    decreases |data|
  {
    if data != [] {
      var init := data[..|data| - 1];
      AccumulateEntry(init, keyOf, burnsOf, k);
      assert KeysOf(data, keyOf) == KeysOf(init, keyOf) + [keyOf(data[|data| - 1])];
    }
  }

  /** Each entry of the output is the total for its key over the records with that key. */
  lemma GroupedEntries<T, K>(data: seq<T>, keyOf: T -> K, burnsOf: T -> int)
    ensures var r := Grouped(data, keyOf, burnsOf);
      forall i | 0 <= i < |r| ::
        && r[i].burns == Sum(data, BurnsUnder(keyOf, burnsOf, r[i].key))
        && r[i].count == Sum(data, CountUnder(keyOf, r[i].key))
  {
    var g := Accumulate(data, keyOf, burnsOf);
    var r := Grouped(data, keyOf, burnsOf);
    forall i | 0 <= i < |r|
      ensures r[i].burns == Sum(data, BurnsUnder(keyOf, burnsOf, r[i].key))
      ensures r[i].count == Sum(data, CountUnder(keyOf, r[i].key))
    {
      assert r[i] == g.table[g.order[i]];
      AccumulateEntry(data, keyOf, burnsOf, g.order[i]);
    }
  }

  /** Each key of the input has exactly one entry, and every entry's key occurs in the input. */
  lemma GroupedKeys<T, K>(data: seq<T>, keyOf: T -> K, burnsOf: T -> int)
    ensures var r := Grouped(data, keyOf, burnsOf);
      && (forall i, j | 0 <= i < j < |r| :: r[i].key != r[j].key)
      && (forall i | 0 <= i < |r| :: r[i].key in KeysOf(data, keyOf))
      && (forall n | 0 <= n < |data| :: exists i :: 0 <= i < |r| && r[i].key == keyOf(data[n]))
  {
    var g := Accumulate(data, keyOf, burnsOf);
    var r := Grouped(data, keyOf, burnsOf);
    assert forall i | 0 <= i < |r| :: r[i] == g.table[g.order[i]] && r[i].key == g.order[i];
    forall i | 0 <= i < |r|
      ensures r[i].key in KeysOf(data, keyOf)
    {
      AccumulateEntry(data, keyOf, burnsOf, r[i].key);
    }
    forall n | 0 <= n < |data|
      ensures exists i :: 0 <= i < |r| && r[i].key == keyOf(data[n])
    {
      var k := keyOf(data[n]);
      assert KeysOf(data, keyOf)[n] == k;
      AccumulateEntry(data, keyOf, burnsOf, k);
      assert k in g.order;
      var i :| 0 <= i < |g.order| && g.order[i] == k;
      assert r[i].key == k;
    }
  }

  /** The key of any output entry is the key of some record. */
  lemma GroupedKeyOccurs<T, K>(data: seq<T>, keyOf: T -> K, burnsOf: T -> int, b: Bucket<K>)
    requires b in multiset(Grouped(data, keyOf, burnsOf))
    ensures exists n :: 0 <= n < |data| && b.key == keyOf(data[n])
  {
    var r := Grouped(data, keyOf, burnsOf);
    GroupedKeys(data, keyOf, burnsOf);
    assert b in r;
    var i :| 0 <= i < |r| && r[i] == b;
    assert b.key in KeysOf(data, keyOf);
    var n :| 0 <= n < |data| && KeysOf(data, keyOf)[n] == b.key;
  }

  /** Adding a record with a new key appends an entry; with a known key it updates that key's entry in place. */
  lemma ValuesAddEntry<K>(g: Groups<K>, k: K, b: int)
    requires WellFormed(g)
    ensures var g2 := AddEntry(g, k, b);
      WellFormed(g2) &&
      if k in g.table then
        exists i :: 0 <= i < |g.order| && g.order[i] == k
          && Values(g2) == Values(g)[i := g2.table[k]]
      else
        Values(g2) == Values(g) + [Bucket(k, b, 1)]
  {
    var g2 := AddEntry(g, k, b);
    assert forall x | x in g2.order :: x in g.order || x == k;
    if k in g.table {
      assert k in g.order;
      var i :| 0 <= i < |g.order| && g.order[i] == k;
      assert Values(g2) == Values(g)[i := g2.table[k]];
    } else {
      assert Values(g2) == Values(g) + [Bucket(k, b, 1)];
    }
  }

  /** The entries' burns add up to the burns of all records, and their counts to the number of records. */
  lemma {:induction false} GroupedTotals<T, K>(data: seq<T>, keyOf: T -> K, burnsOf: T -> int)
    ensures Sum(Grouped(data, keyOf, burnsOf), BucketBurns) == Sum(data, burnsOf)
    ensures Sum(Grouped(data, keyOf, burnsOf), BucketCount) == |data|
    decreases |data|
  {
    if data != [] {
      var init := data[..|data| - 1];
      var x := data[|data| - 1];
      GroupedTotals(init, keyOf, burnsOf);
      var g := Accumulate(init, keyOf, burnsOf);
      var k := keyOf(x);
      ValuesAddEntry(g, k, burnsOf(x));
      var v := Values(g);
      if k in g.table {
        var i :| 0 <= i < |g.order| && g.order[i] == k
          && Values(AddEntry(g, k, burnsOf(x))) == v[i := AddEntry(g, k, burnsOf(x)).table[k]];
        assert v[i] == g.table[k];
        SumUpdate(v, i, AddEntry(g, k, burnsOf(x)).table[k], BucketBurns);
        SumUpdate(v, i, AddEntry(g, k, burnsOf(x)).table[k], BucketCount);
      } else {
        SumConcat(v, [Bucket(k, burnsOf(x), 1)], BucketBurns);
        SumConcat(v, [Bucket(k, burnsOf(x), 1)], BucketCount);
        assert Sum([Bucket(k, burnsOf(x), 1)], BucketBurns) == burnsOf(x);
        assert Sum([Bucket(k, burnsOf(x), 1)], BucketCount) == 1;
      }
    }
  }
}

/**
 * Python dictionaries that keep their insertion order, and laying one list of records over
 * another by key: what an expansion does to a picture.
 */
module Overlays {

  /** A dictionary: its keys in insertion order and what they hold. */
  datatype Dict<K(==), V> = Dict(order: seq<K>, items: map<K, V>)

  ghost predicate Unique<K(!new)>(order: seq<K>) {
    forall i, j | 0 <= i < j < |order| :: order[i] != order[j]
  }

  ghost predicate Tidy<K(!new), V>(d: Dict<K, V>) {
    Unique(d.order) && forall k :: k in d.order <==> k in d.items
  }

  function Empty<K(==), V>(): Dict<K, V> {
    Dict([], map[])
  }

  /** `d[k] = v`: in place, or at the end. */
  function Put<K(==), V>(d: Dict<K, V>, k: K, v: V): Dict<K, V> {
    Dict(if k in d.items then d.order else d.order + [k], d.items[k := v])
  }

  lemma PutIsTidy<K(!new), V>(d: Dict<K, V>, k: K, v: V)
    requires Tidy(d)
    ensures Tidy(Put(d, k, v))
  {}

  function ValuesOf<K(==), V>(order: seq<K>, items: map<K, V>): (r: seq<V>)
    ensures (forall i | 0 <= i < |order| :: order[i] in items) ==>
              |r| == |order| && forall i | 0 <= i < |order| :: r[i] == items[order[i]]
  {
    if order == [] then []
    else
      var last := order[|order| - 1];
      ValuesOf(order[..|order| - 1], items) + if last in items then [items[last]] else []
  }

  /** `d.values()`. */
  function Values<K(==), V>(d: Dict<K, V>): seq<V> {
    ValuesOf(d.order, d.items)
  }

  /** Records by their key: the first sets the place, the last the value. */
  function FromValues<K(==), V>(records: seq<V>, key: V -> K): Dict<K, V> {
    if records == [] then Empty()
    else
      var last := records[|records| - 1];
      Put(FromValues(records[..|records| - 1], key), key(last), last)
  }

  ghost predicate DistinctKeys<K, V(!new)>(records: seq<V>, key: V -> K) {
    forall i, j | 0 <= i < j < |records| :: key(records[i]) != key(records[j])
  }

  ghost predicate KeptUnder<K, V>(d: Dict<K, V>, key: V -> K) {
    forall k | k in d.items :: key(d.items[k]) == k
  }

  lemma {:induction false} FromValuesTidy<K(!new), V(!new)>(records: seq<V>, key: V -> K)
    ensures Tidy(FromValues(records, key)) && KeptUnder(FromValues(records, key), key)
  {
    if records != [] {
      FromValuesTidy(records[..|records| - 1], key);
    }
  }

  ghost predicate RecordsOf<K, V(!new)>(d: Dict<K, V>, records: seq<V>, key: V -> K) {
    && |d.order| == |records|
    && forall i | 0 <= i < |records| :: d.order[i] == key(records[i]) && d.order[i] in d.items
          && d.items[d.order[i]] == records[i]
  }

  /** Records without a repeated key come back as they went in. */
  lemma {:induction false} FromValuesKeeps<K(!new), V(!new)>(records: seq<V>, key: V -> K)
    requires DistinctKeys(records, key)
    ensures RecordsOf(FromValues(records, key), records, key)
  {
    if records != [] {
      var n := |records| - 1;
      var init := FromValues(records[..n], key);
      FromValuesKeeps(records[..n], key);
      FromValuesTidy(records[..n], key);
      forall i | 0 <= i < n ensures init.order[i] != key(records[n]) {
        assert init.order[i] == key(records[..n][i]);
      }
    }
  }

  lemma ValuesOfRecords<K(!new), V(!new)>(records: seq<V>, key: V -> K)
    requires DistinctKeys(records, key)
    ensures Tidy(FromValues(records, key)) && Values(FromValues(records, key)) == records
  {
    FromValuesKeeps(records, key);
    FromValuesTidy(records, key);
  }

  lemma SameDict<K(!new), V(!new)>(d: Dict<K, V>, e: Dict<K, V>)
    requires Tidy(d) && Tidy(e) && d.order == e.order
    requires forall k | k in d.order && k in d.items && k in e.items :: d.items[k] == e.items[k]
    ensures d == e
  {
    assert forall k :: k in d.items <==> k in e.items by {
      assert forall k :: k in d.items <==> k in d.order;
    }
    assert d.items == e.items;
  }

  lemma KeysOfValues<K(!new), V(!new)>(d: Dict<K, V>, key: V -> K)
    requires Tidy(d) && KeptUnder(d, key)
    ensures |Values(d)| == |d.order|
    ensures forall i | 0 <= i < |d.order| ::
              d.order[i] in d.items && Values(d)[i] == d.items[d.order[i]] && key(Values(d)[i]) == d.order[i]
  {
    assert forall i | 0 <= i < |d.order| :: d.order[i] in d.order;
  }

  /** And a tidy dictionary is rebuilt from its values. */
  lemma RecordsOfValues<K(!new), V(!new)>(d: Dict<K, V>, key: V -> K)
    requires Tidy(d) && KeptUnder(d, key)
    ensures DistinctKeys(Values(d), key) && FromValues(Values(d), key) == d
  {
    var records := Values(d);
    KeysOfValues(d, key);
    FromValuesKeeps(records, key);
    FromValuesTidy(records, key);
    var back := FromValues(records, key);
    assert back.order == d.order;
    forall k | k in d.order && k in d.items && k in back.items ensures d.items[k] == back.items[k] {
      var i :| 0 <= i < |d.order| && d.order[i] == k;
      assert back.order[i] == k;
    }
    SameDict(d, back);
  }

  // ----- Laying records over a dictionary

  /** One record folded into what is there, or added. */
  function Lay<K(==), V>(d: Dict<K, V>, record: V, key: V -> K, fold: (V, V) -> V): Dict<K, V> {
    Put(d, key(record), if key(record) in d.items then fold(d.items[key(record)], record) else record)
  }

  function LayAll<K(==), V>(d: Dict<K, V>, records: seq<V>, key: V -> K, fold: (V, V) -> V): Dict<K, V> {
    if records == [] then d
    else Lay(LayAll(d, records[..|records| - 1], key, fold), records[|records| - 1], key, fold)
  }

  /** The keys of an order that are not known yet. */
  function Fresh<K(==)>(order: seq<K>, known: set<K>): (r: seq<K>) {
    if order == [] then []
    else
      var k := order[|order| - 1];
      Fresh(order[..|order| - 1], known) + if k in known then [] else [k]
  }

  lemma {:induction false} FreshMembers<K(!new)>(order: seq<K>, known: set<K>)
    ensures forall k :: k in Fresh(order, known) <==> k in order && k !in known
    ensures Unique(order) ==> Unique(Fresh(order, known))
  {
    if order != [] {
      var n := |order| - 1;
      FreshMembers(order[..n], known);
      assert order == order[..n] + [order[n]];
      var rest := Fresh(order[..n], known);
      assert forall i | 0 <= i < |rest| :: rest[i] in rest;
    }
  }

  lemma {:induction false} FreshTwice<K(!new)>(order: seq<K>, known: set<K>, more: set<K>)
    ensures Fresh(Fresh(order, known), more) == Fresh(order, known + more)
  {
    if order != [] {
      var n := |order| - 1;
      FreshTwice(order[..n], known, more);
      var rest := Fresh(order[..n], known);
      if order[n] !in known {
        assert (rest + [order[n]])[..|rest|] == rest;
      } else {
        assert rest + [] == rest;
      }
    }
  }

  lemma {:induction false} FreshConcat<K(!new)>(a: seq<K>, b: seq<K>, known: set<K>)
    ensures Fresh(a + b, known) == Fresh(a, known) + Fresh(b, known)
    decreases |b|
  {
    if b == [] {
      assert a + b == a;
    } else {
      var n := |b| - 1;
      FreshConcat(a, b[..n], known);
      assert (a + b)[..|a + b| - 1] == a + b[..n];
    }
  }

  /** Two dictionaries as one: the first one's order, then what only the second has. */
  function Merged<K(==), V>(d: Dict<K, V>, e: Dict<K, V>, fold: (V, V) -> V): Dict<K, V> {
    Dict(d.order + Fresh(e.order, d.items.Keys), Union(d.items, e.items, fold))
  }

  function Union<K(==), V>(m: map<K, V>, n: map<K, V>, fold: (V, V) -> V): map<K, V> {
    map k | k in m.Keys + n.Keys :: if k in m && k in n then fold(m[k], n[k]) else if k in m then m[k] else n[k]
  }

  lemma MergedTidy<K(!new), V(!new)>(d: Dict<K, V>, e: Dict<K, V>, key: V -> K, fold: (V, V) -> V)
    requires Tidy(d) && Tidy(e) && KeptUnder(d, key) && KeptUnder(e, key) && KeepsKey(key, fold)
    ensures Tidy(Merged(d, e, fold)) && KeptUnder(Merged(d, e, fold), key)
  {
    FreshMembers(e.order, d.items.Keys);
    var merged := Merged(d, e, fold);
    assert forall i | 0 <= i < |d.order| :: d.order[i] in d.order;
    var added := Fresh(e.order, d.items.Keys);
    assert forall i | 0 <= i < |added| :: added[i] in added;
  }

  ghost predicate KeepsKey<K, V(!new)>(key: V -> K, fold: (V, V) -> V) {
    forall a, b {:trigger fold(a, b)} | key(a) == key(b) :: key(fold(a, b)) == key(a)
  }

  ghost predicate Associates<K, V(!new)>(key: V -> K, fold: (V, V) -> V) {
    forall a, b, c {:trigger fold(fold(a, b), c)} {:trigger fold(a, fold(b, c))} | key(a) == key(b) == key(c) ::
      fold(fold(a, b), c) == fold(a, fold(b, c))
  }

  ghost predicate Absorbs<V(!new)>(fold: (V, V) -> V) {
    forall a {:trigger fold(a, a)} :: fold(a, a) == a
  }

  lemma UnionPut<K(!new), V>(m: map<K, V>, n: map<K, V>, k: K, v: V, fold: (V, V) -> V)
    requires k !in n
    ensures Union(m, n[k := v], fold) == Union(m, n, fold)[k := if k in m then fold(m[k], v) else v]
  {}

  lemma OrderPut<K(!new)>(a: seq<K>, b: seq<K>, k: K, known: set<K>)
    ensures a + Fresh(b + [k], known) == if k in known then a + Fresh(b, known) else a + Fresh(b, known) + [k]
  {
    assert (b + [k])[..|b|] == b;
    var added := Fresh(b, known);
    if k in known {
      assert added + [] == added;
    } else {
      ConcatAssociates(a, added, [k]);
    }
  }

  lemma MergedPut<K(!new), V(!new)>(d: Dict<K, V>, e: Dict<K, V>, record: V, key: V -> K, fold: (V, V) -> V)
    requires key(record) !in e.items
    ensures Lay(Merged(d, e, fold), record, key, fold) == Merged(d, Put(e, key(record), record), fold)
  {
    var k := key(record);
    UnionPut(d.items, e.items, k, record, fold);
    OrderPut(d.order, e.order, k, d.items.Keys);
  }

  lemma NotYetHeld<K(!new), V(!new)>(records: seq<V>, record: V, key: V -> K)
    requires DistinctKeys(records, key) && forall i | 0 <= i < |records| :: key(records[i]) != key(record)
    ensures key(record) !in FromValues(records, key).items
  {
    FromValuesKeeps(records, key);
    FromValuesTidy(records, key);
    var d := FromValues(records, key);
    forall i | 0 <= i < |d.order| ensures d.order[i] != key(record) {}
    assert key(record) !in d.order;
  }

  /** Laying distinct records one by one is merging dictionaries. */
  lemma {:induction false} LayAllIsMerged<K(!new), V(!new)>(d: Dict<K, V>, records: seq<V>, key: V -> K, fold: (V,
        V) -> V)
    requires DistinctKeys(records, key)
    ensures LayAll(d, records, key, fold) == Merged(d, FromValues(records, key), fold)
  {
    if records == [] {
      assert d.order + [] == d.order;
      assert Union(d.items, map[], fold) == d.items;
    } else {
      var n := |records| - 1;
      LayAllIsMerged(d, records[..n], key, fold);
      NotYetHeld(records[..n], records[n], key);
      MergedPut(d, FromValues(records[..n], key), records[n], key, fold);
    }
  }

  lemma UnionAssociates<K(!new), V(!new)>(m: map<K, V>, n: map<K, V>, o: map<K, V>, key: V -> K, fold: (V, V) -> V)
    requires Associates(key, fold)
    requires forall k | k in m :: key(m[k]) == k
    requires forall k | k in n :: key(n[k]) == k
    requires forall k | k in o :: key(o[k]) == k
    ensures Union(Union(m, n, fold), o, fold) == Union(m, Union(n, o, fold), fold)
  {
    var left, right := Union(Union(m, n, fold), o, fold), Union(m, Union(n, o, fold), fold);
    assert left.Keys == right.Keys;
    forall k | k in left ensures left[k] == right[k] {
      if k in m && k in n && k in o {
        assert fold(fold(m[k], n[k]), o[k]) == fold(m[k], fold(n[k], o[k]));
      }
    }
  }

  lemma ConcatAssociates<T>(x: seq<T>, y: seq<T>, z: seq<T>)
    ensures x + y + z == x + (y + z)
  {}

  lemma OrderAssociates<K(!new)>(a: seq<K>, b: seq<K>, c: seq<K>, known: set<K>, more: set<K>)
    ensures a + Fresh(b, known) + Fresh(c, known + more) == a + Fresh(b + Fresh(c, more), known)
  {
    FreshConcat(b, Fresh(c, more), known);
    FreshTwice(c, more, known);
    assert more + known == known + more;
    ConcatAssociates(a, Fresh(b, known), Fresh(c, known + more));
  }

  lemma MergedAssociates<K(!new), V(!new)>(d: Dict<K, V>, e: Dict<K, V>, f: Dict<K, V>, key: V -> K, fold: (V, V) -> V)
    requires Associates(key, fold) && KeptUnder(d, key) && KeptUnder(e, key) && KeptUnder(f, key)
    ensures Merged(Merged(d, e, fold), f, fold) == Merged(d, Merged(e, f, fold), fold)
  {
    UnionAssociates(d.items, e.items, f.items, key, fold);
    assert Union(d.items, e.items, fold).Keys == d.items.Keys + e.items.Keys;
    OrderAssociates(d.order, e.order, f.order, d.items.Keys, e.items.Keys);
  }

  lemma {:induction false} NothingFresh<K(!new)>(order: seq<K>, known: set<K>)
    requires forall k | k in order :: k in known
    ensures Fresh(order, known) == []
  {
    if order != [] {
      NothingFresh(order[..|order| - 1], known);
      assert order[|order| - 1] in order;
    }
  }

  lemma {:induction false} FreshOfAll<K(!new)>(order: seq<K>)
    ensures Fresh(order, {}) == order
  {
    if order != [] {
      FreshOfAll(order[..|order| - 1]);
      assert order == order[..|order| - 1] + [order[|order| - 1]];
    }
  }

  lemma UnionWithItself<K(!new), V(!new)>(m: map<K, V>, fold: (V, V) -> V)
    requires Absorbs(fold)
    ensures Union(m, m, fold) == m
  {}

  lemma UnionWithNothing<K, V>(m: map<K, V>, fold: (V, V) -> V)
    ensures Union(map[], m, fold) == m
  {}

  lemma MergedWithItself<K(!new), V(!new)>(d: Dict<K, V>, fold: (V, V) -> V)
    requires Tidy(d) && Absorbs(fold)
    ensures Merged(d, d, fold) == d
  {
    NothingFresh(d.order, d.items.Keys);
    UnionWithItself(d.items, fold);
  }

  lemma NothingMergedWith<K(!new), V(!new)>(d: Dict<K, V>, fold: (V, V) -> V)
    ensures Merged(Empty(), d, fold) == d
  {
    FreshOfAll(d.order);
    UnionWithNothing(d.items, fold);
    assert Empty<K, V>().items.Keys == {};
    assert [] + d.order == d.order;
  }

  // ----- Laying one list of records over another

  function Laid<K(==), V>(records: seq<V>, others: seq<V>, key: V -> K, fold: (V, V) -> V): seq<V> {
    Values(LayAll(FromValues(records, key), others, key, fold))
  }

  /** Of two lists without repeats, what is laid over what is a merge of dictionaries. */
  lemma LaidIsMerged<K(!new), V(!new)>(records: seq<V>, others: seq<V>, key: V -> K, fold: (V, V) -> V)
    requires DistinctKeys(records, key) && DistinctKeys(others, key) && KeepsKey(key, fold)
    ensures var r := Laid(records, others, key, fold);
            var d := Merged(FromValues(records, key), FromValues(others, key), fold);
            DistinctKeys(r, key) && r == Values(d) && FromValues(r, key) == d
  {
    FromValuesTidy(records, key);
    FromValuesTidy(others, key);
    LayAllIsMerged(FromValues(records, key), others, key, fold);
    MergedTidy(FromValues(records, key), FromValues(others, key), key, fold);
    RecordsOfValues(Merged(FromValues(records, key), FromValues(others, key), fold), key);
  }

  /** Expanding twice and expanding by an expansion are one thing, order included. */
  lemma LaidAssociates<K(!new), V(!new)>(a: seq<V>, b: seq<V>, c: seq<V>, key: V -> K, fold: (V, V) -> V)
    requires DistinctKeys(a, key) && DistinctKeys(b, key) && DistinctKeys(c, key)
    requires KeepsKey(key, fold) && Associates(key, fold)
    ensures Laid(Laid(a, b, key, fold), c, key, fold) == Laid(a, Laid(b, c, key, fold), key, fold)
  {
    LaidIsMerged(a, b, key, fold);
    LaidIsMerged(b, c, key, fold);
    LaidIsMerged(Laid(a, b, key, fold), c, key, fold);
    LaidIsMerged(a, Laid(b, c, key, fold), key, fold);
    FromValuesTidy(a, key);
    FromValuesTidy(b, key);
    FromValuesTidy(c, key);
    MergedAssociates(FromValues(a, key), FromValues(b, key), FromValues(c, key), key, fold);
  }

  /** Laid over itself, a picture is the picture it was. */
  lemma LaidOverItself<K(!new), V(!new)>(a: seq<V>, key: V -> K, fold: (V, V) -> V)
    requires DistinctKeys(a, key) && KeepsKey(key, fold) && Absorbs(fold)
    ensures Laid(a, a, key, fold) == a
  {
    LaidIsMerged(a, a, key, fold);
    ValuesOfRecords(a, key);
    MergedWithItself(FromValues(a, key), fold);
  }

  /** The empty picture changes nothing on either side. */
  lemma LaidWithNothing<K(!new), V(!new)>(a: seq<V>, key: V -> K, fold: (V, V) -> V)
    requires DistinctKeys(a, key)
    ensures Laid(a, [], key, fold) == a && Laid([], a, key, fold) == a
  {
    ValuesOfRecords(a, key);
    LayAllIsMerged(Empty(), a, key, fold);
    NothingMergedWith(FromValues(a, key), fold);
  }

  /** Which keys the result holds, and what under each. */
  lemma LaidHolds<K(!new), V(!new)>(a: seq<V>, b: seq<V>, key: V -> K, fold: (V, V) -> V, i: nat)
    requires DistinctKeys(a, key) && DistinctKeys(b, key) && KeepsKey(key, fold) && i < |Laid(a, b, key, fold)|
    ensures var one := Laid(a, b, key, fold)[i];
            || (exists j :: 0 <= j < |a| && one == a[j])
            || (exists j :: 0 <= j < |b| && one == b[j])
            || (exists j, k :: 0 <= j < |a| && 0 <= k < |b| && key(a[j]) == key(b[k]) && one == fold(a[j], b[k]))
  {
    var d, e := FromValues(a, key), FromValues(b, key);
    LaidIsMerged(a, b, key, fold);
    FromValuesTidy(a, key);
    FromValuesTidy(b, key);
    MergedTidy(d, e, key, fold);
    var k := Merged(d, e, fold).order[i];
    assert k in Merged(d, e, fold).order;
    if k in d.items { HoldsRecord(a, key, k); }
    if k in e.items { HoldsRecord(b, key, k); }
  }

  lemma HoldsRecord<K(!new), V(!new)>(a: seq<V>, key: V -> K, k: K)
    requires DistinctKeys(a, key) && k in FromValues(a, key).items
    ensures exists j :: 0 <= j < |a| && a[j] == FromValues(a, key).items[k] && key(a[j]) == k
  {
    FromValuesTidy(a, key);
    FromValuesKeeps(a, key);
    var d := FromValues(a, key);
    assert k in d.order;
    var j :| 0 <= j < |d.order| && d.order[j] == k;
  }

  /** No key of either list is lost. */
  lemma LaidKeepsKeys<K(!new), V(!new)>(a: seq<V>, b: seq<V>, key: V -> K, fold: (V, V) -> V, k: K)
    requires DistinctKeys(a, key) && DistinctKeys(b, key) && KeepsKey(key, fold)
    requires (exists j :: 0 <= j < |a| && key(a[j]) == k) || (exists j :: 0 <= j < |b| && key(b[j]) == k)
    ensures exists j :: 0 <= j < |Laid(a, b, key, fold)| && key(Laid(a, b, key, fold)[j]) == k
  {
    var d, e := FromValues(a, key), FromValues(b, key);
    LaidIsMerged(a, b, key, fold);
    FromValuesTidy(a, key);
    FromValuesTidy(b, key);
    FromValuesKeeps(a, key);
    FromValuesKeeps(b, key);
    MergedTidy(d, e, key, fold);
    if j :| 0 <= j < |a| && key(a[j]) == k {
      assert d.order[j] == k;
    }
    if j :| 0 <= j < |b| && key(b[j]) == k {
      assert e.order[j] == k;
    }
    assert k in Merged(d, e, fold).items;
    HoldsRecord(Laid(a, b, key, fold), key, k);
  }
}

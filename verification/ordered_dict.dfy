/**
  Python's `dict` and `OrderedDict` as the code uses them: a key is stored
  once, assigning to a present key keeps its position and replaces the
  value, assigning to a new key appends it, deleting keeps the order of the
  others, and iteration follows insertion order. A dictionary is its keys in
  insertion order together with the map from keys to values.
 */
module OrderedDicts {

  ghost predicate Distinct<T>(s: seq<T>) {
    forall i, j :: 0 <= i < j < |s| ==> s[i] != s[j]
  }

  datatype Dict<K(==,!new), V> = Dict(keys: seq<K>, entries: map<K, V>) {
    /** Every key is stored once, and the keys are exactly the mapped ones. */
    ghost predicate Valid() {
      Distinct(keys) && forall k :: k in entries <==> k in keys
    }

    /** `len(d)`. */
    function Size(): nat {
      |keys|
    }

    /** `d.values()`, in iteration order. */
    function Values(): (r: seq<V>)
      requires Valid()
      ensures |r| == |keys|
      ensures forall i :: 0 <= i < |r| ==> r[i] == entries[keys[i]]
    {
      seq(|keys|, i requires 0 <= i < |keys| => entries[keys[i]])
    }

    /** `d.items()`, in iteration order. */
    function Items(): (r: seq<(K, V)>)
      requires Valid()
      ensures |r| == |keys|
      ensures forall i :: 0 <= i < |r| ==> r[i] == (keys[i], entries[keys[i]])
    {
      seq(|keys|, i requires 0 <= i < |keys| => (keys[i], entries[keys[i]]))
    }
  }

  /** `dict()` / `OrderedDict()`. */
  function Empty<K(==,!new), V>(): (r: Dict<K, V>)
    ensures r.Valid() && r.keys == [] && r.entries == map[]
  {
    Dict([], map[])
  }

  /** `d[k] = v`: a new key goes to the end, a present key keeps its place. */
  function Set<K(==,!new), V>(d: Dict<K, V>, k: K, v: V): (r: Dict<K, V>)
    requires d.Valid()
    ensures r.Valid()
    ensures r.keys == if k in d.entries then d.keys else d.keys + [k]
    ensures r.entries == d.entries[k := v]
  {
    if k in d.entries then Dict(d.keys, d.entries[k := v])
    else Dict(d.keys + [k], d.entries[k := v])
  }

  /** The keys without k, in order. */
  function Without<K(==,!new)>(s: seq<K>, k: K): (r: seq<K>)
    ensures forall x :: x in r <==> x in s && x != k
    ensures |r| <= |s|
    ensures Distinct(s) ==> Distinct(r)
  {
    if |s| == 0 then []
    else
      var rest := Without(s[1..], k);
      assert Distinct(s) ==> s[0] !in s[1..];
      if s[0] == k then rest else [s[0]] + rest
  }

  /** `del d[k]`: the other keys keep their order and values. */
  function Delete<K(==,!new), V>(d: Dict<K, V>, k: K): (r: Dict<K, V>)
    requires d.Valid()
    ensures r.Valid()
    ensures r.keys == Without(d.keys, k)
    ensures r.entries == d.entries - {k}
  {
    Dict(Without(d.keys, k), d.entries - {k})
  }

  /** The keys outside ks, in order. */
  function KeysOutside<K(==,!new)>(s: seq<K>, ks: set<K>): (r: seq<K>)
    ensures forall x :: x in r <==> x in s && x !in ks
    ensures Distinct(s) ==> Distinct(r)
  {
    if |s| == 0 then []
    else
      var rest := KeysOutside(s[1..], ks);
      assert Distinct(s) ==> s[0] !in s[1..];
      if s[0] in ks then rest else [s[0]] + rest
  }

  /** `for k in ks: del d[k]`, for keys that are present: the other keys keep their order and values. */
  function DeleteAll<K(==,!new), V>(d: Dict<K, V>, ks: set<K>): (r: Dict<K, V>)
    ensures d.Valid() ==> r.Valid()
    ensures r.keys == KeysOutside(d.keys, ks)
    ensures r.entries == d.entries - ks
  {
    Dict(KeysOutside(d.keys, ks), d.entries - ks)
  }

  lemma {:induction false} KeysOutsideStep<K(!new)>(s: seq<K>, ks: set<K>, k: K)
    ensures Without(KeysOutside(s, ks), k) == KeysOutside(s, ks + {k})
  {
    if |s| > 0 {
      KeysOutsideStep(s[1..], ks, k);
      if s[0] !in ks {
        assert ([s[0]] + KeysOutside(s[1..], ks))[1..] == KeysOutside(s[1..], ks);
      }
    }
  }

  /** Deleting one more key is deleting the larger set. */
  lemma DeleteAllStep<K(!new), V>(d: Dict<K, V>, ks: set<K>, k: K)
    requires d.Valid()
    ensures Delete(DeleteAll(d, ks), k) == DeleteAll(d, ks + {k})
  {
    var m := d.entries;
    assert m - ks - {k} == m - (ks + {k});
    KeysOutsideStep(d.keys, ks, k);
  }

  lemma DeleteNothing<K(!new), V>(d: Dict<K, V>)
    requires d.Valid()
    ensures DeleteAll(d, {}) == d
  {
    KeysOutsideNone(d.keys);
    assert d.entries - {} == d.entries;
  }

  lemma {:induction false} KeysOutsideNone<K(!new)>(s: seq<K>)
    ensures KeysOutside(s, {}) == s
  {
    if |s| > 0 {
      KeysOutsideNone(s[1..]);
      KeysOutsideKeep(s, {});
      HeadTail(s);
    }
  }

  lemma KeysOutsideKeep<K(!new)>(s: seq<K>, ks: set<K>)
    requires |s| > 0 && s[0] !in ks
    ensures KeysOutside(s, ks) == [s[0]] + KeysOutside(s[1..], ks)
  {
  }

  lemma HeadTail<T>(s: seq<T>)
    requires |s| > 0
    ensures s == [s[0]] + s[1..]
  {
  }

  /** The deletion loop over a set of keys: the result does not depend on the order the set is visited in. */
  method DeleteKeys<K(==,!new), V>(d: Dict<K, V>, ks: set<K>) returns (r: Dict<K, V>)
    requires d.Valid()
    ensures r.Valid()
    ensures r.keys == KeysOutside(d.keys, ks) && r.entries == d.entries - ks
  {
    r := d;
    var todo := ks;
    ghost var done: set<K> := {};
    DeleteNothing(d);
    while todo != {}
      invariant done + todo == ks
      invariant r == DeleteAll(d, done) && r.Valid()
      decreases |todo|
    {
      var k :| k in todo;
      DeleteKeyStep(d, done, k);
      if k in r.entries {
        r := Delete(r, k);
      }
      done, todo := done + {k}, todo - {k};
    }
  }

  /** One turn of that loop: deleting a present key, or skipping an absent one, deletes one more key. */
  lemma DeleteKeyStep<K(!new), V>(d: Dict<K, V>, done: set<K>, k: K)
    requires d.Valid()
    ensures k in DeleteAll(d, done).entries ==> Delete(DeleteAll(d, done), k) == DeleteAll(d, done + {k})
    ensures k !in DeleteAll(d, done).entries ==> DeleteAll(d, done) == DeleteAll(d, done + {k})
  {
    var r := DeleteAll(d, done);
    DeleteAllStep(d, done, k);
    if k !in r.entries {
      WithoutAbsent(r.keys, k);
    }
  }

  lemma {:induction false} WithoutAbsent<K(!new)>(s: seq<K>, k: K)
    requires k !in s
    ensures Without(s, k) == s
  {
    if |s| > 0 {
      WithoutAbsent(s[1..], k);
      HeadTail(s);
    }
  }

  /** The keys of a sequence of pairs. */
  function PairKeys<K(==,!new), V>(pairs: seq<(K, V)>): (r: seq<K>)
    ensures |r| == |pairs| && forall i :: 0 <= i < |pairs| ==> r[i] == pairs[i].0
  {
    seq(|pairs|, i requires 0 <= i < |pairs| => pairs[i].0)
  }

  /** `OrderedDict(pairs)` / `dict(pairs)`: each pair assigned in turn, later values win. */
  function FromPairs<K(==,!new), V>(pairs: seq<(K, V)>): (r: Dict<K, V>)
    ensures r.Valid()
    ensures forall k :: k in r.entries <==> k in PairKeys(pairs)
    ensures r.Size() <= |pairs|
  {
    if |pairs| == 0 then Empty()
    else
      var init, last := pairs[..|pairs| - 1], pairs[|pairs| - 1];
      assert PairKeys(pairs) == PairKeys(init) + [last.0];
      Set(FromPairs(init), last.0, last.1)
  }

  /** Building a dictionary loses entries exactly when two pairs share a key. */
  lemma {:induction false} FromPairsSize<K(!new), V>(pairs: seq<(K, V)>)
    ensures FromPairs(pairs).Size() == |pairs| <==> Distinct(PairKeys(pairs))
  {
    if |pairs| > 0 {
      var init, last := pairs[..|pairs| - 1], pairs[|pairs| - 1];
      FromPairsSize(init);
      var ki := PairKeys(init);
      PairKeysSnoc(pairs);
      DistinctSnoc(ki, last.0);
    }
  }

  lemma PairKeysSnoc<K(!new), V>(pairs: seq<(K, V)>)
    requires |pairs| > 0
    ensures PairKeys(pairs) == PairKeys(pairs[..|pairs| - 1]) + [pairs[|pairs| - 1].0]
  {
    var init := pairs[..|pairs| - 1];
    var a, b := PairKeys(pairs), PairKeys(init) + [pairs[|pairs| - 1].0];
    forall i | 0 <= i < |a| ensures a[i] == b[i] {
      if i < |init| {
        assert b[i] == PairKeys(init)[i];
      }
    }
  }

  lemma DistinctSnoc<T>(s: seq<T>, x: T)
    ensures Distinct(s + [x]) <==> Distinct(s) && x !in s
  {
    var t := s + [x];
    if Distinct(t) {
      forall i, j | 0 <= i < j < |s| ensures s[i] != s[j] {
        assert s[i] == t[i] && s[j] == t[j];
      }
      forall i | 0 <= i < |s| ensures s[i] != x {
        assert s[i] == t[i] && x == t[|s|];
      }
    }
    if Distinct(s) && x !in s {
      forall i, j | 0 <= i < j < |t| ensures t[i] != t[j] {
        if j < |s| {
          assert t[i] == s[i] && t[j] == s[j];
        } else {
          assert t[i] == s[i];
        }
      }
    }
  }

  /** Without repeated keys, building a dictionary keeps every pair, in order. */
  lemma FromDistinctPairs<K(!new), V>(pairs: seq<(K, V)>)
    requires Distinct(PairKeys(pairs))
    ensures FromPairs(pairs).keys == PairKeys(pairs)
    ensures FromPairs(pairs).Items() == pairs
  {
    FromDistinctKeys(pairs);
    var r, ks := FromPairs(pairs), PairKeys(pairs);
    forall i | 0 <= i < |pairs| ensures r.Items()[i] == pairs[i] {
      forall j | i < j < |pairs| ensures pairs[j].0 != pairs[i].0 {
        assert ks[i] != ks[j];
      }
      FromPairsLast(pairs, i);
    }
  }

  lemma {:induction false} FromDistinctKeys<K(!new), V>(pairs: seq<(K, V)>)
    requires Distinct(PairKeys(pairs))
    ensures FromPairs(pairs).keys == PairKeys(pairs)
  {
    if |pairs| > 0 {
      var init, last := pairs[..|pairs| - 1], pairs[|pairs| - 1];
      var ks, ki := PairKeys(pairs), PairKeys(init);
      assert ks == ki + [last.0];
      assert Distinct(ki) by {
        forall i, j | 0 <= i < j < |ki| ensures ki[i] != ki[j] {
          assert ki[i] == ks[i] && ki[j] == ks[j];
        }
      }
      FromDistinctKeys(init);
      assert last.0 !in ki by {
        forall j | 0 <= j < |ki| ensures ki[j] != last.0 {
          assert ki[j] == ks[j];
        }
      }
    }
  }

  /** A key keeps the value of its last pair. */
  lemma {:induction false} FromPairsLast<K(!new), V>(pairs: seq<(K, V)>, i: nat)
    requires i < |pairs|
    requires forall j :: i < j < |pairs| ==> pairs[j].0 != pairs[i].0
    ensures pairs[i].0 in FromPairs(pairs).entries
    ensures FromPairs(pairs).entries[pairs[i].0] == pairs[i].1
  {
    if i < |pairs| - 1 {
      var init := pairs[..|pairs| - 1];
      FromPairsLast(init, i);
      assert pairs[|pairs| - 1].0 != pairs[i].0;
    }
  }

  lemma PairKeysPrefix<K(!new), V>(pairs: seq<(K, V)>, i: nat)
    requires i <= |pairs|
    ensures PairKeys(pairs[..i]) == PairKeys(pairs)[..i]
  {
    var a, b := PairKeys(pairs[..i]), PairKeys(pairs)[..i];
    forall k | 0 <= k < i ensures a[k] == b[k] {
      assert pairs[..i][k] == pairs[k];
    }
  }

  /** The keys of the items are the keys, in order. */
  lemma ItemsKeys<K(!new), V>(d: Dict<K, V>)
    requires d.Valid()
    ensures PairKeys(d.Items()) == d.keys
  {
    var a := PairKeys(d.Items());
    forall i | 0 <= i < |a| ensures a[i] == d.keys[i] {
      assert d.Items()[i].0 == d.keys[i];
    }
  }

  /** A pair is among the items exactly when it is an entry. */
  lemma ItemsMember<K(!new), V>(d: Dict<K, V>)
    requires d.Valid()
    ensures forall k, v :: (k, v) in d.Items() <==> k in d.entries && v == d.entries[k]
  {
    forall k, v ensures (k, v) in d.Items() <==> k in d.entries && v == d.entries[k] {
      if k in d.entries {
        var i :| 0 <= i < |d.keys| && d.keys[i] == k;
        assert d.Items()[i] == (k, d.entries[k]);
      }
    }
  }

  /** Rebuilding a dictionary from its own items gives it back. */
  lemma FromItems<K(!new), V>(d: Dict<K, V>)
    requires d.Valid()
    ensures FromPairs(d.Items()) == d
  {
    var items := d.Items();
    ItemsKeys(d);
    FromDistinctKeys(items);
    var r := FromPairs(items);
    forall k | k in d.entries ensures k in r.entries && r.entries[k] == d.entries[k] {
      FromItemsEntry(d, k);
    }
    assert r.entries == d.entries;
  }

  lemma FromItemsEntry<K(!new), V>(d: Dict<K, V>, k: K)
    requires d.Valid() && k in d.entries
    ensures k in FromPairs(d.Items()).entries && FromPairs(d.Items()).entries[k] == d.entries[k]
  {
    var items := d.Items();
    ItemsKeys(d);
    var i :| 0 <= i < |d.keys| && d.keys[i] == k;
    forall j | i < j < |items| ensures items[j].0 != items[i].0 {
      assert d.keys[i] != d.keys[j];
    }
    FromPairsLast(items, i);
  }

  /** The keys of `ks` that `m` lacks, in order: where `update` appends them. */
  function NewKeys<K(==,!new), V>(ks: seq<K>, m: map<K, V>): (r: seq<K>)
    ensures forall x :: x in r <==> x in ks && x !in m
    ensures Distinct(ks) ==> Distinct(r)
  {
    if |ks| == 0 then []
    else
      var init, last := ks[..|ks| - 1], ks[|ks| - 1];
      assert Distinct(ks) ==> Distinct(init) && last !in init by {
        if Distinct(ks) {
          forall i, j | 0 <= i < j < |init| ensures init[i] != init[j] {
            assert init[i] == ks[i] && init[j] == ks[j];
          }
          forall i | 0 <= i < |init| ensures init[i] != last {
            assert init[i] == ks[i];
          }
        }
      }
      NewKeys(init, m) + (if last in m then [] else [last])
  }

  lemma NewKeysAppend<K(!new), V>(ks: seq<K>, k: K, m: map<K, V>)
    ensures NewKeys(ks + [k], m) == NewKeys(ks, m) + (if k in m then [] else [k])
  {
    assert (ks + [k])[..|ks|] == ks;
  }

  /**
    `d.update(e)`: d's keys keep their places, e's new keys follow in e's
    order, and e's values win.
   */
  function Update<K(==,!new), V>(d: Dict<K, V>, e: Dict<K, V>): (r: Dict<K, V>)
    requires d.Valid() && e.Valid()
    ensures r.Valid()
    ensures forall k :: k in r.entries <==> k in d.entries || k in e.entries
    ensures forall k :: k in r.entries ==> r.entries[k] == if k in e.entries then e.entries[k] else d.entries[k]
  {
    var n := NewKeys(e.keys, d.entries);
    var ks := d.keys + n;
    assert Distinct(ks) by {
      forall i, j | 0 <= i < j < |ks| ensures ks[i] != ks[j] {
        if j < |d.keys| {
        } else if i >= |d.keys| {
          assert ks[i] == n[i - |d.keys|] && ks[j] == n[j - |d.keys|];
        } else {
          assert ks[j] in n;
        }
      }
    }
    Dict(ks, d.entries + e.entries)
  }

  /** `update` is the same as assigning e's entries one by one in e's order. */
  lemma UpdateStep<K(!new), V>(d: Dict<K, V>, e: Dict<K, V>, k: K, v: V)
    requires d.Valid() && e.Valid() && k !in e.entries
    ensures Update(d, Set(e, k, v)) == Set(Update(d, e), k, v)
  {
    UpdateStepKeys(d, e, k, v);
    MergeAssign(d.entries, e.entries, k, v);
  }

  lemma UpdateStepKeys<K(!new), V>(d: Dict<K, V>, e: Dict<K, V>, k: K, v: V)
    requires d.Valid() && e.Valid() && k !in e.entries
    ensures Update(d, Set(e, k, v)).keys == Set(Update(d, e), k, v).keys
  {
    var n := NewKeys(e.keys, d.entries);
    var e2, u := Set(e, k, v), Update(d, e);
    assert e2.keys == e.keys + [k];
    NewKeysAppend(e.keys, k, d.entries);
    assert Update(d, e2).keys == d.keys + NewKeys(e2.keys, d.entries);
    assert u.keys == d.keys + n;
    if k in d.entries {
      assert k in u.entries;
      assert n + [] == n;
    } else {
      assert k !in u.entries;
      Assoc(d.keys, n, [k]);
    }
  }

  /** Updating with an empty dictionary changes nothing; updating an empty one copies. */
  lemma UpdateEmpty<K(!new), V>(d: Dict<K, V>)
    requires d.Valid()
    ensures Update(d, Empty()) == d
    ensures Update(Empty(), d) == d
  {
    assert NewKeys(d.keys, Empty<K, V>().entries) == d.keys by {
      NewKeysNone(d.keys, Empty<K, V>().entries);
    }
    assert [] + d.keys == d.keys;
    MergeEmpty(d.entries);
  }

  lemma {:induction false} NewKeysNone<K(!new), V>(ks: seq<K>, m: map<K, V>)
    requires m == map[]
    ensures NewKeys(ks, m) == ks
  {
    if |ks| > 0 {
      NewKeysNone(ks[..|ks| - 1], m);
      assert ks == ks[..|ks| - 1] + [ks[|ks| - 1]];
    }
  }

  lemma Assoc<K>(a: seq<K>, b: seq<K>, c: seq<K>)
    ensures (a + b) + c == a + (b + c)
  {
  }

  lemma MergeAssign<K, V>(a: map<K, V>, b: map<K, V>, k: K, v: V)
    ensures a + b[k := v] == (a + b)[k := v]
  {
  }

  lemma MergeEmpty<K, V>(a: map<K, V>)
    ensures map[] + a == a && a + map[] == a
  {
  }
}

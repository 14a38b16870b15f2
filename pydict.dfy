/**
 * Python dictionaries, which keep their keys in insertion order, as association lists.
 * The first binding of a key is the live one: lookups find it, assignment updates it
 * in place, and a new key is appended at the end.
 */
module PyDict {
  import opened Wrappers

  type Dict<K, V> = seq<(K, V)>

  /** The position of the first binding of `k`, or -1. */
  function IndexOf<K(==), V>(d: Dict<K, V>, k: K): (r: int)
    ensures -1 <= r < |d|
    ensures r >= 0 ==> d[r].0 == k
    ensures forall i :: 0 <= i < |d| && (r < 0 || i < r) ==> d[i].0 != k
  {
    if d == [] then -1
    else if d[0].0 == k then 0
    else var r := IndexOf(d[1..], k); if r < 0 then -1 else r + 1
  }

  function Keys<K, V>(d: Dict<K, V>): seq<K>
  {
    seq(|d|, i requires 0 <= i < |d| => d[i].0)
  }

  /** `k in d`. */
  predicate HasKey<K(==), V>(d: Dict<K, V>, k: K)
  {
    IndexOf(d, k) >= 0
  }

  /** No key is bound twice. */
  ghost predicate Unique<K, V>(d: Dict<K, V>)
  {
    forall i, j :: 0 <= i < j < |d| ==> d[i].0 != d[j].0
  }

  /** `d.get(k)`: the value of the first binding of `k`. */
  function Get<K(==), V>(d: Dict<K, V>, k: K): (r: Option<V>)
    ensures r.Some? <==> HasKey(d, k)
  {
    var i := IndexOf(d, k);
    if i < 0 then None else Some(d[i].1)
  }

  /** `d.get(k, default)`. */
  function GetOr<K(==), V>(d: Dict<K, V>, k: K, default: V): V
  {
    Get(d, k).GetOr(default)
  }

  /** Two dictionaries with the same keys in the same places agree on where every key is. */
  lemma SameKeysSameIndex<K, V>(d: Dict<K, V>, e: Dict<K, V>, k: K)
    requires |d| == |e| && forall i :: 0 <= i < |d| ==> d[i].0 == e[i].0
    ensures IndexOf(d, k) == IndexOf(e, k)
  {
    var x, y := IndexOf(d, k), IndexOf(e, k);
    if x >= 0 {
      assert e[x].0 == k;
    }
    if y >= 0 {
      assert d[y].0 == k;
    }
  }

  /** `d[k] = v`. */
  function Set<K(==,!new), V>(d: Dict<K, V>, k: K, v: V): (r: Dict<K, V>)
    ensures Get(r, k) == Some(v)
    ensures forall k' :: k' != k ==> Get(r, k') == Get(d, k')
    ensures |r| == if HasKey(d, k) then |d| else |d| + 1
  {
    var i := IndexOf(d, k);
    if i < 0 then
      var r := d + [(k, v)];
      assert IndexOf(r, k) == |d| by {
        var x := IndexOf(r, k);
        assert r[|d|].0 == k;
      }
      assert forall k' :: k' != k ==> IndexOf(r, k') == IndexOf(d, k') by {
        forall k' | k' != k
          ensures IndexOf(r, k') == IndexOf(d, k')
        {
          var x, y := IndexOf(r, k'), IndexOf(d, k');
          if y >= 0 {
            assert r[y] == d[y];
          }
          if x >= 0 && x < |d| {
            assert r[x] == d[x];
          }
        }
      }
      r
    else
      var r := d[i := (k, v)];
      assert forall k' :: IndexOf(r, k') == IndexOf(d, k') by {
        forall k' {
          SameKeysSameIndex(r, d, k');
        }
      }
      r
  }

  /** `del d[k]` for a present key (a missing key leaves `d` as it is). */
  function Remove<K(==), V>(d: Dict<K, V>, k: K): (r: Dict<K, V>)
    ensures |r| == if HasKey(d, k) then |d| - 1 else |d|
  {
    var i := IndexOf(d, k);
    if i < 0 then d else d[..i] + d[i + 1..]
  }

  /** Removing a key of a dictionary without repeated keys removes exactly that key. */
  lemma RemoveUnique<K(!new), V>(d: Dict<K, V>, k: K)
    requires Unique(d)
    ensures !HasKey(Remove(d, k), k)
    ensures forall k' :: k' != k ==> Get(Remove(d, k), k') == Get(d, k')
    ensures Unique(Remove(d, k))
  {
    var i := IndexOf(d, k);
    if i >= 0 {
      var r := Remove(d, k);
      assert forall n :: 0 <= n < |r| ==> r[n] == (if n < i then d[n] else d[n + 1]);
      forall k' | k' != k
        ensures Get(r, k') == Get(d, k')
      {
        var y, z := IndexOf(r, k'), IndexOf(d, k');
        if z >= 0 && z > i {
          assert r[z - 1] == d[z];
        }
        if z >= 0 && z < i {
          assert r[z] == d[z];
        }
        if y >= 0 {
          if y < i {
            assert d[y] == r[y];
          } else {
            assert d[y + 1] == r[y];
          }
        }
      }
    }
  }

  lemma SetKeepsUnique<K(!new), V>(d: Dict<K, V>, k: K, v: V)
    requires Unique(d)
    ensures Unique(Set(d, k, v))
  {
    var i := IndexOf(d, k);
    var r := Set(d, k, v);
    if i < 0 {
      assert r == d + [(k, v)];
    } else {
      assert r == d[i := (k, v)];
    }
  }

  /** The dictionary display `{keys[0]: values[0], keys[1]: values[1], ...}`. */
  function FromLists<K, V>(keys: seq<K>, values: seq<V>): (d: Dict<K, V>)
    requires |keys| == |values|
    ensures |d| == |keys|
    ensures forall i :: 0 <= i < |d| ==> d[i] == (keys[i], values[i])
  {
    seq(|keys|, i requires 0 <= i < |keys| => (keys[i], values[i]))
  }

  /** In a display whose keys are distinct, every key is bound to its own value. */
  lemma GetFromLists<K, V>(keys: seq<K>, values: seq<V>, i: nat)
    requires |keys| == |values| && i < |keys|
    requires forall a, b :: 0 <= a < b < |keys| ==> keys[a] != keys[b]
    ensures Get(FromLists(keys, values), keys[i]) == Some(values[i])
  {
    var d := FromLists(keys, values);
    assert d[i].0 == keys[i];
    var r := IndexOf(d, keys[i]);
    assert keys[r] == keys[i];
  }
  /** `{k: v for k, v in d.items() if keep(v)}`. */
  function FilterValues<K, V>(d: Dict<K, V>, keep: V -> bool): (r: Dict<K, V>)
    ensures |r| <= |d|
    ensures forall i :: 0 <= i < |r| ==> r[i] in d && keep(r[i].1)
  {
    if d == [] then []
    else if keep(d[0].1) then [d[0]] + FilterValues(d[1..], keep)
    else FilterValues(d[1..], keep)
  }

  /** The bindings after the first of a dictionary without repeated keys. */
  lemma TailUnique<K, V>(d: Dict<K, V>)
    requires d != [] && Unique(d)
    ensures Unique(d[1..])
    ensures forall i :: 0 < i < |d| ==> d[i].0 != d[0].0
  {
    var rest := d[1..];
    forall i, j | 0 <= i < j < |rest|
      ensures rest[i].0 != rest[j].0
    {
      assert rest[i] == d[i + 1] && rest[j] == d[j + 1];
    }
  }

  /** Filtering a dictionary without repeated keys keeps it so. */
  lemma {:induction false} FilterValuesUnique<K, V>(d: Dict<K, V>, keep: V -> bool)
    requires Unique(d)
    ensures Unique(FilterValues(d, keep))
  {
    if d != [] {
      var rest := d[1..];
      TailUnique(d);
      FilterValuesUnique(rest, keep);
      var fr := FilterValues(rest, keep);
      forall i | 0 <= i < |fr|
        ensures fr[i].0 != d[0].0
      {
        var j :| 0 <= j < |rest| && rest[j] == fr[i];
        assert rest[j] == d[j + 1];
      }
      if keep(d[0].1) {
        var r := [d[0]] + fr;
        assert forall i :: 0 < i < |r| ==> r[i] == fr[i - 1];
      }
    }
  }

  /** Filtering a dictionary keeps the bindings whose values pass and drops the others. */
  lemma {:induction false} GetFilterValues<K, V>(d: Dict<K, V>, keep: V -> bool, k: K)
    requires Unique(d)
    ensures Get(FilterValues(d, keep), k) == if Get(d, k).Some? && !keep(Get(d, k).value) then None else Get(d, k)
  {
    if d != [] {
      var rest := d[1..];
      TailUnique(d);
      GetFilterValues(rest, keep, k);
      if keep(d[0].1) {
        var r := [d[0]] + FilterValues(rest, keep);
        assert r[1..] == FilterValues(rest, keep);
      }
    }
  }

  /** `d.update(u)`: every binding of `u`, in order, assigned into `d`. */
  function Update<K(==,!new), V>(d: Dict<K, V>, u: Dict<K, V>): (r: Dict<K, V>)
    decreases |u|
  {
    if u == [] then d else Update(Set(d, u[0].0, u[0].1), u[1..])
  }

  /** An update takes every key of `u` from `u` and leaves the other keys of `d` alone. */
  lemma {:induction false} GetUpdate<K(!new), V>(d: Dict<K, V>, u: Dict<K, V>, k: K)
    requires Unique(u)
    ensures Get(Update(d, u), k) == if HasKey(u, k) then Get(u, k) else Get(d, k)
    decreases |u|
  {
    if u != [] {
      var rest := u[1..];
      assert Unique(rest) by {
        forall i, j | 0 <= i < j < |rest|
          ensures rest[i].0 != rest[j].0
        {
          assert rest[i] == u[i + 1] && rest[j] == u[j + 1];
        }
      }
      GetUpdate(Set(d, u[0].0, u[0].1), rest, k);
      var x := IndexOf(rest, k);
      if x >= 0 {
        assert u[x + 1].0 == k;
      }
    }
  }

  /** An assignment changes at most one binding, or adds one at the end. */
  lemma SetPositions<K(!new), V>(d: Dict<K, V>, k: K, v: V)
    ensures var r := Set(d, k, v);
      forall i :: 0 <= i < |r| ==> r[i] == (k, v) || (i < |d| && r[i] == d[i])
    ensures !HasKey(d, k) ==> Set(d, k, v) == d + [(k, v)]
  {
  }

  /** Removing the key of a binding of a dictionary without repeated keys cuts that binding out. */
  lemma RemoveAt<K, V>(d: Dict<K, V>, i: nat)
    requires i < |d| && Unique(d)
    ensures Remove(d, d[i].0) == d[..i] + d[i + 1..]
  {
    var x := IndexOf(d, d[i].0);
    assert x == i;
  }

  /** One more assignment after an update. */
  lemma {:induction false} UpdateAppend<K(!new), V>(d: Dict<K, V>, u: Dict<K, V>, k: K, v: V)
    ensures Update(d, u + [(k, v)]) == Set(Update(d, u), k, v)
    decreases |u|
  {
    if u != [] {
      assert (u + [(k, v)])[1..] == u[1..] + [(k, v)];
      UpdateAppend(Set(d, u[0].0, u[0].1), u[1..], k, v);
    } else {
      assert u + [(k, v)] == [(k, v)];
    }
  }

  /** The bindings of `d` whose keys are not in `gone`, in their order. */
  function Without<K(==), V>(d: Dict<K, V>, gone: set<K>): (r: Dict<K, V>)
    ensures |r| <= |d|
  {
    if d == [] then []
    else if d[0].0 in gone then Without(d[1..], gone)
    else [d[0]] + Without(d[1..], gone)
  }

  /** Dropping the keys in `gone` hides exactly those keys. */
  lemma {:induction false} GetWithout<K, V>(d: Dict<K, V>, gone: set<K>, k: K)
    ensures Get(Without(d, gone), k) == if k in gone then None else Get(d, k)
  {
    if d != [] {
      GetWithout(d[1..], gone, k);
      if d[0].0 !in gone {
        var r := [d[0]] + Without(d[1..], gone);
        assert r[1..] == Without(d[1..], gone);
      }
    }
  }

  /** Dropping keys keeps a dictionary free of repeated keys. */
  lemma {:induction false} WithoutUnique<K, V>(d: Dict<K, V>, gone: set<K>)
    requires Unique(d)
    ensures Unique(Without(d, gone))
    ensures forall i :: 0 <= i < |Without(d, gone)| ==> Without(d, gone)[i] in d
  {
    if d != [] {
      TailUnique(d);
      WithoutUnique(d[1..], gone);
      var w := Without(d[1..], gone);
      forall i | 0 <= i < |w|
        ensures w[i] in d && w[i].0 != d[0].0
      {
        var j :| 0 <= j < |d[1..]| && d[1..][j] == w[i];
        assert d[j + 1] == w[i];
      }
      if d[0].0 !in gone {
        var r := [d[0]] + w;
        assert forall i :: 0 < i < |r| ==> r[i] == w[i - 1];
      }
    }
  }

  /** The bindings kept from one more binding. */
  lemma {:induction false} WithoutAppend<K, V>(d: Dict<K, V>, b: (K, V), gone: set<K>)
    ensures Without(d + [b], gone) == Without(d, gone) + (if b.0 in gone then [] else [b])
  {
    if d == [] {
      assert [b][1..] == [];
    } else {
      assert (d + [b])[1..] == d[1..] + [b];
      WithoutAppend(d[1..], b, gone);
    }
  }

  /** Deleting a key from a dictionary that already lacks `gone` drops one key more. */
  lemma {:induction false} RemoveWithout<K, V>(d: Dict<K, V>, gone: set<K>, k: K)
    requires Unique(d)
    ensures Remove(Without(d, gone), k) == Without(d, gone + {k})
  {
    if d != [] {
      var rest := d[1..];
      TailUnique(d);
      if d[0].0 in gone {
        RemoveWithout(rest, gone, k);
      } else if d[0].0 == k {
        WithoutAbsent(rest, gone, k);
      } else {
        RemoveWithout(rest, gone, k);
        var w := Without(rest, gone);
        var i := IndexOf(w, k);
        assert IndexOf([d[0]] + w, k) == if i < 0 then -1 else i + 1 by {
          var x := IndexOf([d[0]] + w, k);
          if i >= 0 {
            assert ([d[0]] + w)[i + 1].0 == k;
          }
          if x > 0 {
            assert w[x - 1].0 == k;
          }
        }
        if i >= 0 {
          assert ([d[0]] + w)[..i + 1] + ([d[0]] + w)[i + 2..] == [d[0]] + (w[..i] + w[i + 1..]);
        }
      }
    }
  }

  /** Dropping a key the dictionary does not have changes nothing. */
  lemma {:induction false} WithoutAbsent<K, V>(d: Dict<K, V>, gone: set<K>, k: K)
    requires forall i :: 0 <= i < |d| ==> d[i].0 != k
    ensures Without(d, gone + {k}) == Without(d, gone)
  {
    if d != [] {
      WithoutAbsent(d[1..], gone, k);
    }
  }

  /** Dropping keys distributes over concatenation. */
  lemma {:induction false} WithoutConcat<K, V>(d: Dict<K, V>, e: Dict<K, V>, gone: set<K>)
    ensures Without(d + e, gone) == Without(d, gone) + Without(e, gone)
  {
    if d == [] {
      assert d + e == e;
    } else {
      assert (d + e)[1..] == d[1..] + e;
      WithoutConcat(d[1..], e, gone);
    }
  }

  /** A dictionary with a binding whose key is not dropped keeps something. */
  lemma WithoutKeeps<K, V>(d: Dict<K, V>, n: nat, gone: set<K>)
    requires n < |d| && d[n].0 !in gone
    ensures Without(d, gone) != []
  {
    assert d == d[..n] + d[n..];
    WithoutConcat(d[..n], d[n..], gone);
    assert d[n..][0] == d[n];
  }

  /** Dropping no key changes nothing. */
  lemma {:induction false} WithoutNothing<K, V>(d: Dict<K, V>)
    ensures Without(d, {}) == d
  {
    if d != [] {
      WithoutNothing(d[1..]);
    }
  }

  /** No key of `gone` is left. */
  lemma {:induction false} WithoutGone<K, V>(d: Dict<K, V>, gone: set<K>)
    ensures forall i :: 0 <= i < |Without(d, gone)| ==> Without(d, gone)[i].0 !in gone
  {
    if d != [] {
      WithoutGone(d[1..], gone);
      if d[0].0 !in gone {
        var r := [d[0]] + Without(d[1..], gone);
        assert forall i :: 0 < i < |r| ==> r[i] == Without(d[1..], gone)[i - 1];
      }
    }
  }
}

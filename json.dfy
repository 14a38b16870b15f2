/**
 * Parsed JSON values as Python holds them after `json.loads`, with the Python
 * operations the pipeline applies to them: truthiness, `len`, iteration, `in`,
 * `.get` and item assignment. An operation Python refuses on a value (a `.get`
 * on a string, `len` of a number) yields `None` here.
 */
module Json {
  import opened Wrappers
  import PyDict
  import Strings
  import Seqs

  /** Objects keep their members in the order the text listed them. */
  datatype Json =
    | JNull
    | JBool(b: bool)
    | JInt(i: int)
    | JStr(s: string)
    | JList(items: seq<Json>)
    | JObj(members: PyDict.Dict<string, Json>)

  /** `json.loads`: the parsed value, or `None` where it raises `JSONDecodeError`. */
  type Decoder = string -> Option<Json>

  /** Python's `bool(j)`. */
  predicate Truthy(j: Json)
  {
    match j
    case JNull => false
    case JBool(b) => b
    case JInt(i) => i != 0
    case JStr(s) => s != ""
    case JList(xs) => xs != []
    case JObj(m) => m != []
  }

  /** `bool(s)` for an optional string: neither `None` nor "". */
  predicate Given(s: Option<string>)
  {
    s.Some? && s.value != ""
  }

  /** `len(j)`: defined on strings, lists and objects; a `TypeError` otherwise. */
  function Len(j: Json): (r: Option<nat>)
    ensures r.Some? <==> (j.JStr? || j.JList? || j.JObj?)
  {
    match j
    case JStr(s) => Some(|s|)
    case JList(xs) => Some(|xs|)
    case JObj(m) => Some(|m|)
    case _ => None
  }

  /** `for x in j`: a list yields its items, a string its characters, an object its keys. */
  function Iter(j: Json): (r: Option<seq<Json>>)
    ensures r.Some? <==> Len(j).Some?
    ensures r.Some? ==> |r.value| == Len(j).value
  {
    match j
    case JList(xs) => Some(xs)
    case JStr(s) => Some(seq(|s|, i requires 0 <= i < |s| => JStr([s[i]])))
    case JObj(m) => Some(seq(|m|, i requires 0 <= i < |m| => JStr(m[i].0)))
    case _ => None
  }

  /** Lists and objects cannot be dictionary keys or set members. */
  predicate Hashable(j: Json)
  {
    !j.JList? && !j.JObj?
  }

  /** `needle in j` for a string needle: a key test on objects, a substring test on strings,
      an element test on lists; a `TypeError` on other values. */
  function In(needle: string, j: Json): (r: Option<bool>)
    ensures r.Some? <==> Len(j).Some?
  {
    match j
    case JObj(m) => Some(PyDict.HasKey(m, needle))
    case JStr(s) => Some(Strings.Contains(s, needle))
    case JList(xs) => Some(JStr(needle) in xs)
    case _ => None
  }

  /** `m.get(k, default)` on an object's members. */
  function Member(m: PyDict.Dict<string, Json>, k: string, default: Json): Json
  {
    PyDict.GetOr(m, k, default)
  }

  /** `j.get(k, default)`: an `AttributeError` unless `j` is an object. */
  function Get(j: Json, k: string, default: Json): (r: Option<Json>)
    ensures r.Some? <==> j.JObj?
  {
    if j.JObj? then Some(Member(j.members, k, default)) else None
  }

  /** Shorthand for a JSON string. */
  function Str(s: string): Json
  {
    JStr(s)
  }

  const Empty: Json := JStr("")

  /** `str(j)`: exact for scalars; the text of a list or an object is `repr`'s. */
  function PyStr(j: Json, repr: Json -> string): (r: string)
    ensures j.JStr? ==> r == j.s
  {
    match j
    case JNull => "None"
    case JBool(b) => if b then "True" else "False"
    case JInt(i) => Strings.IntToString(i)
    case JStr(s) => s
    case _ => repr(j)
  }

  /** The value a hashable key is compared by in a `dict` or a `set`: `True` is the key `1`
      and `False` the key `0`. */
  function Key(j: Json): (k: Json)
    ensures !k.JBool?
    ensures !j.JBool? ==> k == j
  {
    if j.JBool? then JInt(if j.b then 1 else 0) else j
  }

  /** Items grouped under a key, in the order the keys were first seen; each entry keeps the
      key value it was first seen with. */
  type Groups = seq<(Json, seq<Json>)>

  /** The entry of key `k`, or -1. */
  function GroupIndex(g: Groups, k: Json): (r: int)
    ensures -1 <= r < |g|
    ensures r >= 0 ==> Key(g[r].0) == Key(k)
    ensures r < 0 ==> forall i :: 0 <= i < |g| ==> Key(g[i].0) != Key(k)
  {
    if g == [] then -1
    else
      var r := GroupIndex(g[..|g| - 1], k);
      if r >= 0 then r else if Key(g[|g| - 1].0) == Key(k) then |g| - 1 else -1
  }

  /** The items grouped under `k`. */
  function GroupItems(g: Groups, k: Json): seq<Json>
  {
    var i := GroupIndex(g, k);
    if i < 0 then [] else g[i].1
  }

  /** `groups.setdefault(k, []).append(item)`, written out as a membership test and an append. */
  function AddToGroup(g: Groups, k: Json, item: Json): (r: Groups)
    ensures GroupItems(r, k) == GroupItems(g, k) + [item]
    ensures forall k' :: Key(k') != Key(k) ==> GroupItems(r, k') == GroupItems(g, k')
  {
    var i := GroupIndex(g, k);
    if i < 0 then
      var r := g + [(k, [item])];
      assert r[..|r| - 1] == g;
      r
    else
      var r := g[i := (g[i].0, g[i].1 + [item])];
      GroupIndexSameKeys(r, g);
      r
  }

  /** Keys that hash alike find the same entry. */
  lemma {:induction false} GroupIndexByKey(g: Groups, a: Json, b: Json)
    requires Key(a) == Key(b)
    ensures GroupIndex(g, a) == GroupIndex(g, b)
  {
    if g != [] {
      GroupIndexByKey(g[..|g| - 1], a, b);
    }
  }

  /** Groups with the same keys in the same places agree on every entry's position. */
  lemma {:induction false} GroupIndexSameKeys(g: Groups, h: Groups)
    requires |g| == |h| && forall i :: 0 <= i < |g| ==> g[i].0 == h[i].0
    ensures forall k :: GroupIndex(g, k) == GroupIndex(h, k)
  {
    if g != [] {
      GroupIndexSameKeys(g[..|g| - 1], h[..|h| - 1]);
    }
  }

  /** The key an item is grouped by, `item.get(field, default)`, or `None` where reading it
      raises: the item is not an object, or the key is a list or an object and cannot be hashed. */
  function FieldKey(field: string, default: Json): Json -> Option<Json>
  {
    (item: Json) =>
      if item.JObj? && Hashable(Member(item.members, field, default))
      then Some(Member(item.members, field, default)) else None
  }

  /** Grouping `items` (`groups.setdefault(keyOf(item), []).append(item)`, in the source an
      if-then-append); `None` where the loop raises. */
  function GroupBy(items: seq<Json>, keyOf: Json -> Option<Json>): Option<Groups>
  {
    if items == [] then Some([])
    else
      match GroupBy(items[..|items| - 1], keyOf)
      case None => None
      case Some(g) =>
        var item := items[|items| - 1];
        match keyOf(item)
        case None => None
        case Some(k) => Some(AddToGroup(g, k, item))
  }

  /** The test that an item belongs under key `k`. */
  function HasKey(keyOf: Json -> Option<Json>, k: Json): Json -> bool
  {
    (item: Json) => keyOf(item).Some? && Key(keyOf(item).value) == Key(k)
  }

  /** Grouping raises exactly when some item's key cannot be read. */
  lemma {:induction false} GroupByRaises(items: seq<Json>, keyOf: Json -> Option<Json>)
    ensures GroupBy(items, keyOf).None? <==> exists i :: 0 <= i < |items| && keyOf(items[i]).None?
  {
    if items != [] {
      var init := items[..|items| - 1];
      GroupByRaises(init, keyOf);
      assert forall i :: 0 <= i < |init| ==> init[i] == items[i];
      if GroupBy(init, keyOf).Some? && keyOf(items[|items| - 1]).Some? {
        forall i | 0 <= i < |items|
          ensures keyOf(items[i]).Some?
        {
          if i < |init| {
            assert items[i] == init[i];
          }
        }
      }
    }
  }

  /** A grouping that does not raise has an entry exactly when there are items, every entry
      lists at least one item, and every entry's key is the key of one of the items. */
  lemma {:induction false} GroupByEntries(items: seq<Json>, keyOf: Json -> Option<Json>)
    requires GroupBy(items, keyOf).Some?
    ensures var g := GroupBy(items, keyOf).value;
      (g == [] <==> items == [])
      && forall j :: 0 <= j < |g| ==>
           g[j].1 != [] && exists i :: 0 <= i < |items| && keyOf(items[i]) == Some(g[j].0)
  {
    if items != [] {
      var init := items[..|items| - 1];
      GroupByEntries(init, keyOf);
      var g0 := GroupBy(init, keyOf).value;
      var item := items[|items| - 1];
      var k := keyOf(item).value;
      assert GroupBy(items, keyOf).value == AddToGroup(g0, k, item);
      AddToGroupEntries(g0, k, item);
      var g := AddToGroup(g0, k, item);
      forall j | 0 <= j < |g|
        ensures g[j].1 != [] && exists i :: 0 <= i < |items| && keyOf(items[i]) == Some(g[j].0)
      {
        if j < |g0| {
          var i :| 0 <= i < |init| && keyOf(init[i]) == Some(g0[j].0);
          assert items[i] == init[i];
        } else {
          assert keyOf(items[|items| - 1]) == Some(g[j].0);
        }
      }
    }
  }

  /** Adding an item keeps every entry's key in place and leaves no entry empty; a new entry
      goes last, under the item's key. */
  lemma AddToGroupEntries(g: Groups, k: Json, item: Json)
    requires forall j :: 0 <= j < |g| ==> g[j].1 != []
    ensures var r := AddToGroup(g, k, item);
      |g| <= |r| <= |g| + 1 && r != []
      && (forall j :: 0 <= j < |g| ==> r[j].0 == g[j].0)
      && (forall j :: 0 <= j < |r| ==> r[j].1 != [])
      && (|r| > |g| ==> r[|g|].0 == k)
  {
  }

  /** Every key's entry lists exactly the items with that key, in their order. */
  lemma {:induction false} GroupByFilters(items: seq<Json>, keyOf: Json -> Option<Json>, k: Json)
    requires GroupBy(items, keyOf).Some?
    ensures GroupItems(GroupBy(items, keyOf).value, k) == Seqs.Filter(items, HasKey(keyOf, k))
  {
    if items != [] {
      var init := items[..|items| - 1];
      var item := items[|items| - 1];
      GroupByFilters(init, keyOf, k);
      var g := GroupBy(init, keyOf).value;
      var kk := keyOf(item).value;
      assert GroupBy(items, keyOf).value == AddToGroup(g, kk, item);
      if Key(kk) == Key(k) {
        GroupIndexByKey(g, k, kk);
        GroupIndexByKey(AddToGroup(g, kk, item), k, kk);
        assert GroupItems(AddToGroup(g, kk, item), k) == GroupItems(g, k) + [item];
      } else {
        assert GroupItems(AddToGroup(g, kk, item), k) == GroupItems(g, k);
      }
    }
  }

  /** No key has two entries. */
  lemma {:induction false} GroupKeysDistinct(items: seq<Json>, keyOf: Json -> Option<Json>)
    requires GroupBy(items, keyOf).Some?
    ensures var g := GroupBy(items, keyOf).value;
      forall i, j :: 0 <= i < j < |g| ==> Key(g[i].0) != Key(g[j].0)
  {
    if items != [] {
      GroupKeysDistinct(items[..|items| - 1], keyOf);
    }
  }

  /** The grouping loop. */
  method GroupItemsBy(items: seq<Json>, keyOf: Json -> Option<Json>) returns (r: Option<Groups>)
    ensures r == GroupBy(items, keyOf)
  {
    var g: Groups := [];
    var n := 0;
    while n < |items|
      invariant 0 <= n <= |items|
      invariant GroupBy(items[..n], keyOf) == Some(g)
    {
      assert items[..n + 1][..n] == items[..n];
      var k := keyOf(items[n]);
      if k.None? {
        GroupByStaysRaised(items, keyOf, n + 1);
        return None;
      }
      g := AddToGroup(g, k.value, items[n]);
      n := n + 1;
    }
    assert items[..n] == items;
    r := Some(g);
  }

  /** Once the grouping of a prefix raises, so does the grouping of every longer prefix. */
  lemma {:induction false} GroupByStaysRaised(items: seq<Json>, keyOf: Json -> Option<Json>, n: nat)
    requires n <= |items| && GroupBy(items[..n], keyOf).None?
    ensures GroupBy(items, keyOf).None?
    decreases |items| - n
  {
    if n < |items| {
      assert items[..n + 1][..n] == items[..n];
      GroupByStaysRaised(items, keyOf, n + 1);
    } else {
      assert items[..n] == items;
    }
  }
}

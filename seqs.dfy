/**
 * The two loop shapes the post-processing code is built from, over any element type: a
 * filter that keeps the items a test accepts, and a checking loop that keeps some items,
 * skips others and stops with an exception on the first item it cannot handle.
 */
module Seqs {
  import opened Wrappers

  /** The items of `xs` that `keep` accepts, in their order. */
  function Filter<T>(xs: seq<T>, keep: T -> bool): (r: seq<T>)
    ensures |r| <= |xs|
  {
    if xs == [] then []
    else
      var init := Filter(xs[..|xs| - 1], keep);
      if keep(xs[|xs| - 1]) then init + [xs[|xs| - 1]] else init
  }

  /** The filter keeps exactly the accepted items. */
  lemma {:induction false} FilterExact<T>(xs: seq<T>, keep: T -> bool)
    ensures forall k :: 0 <= k < |Filter(xs, keep)| ==> keep(Filter(xs, keep)[k]) && Filter(xs, keep)[k] in xs
    ensures forall k :: 0 <= k < |xs| && keep(xs[k]) ==> xs[k] in Filter(xs, keep)
  {
    if xs != [] {
      var init := xs[..|xs| - 1];
      FilterExact(init, keep);
      assert forall k :: 0 <= k < |init| ==> init[k] == xs[k];
      forall k | 0 <= k < |xs| && keep(xs[k])
        ensures xs[k] in Filter(xs, keep)
      {
        if k < |init| {
          assert xs[k] == init[k];
        }
      }
    }
  }

  /** Filtering one more item of a prefix appends it when it is accepted. */
  lemma FilterStep<T>(xs: seq<T>, k: nat, keep: T -> bool)
    requires k < |xs|
    ensures Filter(xs[..k + 1], keep) == if keep(xs[k]) then Filter(xs[..k], keep) + [xs[k]] else Filter(xs[..k], keep)
  {
    var s := xs[..k + 1];
    assert s[..|s| - 1] == xs[..k];
    assert s[|s| - 1] == xs[k];
  }

  /** A filter that accepts every item is the identity. */
  lemma {:induction false} FilterAll<T>(xs: seq<T>, keep: T -> bool)
    requires forall k :: 0 <= k < |xs| ==> keep(xs[k])
    ensures Filter(xs, keep) == xs
  {
    if xs != [] {
      var init := xs[..|xs| - 1];
      assert forall k :: 0 <= k < |init| ==> init[k] == xs[k];
      FilterAll(init, keep);
      assert init + [xs[|xs| - 1]] == xs;
    }
  }

  /** What a checking loop does with one item. */
  datatype Verdict<U> = Keep(record: U) | Skip | Crash

  /** The records a checking loop collects, or `None` when an item makes it raise. */
  function Collect<T, U>(xs: seq<T>, check: T -> Verdict<U>): Option<seq<U>>
  {
    if xs == [] then Some([])
    else
      match Collect(xs[..|xs| - 1], check)
      case None => None
      case Some(acc) =>
        match check(xs[|xs| - 1])
        case Crash => None
        case Skip => Some(acc)
        case Keep(r) => Some(acc + [r])
  }

  /** The records of the kept items, in their order, ignoring crashes. */
  function Kept<T, U>(xs: seq<T>, check: T -> Verdict<U>): (r: seq<U>)
    ensures |r| <= |xs|
  {
    if xs == [] then []
    else
      var init := Kept(xs[..|xs| - 1], check);
      match check(xs[|xs| - 1])
      case Keep(r) => init + [r]
      case _ => init
  }

  /** Once an item makes the loop raise, so does every longer prefix. */
  lemma {:induction false} CollectCrashes<T, U>(xs: seq<T>, k: nat, check: T -> Verdict<U>)
    requires 0 < k <= |xs|
    requires check(xs[k - 1]).Crash?
    ensures Collect(xs, check).None?
    decreases |xs|
  {
    if k < |xs| {
      var init := xs[..|xs| - 1];
      assert init[..k] == xs[..k];
      assert init[k - 1] == xs[k - 1];
      CollectCrashes(init, k, check);
    } else {
      assert xs[..|xs| - 1] == xs[..k - 1];
    }
  }

  /** The loop raises exactly when some item makes it raise, and otherwise collects the kept
      records in their order. */
  lemma {:induction false} CollectIsKept<T, U>(xs: seq<T>, check: T -> Verdict<U>)
    ensures Collect(xs, check).None? <==> exists k :: 0 <= k < |xs| && check(xs[k]).Crash?
    ensures Collect(xs, check).Some? ==> Collect(xs, check).value == Kept(xs, check)
  {
    if xs != [] {
      var init := xs[..|xs| - 1];
      CollectIsKept(init, check);
      assert forall k :: 0 <= k < |init| ==> init[k] == xs[k];
      if Collect(init, check).None? {
        var k :| 0 <= k < |init| && check(init[k]).Crash?;
        assert check(xs[k]).Crash?;
      } else if !check(xs[|xs| - 1]).Crash? {
        forall k | 0 <= k < |xs|
          ensures !check(xs[k]).Crash?
        {
          if k < |init| {
            assert xs[k] == init[k];
          }
        }
      }
    }
  }

  /** The positions of the kept items. */
  function KeptPositions<T, U>(xs: seq<T>, check: T -> Verdict<U>): seq<nat>
  {
    if xs == [] then []
    else
      var init := KeptPositions(xs[..|xs| - 1], check);
      if check(xs[|xs| - 1]).Keep? then init + [|xs| - 1] else init
  }

  /** Record `i` is the record of the item at position `i` of the kept positions; the positions
      ascend, and every kept item's position is among them: the loop is a filter followed by a map. */
  lemma {:induction false} KeptInOrder<T, U>(xs: seq<T>, check: T -> Verdict<U>)
    ensures |KeptPositions(xs, check)| == |Kept(xs, check)|
    ensures forall i :: 0 <= i < |KeptPositions(xs, check)| ==>
      KeptPositions(xs, check)[i] < |xs| && check(xs[KeptPositions(xs, check)[i]]) == Keep(Kept(xs, check)[i])
    ensures forall i, j :: 0 <= i < j < |KeptPositions(xs, check)| ==> KeptPositions(xs, check)[i] < KeptPositions(xs, check)[j]
    ensures forall k :: 0 <= k < |xs| && check(xs[k]).Keep? ==> k in KeptPositions(xs, check)
  {
    if xs != [] {
      var init := xs[..|xs| - 1];
      KeptInOrder(init, check);
      assert forall k :: 0 <= k < |init| ==> init[k] == xs[k];
    }
  }

  /** A loop over items none of which is kept collects nothing. */
  lemma {:induction false} KeptNone<T, U>(xs: seq<T>, check: T -> Verdict<U>)
    requires forall k :: 0 <= k < |xs| ==> !check(xs[k]).Keep?
    ensures Kept(xs, check) == []
  {
    if xs != [] {
      var init := xs[..|xs| - 1];
      assert forall k :: 0 <= k < |init| ==> init[k] == xs[k];
      KeptNone(init, check);
    }
  }
  /** The position of the first item `p` accepts, or -1. */
  function FirstIndex<T>(xs: seq<T>, p: T -> bool): (r: int)
    ensures -1 <= r < |xs|
    ensures r >= 0 ==> p(xs[r])
    ensures forall i :: 0 <= i < |xs| && (r < 0 || i < r) ==> !p(xs[i])
  {
    if xs == [] then -1
    else if p(xs[0]) then 0
    else var r := FirstIndex(xs[1..], p); if r < 0 then -1 else r + 1
  }

  /** Python's normalisation of a slice bound against a length: a negative bound counts from
      the end, and the result is clamped to `0..n`. */
  function SliceBound(i: int, n: nat): (r: nat)
    ensures r <= n
    ensures 0 <= i <= n ==> r == i
    ensures i > n ==> r == n
  {
    if i < 0 then (if i + n < 0 then 0 else i + n) else if i > n then n else i
  }

  /** `xs[start:stop]`. */
  function Slice<T>(xs: seq<T>, start: int, stop: int): (r: seq<T>)
    ensures var a, b := SliceBound(start, |xs|), SliceBound(stop, |xs|);
      |r| == (if a <= b then b - a else 0) && forall j :: 0 <= j < |r| ==> r[j] == xs[a + j]
  {
    var a, b := SliceBound(start, |xs|), SliceBound(stop, |xs|);
    if a <= b then xs[a..b] else []
  }

  /** The loop `for x in xs: if p(x): return` that stops at the first accepted item. */
  method FindFirst<T>(xs: seq<T>, p: T -> bool) returns (i: int)
    ensures i == FirstIndex(xs, p)
  {
    var k := 0;
    while k < |xs|
      invariant 0 <= k <= |xs|
      invariant forall j :: 0 <= j < k ==> !p(xs[j])
    {
      if p(xs[k]) {
        return k;
      }
      k := k + 1;
    }
    return -1;
  }
}

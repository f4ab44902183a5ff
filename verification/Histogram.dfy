/** The exact latency histogram of metrics/src/stat.rs against the sorted list it stands for. */
module Histogram {
  import opened Seqs
  import opened Words
  import opened Modular

  /** One key of the ordered map with its count. */
  datatype Point = Point(value: nat, count: nat)

  datatype State = State(points: seq<Point>, sum: nat, count: nat)

  datatype Observation = Observation(value: nat, times: nat)

  function Repeat(x: nat, times: nat): (xs: seq<nat>)
    ensures |xs| == times && forall i :: 0 <= i < times ==> xs[i] == x
  {
    seq(times, _ => x)
  }

  /** Every observation written out, in key order. */
  function Expand(points: seq<Point>): seq<nat> {
    if points == [] then [] else Repeat(points[0].value, points[0].count) + Expand(points[1..])
  }

  /** Keys increase strictly and no count is zero. */
  predicate Ordered(points: seq<Point>) {
    && (forall i, j :: 0 <= i < j < |points| ==> points[i].value < points[j].value)
    && (forall i :: 0 <= i < |points| ==> points[i].count > 0)
  }

  predicate Sorted(xs: seq<nat>) {
    forall i, j :: 0 <= i < j < |xs| ==> xs[i] <= xs[j]
  }

  /** `*points.entry(value).or_default() += times` on the ordered map. */
  function Insert(points: seq<Point>, value: nat, times: nat): seq<Point> {
    if points == [] || value < points[0].value then [Point(value, times)] + points
    else if value == points[0].value then [Point(value, points[0].count + times)] + points[1..]
    else [points[0]] + Insert(points[1..], value, times)
  }

  /** `usize::saturating_mul`. */
  function SaturatingMul(a: nat, b: nat): nat {
    if a * b < U64 then a * b else U64 - 1
  }

  function Observe(s: State, o: Observation): State {
    if o.times == 0 then s
    else State(Insert(s.points, o.value, o.times), (s.sum + SaturatingMul(o.value, o.times)) % U64, s.count + o.times)
  }

  const EMPTY := State([], 0, 0)

  function ObserveAll(obs: seq<Observation>): State {
    if obs == [] then EMPTY else Observe(ObserveAll(obs[..|obs| - 1]), obs[|obs| - 1])
  }

  /** The observations as a multiset of values. */
  ghost function Observed(obs: seq<Observation>): multiset<nat> {
    if obs == [] then multiset{}
    else Observed(obs[..|obs| - 1]) + multiset(Repeat(obs[|obs| - 1].value, obs[|obs| - 1].times))
  }

  function TrueSum(obs: seq<Observation>): nat {
    if obs == [] then 0 else TrueSum(obs[..|obs| - 1]) + obs[|obs| - 1].value * obs[|obs| - 1].times
  }

  // ---- The map stands for the sorted list ------------------------------------------------

  /** Every key of `points` is above `low`. */
  predicate Above(low: int, points: seq<Point>) {
    forall i :: 0 <= i < |points| ==> low < points[i].value
  }

  lemma ConsOrdered(p: Point, points: seq<Point>)
    requires Ordered(points) && Above(p.value, points) && p.count > 0
    ensures Ordered([p] + points)
  {
    var all := [p] + points;
    forall i, j | 0 <= i < j < |all| ensures all[i].value < all[j].value {
      assert all[j] == points[j - 1];
    }
  }

  lemma {:induction false} InsertOrdered(points: seq<Point>, value: nat, times: nat, low: int)
    requires Ordered(points) && times > 0
    requires Above(low, points) && low < value
    ensures Ordered(Insert(points, value, times)) && Above(low, Insert(points, value, times))
  {
    if points == [] || value < points[0].value {
      ConsOrdered(Point(value, times), points);
    } else {
      var p, rest := points[0], points[1..];
      if value == p.value {
        ConsOrdered(Point(value, p.count + times), rest);
      } else {
        InsertOrdered(rest, value, times, p.value);
        ConsOrdered(p, Insert(rest, value, times));
      }
    }
  }

  lemma RepeatConcat(x: nat, a: nat, b: nat)
    ensures Repeat(x, a + b) == Repeat(x, a) + Repeat(x, b)
  {
  }

  lemma {:induction false} InsertExpands(points: seq<Point>, value: nat, times: nat)
    ensures multiset(Expand(Insert(points, value, times))) == multiset(Expand(points)) + multiset(Repeat(value, times))
  {
    if points == [] || value < points[0].value {
      assert Insert(points, value, times)[1..] == points;
    } else if value == points[0].value {
      assert Insert(points, value, times)[1..] == points[1..];
      RepeatConcat(value, points[0].count, times);
    } else {
      assert Insert(points, value, times)[1..] == Insert(points[1..], value, times);
      InsertExpands(points[1..], value, times);
    }
  }

  lemma RepeatThenSorted(x: nat, times: nat, xs: seq<nat>)
    requires Sorted(xs) && forall i :: 0 <= i < |xs| ==> x <= xs[i]
    ensures Sorted(Repeat(x, times) + xs)
  {
  }

  lemma {:induction false} ExpandAbove(points: seq<Point>, low: int)
    requires Above(low, points)
    ensures forall i :: 0 <= i < |Expand(points)| ==> low < Expand(points)[i]
  {
    if points != [] {
      ExpandAbove(points[1..], low);
    }
  }

  lemma {:induction false} ExpandSorted(points: seq<Point>)
    requires Ordered(points)
    ensures Sorted(Expand(points))
  {
    if points != [] {
      ExpandSorted(points[1..]);
      ExpandAbove(points[1..], points[0].value);
      RepeatThenSorted(points[0].value, points[0].count, Expand(points[1..]));
    }
  }

  /** After any observations: the expanded map is the sorted list of exactly those observations, and
      the count is its length. */
  lemma {:induction false} StandsForSortedList(obs: seq<Observation>)
    ensures var s := ObserveAll(obs);
      && Ordered(s.points) && Sorted(Expand(s.points))
      && multiset(Expand(s.points)) == Observed(obs) && s.count == |Expand(s.points)|
  {
    var s := ObserveAll(obs);
    if obs != [] {
      var o, before := obs[|obs| - 1], ObserveAll(obs[..|obs| - 1]);
      StandsForSortedList(obs[..|obs| - 1]);
      if o.times == 0 {
        assert Repeat(o.value, 0) == [];
      } else {
        InsertOrdered(before.points, o.value, o.times, -1);
        InsertExpands(before.points, o.value, o.times);
        assert |multiset(Expand(s.points))| == |multiset(Expand(before.points))| + o.times;
      }
    }
    ExpandSorted(s.points);
  }

  /** The running sum is the true sum exactly while the true sum fits 64 bits. */
  lemma {:induction false} SumIsExact(obs: seq<Observation>)
    ensures ObserveAll(obs).sum == TrueSum(obs) <==> TrueSum(obs) < U64
  {
    SumBelow(obs);
    if TrueSum(obs) < U64 {
      SumWhileSmall(obs);
    }
  }

  lemma {:induction false} SumBelow(obs: seq<Observation>)
    ensures ObserveAll(obs).sum < U64
  {
    if obs != [] {
      SumBelow(obs[..|obs| - 1]);
    }
  }

  lemma {:induction false} SumWhileSmall(obs: seq<Observation>)
    requires TrueSum(obs) < U64
    ensures ObserveAll(obs).sum == TrueSum(obs)
  {
    if obs != [] {
      var o := obs[|obs| - 1];
      assert o.value * o.times >= 0;
      SumWhileSmall(obs[..|obs| - 1]);
      if o.times == 0 {
        assert o.value * 0 == 0;
      }
    }
  }

  // ---- Percentiles -----------------------------------------------------------------------

  /** `count * pct1000 / 1000` in 64-bit arithmetic. */
  function PercentileIndex(count: nat, p: nat): nat {
    count * p % U64 / 1000
  }

  /** The index is the per-mille position exactly while the product fits 64 bits. */
  lemma IndexIsExact(count: nat, p: nat)
    ensures PercentileIndex(count, p) == count * p / 1000 <==> count * p < U64
  {
    var x := count * p;
    if x >= U64 {
      assert x % U64 <= x - U64;
    }
  }

  /** A per-mille below 1000 is always inside a non-empty histogram; while the product fits 64 bits,
      1000 and more are always outside. */
  lemma IndexInside(count: nat, p: nat)
    requires count > 0
    ensures p < 1000 ==> PercentileIndex(count, p) < count
    ensures count * p < U64 ==> (PercentileIndex(count, p) < count <==> p < 1000)
  {
    if p < 1000 {
      MulAtLeast(1000 - p, count);
      Truncated(count * p, count);
    } else {
      MulAtLeast(p - 999, count);
    }
  }

  lemma Truncated(x: nat, count: nat)
    requires x < 1000 * count
    ensures x % U64 / 1000 < count
  {
    assert x % U64 <= x;
  }

  lemma {:induction false} ExpandSnoc(points: seq<Point>, k: nat)
    requires k < |points|
    ensures Expand(points[..k + 1]) == Expand(points[..k]) + Repeat(points[k].value, points[k].count)
    decreases k
  {
    if k > 0 {
      var rest := points[1..];
      ExpandSnoc(rest, k - 1);
      assert points[..k + 1][1..] == rest[..k] && points[..k][1..] == rest[..k - 1];
    } else {
      assert points[..1][1..] == [];
    }
  }

  lemma {:induction false} ExpandPrefix(points: seq<Point>, k: nat)
    requires k <= |points|
    ensures Expand(points[..k]) <= Expand(points)
    decreases |points| - k
  {
    if k < |points| {
      ExpandSnoc(points, k);
      ExpandPrefix(points, k + 1);
    } else {
      assert points[..k] == points;
    }
  }

  /** The outcome of a percentile query. */
  datatype Answer = Empty | Panic | Values(values: seq<nat>)

  class PreciseHistogram {
    var points: seq<Point>
    var sum: nat
    var count: nat

    ghost function View(): State
      reads this
    {
      State(points, sum, count)
    }

    /** The count is the length of the list the map stands for. */
    ghost predicate Valid()
      reads this
    {
      Ordered(points) && count == |Expand(points)|
    }

    /** `values` holds, for each percentile, the element of the sorted list at its index. */
    ghost predicate Answers(pcts: seq<nat>, values: seq<nat>)
      reads this
    {
      && |values| == |pcts|
      && forall i :: 0 <= i < |pcts| ==> AtPercentile(pcts[i], values[i])
    }

    ghost predicate AtPercentile(p: nat, value: nat)
      reads this
    {
      var target := PercentileIndex(count, p);
      target < |Expand(points)| && value == Expand(points)[target]
    }

    constructor ()
      ensures Valid() && View() == EMPTY
    {
      points, sum, count := [], 0, 0;
    }

    method ObserveN(value: nat, times: nat)
      requires Valid()
      modifies this
      ensures Valid() && View() == Observe(old(View()), Observation(value, times))
    {
      if times == 0 {
        return;
      }
      InsertOrdered(points, value, times, -1);
      InsertExpands(points, value, times);
      assert |multiset(Expand(Insert(points, value, times)))| == |multiset(Expand(points))| + times;
      points := Insert(points, value, times);
      sum := (sum + SaturatingMul(value, times)) % U64;
      count := count + times;
    }

    method Clear()
      modifies this
      ensures Valid() && View() == EMPTY
    {
      points := [];
      sum := 0;
      count := 0;
    }

    /** Scans the map in key order with a running count. */
    method Find(target: nat) returns (point: Option<nat>)
      requires Valid()
      ensures point == if target < |Expand(points)| then Some(Expand(points)[target]) else None
    {
      var seen := 0;
      for i := 0 to |points|
        invariant seen == |Expand(points[..i])| <= target
      {
        ExpandSnoc(points, i);
        ExpandPrefix(points, i + 1);
        seen := seen + points[i].count;
        if seen > target {
          return Some(points[i].value);
        }
      }
      assert points[..|points|] == points;
      return None;
    }

    /** Each percentile is the element of the sorted list at its per-mille index; the query panics
        exactly when the histogram is non-empty and some index is past its end, so never for
        percentiles below 1000. */
    method Percentiles(pcts: seq<nat>) returns (a: Answer)
      requires Valid()
      ensures a.Empty? <==> count == 0
      ensures a.Panic? <==> count > 0 && exists i :: 0 <= i < |pcts| && PercentileIndex(count, pcts[i]) >= count
      ensures (forall i :: 0 <= i < |pcts| ==> pcts[i] < 1000) ==> !a.Panic?
      ensures a.Values? ==> Answers(pcts, a.values)
    {
      if count == 0 {
        return Empty;
      }
      var values := [];
      for i := 0 to |pcts|
        invariant Answers(pcts[..i], values)
        invariant forall k :: 0 <= k < i ==> PercentileIndex(count, pcts[k]) < count
      {
        var target := PercentileIndex(count, pcts[i]);
        IndexInside(count, pcts[i]);
        var point := Find(target);
        if point.None? {
          return Panic;
        }
        values := values + [point.value];
      }
      assert pcts[..|pcts|] == pcts;
      return Values(values);
    }

    /** The greatest observation. */
    method Max() returns (m: Option<nat>)
      requires Valid()
      ensures m.None? <==> count == 0
      ensures m.Some? ==> m.value in Expand(points) && forall x :: x in Expand(points) ==> x <= m.value
    {
      if points == [] {
        return None;
      }
      var last := |points| - 1;
      ExpandSnoc(points, last);
      assert points[..last + 1] == points;
      ghost var all := Expand(points);
      assert all[|all| - 1] == points[last].value;
      ExpandSorted(points);
      forall x | x in all ensures x <= points[last].value {
        var i :| 0 <= i < |all| && all[i] == x;
      }
      return Some(points[last].value);
    }
  }
}

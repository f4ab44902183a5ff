/** The backlog of open views of docker-bench/recovery_report.py against its time-indexed meaning. */
module Backlog {
  import opened Seqs
  import opened Timeline

  datatype Kind = CompletedOpen | Seal | Other

  datatype Event = Event(at: int, kind: Kind, view: int)

  predicate Counted(e: Event, cutoff: Option<int>) {
    !e.kind.Other? && (cutoff.Some? ==> e.at <= cutoff.value)
  }

  function ItemOf(e: Event): Item {
    Item(e.at, e.kind.CompletedOpen?, e.view)
  }

  function Items(events: seq<Event>, cutoff: Option<int>): seq<Item> {
    if events == [] then []
    else
      var rest, e := Items(events[..|events| - 1], cutoff), events[|events| - 1];
      if Counted(e, cutoff) then rest + [ItemOf(e)] else rest
  }

  /** The timeline holds exactly the completed openings and sealings up to the cutoff. */
  lemma {:induction false} ItemsMember(events: seq<Event>, cutoff: Option<int>, x: Item)
    ensures x in Items(events, cutoff) <==> exists e :: e in events && Counted(e, cutoff) && ItemOf(e) == x
  {
    if events != [] {
      var front, e := events[..|events| - 1], events[|events| - 1];
      ItemsMember(front, cutoff, x);
      assert events == front + [e];
      if x in Items(events, cutoff) && !(Counted(e, cutoff) && ItemOf(e) == x) {
        var f :| f in front && Counted(f, cutoff) && ItemOf(f) == x;
        assert f in events;
      }
    }
  }

  /** What the gauge holds after `xs`: opened and not sealed. */
  ghost function Gauge(xs: seq<Item>): set<int> {
    Views(xs, Opens()) - Views(xs, Seals())
  }

  /** The views open at instant `t`: opened by then and not sealed before it. */
  ghost function OpenAt(xs: seq<Item>, t: int): set<int> {
    Views(xs, OpensBy(t)) - Views(xs, SealsBefore(t))
  }

  lemma {:induction false} ViewsSnoc(xs: seq<Item>, x: Item, p: Item -> bool)
    ensures Views(xs + [x], p) == Views(xs, p) + if p(x) then {x.view} else {}
  {
    if xs == [] {
      assert xs + [x] == [x];
    } else {
      ViewsSnoc(xs[1..], x, p);
      assert (xs + [x])[1..] == xs[1..] + [x];
    }
  }

  /** Sorting does not change the views. */
  lemma SortViews(xs: seq<Item>, p: Item -> bool)
    ensures Views(Sort(xs), p) == Views(xs, p)
  {
    forall x ensures x in Sort(xs) <==> x in xs {
      SortMember(xs, x);
    }
    ViewsWithin(xs, p, Sort(xs), p);
    ViewsWithin(Sort(xs), p, xs, p);
  }

  /** At the cut of instant `t`, the gauge of the sorted prefix is the set open at `t`. */
  lemma GaugeAtCut(xs: seq<Item>, k: nat, t: int)
    requires k <= |xs|
    requires forall i :: 0 <= i < |xs| ==> (Early(xs[i], t) <==> i < k)
    ensures Gauge(xs[..k]) == OpenAt(xs, t)
  {
    CutViews(xs, k, t, Opens(), OpensBy(t));
    CutViews(xs, k, t, Seals(), SealsBefore(t));
  }

  lemma CutViews(xs: seq<Item>, k: nat, t: int, p: Item -> bool, q: Item -> bool)
    requires k <= |xs|
    requires forall i :: 0 <= i < |xs| ==> (Early(xs[i], t) <==> i < k)
    requires forall x: Item :: q(x) <==> p(x) && Early(x, t)
    ensures Views(xs[..k], p) == Views(xs, q)
  {
    forall x | x in xs[..k] && p(x) ensures x in xs && q(x) {
      var i :| 0 <= i < k && xs[i] == x;
    }
    forall x | x in xs && q(x) ensures x in xs[..k] && p(x) {
      var i :| 0 <= i < |xs| && xs[i] == x;
      assert xs[..k][i] == x;
    }
    ViewsWithin(xs[..k], p, xs, q);
    ViewsWithin(xs, q, xs[..k], p);
  }

  /** Along the sorted timeline the gauge never exceeds the set open at the instant reached. */
  lemma GaugeWithinOpen(xs: seq<Item>, k: nat)
    requires Sorted(xs) && 0 < k <= |xs|
    ensures Gauge(xs[..k]) <= OpenAt(xs, xs[k - 1].at)
  {
    var t := xs[k - 1].at;
    forall x | x in xs[..k] && Opens()(x) ensures x in xs && OpensBy(t)(x) {
      var i :| 0 <= i < k && xs[i] == x;
      assert i == k - 1 || Precedes(xs[i], xs[k - 1]);
    }
    ViewsWithin(xs[..k], Opens(), xs, OpensBy(t));
    forall x | x in xs && SealsBefore(t)(x) ensures x in xs[..k] && Seals()(x) {
      var i :| 0 <= i < |xs| && xs[i] == x;
      assert !Precedes(xs[k - 1], xs[i]);
      assert xs[..k][i] == x;
    }
    ViewsWithin(xs, SealsBefore(t), xs[..k], Seals());
  }

  /** The greatest value of `f` up to `n`. */
  ghost predicate IsPeak(f: nat -> int, n: nat, peak: int) {
    && (forall k: nat :: k <= n ==> f(k) <= peak)
    && exists k: nat :: k <= n && f(k) == peak
  }

  lemma PeakStep(f: nat -> int, n: nat, peak: int)
    requires IsPeak(f, n, peak)
    ensures IsPeak(f, n + 1, if f(n + 1) > peak then f(n + 1) else peak)
  {
    var k: nat :| k <= n && f(k) == peak;
    assert k <= n + 1;
  }

  /** The gauge's size along a timeline. */
  ghost function Sizes(xs: seq<Item>): nat -> int {
    (k: nat) => if k <= |xs| then |Gauge(xs[..k])| else 0
  }

  lemma SubsetSize(a: set<int>, b: set<int>)
    requires a <= b
    ensures |a| <= |b|
  {
    assert b == a + (b - a);
  }

  /** The peak of the sweep is the most views ever open at one instant, whatever the input order. */
  lemma PeakIsMostOpen(xs: seq<Item>, peak: int)
    requires IsPeak(Sizes(Sort(xs)), |Sort(xs)|, peak)
    ensures forall t :: |OpenAt(xs, t)| <= peak
    ensures peak == 0 || exists t :: |OpenAt(xs, t)| == peak
  {
    var sorted := Sort(xs);
    SortIsSorted(xs);
    forall t ensures OpenAt(sorted, t) == OpenAt(xs, t) {
      SortViews(xs, OpensBy(t));
      SortViews(xs, SealsBefore(t));
    }
    forall t ensures |OpenAt(xs, t)| <= peak {
      var k := CutPoint(sorted, t);
      GaugeAtCut(sorted, k, t);
      assert Sizes(sorted)(k) <= peak;
    }
    var k: nat :| k <= |sorted| && Sizes(sorted)(k) == peak;
    if k > 0 {
      var t := sorted[k - 1].at;
      GaugeWithinOpen(sorted, k);
      SubsetSize(Gauge(sorted[..k]), OpenAt(sorted, t));
      assert |OpenAt(xs, t)| == peak;
    }
  }

  /** One step of the sweep keeps the gauge: a view sealed earlier stays out. */
  lemma GaugeStep(xs: seq<Item>, k: nat)
    requires k < |xs|
    ensures var x, before := xs[k], Gauge(xs[..k]);
      Gauge(xs[..k + 1]) ==
        if !x.opens then before - {x.view}
        else if x.view in Views(xs[..k], Seals()) then before
        else before + {x.view}
  {
    assert xs[..k + 1] == xs[..k] + [xs[k]];
    ViewsSnoc(xs[..k], xs[k], Opens());
    ViewsSnoc(xs[..k], xs[k], Seals());
  }

  lemma SealsStep(xs: seq<Item>, k: nat)
    requires k < |xs|
    ensures Views(xs[..k + 1], Seals()) == Views(xs[..k], Seals()) + if xs[k].opens then {} else {xs[k].view}
  {
    assert xs[..k + 1] == xs[..k] + [xs[k]];
    ViewsSnoc(xs[..k], xs[k], Seals());
  }

  /** The sweep's variables after `k` items. */
  ghost predicate Swept(xs: seq<Item>, k: nat, outstanding: set<int>, sealed: set<int>, peak: int)
    requires k <= |xs|
  {
    outstanding == Gauge(xs[..k]) && sealed == Views(xs[..k], Seals()) && IsPeak(Sizes(xs), k, peak)
  }

  lemma SweptOpen(xs: seq<Item>, k: nat, outstanding: set<int>, sealed: set<int>, peak: int)
    requires k < |xs| && Swept(xs, k, outstanding, sealed, peak) && xs[k].opens && xs[k].view !in sealed
    ensures
      var next := outstanding + {xs[k].view};
      Swept(xs, k + 1, next, sealed, if |next| > peak then |next| else peak)
  {
    GaugeStep(xs, k);
    SealsStep(xs, k);
    PeakStep(Sizes(xs), k, peak);
    assert Sizes(xs)(k + 1) == |outstanding + {xs[k].view}|;
  }

  lemma SweptLower(xs: seq<Item>, k: nat, outstanding: set<int>, next: set<int>, sealed: set<int>, sealed': set<int>, peak: int)
    requires k < |xs| && Swept(xs, k, outstanding, sealed, peak)
    requires next == Gauge(xs[..k + 1]) && sealed' == Views(xs[..k + 1], Seals()) && next <= outstanding
    ensures Swept(xs, k + 1, next, sealed', peak)
  {
    SubsetSize(next, outstanding);
    PeakStep(Sizes(xs), k, peak);
    assert Sizes(xs)(k) == |outstanding| && Sizes(xs)(k + 1) == |next|;
  }

  lemma SweptSame(xs: seq<Item>, k: nat, outstanding: set<int>, sealed: set<int>, peak: int)
    requires k < |xs| && Swept(xs, k, outstanding, sealed, peak) && xs[k].opens && xs[k].view in sealed
    ensures Swept(xs, k + 1, outstanding, sealed, peak)
  {
    GaugeStep(xs, k);
    SealsStep(xs, k);
    SweptLower(xs, k, outstanding, outstanding, sealed, sealed, peak);
  }

  lemma SweptSeal(xs: seq<Item>, k: nat, outstanding: set<int>, sealed: set<int>, peak: int)
    requires k < |xs| && Swept(xs, k, outstanding, sealed, peak) && !xs[k].opens
    ensures Swept(xs, k + 1, outstanding - {xs[k].view}, sealed + {xs[k].view}, peak)
  {
    GaugeStep(xs, k);
    SealsStep(xs, k);
    SweptLower(xs, k, outstanding, outstanding - {xs[k].view}, sealed, sealed + {xs[k].view}, peak);
  }

  /** The sweep over a timeline. */
  method Sweep(timeline: seq<Item>) returns (peak: nat, outstanding: set<int>)
    ensures outstanding == Gauge(timeline)
    ensures IsPeak(Sizes(timeline), |timeline|, peak)
  {
    outstanding, peak := {}, 0;
    var sealed: set<int> := {};
    assert Sizes(timeline)(0) == 0;
    for k := 0 to |timeline|
      invariant Swept(timeline, k, outstanding, sealed, peak)
    {
      var x := timeline[k];
      if x.opens {
        if x.view !in sealed {
          SweptOpen(timeline, k, outstanding, sealed, peak);
          outstanding := outstanding + {x.view};
          peak := if |outstanding| > peak then |outstanding| else peak;
        } else {
          SweptSame(timeline, k, outstanding, sealed, peak);
        }
      } else {
        SweptSeal(timeline, k, outstanding, sealed, peak);
        sealed := sealed + {x.view};
        outstanding := outstanding - {x.view};
      }
    }
    assert timeline[..|timeline|] == timeline;
  }

  method Collect(events: seq<Event>, cutoff: Option<int>) returns (timeline: seq<Item>)
    ensures timeline == Items(events, cutoff)
  {
    timeline := [];
    for i := 0 to |events|
      invariant timeline == Items(events[..i], cutoff)
    {
      assert events[..i + 1][..i] == events[..i];
      if Counted(events[i], cutoff) {
        timeline := timeline + [ItemOf(events[i])];
      }
    }
    assert events[..|events|] == events;
  }

  /** Peak and final backlog of completed openings that are not sealed. */
  method OpenBacklog(events: seq<Event>, cutoff: Option<int>) returns (peak: nat, left: nat)
    ensures forall t :: |OpenAt(Items(events, cutoff), t)| <= peak
    ensures peak == 0 || exists t :: |OpenAt(Items(events, cutoff), t)| == peak
    ensures left == |Gauge(Items(events, cutoff))|
  {
    var items := Collect(events, cutoff);
    var outstanding;
    peak, outstanding := Sweep(Sort(items));
    PeakIsMostOpen(items, peak);
    SortViews(items, Opens());
    SortViews(items, Seals());
    left := |outstanding|;
  }
}

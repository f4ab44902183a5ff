/** The windowed backlog accounting of docker-bench/recovery_report.py. */
module Window {
  import opened Seqs
  import opened Timeline
  import opened Backlog

  /** `sys.maxsize`, the service time of a view that is never sealed everywhere. */
  const MAXSIZE: int := 0x7FFF_FFFF_FFFF_FFFF

  /** A view with the last node's completed opening and, once every node sealed it, the last seal. */
  datatype Row = Row(view: int, arrival: int, service: Option<int>)

  datatype Node = Node(open: int, sealed: Option<int>)

  function Latest(nodes: seq<Node>, time: Node -> int): int
    requires nodes != []
  {
    if |nodes| == 1 then time(nodes[0])
    else
      var rest := Latest(nodes[1..], time);
      if time(nodes[0]) > rest then time(nodes[0]) else rest
  }

  function OpenedAt(): Node -> int {
    (n: Node) => n.open
  }

  function SealedAt(): Node -> int {
    (n: Node) => if n.sealed.Some? then n.sealed.value else 0
  }

  function RowOf(view: int, nodes: seq<Node>): Row
    requires nodes != []
  {
    Row(view, Latest(nodes, OpenedAt()),
        if forall i :: 0 <= i < |nodes| ==> nodes[i].sealed.Some? then Some(Latest(nodes, SealedAt())) else None)
  }

  /** No view is served before it arrives. */
  predicate Causal(rows: seq<Row>) {
    forall i :: 0 <= i < |rows| && rows[i].service.Some? ==> rows[i].arrival <= rows[i].service.value
  }

  lemma {:induction false} LatestMonotone(nodes: seq<Node>, f: Node -> int, g: Node -> int)
    requires nodes != [] && forall i :: 0 <= i < |nodes| ==> f(nodes[i]) <= g(nodes[i])
    ensures Latest(nodes, f) <= Latest(nodes, g)
  {
    if |nodes| > 1 {
      LatestMonotone(nodes[1..], f, g);
    }
  }

  /** When each node seals a view after opening it, the row of maxima is causal. */
  lemma RowsAreCausal(view: int, nodes: seq<Node>)
    requires nodes != []
    requires forall i :: 0 <= i < |nodes| && nodes[i].sealed.Some? ==> nodes[i].open <= nodes[i].sealed.value
    ensures Causal([RowOf(view, nodes)])
  {
    if RowOf(view, nodes).service.Some? {
      LatestMonotone(nodes, OpenedAt(), SealedAt());
    }
  }

  function CountRows(rows: seq<Row>, p: Row -> bool): nat {
    if rows == [] then 0 else if p(rows[0]) then 1 + CountRows(rows[1..], p) else CountRows(rows[1..], p)
  }

  function Waiting(t: int): Row -> bool {
    (r: Row) => r.arrival < t && (if r.service.Some? then r.service.value else MAXSIZE) >= t
  }

  function ArrivesIn(from: int, to: int): Row -> bool {
    (r: Row) => from <= r.arrival < to
  }

  function ServedIn(from: int, to: int): Row -> bool {
    (r: Row) => r.service.Some? && from <= r.service.value < to
  }

  /** Served inside the window but arriving only after it. */
  function ServedTooSoon(from: int, to: int): Row -> bool {
    (r: Row) => r.service.Some? && from <= r.service.value < to && to <= r.arrival
  }

  /** Arriving inside the window but served before it. */
  function ArrivedTooLate(from: int, to: int): Row -> bool {
    (r: Row) => r.service.Some? && r.service.value < from <= r.arrival < to
  }

  function BacklogBefore(rows: seq<Row>, t: int): nat {
    CountRows(rows, Waiting(t))
  }

  /** `backlog_accounting_error`. */
  function AccountingError(rows: seq<Row>, from: int, to: int): int {
    BacklogBefore(rows, to)
      - (BacklogBefore(rows, from) + CountRows(rows, ArrivesIn(from, to)) - CountRows(rows, ServedIn(from, to)))
  }

  /** The accounting error counts exactly the views served before they arrive, across the window's edges. */
  lemma {:induction false} ErrorCountsInversions(rows: seq<Row>, from: int, to: int)
    requires from <= to <= MAXSIZE
    ensures AccountingError(rows, from, to)
         == CountRows(rows, ServedTooSoon(from, to)) - CountRows(rows, ArrivedTooLate(from, to))
  {
    if rows != [] {
      ErrorCountsInversions(rows[1..], from, to);
    }
  }

  /** An inverted window counts nothing, so there the error is the whole change of the backlog. */
  lemma {:induction false} InvertedWindowError(rows: seq<Row>, from: int, to: int)
    requires to < from <= MAXSIZE
    ensures AccountingError(rows, from, to) ==
            CountRows(rows, ServedIn(to, from)) - CountRows(rows, ArrivesIn(to, from))
              - CountRows(rows, ServedTooSoon(to, from)) + CountRows(rows, ArrivedTooLate(to, from))
  {
    if rows != [] {
      InvertedWindowError(rows[1..], from, to);
    }
  }

  lemma {:induction false} CausalHasNoInversions(rows: seq<Row>, from: int, to: int)
    requires Causal(rows)
    ensures CountRows(rows, ServedTooSoon(from, to)) == 0 && CountRows(rows, ArrivedTooLate(from, to)) == 0
  {
    if rows != [] {
      CausalHasNoInversions(rows[1..], from, to);
    }
  }

  /** With causal rows the books balance exactly when as many views arrive as are served in an
      inverted window, and always in a proper one. */
  lemma BooksBalance(rows: seq<Row>, from: int, to: int)
    requires Causal(rows) && from <= MAXSIZE && to <= MAXSIZE
    ensures AccountingError(rows, from, to) == 0 <==>
            from <= to || CountRows(rows, ServedIn(to, from)) == CountRows(rows, ArrivesIn(to, from))
  {
    if from <= to {
      ErrorCountsInversions(rows, from, to);
      CausalHasNoInversions(rows, from, to);
    } else {
      InvertedWindowError(rows, from, to);
      CausalHasNoInversions(rows, to, from);
    }
  }

  function WindowStart(faultStart: int, faultEnd: int, guard: int): int {
    var third := (faultEnd - faultStart) / 3;
    faultStart + if guard > third then guard else third
  }

  function WindowEnd(faultEnd: int, guard: int): int {
    faultEnd - guard
  }

  /** The window is proper exactly when the attack leaves room for the warmup and the closing guard. */
  lemma WindowIsProper(faultStart: int, faultEnd: int, guard: int)
    ensures WindowStart(faultStart, faultEnd, guard) <= WindowEnd(faultEnd, guard)
       <==> var attack := faultEnd - faultStart; 2 * guard <= attack && guard <= attack - attack / 3
  {
  }

  /** An attack shorter than its guards inverts the window, and a causal row then unbalances the books. */
  lemma ShortAttackMiscounts()
    ensures
      var rows := [Row(7, 100, None)];
      var from, to := WindowStart(0, 1000, 950), WindowEnd(1000, 950);
      Causal(rows) && AccountingError(rows, from, to) == -1
  {
    assert [Row(7, 100, None)][1..] == [];
  }

  // ---- The sweep inside the window --------------------------------------------------------

  function Arrivals(rows: seq<Row>, from: int, to: int): seq<Item> {
    if rows == [] then []
    else if ArrivesIn(from, to)(rows[0]) then [Item(rows[0].arrival, true, rows[0].view)] + Arrivals(rows[1..], from, to)
    else Arrivals(rows[1..], from, to)
  }

  function Services(rows: seq<Row>, from: int, to: int): seq<Item> {
    if rows == [] then []
    else if ServedIn(from, to)(rows[0]) then [Item(rows[0].service.value, false, rows[0].view)] + Services(rows[1..], from, to)
    else Services(rows[1..], from, to)
  }

  function Movements(rows: seq<Row>, from: int, to: int): seq<Item> {
    Arrivals(rows, from, to) + Services(rows, from, to)
  }

  ghost function Level(xs: seq<Item>, base: int): int {
    base + Count(xs, Opens()) - Count(xs, Seals())
  }

  /** The level along a timeline. */
  ghost function Levels(xs: seq<Item>, base: int): nat -> int {
    (k: nat) => if k <= |xs| then Level(xs[..k], base) else base
  }

  ghost function LevelAt(xs: seq<Item>, base: int, t: int): int {
    base + Count(xs, OpensBy(t)) - Count(xs, SealsBefore(t))
  }

  lemma {:induction false} CountWithin(xs: seq<Item>, p: Item -> bool, q: Item -> bool)
    requires forall i :: 0 <= i < |xs| && p(xs[i]) ==> q(xs[i])
    ensures Count(xs, p) <= Count(xs, q)
  {
    if xs != [] {
      CountWithin(xs[1..], p, q);
    }
  }

  lemma PrefixWithin(xs: seq<Item>, k: nat, p: Item -> bool, q: Item -> bool)
    requires k <= |xs| && forall i :: 0 <= i < k && p(xs[i]) ==> q(xs[i])
    ensures Count(xs[..k], p) <= Count(xs, q)
  {
    CountWithin(xs[..k], p, q);
    CountConcat(xs[..k], xs[k..], q);
    assert xs[..k] + xs[k..] == xs;
  }

  lemma WithinPrefix(xs: seq<Item>, k: nat, p: Item -> bool, q: Item -> bool)
    requires k <= |xs| && forall i :: 0 <= i < |xs| && q(xs[i]) ==> i < k && p(xs[i])
    ensures Count(xs, q) <= Count(xs[..k], p)
  {
    CountWithin(xs[..k], q, p);
    CountConcat(xs[..k], xs[k..], q);
    CountNone(xs[k..], q);
    assert xs[..k] + xs[k..] == xs;
  }

  lemma LevelAtCut(xs: seq<Item>, base: int, k: nat, t: int)
    requires k <= |xs| && forall i :: 0 <= i < |xs| ==> (Early(xs[i], t) <==> i < k)
    ensures Level(xs[..k], base) == LevelAt(xs, base, t)
  {
    PrefixWithin(xs, k, Opens(), OpensBy(t));
    WithinPrefix(xs, k, Opens(), OpensBy(t));
    PrefixWithin(xs, k, Seals(), SealsBefore(t));
    WithinPrefix(xs, k, Seals(), SealsBefore(t));
  }

  /** Along the sorted timeline the level never exceeds the one of the instant reached. */
  lemma LevelWithin(xs: seq<Item>, base: int, k: nat)
    requires Sorted(xs) && 0 < k <= |xs|
    ensures Level(xs[..k], base) <= LevelAt(xs, base, xs[k - 1].at)
  {
    var t := xs[k - 1].at;
    forall i | 0 <= i < k && Opens()(xs[i]) ensures OpensBy(t)(xs[i]) {
      assert i == k - 1 || Precedes(xs[i], xs[k - 1]);
    }
    PrefixWithin(xs, k, Opens(), OpensBy(t));
    forall i | 0 <= i < |xs| && SealsBefore(t)(xs[i]) ensures i < k && Seals()(xs[i]) {
      assert !Precedes(xs[k - 1], xs[i]);
    }
    WithinPrefix(xs, k, Seals(), SealsBefore(t));
  }

  /** The views in the system at instant `t`, arrivals of the instant counted before its seals. */
  function Present(t: int): Row -> bool {
    (r: Row) => r.arrival <= t && (r.service.Some? ==> r.service.value >= t)
  }

  function ArrivedBy(from: int, to: int, t: int): Row -> bool {
    (r: Row) => from <= r.arrival < to && r.arrival <= t
  }

  function ServedBefore(from: int, to: int, t: int): Row -> bool {
    (r: Row) => r.service.Some? && from <= r.service.value < to && r.service.value < t
  }

  lemma {:induction false} ArrivalCount(rows: seq<Row>, from: int, to: int, t: int)
    ensures Count(Arrivals(rows, from, to), OpensBy(t)) == CountRows(rows, ArrivedBy(from, to, t))
    ensures Count(Arrivals(rows, from, to), SealsBefore(t)) == 0
    ensures Count(Arrivals(rows, from, to), Opens()) == CountRows(rows, ArrivesIn(from, to))
    ensures Count(Arrivals(rows, from, to), Seals()) == 0
  {
    if rows != [] {
      ArrivalCount(rows[1..], from, to, t);
      var xs := Arrivals(rows, from, to);
      assert ArrivesIn(from, to)(rows[0]) ==> xs[1..] == Arrivals(rows[1..], from, to);
    }
  }

  lemma {:induction false} ServiceCount(rows: seq<Row>, from: int, to: int, t: int)
    ensures Count(Services(rows, from, to), SealsBefore(t)) == CountRows(rows, ServedBefore(from, to, t))
    ensures Count(Services(rows, from, to), OpensBy(t)) == 0
    ensures Count(Services(rows, from, to), Seals()) == CountRows(rows, ServedIn(from, to))
    ensures Count(Services(rows, from, to), Opens()) == 0
  {
    if rows != [] {
      ServiceCount(rows[1..], from, to, t);
      var xs := Services(rows, from, to);
      assert ServedIn(from, to)(rows[0]) ==> xs[1..] == Services(rows[1..], from, to);
    }
  }

  lemma MovementCount(rows: seq<Row>, from: int, to: int, t: int)
    ensures LevelAt(Movements(rows, from, to), 0, t)
         == CountRows(rows, ArrivedBy(from, to, t)) - CountRows(rows, ServedBefore(from, to, t))
    ensures Level(Movements(rows, from, to), 0) == CountRows(rows, ArrivesIn(from, to)) - CountRows(rows, ServedIn(from, to))
  {
    var xs, ys := Arrivals(rows, from, to), Services(rows, from, to);
    ArrivalCount(rows, from, to, t);
    ServiceCount(rows, from, to, t);
    CountConcat(xs, ys, OpensBy(t));
    CountConcat(xs, ys, SealsBefore(t));
    CountConcat(xs, ys, Opens());
    CountConcat(xs, ys, Seals());
  }

  /** For causal rows, the starting backlog and the movements of the window give, at each instant of
      the window, the views present. */
  lemma {:induction false} PresentBalance(rows: seq<Row>, from: int, to: int, t: int)
    requires Causal(rows) && from <= t < to <= MAXSIZE
    ensures BacklogBefore(rows, from) + CountRows(rows, ArrivedBy(from, to, t)) - CountRows(rows, ServedBefore(from, to, t))
         == CountRows(rows, Present(t))
  {
    if rows != [] {
      PresentBalance(rows[1..], from, to, t);
    }
  }

  lemma {:induction false} MovementsInside(rows: seq<Row>, from: int, to: int)
    ensures forall x :: x in Movements(rows, from, to) ==> from <= x.at < to
  {
    if rows != [] {
      MovementsInside(rows[1..], from, to);
      forall x | x in Movements(rows, from, to) ensures from <= x.at < to {
        if x in Arrivals(rows[1..], from, to) || x in Services(rows[1..], from, to) {
          assert x in Movements(rows[1..], from, to);
        }
      }
    }
  }

  lemma LevelAtShift(xs: seq<Item>, base: int, t: int)
    ensures LevelAt(Sort(xs), base, t) == base + LevelAt(xs, 0, t)
  {
    SortCount(xs, OpensBy(t));
    SortCount(xs, SealsBefore(t));
  }

  /** The peak is the most views present at one instant of the window, or the starting backlog. */
  lemma PeakIsMostPresent(rows: seq<Row>, from: int, to: int, peak: int)
    requires Causal(rows) && to <= MAXSIZE
    requires
      var sorted := Sort(Movements(rows, from, to));
      IsPeak(Levels(sorted, BacklogBefore(rows, from)), |sorted|, peak)
    ensures forall t :: from <= t < to ==> CountRows(rows, Present(t)) <= peak
    ensures BacklogBefore(rows, from) <= peak
    ensures peak == BacklogBefore(rows, from) || exists t :: from <= t < to && CountRows(rows, Present(t)) == peak
  {
    var moves, base := Movements(rows, from, to), BacklogBefore(rows, from);
    var sorted := Sort(moves);
    var levels := Levels(sorted, base);
    SortIsSorted(moves);
    forall t | from <= t < to ensures CountRows(rows, Present(t)) == LevelAt(sorted, base, t) <= peak {
      PresentIsLevel(rows, from, to, t);
      var k := CutPoint(sorted, t);
      LevelAtCut(sorted, base, k, t);
      assert levels(k) <= peak;
    }
    assert levels(0) == base;
    var k: nat :| k <= |sorted| && levels(k) == peak;
    if k > 0 {
      var t := sorted[k - 1].at;
      LevelWithin(sorted, base, k);
      SortMember(moves, sorted[k - 1]);
      MovementsInside(rows, from, to);
      assert from <= t < to && CountRows(rows, Present(t)) == peak;
    }
  }

  lemma PresentIsLevel(rows: seq<Row>, from: int, to: int, t: int)
    requires Causal(rows) && from <= t < to <= MAXSIZE
    ensures CountRows(rows, Present(t)) == LevelAt(Sort(Movements(rows, from, to)), BacklogBefore(rows, from), t)
  {
    LevelAtShift(Movements(rows, from, to), BacklogBefore(rows, from), t);
    MovementCount(rows, from, to, t);
    PresentBalance(rows, from, to, t);
  }

  /** The loop over the sorted movements. */
  method SweepLevels(timeline: seq<Item>, base: nat) returns (outstanding: int, peak: int)
    ensures outstanding == Level(timeline, base)
    ensures IsPeak(Levels(timeline, base), |timeline|, peak)
  {
    outstanding, peak := base, base;
    ghost var levels := Levels(timeline, base);
    assert levels(0) == base;
    for k := 0 to |timeline|
      invariant outstanding == levels(k)
      invariant IsPeak(levels, k, peak)
    {
      LevelStep(timeline, base, k);
      PeakStep(levels, k, peak);
      outstanding := outstanding + if timeline[k].opens then 1 else -1;
      peak := if outstanding > peak then outstanding else peak;
    }
    assert timeline[..|timeline|] == timeline;
  }

  lemma LevelStep(xs: seq<Item>, base: int, k: nat)
    requires k < |xs|
    ensures Levels(xs, base)(k + 1) == Levels(xs, base)(k) + if xs[k].opens then 1 else -1
  {
    assert xs[..k + 1] == xs[..k] + [xs[k]];
    CountConcat(xs[..k], [xs[k]], Opens());
    CountConcat(xs[..k], [xs[k]], Seals());
  }

  /** The sweep ends at the starting backlog plus arrivals less services, and peaks at the most
      views present at one instant. */
  method Sustained(rows: seq<Row>, from: int, to: int) returns (outstanding: int, peak: int)
    requires to <= MAXSIZE
    ensures outstanding == BacklogBefore(rows, from) + CountRows(rows, ArrivesIn(from, to)) - CountRows(rows, ServedIn(from, to))
    ensures outstanding <= peak && BacklogBefore(rows, from) <= peak
    ensures Causal(rows) ==> forall t :: from <= t < to ==> CountRows(rows, Present(t)) <= peak
    ensures Causal(rows) ==> peak == BacklogBefore(rows, from) || exists t :: from <= t < to && CountRows(rows, Present(t)) == peak
  {
    var moves, base := Movements(rows, from, to), BacklogBefore(rows, from);
    var timeline := Sort(moves);
    outstanding, peak := SweepLevels(timeline, base);
    SortCount(moves, Opens());
    SortCount(moves, Seals());
    MovementCount(rows, from, to, 0);
    assert timeline[..|timeline|] == timeline && Levels(timeline, base)(|timeline|) == outstanding;
    assert Levels(timeline, base)(0) == base;
    if Causal(rows) {
      PeakIsMostPresent(rows, from, to, peak);
    }
  }
}

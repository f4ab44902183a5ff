/** Receiver groups of the leader-relay and mixed-open fault profiles (config/src/lib.rs). */
module Groups {
  import opened Seqs
  import opened Modular
  import opened Placement
  import Committee

  function PublisherOrder<K(==)>(order: seq<K>, publishers: set<K>): seq<K> {
    Keep(order, Within(publishers))
  }

  /** The members that are not publishers. */
  function Targets<K(==)>(order: seq<K>, publishers: set<K>): seq<K> {
    Keep(order, NotIn(publishers))
  }

  /** `width` consecutive positions of a circle of `size`, from `start` on. */
  function Arc(size: nat, start: nat, width: nat): (slots: seq<nat>)
    requires size > 0
    ensures |slots| == width && forall k :: 0 <= k < width ==> slots[k] < size
  {
    seq(width, k requires 0 <= k < width => (start + k) % size)
  }

  function At<K>(xs: seq<K>, slots: seq<nat>): (ys: seq<K>)
    requires forall k :: 0 <= k < |slots| ==> slots[k] < |xs|
    ensures |ys| == |slots|
  {
    seq(|slots|, k requires 0 <= k < |slots| => xs[slots[k]])
  }

  // ---- Facts about committees ------------------------------------------------------------

  lemma {:induction false} DistinctSize<K>(xs: seq<K>)
    requires Distinct(xs)
    ensures |ToSet(xs)| == |xs|
  {
    if xs != [] {
      assert xs == [xs[0]] + xs[1..];
      DistinctParts([xs[0]], xs[1..]);
      DistinctSize(xs[1..]);
      assert xs[0] in [xs[0]];
      assert ToSet(xs) == {xs[0]} + ToSet(xs[1..]);
    }
  }

  /** Publishers and targets split the committee. */
  lemma Split<K>(order: seq<K>, publishers: set<K>)
    requires Distinct(order) && publishers <= ToSet(order)
    ensures Distinct(PublisherOrder(order, publishers)) && Distinct(Targets(order, publishers))
    ensures ToSet(PublisherOrder(order, publishers)) == publishers
    ensures ToSet(Targets(order, publishers)) == ToSet(order) - publishers
    ensures |PublisherOrder(order, publishers)| == |publishers|
    ensures |Targets(order, publishers)| == |order| - |publishers|
  {
    var p, t := PublisherOrder(order, publishers), Targets(order, publishers);
    KeepDistinct(order, Within(publishers));
    KeepDistinct(order, NotIn(publishers));
    assert ToSet(p) == publishers by {
      forall k ensures k in ToSet(p) <==> k in publishers {
        KeepMember(order, Within(publishers), k);
      }
    }
    assert ToSet(t) == ToSet(order) - publishers by {
      forall k ensures k in ToSet(t) <==> k in ToSet(order) - publishers {
        KeepMember(order, NotIn(publishers), k);
      }
    }
    DistinctSize(p);
    DistinctSize(t);
    DistinctSize(order);
  }

  lemma {:induction false} IndexOfAt<K>(xs: seq<K>, i: nat)
    requires Distinct(xs) && i < |xs|
    ensures IndexOf(xs, xs[i]) == Some(i)
  {
    if i > 0 {
      assert xs[0] != xs[i];
      assert xs == [xs[0]] + xs[1..];
      DistinctParts([xs[0]], xs[1..]);
      IndexOfAt(xs[1..], i - 1);
    }
  }

  /** An arc no longer than its circle has no repeats. */
  lemma ArcDistinct(size: nat, start: nat, width: nat)
    requires size > 0 && width <= size
    ensures Distinct(Arc(size, start, width))
  {
    var slots := Arc(size, start, width);
    forall p, q | 0 <= p < q < width ensures slots[p] != slots[q] {
      StepsDiffer(size, start, p, q);
    }
  }

  lemma StepsDiffer(size: nat, start: nat, p: nat, q: nat)
    requires p < q && q - p < size
    ensures (start + p) % size != (start + q) % size
  {
    if (start + p) % size == (start + q) % size {
      SameResidue(start + q, start + p, size);
      SmallResidue(q - p, size);
    }
  }

  lemma AtDistinct<K>(xs: seq<K>, slots: seq<nat>)
    requires forall k :: 0 <= k < |slots| ==> slots[k] < |xs|
    requires Distinct(xs) && Distinct(slots)
    ensures Distinct(At(xs, slots)) && forall y :: y in At(xs, slots) ==> y in xs
  {
    var ys := At(xs, slots);
    forall p, q | 0 <= p < q < |ys| ensures ys[p] != ys[q] {
      assert slots[p] != slots[q];
    }
  }

  // ---- Leader relay ----------------------------------------------------------------------

  /** The group of the publisher of the given rank. */
  function Group<K(==)>(order: seq<K>, publishers: set<K>, rank: nat): seq<K> {
    var targets := Targets(order, publishers);
    if targets == [] then []
    else
      var wanted := if |publishers| == 0 then 0 else |publishers| - 1;
      var width := if wanted < |targets| then wanted else |targets|;
      At(targets, Arc(|targets|, Wrap(rank * width) % |targets|, width))
  }

  function LeaderRelayDestinations<K(==)>(order: seq<K>, me: K, senders: nat, fixed: seq<K>): seq<K> {
    var publishers := Publishers(order, senders, fixed);
    if me !in publishers then []
    else
      match IndexOf(PublisherOrder(order, publishers), me)
      case None => []
      case Some(rank) => Group(order, publishers, rank)
  }

  /** A committee of unit stakes. */
  function Units(n: nat): seq<nat> {
    seq(n, _ => 1)
  }

  lemma {:induction false} UnitTotal(n: nat)
    ensures Committee.Total(Units(n)) == n
  {
    if n > 0 {
      UnitTotal(n - 1);
      assert Units(n)[..n - 1] == Units(n - 1);
      Committee.StakeMonotone(Units(n - 1), Committee.Everyone(Units(n)), Committee.Everyone(Units(n - 1)));
      Committee.StakeMonotone(Units(n - 1), Committee.Everyone(Units(n - 1)), Committee.Everyone(Units(n)));
    }
  }

  lemma AcceptedPublishers<K>(p: Parameters<K>, order: seq<K>)
    requires Accepted(p, order)
    ensures Publishers(order, p.senders, p.publishers) <= ToSet(order)
  {
  }

  lemma GroupIsExact<K>(order: seq<K>, publishers: set<K>, rank: nat)
    requires Distinct(order) && publishers <= ToSet(order)
    requires |publishers| == Committee.Faults(|order|) && |publishers| > 0
    ensures var g := Group(order, publishers, rank);
      |g| == |publishers| - 1 && Distinct(g) && forall k :: k in g ==> k in order && k !in publishers
  {
    Split(order, publishers);
    var targets, f := Targets(order, publishers), |publishers|;
    assert f - 1 < |targets|;
    var arc := Arc(|targets|, Wrap(rank * (f - 1)) % |targets|, f - 1);
    ArcDistinct(|targets|, Wrap(rank * (f - 1)) % |targets|, f - 1);
    AtDistinct(targets, arc);
    forall k | k in Group(order, publishers, rank) ensures k in order && k !in publishers {
      assert k in ToSet(targets);
    }
  }

  /** Whenever validation accepts the leader-relay profile, every publisher's lane goes to exactly
      f - 1 distinct non-publishers; with the author that is one holder short of the validity
      threshold of a unit-stake committee. */
  lemma AcceptedRelayStaysBelowValidity<K>(p: Parameters<K>, order: seq<K>, me: K)
    requires Distinct(order) && Accepted(p, order) && p.leaderRelay && |order| < 0x1_0000_0000
    requires me in Publishers(order, p.senders, p.publishers)
    ensures var g, f := LeaderRelayDestinations(order, me, p.senders, p.publishers), Committee.Faults(|order|);
      && |g| == f - 1 && Distinct(g)
      && (forall k :: k in g ==> k in order && k !in Publishers(order, p.senders, p.publishers))
      && |g| + 1 == Committee.ValidityThreshold(Units(|order|)) - 1
  {
    var publishers := Publishers(order, p.senders, p.publishers);
    AcceptedPublishers(p, order);
    Split(order, publishers);
    assert me in PublisherOrder(order, publishers);
    GroupIsExact(order, publishers, IndexOf(PublisherOrder(order, publishers), me).value);
    UnitTotal(|order|);
    Committee.ValidityIsOneMoreThanFaults(Units(|order|));
  }

  // ---- Coverage --------------------------------------------------------------------------

  /** Every non-publisher is in the group of some publisher. */
  ghost predicate Covered<K>(order: seq<K>, publishers: set<K>) {
    forall k :: k in Targets(order, publishers) ==>
      exists rank: nat :: rank < |publishers| && k in Group(order, publishers, rank)
  }

  /** The position `offset` into the tile of `rank`. */
  lemma TileBound(rank: nat, f: nat, offset: nat) returns (at: nat)
    requires rank < f && offset < f - 1
    ensures at == rank * (f - 1) + offset < f * (f - 1)
  {
    MulMonotone(rank + 1, f - 1, f, f - 1);
    at := rank * (f - 1) + offset;
  }

  /** The start of a tile neither wraps at 64 bits nor goes round the circle. */
  lemma TileStart(rank: nat, f: nat, size: nat)
    requires rank < f < 0x1_0000_0000 && rank * (f - 1) < size
    ensures Wrap(rank * (f - 1)) % size == rank * (f - 1)
  {
    MulMonotone(rank, f - 1, 0xFFFF_FFFF, 0xFFFF_FFFF);
    SmallResidue(rank * (f - 1), size);
  }

  /** Position `j` lies in tile `j / (f - 1)`. */
  lemma TileOf(j: nat, f: nat) returns (rank: nat, offset: nat)
    requires f >= 1 && j < f * (f - 1)
    ensures rank < f && offset < f - 1 && j == rank * (f - 1) + offset
  {
    assert f >= 2;
    rank, offset := j / (f - 1), j % (f - 1);
    assert j == rank * (f - 1) + offset;
    if rank >= f {
      MulMonotone(f, f - 1, rank, f - 1);
    }
  }

  lemma GroupAt<K>(order: seq<K>, publishers: set<K>, rank: nat, offset: nat, at: nat)
    requires Distinct(order) && publishers <= ToSet(order) && |publishers| == Committee.Faults(|order|)
    requires |order| < 0x1_0000_0000 && rank < |publishers| && offset < |publishers| - 1
    requires at == rank * (|publishers| - 1) + offset < |Targets(order, publishers)|
    ensures |Group(order, publishers, rank)| == |publishers| - 1
    ensures Group(order, publishers, rank)[offset] == Targets(order, publishers)[at]
  {
    var targets, width := Targets(order, publishers), |publishers| - 1;
    var start := rank * width;
    Split(order, publishers);
    TileStart(rank, |publishers|, |targets|);
    assert Group(order, publishers, rank) == At(targets, Arc(|targets|, start, width));
    ArcInside(targets, start, width, offset);
  }

  lemma ArcInside<K>(xs: seq<K>, start: nat, width: nat, offset: nat)
    requires offset < width && start + offset < |xs|
    ensures |At(xs, Arc(|xs|, start, width))| == width && At(xs, Arc(|xs|, start, width))[offset] == xs[start + offset]
  {
    SmallResidue(start + offset, |xs|);
  }

  /** If the tiles reach round the circle, every target is in one. */
  lemma TileCovers<K>(order: seq<K>, publishers: set<K>, j: nat)
    requires Distinct(order) && publishers <= ToSet(order) && |publishers| == Committee.Faults(|order|)
    requires |order| < 0x1_0000_0000 && j < |Targets(order, publishers)|
    requires var f := |publishers|; f > 0 && f * (f - 1) >= |Targets(order, publishers)|
    ensures exists rank: nat :: rank < |publishers| && Targets(order, publishers)[j] in Group(order, publishers, rank)
  {
    var rank, offset := TileOf(j, |publishers|);
    GroupAt(order, publishers, rank, offset, j);
    assert Group(order, publishers, rank)[offset] in Group(order, publishers, rank);
  }

  lemma TileMissesAt<K>(order: seq<K>, publishers: set<K>, rank: nat, offset: nat, last: nat)
    requires Distinct(order) && publishers <= ToSet(order) && |publishers| == Committee.Faults(|order|)
    requires |order| < 0x1_0000_0000 && rank < |publishers| && offset < |publishers| - 1
    requires last == |publishers| * (|publishers| - 1) < |Targets(order, publishers)|
    ensures |Group(order, publishers, rank)| == |publishers| - 1
    ensures Group(order, publishers, rank)[offset] != Targets(order, publishers)[last]
  {
    var at := TileBound(rank, |publishers|, offset);
    GroupAt(order, publishers, rank, offset, at);
    DistinctTargets(order, publishers, at, last);
  }

  lemma DistinctTargets<K>(order: seq<K>, publishers: set<K>, i: nat, j: nat)
    requires Distinct(order) && i < j < |Targets(order, publishers)|
    ensures Targets(order, publishers)[i] != Targets(order, publishers)[j]
  {
    KeepDistinct(order, NotIn(publishers));
  }

  /** If they do not, the target just past the last tile is in none. */
  lemma TileMisses<K>(order: seq<K>, publishers: set<K>, rank: nat, last: nat)
    requires Distinct(order) && publishers <= ToSet(order) && |publishers| == Committee.Faults(|order|)
    requires |order| < 0x1_0000_0000 && rank < |publishers|
    requires last == |publishers| * (|publishers| - 1) < |Targets(order, publishers)|
    ensures Targets(order, publishers)[last] !in Group(order, publishers, rank)
  {
    GroupIsExact(order, publishers, rank);
    var g := Group(order, publishers, rank);
    forall offset: nat | offset < |g| ensures g[offset] != Targets(order, publishers)[last] {
      TileMissesAt(order, publishers, rank, offset, last);
    }
  }

  /** The groups together reach every non-publisher exactly when f (f - 1) >= n - f. */
  lemma RelayCoverage<K>(order: seq<K>, publishers: set<K>)
    requires Distinct(order) && publishers <= ToSet(order) && |order| < 0x1_0000_0000
    requires |publishers| == Committee.Faults(|order|) && |publishers| > 0
    ensures var f := |publishers|; Covered(order, publishers) <==> f * (f - 1) >= |order| - f
  {
    Split(order, publishers);
    var targets, f := Targets(order, publishers), |publishers|;
    if f * (f - 1) >= |targets| {
      forall k | k in targets ensures exists rank: nat :: rank < f && k in Group(order, publishers, rank) {
        var j :| 0 <= j < |targets| && targets[j] == k;
        TileCovers(order, publishers, j);
      }
    } else {
      var last := f * (f - 1);
      var missed := targets[last];
      forall rank: nat | rank < f ensures missed !in Group(order, publishers, rank) {
        TileMisses(order, publishers, rank, last);
      }
      assert missed in targets;
    }
  }

  lemma RelayOfRank<K>(order: seq<K>, senders: nat, fixed: seq<K>, publishers: set<K>, rank: nat)
    requires Distinct(order) && publishers == Publishers(order, senders, fixed) <= ToSet(order) && rank < |publishers|
    ensures |PublisherOrder(order, publishers)| == |publishers|
    ensures var me := PublisherOrder(order, publishers)[rank];
      me in publishers && LeaderRelayDestinations(order, me, senders, fixed) == Group(order, publishers, rank)
  {
    Split(order, publishers);
    IndexOfAt(PublisherOrder(order, publishers), rank);
    assert PublisherOrder(order, publishers)[rank] in ToSet(PublisherOrder(order, publishers));
  }

  /** Whenever validation accepts the leader-relay profile, every correct member receives some faulty
      lane directly exactly when f (f - 1) >= n - f. */
  lemma AcceptedRelayCoverage<K>(p: Parameters<K>, order: seq<K>)
    requires Distinct(order) && Accepted(p, order) && p.leaderRelay && |order| < 0x1_0000_0000 && Committee.Faults(|order|) > 0
    ensures var publishers, f := Publishers(order, p.senders, p.publishers), Committee.Faults(|order|);
      (forall k :: k in Targets(order, publishers) ==>
         exists me :: me in publishers && k in LeaderRelayDestinations(order, me, p.senders, p.publishers))
      <==> f * (f - 1) >= |order| - f
  {
    var publishers := Publishers(order, p.senders, p.publishers);
    AcceptedPublishers(p, order);
    RelayCoverage(order, publishers);
    forall k | k in Targets(order, publishers)
      ensures (exists rank: nat :: rank < |publishers| && k in Group(order, publishers, rank))
         <==> (exists me :: me in publishers && k in LeaderRelayDestinations(order, me, p.senders, p.publishers))
    {
      SomeRank(order, p.senders, p.publishers, publishers, k);
    }
  }

  lemma SomeRank<K>(order: seq<K>, senders: nat, fixed: seq<K>, publishers: set<K>, k: K)
    requires Distinct(order) && publishers == Publishers(order, senders, fixed) <= ToSet(order)
    ensures (exists rank: nat :: rank < |publishers| && k in Group(order, publishers, rank))
       <==> (exists me :: me in publishers && k in LeaderRelayDestinations(order, me, senders, fixed))
  {
    Split(order, publishers);
    if rank: nat :| rank < |publishers| && k in Group(order, publishers, rank) {
      RelayOfRank(order, senders, fixed, publishers, rank);
    }
    if me :| me in publishers && k in LeaderRelayDestinations(order, me, senders, fixed) {
      assert me in ToSet(PublisherOrder(order, publishers));
      var rank := IndexOf(PublisherOrder(order, publishers), me).value;
      assert k in Group(order, publishers, rank);
    }
  }

  /** A committee of ten: validation accepts the profile with its three publishers, but their three
      groups of two do not reach all seven others. */
  lemma TenAreNotCovered() returns (p: Parameters<nat>, order: seq<nat>, missed: nat)
    ensures |order| == 10 && Distinct(order) && Accepted(p, order) && p.leaderRelay
    ensures var publishers := Publishers(order, p.senders, p.publishers);
      && missed in Targets(order, publishers)
      && forall me :: me in publishers ==> missed !in LeaderRelayDestinations(order, me, p.senders, p.publishers)
  {
    order := seq(10, i => i);
    p := Parameters(3, [], Some(9), 1, [], false, true, true, false, false, false, None, 0, [], [], 0);
    var publishers := Publishers(order, 3, []);
    DistinctSize(order[..3]);
    assert Gcd(1, 10) == Gcd(10, 1) && Gcd(10, 1) == Gcd(1, 0);
    AcceptedRelayCoverage(p, order);
    missed :| missed in Targets(order, publishers)
      && !exists me :: me in publishers && missed in LeaderRelayDestinations(order, me, p.senders, p.publishers);
  }

  /** So every committee that tolerates four or more faults is covered. */
  lemma FourFaultsSuffice(n: nat)
    requires Committee.Faults(n) >= 4
    ensures Committee.Faults(n) * (Committee.Faults(n) - 1) >= n - Committee.Faults(n)
  {
    var f := Committee.Faults(n);
    assert n <= 3 * f + 3;
    assert (f - 4) * f >= 0;
    assert f * (f - 1) == (f - 4) * f + 3 * f;
  }

  // ---- Mixed open ------------------------------------------------------------------------

  /** The correct members a publisher of the given rank sends to. */
  function Direct<K(==)>(order: seq<K>, publishers: set<K>, rank: nat): set<K>
    requires Targets(order, publishers) != []
  {
    var correct := Targets(order, publishers);
    Picked(correct, Arc(|correct|, rank, Committee.Faults(|order|)))
  }

  function MixedOpenWithheld<K(==)>(order: seq<K>, me: K, senders: nat, fixed: seq<K>): Option<set<K>> {
    var publishers := Publishers(order, senders, fixed);
    var correct := Targets(order, publishers);
    if me !in publishers || |correct| < Committee.Faults(|order|) then None
    else
      match IndexOf(PublisherOrder(order, publishers), me)
      case None => None
      case Some(rank) =>
        var direct := if correct == [] then {} else Direct(order, publishers, rank);
        Some(set k | k in order && k != me && k !in direct)
  }

  /** A direct group is exactly f correct members. */
  lemma DirectIsExact<K>(order: seq<K>, publishers: set<K>, rank: nat)
    requires Distinct(order) && publishers <= ToSet(order) && |publishers| == Committee.Faults(|order|) > 0
    ensures Targets(order, publishers) != [] && |Targets(order, publishers)| >= Committee.Faults(|order|)
    ensures var direct := Direct(order, publishers, rank);
      |direct| == Committee.Faults(|order|) && direct <= ToSet(order) - publishers
  {
    Split(order, publishers);
    var correct, f := Targets(order, publishers), Committee.Faults(|order|);
    ArcDistinct(|correct|, rank, f);
    PickedIsExact(correct, Arc(|correct|, rank, f));
  }

  lemma CountWithheld<K>(order: seq<K>, publishers: set<K>, direct: set<K>, withheld: set<K>, me: K)
    requires Distinct(order) && publishers <= ToSet(order) && direct <= ToSet(order) - publishers
    requires me in publishers && withheld == ToSet(order) - {me} - direct
    ensures |withheld - publishers| == |order| - |publishers| - |direct|
  {
    DistinctSize(order);
    assert withheld - publishers == ToSet(order) - publishers - direct;
  }

  lemma WithheldIs<K>(order: seq<K>, me: K, senders: nat, fixed: seq<K>, publishers: set<K>) returns (rank: nat)
    requires Distinct(order) && publishers == Publishers(order, senders, fixed) <= ToSet(order)
    requires |publishers| == Committee.Faults(|order|) > 0 && me in publishers
    ensures Targets(order, publishers) != []
    ensures MixedOpenWithheld(order, me, senders, fixed) == Some(ToSet(order) - {me} - Direct(order, publishers, rank))
  {
    Split(order, publishers);
    assert me in PublisherOrder(order, publishers);
    rank := IndexOf(PublisherOrder(order, publishers), me).value;
    DirectIsExact(order, publishers, rank);
    var direct := Direct(order, publishers, rank);
    assert (set k | k in order && k != me && k !in direct) == ToSet(order) - {me} - direct;
  }

  /** Withheld members, the direct group and the publisher itself partition the committee. */
  lemma MixedOpenPartitions<K>(order: seq<K>, me: K, senders: nat, fixed: seq<K>, publishers: set<K>)
      returns (direct: set<K>, withheld: set<K>)
    requires Distinct(order) && publishers == Publishers(order, senders, fixed) <= ToSet(order)
    requires |publishers| == Committee.Faults(|order|) > 0 && me in publishers
    ensures MixedOpenWithheld(order, me, senders, fixed) == Some(withheld)
    ensures direct + withheld + {me} == ToSet(order) && direct !! withheld && me !in direct && me !in withheld
    ensures |direct| == Committee.Faults(|order|) && direct !! publishers && publishers - {me} <= withheld
    ensures |withheld - publishers| == |order| - 2 * Committee.Faults(|order|)
  {
    var rank := WithheldIs(order, me, senders, fixed, publishers);
    DirectIsExact(order, publishers, rank);
    direct := Direct(order, publishers, rank);
    withheld := ToSet(order) - {me} - direct;
    assert direct + withheld + {me} == ToSet(order) by {
      assert direct <= ToSet(order) && me in ToSet(order);
    }
    CountWithheld(order, publishers, direct, withheld, me);
  }

  /** Whenever validation accepts the mixed-open profile: the direct group is exactly f correct
      members, and every other publisher and exactly n - 2f correct members are withheld. */
  lemma AcceptedMixedOpenPartitions<K>(p: Parameters<K>, order: seq<K>, me: K)
      returns (direct: set<K>, withheld: set<K>)
    requires Distinct(order) && Accepted(p, order) && p.mixedOpen
    requires me in Publishers(order, p.senders, p.publishers)
    ensures MixedOpenWithheld(order, me, p.senders, p.publishers) == Some(withheld)
    ensures direct + withheld + {me} == ToSet(order) && direct !! withheld && me !in direct && me !in withheld
    ensures var publishers := Publishers(order, p.senders, p.publishers);
      && |direct| == Committee.Faults(|order|) && direct !! publishers && publishers - {me} <= withheld
      && |withheld - publishers| == |order| - 2 * Committee.Faults(|order|)
  {
    AcceptedPublishers(p, order);
    direct, withheld := MixedOpenPartitions(order, me, p.senders, p.publishers, Publishers(order, p.senders, p.publishers));
  }
}

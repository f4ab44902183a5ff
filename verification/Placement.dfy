/** Who a faulty publisher withholds from or sends to (config/src/lib.rs). */
module Placement {
  import opened Seqs
  import opened Words
  import opened Modular
  import Committee

  /** `usize` arithmetic in a release build wraps around. */
  function Wrap(x: nat): nat {
    x % U64
  }

  /** The identities the fault injector controls. */
  function Publishers<K(==)>(order: seq<K>, senders: nat, fixed: seq<K>): set<K> {
    if fixed == [] then ToSet(order[..if senders < |order| then senders else |order|]) else ToSet(fixed)
  }

  function Within<K(==)>(s: set<K>): K -> bool {
    x => x in s
  }

  function IndexOf<K(==)>(order: seq<K>, k: K): (i: Option<nat>)
    ensures i.Some? ==> i.value < |order| && order[i.value] == k
    ensures i.None? ==> k !in order
  {
    if order == [] then None
    else if order[0] == k then Some(0)
    else match IndexOf(order[1..], k)
      case None => None
      case Some(j) => Some(j + 1)
  }

  /** The keys at the given positions. */
  function Picked<K(==)>(order: seq<K>, slots: seq<nat>): set<K>
    requires forall k :: 0 <= k < |slots| ==> slots[k] < |order|
  {
    if slots == [] then {} else {order[slots[0]]} + Picked(order, slots[1..])
  }

  lemma {:induction false} PickedMember<K>(order: seq<K>, slots: seq<nat>, slot: nat)
    requires forall k :: 0 <= k < |slots| ==> slots[k] < |order|
    requires Distinct(order) && slot < |order|
    ensures order[slot] in Picked(order, slots) <==> slot in slots
  {
    if slots != [] {
      assert slots == [slots[0]] + slots[1..];
      PickedMember(order, slots[1..], slot);
    }
  }

  /** Different positions pick different members. */
  lemma {:induction false} PickedIsExact<K>(order: seq<K>, slots: seq<nat>)
    requires forall k :: 0 <= k < |slots| ==> slots[k] < |order|
    requires Distinct(order) && Distinct(slots)
    ensures |Picked(order, slots)| == |slots| && Picked(order, slots) <= ToSet(order)
  {
    if slots != [] {
      DistinctParts([slots[0]], slots[1..]);
      assert [slots[0]] + slots[1..] == slots;
      assert slots[0] in [slots[0]];
      PickedIsExact(order, slots[1..]);
      PickedMember(order, slots[1..], slots[0]);
    }
  }

  // ---- Staggered withholding -------------------------------------------------------------

  /** The committee slot `offset` strides after `i`. */
  function Slot(n: nat, i: nat, offset: nat, stride: nat): (s: nat)
    requires n > 0
    ensures s < n
  {
    Wrap(i + Wrap(offset * stride)) % n
  }

  /** The slots 1 to `width` strides after `i`. */
  function StrideSlots(n: nat, i: nat, width: nat, stride: nat): (slots: seq<nat>)
    requires n > 0
    ensures |slots| == width && forall k :: 0 <= k < width ==> slots[k] < n
  {
    seq(width, k requires 0 <= k < width => Slot(n, i, k + 1, stride))
  }

  function Staggered<K(==)>(order: seq<K>, i: nat, width: nat, stride: nat): set<K>
    requires order != []
  {
    Picked(order, StrideSlots(|order|, i, width, stride))
  }

  function Width(n: nat, count: Option<nat>): nat {
    var wanted := if count.Some? then count.value else n / 2;
    if n == 0 then 0 else if wanted < n - 1 then wanted else n - 1
  }

  function WithheldDestinations<K(==)>(order: seq<K>, me: K, senders: nat, fixed: seq<K>, count: Option<nat>,
                                       stride: nat, receivers: seq<K>): Option<set<K>>
  {
    if (senders == 0 && fixed == []) || order == [] then None
    else
      var i := IndexOf(order, me);
      if i.None? || me !in Publishers(order, senders, fixed) then None
      else if receivers != [] then Some(set r | r in receivers && r != me && r in order)
      else Some(Staggered(order, i.value, Width(|order|, count), stride))
  }

  /** 64-bit arithmetic does not disturb the slots: nothing overflows, or overflow is a multiple of `n`. */
  predicate WrapIsHarmless(n: nat, width: nat, stride: nat)
    requires n > 0
  {
    n + width * stride < U64 || U64 % n == 0
  }

  lemma WrapKeepsResidue(x: nat, n: nat)
    requires n > 0 && U64 % n == 0
    ensures Wrap(x) % n == x % n
  {
    var h, q := U64 / n, x / U64;
    assert U64 == n * h;
    assert x == q * U64 + Wrap(x);
    assert q * (n * h) == (q * h) * n;
    assert x == (q * h) * n + Wrap(x);
    SameResidueAfter(x, Wrap(x), q * h, n);
  }

  lemma SameResidueAfter(x: nat, y: nat, k: nat, n: nat)
    requires n > 0 && x == k * n + y
    ensures x % n == y % n
  {
    var q, r := y / n, y % n;
    assert x == (k + q) * n + r;
    DivModUnique(x, n, k + q, r);
  }

  lemma WrappedSum(i: nat, x: nat, n: nat)
    requires n > 0 && (i + x < U64 || U64 % n == 0)
    ensures Wrap(i + Wrap(x)) % n == (i + x) % n
  {
    if U64 % n == 0 {
      WrapKeepsResidue(i + Wrap(x), n);
      WrapKeepsResidue(x, n);
      AddResidue(i, Wrap(x), x, n);
    }
  }

  lemma SlotIsResidue(n: nat, i: nat, offset: nat, width: nat, stride: nat)
    requires i < n < U64 && offset <= width && WrapIsHarmless(n, width, stride)
    ensures Slot(n, i, offset, stride) == (i + offset * stride) % n
  {
    MulMonotone(offset, stride, width, stride);
    WrappedSum(i, offset * stride, n);
  }

  lemma AddResidue(i: nat, x: nat, y: nat, n: nat)
    requires n > 0 && x % n == y % n
    ensures (i + x) % n == (i + y) % n
  {
    var q, p, r := x / n, y / n, x % n;
    assert i + x == q * n + (i + r) && i + y == p * n + (i + r);
    SameResidueAfter(i + x, i + r, q, n);
    SameResidueAfter(i + y, i + r, p, n);
  }

  /** Different offsets, including zero for the sender itself, hit different slots. */
  lemma SlotsDiffer(n: nat, i: nat, p: nat, q: nat, bound: nat, stride: nat)
    requires i < n < U64 && p < q <= bound < n && Gcd(stride, n) == 1 && WrapIsHarmless(n, bound, stride)
    ensures Slot(n, i, p, stride) != Slot(n, i, q, stride)
  {
    SlotIsResidue(n, i, p, bound, stride);
    SlotIsResidue(n, i, q, bound, stride);
    StrideIsInjective(i, p, q, stride, n);
  }

  lemma SlotOfSender(n: nat, i: nat, stride: nat)
    requires i < n < U64
    ensures Slot(n, i, 0, stride) == i
  {
    assert 0 * stride == 0;
    WrappedSum(i, 0, n);
    DivModUnique(i, n, 0, i);
  }

  /** A function that takes `width + 1` different values lists them without repeats. */
  lemma ValuesDistinct(f: nat -> nat, width: nat, slots: seq<nat>)
    requires |slots| == width && forall k :: 0 <= k < width ==> slots[k] == f(k + 1)
    requires forall p: nat, q: nat :: p < q <= width ==> f(p) != f(q)
    ensures Distinct(slots) && f(0) !in slots
  {
  }

  function SlotAt(n: nat, i: nat, stride: nat): nat -> nat
    requires n > 0
  {
    offset => Slot(n, i, offset, stride)
  }

  lemma AllSlotsDiffer(n: nat, i: nat, width: nat, stride: nat)
    requires i < n < U64 && width < n && Gcd(stride, n) == 1 && WrapIsHarmless(n, width, stride)
    ensures forall p: nat, q: nat :: p < q <= width ==> SlotAt(n, i, stride)(p) != SlotAt(n, i, stride)(q)
  {
    forall p: nat, q: nat | p < q <= width ensures SlotAt(n, i, stride)(p) != SlotAt(n, i, stride)(q) {
      SlotsDiffer(n, i, p, q, width, stride);
    }
  }

  lemma StrideSlotsDistinct(n: nat, i: nat, width: nat, stride: nat)
    requires i < n < U64 && width < n && Gcd(stride, n) == 1 && WrapIsHarmless(n, width, stride)
    ensures Distinct(StrideSlots(n, i, width, stride)) && i !in StrideSlots(n, i, width, stride)
  {
    AllSlotsDiffer(n, i, width, stride);
    SlotOfSender(n, i, stride);
    ValuesDistinct(SlotAt(n, i, stride), width, StrideSlots(n, i, width, stride));
  }

  /** The destinations are `width` distinct members and never the sender. */
  predicate ExactFor<K(==)>(order: seq<K>, i: nat, width: nat, stride: nat)
    requires i < |order|
  {
    var d := Staggered(order, i, width, stride);
    |d| == width && d <= ToSet(order) && order[i] !in d
  }

  /** With a stride coprime to the committee size, and unless 64-bit overflow interferes, the
      destinations are exact. */
  lemma StaggeredIsExact<K>(order: seq<K>, i: nat, width: nat, stride: nat)
    requires Distinct(order) && i < |order| && width < |order|
    requires |order| < U64 && Gcd(stride, |order|) == 1 && WrapIsHarmless(|order|, width, stride)
    ensures ExactFor(order, i, width, stride)
  {
    StrideSlotsDistinct(|order|, i, width, stride);
    var slots := StrideSlots(|order|, i, width, stride);
    PickedIsExact(order, slots);
    PickedMember(order, slots, i);
  }

  // ---- Validation ------------------------------------------------------------------------

  /** The fault-injection parameters that `validate_header_faults` reads. */
  datatype Parameters<K> = Parameters(
    senders: nat, publishers: seq<K>, count: Option<nat>, stride: nat, receivers: seq<K>,
    headers: bool, repair: bool, leaderRelay: bool,
    vantage: bool, mixedOpen: bool, singleTarget: bool, atMs: Option<nat>, forMs: nat,
    latePublishers: seq<K>, lateReceivers: seq<K>, lateDelayMs: nat)

  predicate NoRepeats<K(==)>(xs: seq<K>) {
    |ToSet(xs)| == |xs|
  }

  predicate AnyPublishers<K(==)>(p: Parameters<K>) {
    p.senders > 0 || p.publishers != []
  }

  /** Size and stride of the withholding map. */
  predicate StrideAccepted<K(==)>(p: Parameters<K>, n: nat) {
    && p.senders <= n
    && (p.count.Some? ==> p.count.value < n)
    && p.stride != 0
    && (p.receivers == [] && AnyPublishers(p) ==> Gcd(p.stride, n) == 1)
    && (p.repair ==> AnyPublishers(p))
  }

  predicate LeaderRelayAccepted<K(==)>(p: Parameters<K>, order: seq<K>) {
    p.leaderRelay ==>
      && AnyPublishers(p)
      && |Publishers(order, p.senders, p.publishers)| == Committee.Faults(|order|)
      && !p.headers && p.repair && p.receivers == []
      && p.count == Some(if |order| == 0 then 0 else |order| - 1)
      && |Publishers(order, p.senders, p.publishers)| < |order|
  }

  predicate MixedOpenAccepted<K(==)>(p: Parameters<K>, order: seq<K>) {
    && (p.mixedOpen ==>
          && p.vantage && !p.leaderRelay && Committee.Faults(|order|) > 0
          && |Publishers(order, p.senders, p.publishers)| == Committee.Faults(|order|)
          && p.headers && p.repair && p.atMs.Some? && p.forMs != 0
          && p.count == None && p.receivers == [])
    && (p.singleTarget ==> p.mixedOpen)
  }

  predicate FixedListsAccepted<K(==)>(p: Parameters<K>, order: seq<K>) {
    && (p.senders == 0 || p.publishers == [])
    && NoRepeats(p.publishers) && ToSet(p.publishers) <= ToSet(order)
    && (p.receivers != [] ==>
          && AnyPublishers(p)
          && NoRepeats(p.receivers) && ToSet(p.receivers) <= ToSet(order)
          && Publishers(order, p.senders, p.publishers) !! ToSet(p.receivers))
  }

  predicate LateHeadersAccepted<K(==)>(p: Parameters<K>, order: seq<K>) {
    p.latePublishers != [] || p.lateReceivers != [] ==>
    && p.latePublishers != [] && p.lateReceivers != [] && p.lateDelayMs != 0 && !AnyPublishers(p)
    && NoRepeats(p.latePublishers) && NoRepeats(p.lateReceivers)
    && ToSet(p.latePublishers) !! ToSet(p.lateReceivers)
    && ToSet(p.latePublishers) + ToSet(p.lateReceivers) <= ToSet(order)
  }

  /** `validate_header_faults` returns Ok. */
  predicate Accepted<K(==)>(p: Parameters<K>, order: seq<K>) {
    && StrideAccepted(p, |order|) && LeaderRelayAccepted(p, order) && MixedOpenAccepted(p, order)
    && FixedListsAccepted(p, order) && LateHeadersAccepted(p, order)
  }

  /** Whenever validation accepts a staggered configuration, every publisher withholds from exactly
      the configured number of distinct members and never from itself. */
  lemma AcceptedStaggerIsExact<K>(p: Parameters<K>, order: seq<K>, me: K)
    requires Distinct(order) && Accepted(p, order) && p.receivers == []
    requires me in order && me in Publishers(order, p.senders, p.publishers)
    requires |order| < U64 && WrapIsHarmless(|order|, Width(|order|, p.count), p.stride)
    ensures var d := WithheldDestinations(order, me, p.senders, p.publishers, p.count, p.stride, p.receivers);
      && d.Some? && |d.value| == Width(|order|, p.count)
      && d.value <= ToSet(order) && me !in d.value
  {
    var i := IndexOf(order, me).value;
    var width := Width(|order|, p.count);
    StaggeredIsExact(order, i, width, p.stride);
  }

  /** A stride coprime to three whose second step overflows 64 bits. */
  const OVERFLOWING: nat := 0x8000_0000_0000_0002

  lemma OverflowingSlots(stride: nat)
    requires stride == OVERFLOWING
    ensures StrideSlots(3, 0, 2, stride) == [1, 1] && Gcd(stride, 3) == 1
  {
    assert Gcd(stride, 3) == Gcd(3, stride % 3) && Gcd(3, 1) == Gcd(1, 0);
    assert Slot(3, 0, 1, stride) == 1 && Slot(3, 0, 2, stride) == 1;
  }

  /** Overflow breaks it: validation accepts this configuration of three members, and its publisher
      withholds from one member instead of two. */
  lemma WrappedStrideRepeats() returns (p: Parameters<nat>, order: seq<nat>)
    ensures Distinct(order) && Accepted(p, order) && p.receivers == [] && 10 in Publishers(order, p.senders, p.publishers)
    ensures Width(|order|, p.count) == 2
    ensures WithheldDestinations(order, 10, p.senders, p.publishers, p.count, p.stride, p.receivers) == Some({11})
  {
    order := [10, 11, 12];
    p := Parameters(1, [], Some(2), OVERFLOWING, [], true, false, false, false, false, false, None, 0, [], [], 0);
    OverflowingSlots(p.stride);
    assert Picked(order, [1, 1]) == {11} + Picked(order, [1]) && Picked(order, [1]) == {11} + Picked(order, []);
    assert order[..1] == [10] && 10 in [10];
    assert IndexOf(order, 10) == Some(0) && Width(3, Some(2)) == 2;
    assert Staggered(order, 0, 2, p.stride) == Picked(order, [1, 1]) == {11};
  }
}

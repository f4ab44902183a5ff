/** How large a bundle gets when an accumulator is emptied as soon as it reaches its byte cap. */
module Sizes {
  import opened Words
  import Bundle

  /** The bytes before the last item are below the cap, so the last item is the one that reached it. */
  predicate Capped(cap: nat, ds: seq<Bytes>) {
    ds != [] && (|ds| > 1 ==> Bundle.TotalLength(ds[..|ds| - 1]) < cap)
  }

  predicate Limited(ds: seq<Bytes>, largest: nat) {
    forall i :: 0 <= i < |ds| ==> |ds[i]| <= largest
  }

  function Empties(ds: seq<Bytes>): nat {
    if ds == [] then 0 else (if ds[0] == [] then 1 else 0) + Empties(ds[1..])
  }

  /** A cap's worth of one-byte items and one largest item, with their length fields. */
  function BundleBound(cap: nat, largest: nat): nat {
    5 * (if cap == 0 then 1 else cap) + 3 + largest
  }

  lemma {:induction false} TotalSnoc(ds: seq<Bytes>, d: Bytes)
    ensures Bundle.TotalLength(ds + [d]) == Bundle.TotalLength(ds) + |d|
  {
    if ds == [] {
      assert ([] + [d])[1..] == [];
    } else {
      TotalSnoc(ds[1..], d);
      assert (ds + [d])[1..] == ds[1..] + [d];
    }
  }

  lemma {:induction false} EmptiesSnoc(ds: seq<Bytes>, d: Bytes)
    ensures Empties(ds + [d]) == Empties(ds) + if d == [] then 1 else 0
  {
    if ds == [] {
      assert ([] + [d])[1..] == [];
    } else {
      EmptiesSnoc(ds[1..], d);
      assert (ds + [d])[1..] == ds[1..] + [d];
    }
  }

  lemma {:induction false} NoEmpties(ds: seq<Bytes>)
    requires forall i :: 0 <= i < |ds| ==> ds[i] != []
    ensures Empties(ds) == 0
  {
    if ds != [] {
      NoEmpties(ds[1..]);
    }
  }

  lemma {:induction false} CountWithinTotal(ds: seq<Bytes>)
    ensures |ds| <= Bundle.TotalLength(ds) + Empties(ds)
  {
    if ds != [] {
      CountWithinTotal(ds[1..]);
    }
  }

  /** Adding to an accumulator that is empty or below the cap. */
  lemma CappedSnoc(cap: nat, ds: seq<Bytes>, d: Bytes)
    requires ds == [] || Bundle.TotalLength(ds) < cap
    ensures Capped(cap, ds + [d])
  {
    assert (ds + [d])[..|ds|] == ds;
  }

  /** An accumulator below the cap. */
  lemma CappedBelow(cap: nat, ds: seq<Bytes>)
    requires ds != [] && Bundle.TotalLength(ds) < cap
    ensures Capped(cap, ds)
  {
    var front, d := ds[..|ds| - 1], ds[|ds| - 1];
    assert ds == front + [d];
    TotalSnoc(front, d);
  }

  /** The size of such a bundle: at most 5B + 3 + M bytes, and four more for each empty item. */
  lemma CappedBundleSize(cap: nat, ds: seq<Bytes>, largest: nat)
    requires Capped(cap, ds) && Limited(ds, largest)
    ensures |Bundle.Encode(ds)| <= BundleBound(cap, largest) + 4 * Empties(ds)
  {
    var front, d := ds[..|ds| - 1], ds[|ds| - 1];
    assert ds == front + [d];
    TotalSnoc(front, d);
    EmptiesSnoc(front, d);
    CountWithinTotal(front);
    Bundle.EncodedLength(ds);
  }
}

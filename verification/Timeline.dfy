/** Timelines of openings and sealings, sorted by time with openings first, as in
    docker-bench/recovery_report.py. */
module Timeline {
  /** `opens` is a delta of +1, otherwise -1. */
  datatype Item = Item(at: int, opens: bool, view: int)

  /** The sort key: time, then openings before sealings, then view. */
  predicate Precedes(a: Item, b: Item) {
    a.at < b.at || (a.at == b.at && ((a.opens && !b.opens) || (a.opens == b.opens && a.view <= b.view)))
  }

  predicate Sorted(xs: seq<Item>) {
    forall i, j :: 0 <= i < j < |xs| ==> Precedes(xs[i], xs[j])
  }

  function Insert(x: Item, xs: seq<Item>): seq<Item> {
    if xs == [] || Precedes(x, xs[0]) then [x] + xs else [xs[0]] + Insert(x, xs[1..])
  }

  function Sort(xs: seq<Item>): seq<Item> {
    if xs == [] then [] else Insert(xs[0], Sort(xs[1..]))
  }

  function Count(xs: seq<Item>, p: Item -> bool): nat {
    if xs == [] then 0 else if p(xs[0]) then 1 + Count(xs[1..], p) else Count(xs[1..], p)
  }

  /** The views of the items that satisfy `p`. */
  ghost function Views(xs: seq<Item>, p: Item -> bool): set<int> {
    if xs == [] then {} else if p(xs[0]) then {xs[0].view} + Views(xs[1..], p) else Views(xs[1..], p)
  }

  lemma {:induction false} InsertMember(x: Item, xs: seq<Item>, y: Item)
    ensures y in Insert(x, xs) <==> y == x || y in xs
  {
    if xs != [] && !Precedes(x, xs[0]) {
      InsertMember(x, xs[1..], y);
      assert xs == [xs[0]] + xs[1..];
    }
  }

  lemma {:induction false} InsertSorted(x: Item, xs: seq<Item>)
    requires Sorted(xs)
    ensures Sorted(Insert(x, xs))
  {
    if xs != [] && !Precedes(x, xs[0]) {
      InsertSorted(x, xs[1..]);
      var rest := Insert(x, xs[1..]);
      forall j | 0 <= j < |rest| ensures Precedes(xs[0], rest[j]) {
        InsertMember(x, xs[1..], rest[j]);
      }
    }
  }

  lemma {:induction false} InsertCount(x: Item, xs: seq<Item>, p: Item -> bool)
    ensures Count(Insert(x, xs), p) == Count([x] + xs, p)
  {
    assert ([x] + xs)[1..] == xs;
    if xs != [] && !Precedes(x, xs[0]) {
      InsertCount(x, xs[1..], p);
      assert ([x] + xs[1..])[1..] == xs[1..];
    }
  }

  /** Sorting yields a sorted list with the same items, each as often as before. */
  lemma {:induction false} SortIsSorted(xs: seq<Item>)
    ensures Sorted(Sort(xs))
  {
    if xs != [] {
      SortIsSorted(xs[1..]);
      InsertSorted(xs[0], Sort(xs[1..]));
    }
  }

  lemma {:induction false} SortMember(xs: seq<Item>, y: Item)
    ensures y in Sort(xs) <==> y in xs
  {
    if xs != [] {
      SortMember(xs[1..], y);
      InsertMember(xs[0], Sort(xs[1..]), y);
    }
  }

  lemma {:induction false} SortCount(xs: seq<Item>, p: Item -> bool)
    ensures Count(Sort(xs), p) == Count(xs, p)
  {
    if xs != [] {
      SortCount(xs[1..], p);
      var sorted := Sort(xs[1..]);
      InsertCount(xs[0], sorted, p);
      assert ([xs[0]] + sorted)[1..] == sorted;
    }
  }

  lemma {:induction false} CountConcat(xs: seq<Item>, ys: seq<Item>, p: Item -> bool)
    ensures Count(xs + ys, p) == Count(xs, p) + Count(ys, p)
  {
    if xs == [] {
      assert xs + ys == ys;
    } else {
      CountConcat(xs[1..], ys, p);
      assert (xs + ys)[1..] == xs[1..] + ys;
    }
  }

  lemma {:induction false} CountNone(xs: seq<Item>, p: Item -> bool)
    requires forall i :: 0 <= i < |xs| ==> !p(xs[i])
    ensures Count(xs, p) == 0
  {
    if xs != [] {
      CountNone(xs[1..], p);
    }
  }

  lemma {:induction false} ViewsMember(xs: seq<Item>, p: Item -> bool, v: int)
    ensures v in Views(xs, p) <==> exists x :: x in xs && p(x) && x.view == v
  {
    if xs != [] {
      ViewsMember(xs[1..], p, v);
      assert xs == [xs[0]] + xs[1..];
      if v in Views(xs, p) && !(p(xs[0]) && xs[0].view == v) {
        var x :| x in xs[1..] && p(x) && x.view == v;
        assert x in xs;
      }
    }
  }

  /** If `ys` holds every `q`-item of `xs`' `p`-items, its views cover theirs. */
  lemma ViewsWithin(xs: seq<Item>, p: Item -> bool, ys: seq<Item>, q: Item -> bool)
    requires forall x :: x in xs && p(x) ==> x in ys && q(x)
    ensures Views(xs, p) <= Views(ys, q)
  {
    forall v | v in Views(xs, p) ensures v in Views(ys, q) {
      ViewsMember(xs, p, v);
      var x :| x in xs && p(x) && x.view == v;
      assert x in ys && q(x);
      ViewsMember(ys, q, v);
    }
  }

  function Opens(): Item -> bool {
    (x: Item) => x.opens
  }

  function Seals(): Item -> bool {
    (x: Item) => !x.opens
  }

  function OpensBy(t: int): Item -> bool {
    (x: Item) => x.opens && x.at <= t
  }

  function SealsBefore(t: int): Item -> bool {
    (x: Item) => !x.opens && x.at < t
  }

  /** Everything up to and including the openings of instant `t`. */
  predicate Early(x: Item, t: int) {
    x.at < t || (x.at == t && x.opens)
  }

  /** A sorted timeline has, for each instant, a point after exactly its openings and before its
      sealings. */
  lemma {:induction false} CutPoint(xs: seq<Item>, t: int) returns (k: nat)
    requires Sorted(xs)
    ensures k <= |xs|
    ensures forall i :: 0 <= i < |xs| ==> (Early(xs[i], t) <==> i < k)
  {
    if xs == [] || !Early(xs[0], t) {
      return 0;
    }
    var rest := CutPoint(xs[1..], t);
    k := rest + 1;
    forall i | 0 <= i < |xs| ensures Early(xs[i], t) <==> i < k {
      if i > 0 {
        assert xs[i] == xs[1..][i - 1];
      }
    }
  }
}

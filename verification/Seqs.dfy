/** Options, results, and the sequence filtering and flattening facts every other module uses. */
module Seqs {

  datatype Option<+T> = None | Some(value: T)

  datatype Result<+T, +E> = Ok(value: T) | Err(error: E)

  /** The smaller of two optional numbers, where None is the absent bound. */
  function MinOption(a: Option<nat>, b: Option<nat>): (m: Option<nat>)
    ensures m.None? <==> a.None? && b.None?
    ensures m.Some? ==> m == a || m == b
    ensures m.Some? && a.Some? ==> m.value <= a.value
    ensures m.Some? && b.Some? ==> m.value <= b.value
  {
    match (a, b)
    case (None, _) => b
    case (_, None) => a
    case (Some(x), Some(y)) => Some(if x < y then x else y)
  }

  /** The elements of `xs` that satisfy `p`, in order. */
  function Keep<T>(xs: seq<T>, p: T -> bool): (ys: seq<T>)
    ensures |ys| <= |xs|
  {
    if xs == [] then []
    else if p(xs[0]) then [xs[0]] + Keep(xs[1..], p)
    else Keep(xs[1..], p)
  }

  lemma {:induction false} KeepMember<T>(xs: seq<T>, p: T -> bool, x: T)
    ensures x in Keep(xs, p) <==> x in xs && p(x)
  {
    if xs != [] {
      assert xs == [xs[0]] + xs[1..];
      KeepMember(xs[1..], p, x);
    }
  }

  lemma {:induction false} KeepConcat<T>(xs: seq<T>, ys: seq<T>, p: T -> bool)
    ensures Keep(xs + ys, p) == Keep(xs, p) + Keep(ys, p)
  {
    if xs == [] {
      assert xs + ys == ys;
    } else {
      assert (xs + ys)[1..] == xs[1..] + ys;
      KeepConcat(xs[1..], ys, p);
    }
  }

  lemma KeepOne<T>(x: T, p: T -> bool)
    ensures Keep([x], p) == if p(x) then [x] else []
  {
  }

  lemma {:induction false} KeepAll<T>(xs: seq<T>, p: T -> bool)
    requires forall x :: x in xs ==> p(x)
    ensures Keep(xs, p) == xs
  {
    if xs != [] {
      KeepAll(xs[1..], p);
    }
  }

  lemma {:induction false} KeepNone<T>(xs: seq<T>, p: T -> bool)
    requires forall x :: x in xs ==> !p(x)
    ensures Keep(xs, p) == []
  {
    if xs != [] {
      KeepNone(xs[1..], p);
    }
  }

  /** Filtering twice is order independent. */
  lemma {:induction false} KeepCommutes<T>(xs: seq<T>, p: T -> bool, q: T -> bool)
    ensures Keep(Keep(xs, p), q) == Keep(Keep(xs, q), p)
  {
    if xs != [] {
      KeepCommutes(xs[1..], p, q);
      KeepConcat(Keep(xs[..1], p), Keep(xs[1..], p), q);
      KeepConcat(Keep(xs[..1], q), Keep(xs[1..], q), p);
      assert Keep(xs, p) == Keep(xs[..1], p) + Keep(xs[1..], p);
      assert Keep(xs, q) == Keep(xs[..1], q) + Keep(xs[1..], q);
    }
  }

  /** Two predicates that agree on the elements select the same subsequence. */
  lemma {:induction false} KeepSame<T>(xs: seq<T>, p: T -> bool, q: T -> bool)
    requires forall x :: x in xs ==> p(x) == q(x)
    ensures Keep(xs, p) == Keep(xs, q)
  {
    if xs != [] {
      KeepSame(xs[1..], p, q);
    }
  }

  /** Membership outside a set, as a filter. */
  function NotIn<T(==)>(s: set<T>): T -> bool {
    x => x !in s
  }

  function ToSet<T(==)>(xs: seq<T>): set<T> {
    set x | x in xs
  }

  predicate Distinct<T(==)>(xs: seq<T>) {
    forall i, j :: 0 <= i < j < |xs| ==> xs[i] != xs[j]
  }

  /** Filtering out two sets in turn filters out their union. */
  lemma {:induction false} KeepNotInTwice<T>(xs: seq<T>, s: set<T>, t: set<T>)
    ensures Keep(Keep(xs, NotIn(s)), NotIn(t)) == Keep(xs, NotIn(s + t))
  {
    if xs != [] {
      KeepNotInTwice(xs[1..], s, t);
      KeepConcat(Keep(xs[..1], NotIn(s)), Keep(xs[1..], NotIn(s)), NotIn(t));
      assert Keep(xs, NotIn(s)) == Keep(xs[..1], NotIn(s)) + Keep(xs[1..], NotIn(s));
    }
  }

  /** Two parts of a sequence without repeats share no element. */
  lemma DistinctParts<T>(xs: seq<T>, ys: seq<T>)
    requires Distinct(xs + ys)
    ensures forall x :: x in xs ==> x !in ys
    ensures Distinct(xs) && Distinct(ys)
  {
    var all := xs + ys;
    assert forall i :: 0 <= i < |xs| ==> all[i] == xs[i];
    assert forall j :: 0 <= j < |ys| ==> all[|xs| + j] == ys[j];
    forall x | x in xs ensures x !in ys {
      var i :| 0 <= i < |xs| && xs[i] == x;
      forall j | 0 <= j < |ys| ensures ys[j] != x {
        assert all[i] != all[|xs| + j];
      }
    }
    forall i, j | 0 <= i < j < |ys| ensures ys[i] != ys[j] {
      assert all[|xs| + i] != all[|xs| + j];
    }
  }

  lemma KeepThree<T>(x: seq<T>, y: seq<T>, z: seq<T>, p: T -> bool)
    ensures Keep(x + y + z, p) == Keep(x, p) + Keep(y, p) + Keep(z, p)
  {
    KeepConcat(x + y, z, p);
    KeepConcat(x, y, p);
  }

  lemma KeepAround<T>(xs: seq<T>, ys: seq<T>, zs: seq<T>, p: T -> bool)
    requires (forall x :: x in xs ==> p(x)) && (forall y :: y in ys ==> !p(y)) && (forall z :: z in zs ==> p(z))
    ensures Keep(xs + ys + zs, p) == xs + zs
  {
    KeepAll(xs, p);
    KeepNone(ys, p);
    KeepAll(zs, p);
    KeepThree(xs, ys, zs, p);
    NothingBetween(xs, zs);
  }

  lemma NothingBetween<T>(x: seq<T>, y: seq<T>)
    ensures x + [] + y == x + y
  {
  }

  /** In a sequence without repeats, filtering out a middle segment removes exactly that segment. */
  lemma KeepDropsSegment<T>(xs: seq<T>, ys: seq<T>, zs: seq<T>)
    requires Distinct(xs + ys + zs)
    ensures Keep(xs + ys + zs, NotIn(ToSet(ys))) == xs + zs
  {
    SegmentsApart(xs, ys, zs);
    KeepAround(xs, ys, zs, NotIn(ToSet(ys)));
  }

  lemma SegmentsApart<T>(xs: seq<T>, ys: seq<T>, zs: seq<T>)
    requires Distinct(xs + ys + zs)
    ensures forall x :: x in xs ==> x !in ToSet(ys)
    ensures forall z :: z in zs ==> z !in ToSet(ys)
  {
    DistinctParts(xs + ys, zs);
    DistinctParts(xs, ys);
    assert forall y :: y in ys ==> y in xs + ys;
  }

  /** A filtered sequence without repeats has no repeats. */
  lemma {:induction false} KeepDistinct<T>(xs: seq<T>, p: T -> bool)
    requires Distinct(xs)
    ensures Distinct(Keep(xs, p))
  {
    if xs != [] {
      assert forall i, j :: 0 <= i < j < |xs[1..]| ==> xs[1..][i] == xs[i + 1] && xs[1..][j] == xs[j + 1];
      KeepDistinct(xs[1..], p);
      var rest := Keep(xs[1..], p);
      KeepMember(xs[1..], p, xs[0]);
      assert xs[0] !in xs[1..];
      var ys := Keep(xs, p);
      if p(xs[0]) {
        assert ys == [xs[0]] + rest;
      } else {
        assert ys == rest;
      }
    }
  }

  // ---- Concatenation ---------------------------------------------------------------------

  lemma TailOfConcat<T>(xs: seq<T>, ys: seq<T>)
    requires xs != []
    ensures (xs + ys)[0] == xs[0] && (xs + ys)[1..] == xs[1..] + ys
  {
  }

  lemma Append<T>(x: seq<T>, y: seq<T>, z: seq<T>)
    ensures x + y + z == x + (y + z)
  {
  }

  lemma AppendThree<T>(x: seq<T>, y: seq<T>, z: seq<T>, w: seq<T>)
    ensures x + y + z + w == x + (y + (z + w))
  {
  }

  lemma Regroup<T>(x: seq<T>, m: seq<T>, z: seq<T>, y: seq<T>)
    ensures x + (m + z) + y == x + m + (z + y) && x + z + y == x + (z + y)
  {
  }
}

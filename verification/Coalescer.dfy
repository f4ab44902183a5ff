/** The outbound accumulator of network/src/batch.rs. */
module Coalescer {
  import opened Words
  import Bundle
  import Sizes

  function Firsts<T>(items: seq<(Bytes, T)>): (ds: seq<Bytes>)
    ensures |ds| == |items|
  {
    seq(|items|, i requires 0 <= i < |items| => items[i].0)
  }

  function Extras<T>(items: seq<(Bytes, T)>): (es: seq<T>)
    ensures |es| == |items|
  {
    seq(|items|, i requires 0 <= i < |items| => items[i].1)
  }

  class Coalescer<T> {
    var items: seq<(Bytes, T)>
    var bytes: nat

    /** The byte count is the sum of the item lengths. */
    ghost predicate Valid()
      reads this
    {
      bytes == Bundle.TotalLength(Firsts(items))
    }

    constructor ()
      ensures Valid() && items == []
    {
      items := [];
      bytes := 0;
    }

    /** `justArmed` reports the step from empty to non-empty. */
    method Push(data: Bytes, extra: T) returns (justArmed: bool)
      requires Valid()
      modifies this
      ensures Valid() && items == old(items) + [(data, extra)]
      ensures justArmed <==> old(items) == []
    {
      justArmed := items == [];
      bytes := bytes + |data|;
      Sizes.TotalSnoc(Firsts(items), data);
      assert Firsts(items + [(data, extra)]) == Firsts(items) + [data];
      items := items + [(data, extra)];
    }

    /** Compares the bytes held with a cap. */
    method OverCap(maxBytes: nat) returns (over: bool)
      requires Valid()
      ensures over <==> Bundle.TotalLength(Firsts(items)) >= maxBytes
    {
      over := bytes >= maxBytes;
    }

    /** One bundle of everything held; the extras come back in the same order. */
    method Flush() returns (bundle: Bytes, extras: seq<T>)
      requires Valid()
      modifies this
      ensures Valid() && items == []
      ensures bundle == Bundle.Encode(Firsts(old(items))) && extras == Extras(old(items))
    {
      bundle := Bundle.EncodeBundle(Firsts(items));
      extras := Extras(items);
      items := [];
      bytes := 0;
    }

    /** Everything held, not bundled. */
    method Drain() returns (drained: seq<(Bytes, T)>)
      requires Valid()
      modifies this
      ensures Valid() && items == [] && drained == old(items)
    {
      drained := items;
      bytes := 0;
      items := [];
    }
  }
}

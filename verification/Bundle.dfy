/** Bundle frames (network/src/batch.rs): `[count: u32-LE]` and length-prefixed messages. */
module Bundle {
  import opened Seqs
  import opened Words

  datatype Error = TruncatedCount | CountTooLarge | TruncatedPrefix | TruncatedBody

  /** Length-prefixed messages, one after another. */
  function Items(ms: seq<Bytes>): Bytes {
    if ms == [] then [] else LE32(|ms[0]|) + ms[0] + Items(ms[1..])
  }

  function Encode(ms: seq<Bytes>): Bytes {
    LE32(|ms|) + Items(ms)
  }

  function TotalLength(ms: seq<Bytes>): nat {
    if ms == [] then 0 else |ms[0]| + TotalLength(ms[1..])
  }

  /** What the 32-bit count and length fields can represent. */
  predicate Fits(ms: seq<Bytes>) {
    |ms| < U32 && forall m :: m in ms ==> |m| < U32
  }

  /** `count` items read from the front of `b`; what follows them is not looked at. */
  function DecodeItems(b: Bytes, count: nat): (r: Result<seq<Bytes>, Error>)
    ensures r.Ok? ==> |r.value| == count
    decreases count
  {
    if count == 0 then Ok([])
    else if |b| < 4 then Err(TruncatedPrefix)
    else
      var len := FromLE32(b);
      if |b| - 4 < len then Err(TruncatedBody)
      else
        match DecodeItems(b[4 + len..], count - 1)
        case Err(e) => Err(e)
        case Ok(ms) => Ok([b[4..4 + len]] + ms)
  }

  function Decode(b: Bytes): Result<seq<Bytes>, Error> {
    if |b| < 4 then Err(TruncatedCount)
    else
      var count := FromLE32(b);
      if count > (|b| - 4) / 4 then Err(CountTooLarge)
      else DecodeItems(b[4..], count)
  }

  lemma {:induction false} ItemsLength(ms: seq<Bytes>)
    ensures |Items(ms)| == 4 * |ms| + TotalLength(ms)
  {
    if ms != [] {
      ItemsLength(ms[1..]);
    }
  }

  lemma EncodedLength(ms: seq<Bytes>)
    ensures |Encode(ms)| == 4 + 4 * |ms| + TotalLength(ms)
  {
    ItemsLength(ms);
  }

  lemma {:induction false} MemberLength(ms: seq<Bytes>, m: Bytes)
    requires m in ms
    ensures |m| <= TotalLength(ms)
  {
    if m != ms[0] {
      MemberLength(ms[1..], m);
    }
  }

  /** A bundle shorter than 2^32 bytes never suffers the cast to u32. */
  lemma ShortBundleFits(ms: seq<Bytes>)
    requires |Encode(ms)| < U32
    ensures Fits(ms)
  {
    EncodedLength(ms);
    forall m | m in ms ensures |m| < U32 {
      MemberLength(ms, m);
    }
  }

  /** A length prefix followed by that many bytes reads back as the bytes and what follows. */
  lemma ReadsOne(m: Bytes, tail: Bytes)
    requires |m| < U32
    ensures var b := LE32(|m|) + m + tail;
      FromLE32(b) == |m| && b[4..4 + |m|] == m && b[4 + |m|..] == tail
  {
    var b := LE32(|m|) + m + tail;
    assert b == LE32(|m|) + (m + tail);
    DecodesLE32(|m|, m + tail);
  }

  lemma {:induction false} DecodesEncodedItems(ms: seq<Bytes>, tail: Bytes)
    requires forall m :: m in ms ==> |m| < U32
    ensures DecodeItems(Items(ms) + tail, |ms|) == Ok(ms)
    decreases |ms|
  {
    if ms != [] {
      var m, rest := ms[0], ms[1..];
      assert ms == [m] + rest;
      DecodesEncodedItems(rest, tail);
      ReadsOne(m, Items(rest) + tail);
      assert Items(ms) + tail == LE32(|m|) + m + (Items(rest) + tail);
    }
  }

  lemma {:induction false} DecodedItemsArePrefix(b: Bytes, ms: seq<Bytes>)
    requires DecodeItems(b, |ms|) == Ok(ms)
    ensures (forall m :: m in ms ==> |m| < U32) && Items(ms) <= b
    decreases |ms|
  {
    if ms != [] {
      var len, rest := FromLE32(b), ms[1..];
      assert ms == [ms[0]] + rest;
      DecodedItemsArePrefix(b[4 + len..], rest);
      EncodesLE32(b);
      assert b == LE32(len) + ms[0] + b[4 + len..];
    }
  }

  /** The early count check rejects no input the item loop would accept. */
  lemma {:induction false} CountCheckIsHarmless(b: Bytes, count: nat)
    requires count > |b| / 4
    ensures DecodeItems(b, count).Err?
    decreases count
  {
    if |b| >= 4 && |b| - 4 >= FromLE32(b) {
      CountCheckIsHarmless(b[4 + FromLE32(b)..], count - 1);
    }
  }

  /** Decoding yields `ms` exactly when the counts fit and the input starts with the bundle of `ms`. */
  lemma DecodesExactly(b: Bytes, ms: seq<Bytes>)
    ensures Decode(b) == Ok(ms) <==> Fits(ms) && Encode(ms) <= b
  {
    if Decode(b) == Ok(ms) {
      DecodedItemsArePrefix(b[4..], ms);
      EncodesLE32(b);
      assert b == LE32(|ms|) + b[4..];
    }
    if Fits(ms) && Encode(ms) <= b {
      DecodesEncoded(ms, b[|Encode(ms)|..]);
      assert b == Encode(ms) + b[|Encode(ms)|..];
    }
  }

  lemma DecodesEncoded(ms: seq<Bytes>, tail: Bytes)
    requires Fits(ms)
    ensures Decode(Encode(ms) + tail) == Ok(ms)
  {
    var b, body := Encode(ms) + tail, Items(ms) + tail;
    assert b == LE32(|ms|) + body;
    assert FromLE32(b) == |ms| by { DecodesLE32(|ms|, body); }
    assert b[4..] == body;
    assert DecodeItems(body, |ms|) == Ok(ms) by { DecodesEncodedItems(ms, tail); }
    assert |ms| <= |body| / 4 by { ItemsLength(ms); }
  }

  /** Round trip, with trailing bytes ignored: it holds exactly for the lists that fit 32-bit fields. */
  lemma RoundTrip(ms: seq<Bytes>, trailing: Bytes)
    ensures Decode(Encode(ms) + trailing) == Ok(ms) <==> Fits(ms)
  {
    DecodesExactly(Encode(ms) + trailing, ms);
  }

  /** The encoding is injective on lists that fit, even across different trailing bytes. */
  lemma NoTwoReadings(ms: seq<Bytes>, ns: seq<Bytes>, b: Bytes)
    requires Fits(ms) && Fits(ns) && Encode(ms) <= b && Encode(ns) <= b
    ensures ms == ns
  {
    DecodesExactly(b, ms);
    DecodesExactly(b, ns);
  }

  lemma {:induction false} ItemsSnoc(ms: seq<Bytes>, m: Bytes)
    ensures Items(ms + [m]) == Items(ms) + LE32(|m|) + m
  {
    if ms != [] {
      ItemsSnoc(ms[1..], m);
      assert (ms + [m])[1..] == ms[1..] + [m];
    }
  }

  /** The encoder's buffer loop. */
  method EncodeBundle(ms: seq<Bytes>) returns (out: Bytes)
    ensures out == Encode(ms)
  {
    out := LE32(|ms|);
    for i := 0 to |ms|
      invariant out == LE32(|ms|) + Items(ms[..i])
    {
      ItemsSnoc(ms[..i], ms[i]);
      assert ms[..i + 1] == ms[..i] + [ms[i]];
      out := out + LE32(|ms[i]|);
      out := out + ms[i];
    }
    assert ms[..|ms|] == ms;
  }

  /** The outcome of the whole loop, given what it has decoded and what is left to read. */
  ghost predicate Resumes(whole: Result<seq<Bytes>, Error>, done: seq<Bytes>, left: Result<seq<Bytes>, Error>) {
    if left.Err? then whole == left else whole.Ok? && whole.value == done + left.value
  }

  lemma ResumesStep(whole: Result<seq<Bytes>, Error>, done: seq<Bytes>, b: Bytes, count: nat)
    requires count > 0 && Resumes(whole, done, DecodeItems(b, count))
    requires |b| >= 4 && |b| - 4 >= FromLE32(b)
    ensures var len := FromLE32(b);
      Resumes(whole, done + [b[4..4 + len]], DecodeItems(b[4 + len..], count - 1))
  {
    var len := FromLE32(b);
    var rest := DecodeItems(b[4 + len..], count - 1);
    if rest.Ok? {
      assert done + ([b[4..4 + len]] + rest.value) == done + [b[4..4 + len]] + rest.value;
    }
  }

  /** The decoder's cursor loop; every read is inside the input. */
  method DecodeBundle(payload: Bytes) returns (r: Result<seq<Bytes>, Error>)
    ensures r == Decode(payload)
  {
    if |payload| < 4 {
      return Err(TruncatedCount);
    }
    var count := FromLE32(payload);
    var buf := payload[4..];
    if count > |buf| / 4 {
      return Err(CountTooLarge);
    }
    var messages: seq<Bytes> := [];
    for i := 0 to count
      invariant Resumes(Decode(payload), messages, DecodeItems(buf, count - i))
    {
      if |buf| < 4 {
        return Err(TruncatedPrefix);
      }
      var len := FromLE32(buf);
      if |buf| - 4 < len {
        return Err(TruncatedBody);
      }
      ResumesStep(Decode(payload), messages, buf, count - i);
      messages := messages + [buf[4..4 + len]];
      buf := buf[4 + len..];
    }
    assert messages + [] == messages;
    r := Ok(messages);
  }
}

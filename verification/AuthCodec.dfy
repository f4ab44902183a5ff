/** The codec object: encoding and decoding advance its counters in place. */
module AuthCodec {
  import opened Seqs
  import opened Words
  import Codec

  /** Bitwise exclusive or, bit by bit from the least significant one. */
  function Xor(a: nat, b: nat): nat {
    if a == 0 && b == 0 then 0 else (a + b) % 2 + 2 * Xor(a / 2, b / 2)
  }

  /** Bitwise or. */
  function Or(a: nat, b: nat): nat {
    if a == 0 && b == 0 then 0 else (if a % 2 == 1 || b % 2 == 1 then 1 else 0) + 2 * Or(a / 2, b / 2)
  }

  lemma {:induction false} XorIsZero(a: nat, b: nat)
    ensures Xor(a, b) == 0 <==> a == b
  {
    if a != 0 || b != 0 {
      XorIsZero(a / 2, b / 2);
    }
  }

  lemma {:induction false} OrIsZero(a: nat, b: nat)
    ensures Or(a, b) == 0 <==> a == 0 && b == 0
  {
    if a != 0 || b != 0 {
      OrIsZero(a / 2, b / 2);
    }
  }

  /** Compares tags without stopping at the first difference. */
  method TagsMatch(left: Bytes, right: Bytes) returns (same: bool)
    ensures same <==> left == right
  {
    if |left| != |right| {
      return false;
    }
    var difference: nat := 0;
    for i := 0 to |left|
      invariant difference == 0 <==> left[..i] == right[..i]
    {
      var d := Xor(left[i], right[i]);
      XorIsZero(left[i], right[i]);
      OrIsZero(difference, d);
      assert left[..i + 1] == left[..i] + [left[i]] && right[..i + 1] == right[..i] + [right[i]];
      difference := Or(difference, d);
    }
    assert left[..|left|] == left && right[..|right|] == right;
    return difference == 0;
  }

  class AuthCodec {
    const mac: Codec.Mac
    const limit: nat
    var session: Option<Codec.Session>

    ghost function View(): Codec.State
      reads this
    {
      Codec.State(session, limit)
    }

    ghost predicate Valid()
      reads this
    {
      View().Valid()
    }

    constructor (mac: Codec.Mac, limit: nat, session: Option<Codec.Session>)
      requires limit + Codec.TAG_LEN < U32
      ensures Valid() && this.mac == mac && View() == Codec.State(session, limit)
    {
      this.mac := mac;
      this.limit := limit;
      this.session := session;
    }

    /** Appends one frame to `dst`, or refuses a payload over the limit and changes nothing. */
    method Encode(data: Bytes, dst: Bytes) returns (ok: bool, out: Bytes)
      requires Valid()
      modifies this
      ensures Valid() && (ok <==> |data| <= limit)
      ensures ok ==> out == dst + Codec.FrameOf(mac, old(View()), data) && View() == Codec.AfterSend(old(View()))
      ensures !ok ==> out == dst && View() == old(View())
    {
      if |data| > limit {
        return false, dst;
      }
      match session
      case None =>
        return true, dst + BE32(|data|) + data;
      case Some(s) =>
        var tag := mac(s.key, s.role.SendDirection(), s.sent, data);
        session := Some(s.(sent := s.sent + 1));
        out := dst;
        out := out + BE32(|data| + Codec.TAG_LEN);
        out := out + data;
        out := out + tag;
        return true, out;
    }

    /** Takes one frame off `src` and verifies its tag. */
    method Decode(src: Bytes) returns (d: Codec.Decoded)
      requires Valid()
      modifies this
      ensures Valid() && d == Codec.DecodeOne(mac, old(View()), src)
      ensures View() == if d.Frame? then d.next else old(View())
    {
      if |src| < Codec.PREFIX_LEN {
        return Codec.More;
      }
      var n := FromBE32(src);
      var frameLimit := if session.Some? then limit + Codec.TAG_LEN else limit;
      if n > frameLimit {
        return Codec.Failed;
      }
      if |src| - Codec.PREFIX_LEN < n {
        return Codec.More;
      }
      var frame, rest := src[4..4 + n], src[4 + n..];
      match session
      case None =>
        return Codec.Frame(frame, rest, Codec.State(session, limit));
      case Some(s) =>
        if |frame| < Codec.TAG_LEN {
          return Codec.Failed;
        }
        var received := frame[n - Codec.TAG_LEN..];
        frame := frame[..n - Codec.TAG_LEN];
        var matching := TagsMatch(received, mac(s.key, s.role.RecvDirection(), s.received, frame));
        if !matching {
          return Codec.Failed;
        }
        session := Some(s.(received := s.received + 1));
        return Codec.Frame(frame, rest, Codec.State(session, limit));
    }

    /** The framed reader: decodes until more bytes are needed or the stream fails. */
    method DecodeAvailable(src: Bytes) returns (payloads: seq<Bytes>, rest: Option<Bytes>)
      requires Valid()
      modifies this
      ensures Valid()
      ensures Codec.DecodeAll(mac, old(View()), src) == Codec.Drained(payloads, View(), rest)
    {
      payloads := [];
      var buf := src;
      Codec.AfterTwice([], [], Codec.DecodeAll(mac, View(), src));
      while true
        invariant Valid()
        invariant Codec.DecodeAll(mac, old(View()), src) == Codec.After(payloads, Codec.DecodeAll(mac, View(), buf))
        decreases |buf|
      {
        ghost var before := View();
        var d := Decode(buf);
        match d
        case More =>
          assert payloads + [] == payloads;
          return payloads, Some(buf);
        case Failed =>
          assert payloads + [] == payloads;
          return payloads, None;
        case Frame(payload, tail, next) =>
          Codec.AfterTwice(payloads, [payload], Codec.DecodeAll(mac, next, tail));
          payloads := payloads + [payload];
          buf := tail;
      }
    }
  }
}

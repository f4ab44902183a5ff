/** Authenticated length-delimited framing (network/src/codec.rs). */
module Codec {
  import opened Seqs
  import opened Words

  const TAG_LEN: nat := 16

  const PREFIX_LEN: nat := 4

  type Tag = t: Bytes | |t| == 16 witness [0, 0, 0, 0, 0, 0, 0, 0, 0, 0, 0, 0, 0, 0, 0, 0]

  /** The keyed tag over direction, counter and payload; its internals are not modelled. */
  type Mac = (Bytes, Byte, nat, Bytes) -> Tag

  /** The two ends of a connection. A tag covers the direction its frame travels in. */
  datatype Role = Dialer | Listener {
    function SendDirection(): Byte {
      match this
      case Dialer => 0
      case Listener => 1
    }

    function RecvDirection(): Byte {
      match this
      case Dialer => Listener.SendDirection()
      case Listener => Dialer.SendDirection()
    }

    function Peer(): Role {
      match this
      case Dialer => Listener
      case Listener => Dialer
    }
  }

  datatype Session = Session(key: Bytes, role: Role, sent: nat, received: nat)

  /** A codec: plain framing without a session, tagged frames with one. */
  datatype State = State(session: Option<Session>, limit: nat) {
    function FrameLimit(): nat {
      if session.Some? then limit + TAG_LEN else limit
    }

    /** The length field can hold every frame this codec writes. */
    predicate Valid() {
      limit + TAG_LEN < U32
    }
  }

  datatype Decoded = More | Frame(payload: Bytes, rest: Bytes, next: State) | Failed

  function Advance(c: State): State {
    match c.session
    case None => c
    case Some(s) => c.(session := Some(s.(received := s.received + 1)))
  }

  /** The bytes one payload puts on the wire, or nothing if it exceeds the limit. */
  function FrameOf(mac: Mac, c: State, data: Bytes): Bytes {
    match c.session
    case None => BE32(|data|) + data
    case Some(s) => BE32(|data| + TAG_LEN) + data + mac(s.key, s.role.SendDirection(), s.sent, data)
  }

  function AfterSend(c: State): State {
    match c.session
    case None => c
    case Some(s) => c.(session := Some(s.(sent := s.sent + 1)))
  }

  /** One call of the decoder on the bytes buffered so far. */
  function DecodeOne(mac: Mac, c: State, src: Bytes): (d: Decoded)
    ensures d.Frame? ==> |d.rest| < |src| && d.next == Advance(c)
  {
    if |src| < PREFIX_LEN then More
    else
      var n := FromBE32(src);
      if n > c.FrameLimit() then Failed
      else if |src| - PREFIX_LEN < n then More
      else
        var frame, rest := src[4..4 + n], src[4 + n..];
        match c.session
        case None => Frame(frame, rest, c)
        case Some(s) =>
          if n < TAG_LEN then Failed
          else
            var payload, tag := frame[..n - TAG_LEN], frame[n - TAG_LEN..];
            if tag == mac(s.key, s.role.RecvDirection(), s.received, payload) then Frame(payload, rest, Advance(c))
            else Failed
  }

  /** Everything the decoder yields from `src`: the payloads, the codec after them, and either the
      unconsumed bytes or the fact that the stream failed. */
  datatype Drained = Drained(payloads: seq<Bytes>, codec: State, rest: Option<Bytes>)

  function DecodeAll(mac: Mac, c: State, src: Bytes): Drained
    decreases |src|
  {
    match DecodeOne(mac, c, src)
    case More => Drained([], c, Some(src))
    case Failed => Drained([], c, None)
    case Frame(payload, rest, next) => After([payload], DecodeAll(mac, next, rest))
  }

  /** The outcome of a longer run that first yielded `payloads`. */
  function After(payloads: seq<Bytes>, d: Drained): Drained {
    d.(payloads := payloads + d.payloads)
  }

  lemma AfterTwice(xs: seq<Bytes>, ys: seq<Bytes>, d: Drained)
    ensures After(xs, After(ys, d)) == After(xs + ys, d)
    ensures After([], d) == d
  {
    assert xs + (ys + d.payloads) == xs + ys + d.payloads;
    assert [] + d.payloads == d.payloads;
  }

  /** The wire bytes of a list of payloads sent in turn. */
  function Stream(mac: Mac, c: State, payloads: seq<Bytes>): Bytes
    decreases |payloads|
  {
    if payloads == [] then [] else FrameOf(mac, c, payloads[0]) + Stream(mac, AfterSend(c), payloads[1..])
  }

  // ---- Feeding in chunks -----------------------------------------------------------------

  lemma MoreBytes(mac: Mac, c: State, src: Bytes, more: Bytes)
    ensures var d := DecodeOne(mac, c, src);
      && (d.Failed? ==> DecodeOne(mac, c, src + more).Failed?)
      && (d.Frame? ==> DecodeOne(mac, c, src + more) == Frame(d.payload, d.rest + more, d.next))
  {
    if |src| >= PREFIX_LEN {
      var n := FromBE32(src);
      assert FromBE32(src + more) == n;
      if n <= |src| - PREFIX_LEN {
        assert (src + more)[4..4 + n] == src[4..4 + n];
        assert (src + more)[4 + n..] == src[4 + n..] + more;
      }
    }
  }

  /** Decoding can be interrupted anywhere: what was decoded stays, and the rest is decoded from
      the unconsumed bytes by the codec as it was left. A failure is final. */
  lemma {:induction false} DecodeResumes(mac: Mac, c: State, src: Bytes, more: Bytes)
    ensures var d := DecodeAll(mac, c, src);
      DecodeAll(mac, c, src + more)
        == if d.rest.None? then d else After(d.payloads, DecodeAll(mac, d.codec, d.rest.value + more))
    decreases |src|
  {
    MoreBytes(mac, c, src, more);
    var one := DecodeOne(mac, c, src);
    if one.Frame? {
      DecodeResumes(mac, one.next, one.rest, more);
      var d := DecodeAll(mac, one.next, one.rest);
      if d.rest.Some? {
        AfterTwice([one.payload], d.payloads, DecodeAll(mac, d.codec, d.rest.value + more));
      }
    } else if one.More? {
      AfterTwice([], [], DecodeAll(mac, c, src + more));
    }
  }

  function Joined(chunks: seq<Bytes>): Bytes {
    if chunks == [] then [] else chunks[0] + Joined(chunks[1..])
  }

  /** What a reader yields that decodes after every chunk it receives. */
  function FeedAll(mac: Mac, d: Drained, chunks: seq<Bytes>): Drained
    decreases |chunks|
  {
    if chunks == [] || d.rest.None? then d
    else
      FeedAll(mac, After(d.payloads, DecodeAll(mac, d.codec, d.rest.value + chunks[0])), chunks[1..])
  }

  /** Cutting a stream into chunks does not change what is decoded from it. */
  lemma {:induction false} ChunksDoNotMatter(mac: Mac, c: State, src: Bytes, chunks: seq<Bytes>)
    ensures FeedAll(mac, DecodeAll(mac, c, src), chunks) == DecodeAll(mac, c, src + Joined(chunks))
    decreases |chunks|
  {
    var d := DecodeAll(mac, c, src);
    if chunks == [] {
      assert src + [] == src;
    } else if d.rest.None? {
      DecodeResumes(mac, c, src, Joined(chunks));
    } else {
      var next := DecodeAll(mac, c, src + chunks[0]);
      assert FeedAll(mac, d, chunks) == FeedAll(mac, next, chunks[1..]) by {
        DecodeResumes(mac, c, src, chunks[0]);
      }
      ChunksDoNotMatter(mac, c, src + chunks[0], chunks[1..]);
      assert src + chunks[0] + Joined(chunks[1..]) == src + Joined(chunks);
    }
  }

  // ---- Round trip ------------------------------------------------------------------------

  /** Two ends of one session: same key, opposite roles, and the reader expects the writer's next counter. */
  predicate Paired(writer: State, reader: State) {
    && writer.limit == reader.limit && writer.Valid()
    && match (writer.session, reader.session)
       case (None, None) => true
       case (Some(w), Some(r)) => w.key == r.key && r.role == w.role.Peer() && r.received == w.sent
       case _ => false
  }

  /** A length prefix, its body and what follows take apart again. */
  lemma PrefixedBody(body: Bytes, more: Bytes)
    requires |body| < U32
    ensures
      var wire := BE32(|body|) + body + more;
      && |wire| == PREFIX_LEN + |body| + |more| && FromBE32(wire) == |body|
      && wire[4..4 + |body|] == body && wire[4 + |body|..] == more
  {
    var wire := BE32(|body|) + body + more;
    assert wire == BE32(|body|) + (body + more);
    DecodesBE32(|body|, body + more);
  }

  lemma PlainFrame(mac: Mac, c: State, data: Bytes, more: Bytes)
    requires c.Valid() && c.session.None? && |data| <= c.limit
    ensures DecodeOne(mac, c, BE32(|data|) + data + more) == Frame(data, more, c)
  {
    PrefixedBody(data, more);
  }

  lemma SealedFrame(mac: Mac, c: State, data: Bytes, tag: Bytes, more: Bytes)
    requires c.Valid() && c.session.Some? && |data| <= c.limit && |tag| == TAG_LEN
    requires var s := c.session.value; tag == mac(s.key, s.role.RecvDirection(), s.received, data)
    ensures DecodeOne(mac, c, BE32(|data| + TAG_LEN) + (data + tag) + more) == Frame(data, more, Advance(c))
  {
    var body := data + tag;
    PrefixedBody(body, more);
    assert body[..|data|] == data && body[|data|..] == tag;
  }

  lemma FrameDecodes(mac: Mac, writer: State, reader: State, data: Bytes, more: Bytes)
    requires Paired(writer, reader) && |data| <= writer.limit
    ensures DecodeOne(mac, reader, FrameOf(mac, writer, data) + more) == Frame(data, more, Advance(reader))
    ensures Paired(AfterSend(writer), Advance(reader))
  {
    match writer.session
    case None => PlainFrame(mac, reader, data, more);
    case Some(w) =>
      var tag := mac(w.key, w.role.SendDirection(), w.sent, data);
      assert FrameOf(mac, writer, data) == BE32(|data| + TAG_LEN) + (data + tag);
      SealedFrame(mac, reader, data, tag, more);
  }

  /** The codec after it accepted `k` frames. */
  function AdvanceBy(c: State, k: nat): State {
    match c.session
    case None => c
    case Some(s) => c.(session := Some(s.(received := s.received + k)))
  }

  lemma AdvanceMore(c: State, k: nat)
    ensures AdvanceBy(Advance(c), k) == AdvanceBy(c, k + 1)
    ensures AdvanceBy(c, 0) == c
  {
  }

  /** From `src` the decoder yields `payloads` one by one and is left as `after` on `rest`. */
  ghost predicate Yields(mac: Mac, c: State, src: Bytes, payloads: seq<Bytes>, after: State, rest: Bytes)
    decreases |payloads|
  {
    if payloads == [] then c == after && src == rest
    else
      var d := DecodeOne(mac, c, src);
      d.Frame? && d.payload == payloads[0] && Yields(mac, d.next, d.rest, payloads[1..], after, rest)
  }

  lemma {:induction false} YieldsDecodes(mac: Mac, c: State, src: Bytes, payloads: seq<Bytes>, after: State, rest: Bytes)
    requires Yields(mac, c, src, payloads, after, rest)
    ensures DecodeAll(mac, c, src) == After(payloads, DecodeAll(mac, after, rest))
    decreases |payloads|
  {
    var last := DecodeAll(mac, after, rest);
    if payloads == [] {
      AfterTwice([], [], last);
    } else {
      var d, tail := DecodeOne(mac, c, src), payloads[1..];
      YieldsDecodes(mac, d.next, d.rest, tail, after, rest);
      AfterTwice([payloads[0]], tail, last);
      assert [payloads[0]] + tail == payloads;
    }
  }

  lemma {:induction false} StreamYields(mac: Mac, writer: State, reader: State, payloads: seq<Bytes>, more: Bytes)
    requires Paired(writer, reader) && forall p :: p in payloads ==> |p| <= writer.limit
    ensures Yields(mac, reader, Stream(mac, writer, payloads) + more, payloads, AdvanceBy(reader, |payloads|), more)
    decreases |payloads|
  {
    if payloads == [] {
      assert Stream(mac, writer, payloads) + more == more;
      AdvanceMore(reader, 0);
    } else {
      var head, tail := FrameOf(mac, writer, payloads[0]), Stream(mac, AfterSend(writer), payloads[1..]) + more;
      assert Stream(mac, writer, payloads) + more == head + tail;
      FrameDecodes(mac, writer, reader, payloads[0], tail);
      StreamYields(mac, AfterSend(writer), Advance(reader), payloads[1..], more);
      AdvanceMore(reader, |payloads| - 1);
    }
  }

  lemma StreamDecodes(mac: Mac, writer: State, reader: State, payloads: seq<Bytes>, more: Bytes)
    requires Paired(writer, reader) && forall p :: p in payloads ==> |p| <= writer.limit
    ensures DecodeAll(mac, reader, Stream(mac, writer, payloads) + more)
         == After(payloads, DecodeAll(mac, AdvanceBy(reader, |payloads|), more))
  {
    StreamYields(mac, writer, reader, payloads, more);
    YieldsDecodes(mac, reader, Stream(mac, writer, payloads) + more, payloads, AdvanceBy(reader, |payloads|), more);
  }

  /** Any payloads within the limit, sent by one end and cut into any chunks, decode at the other end
      to exactly those payloads, with nothing left over. */
  lemma ChunkedRoundTrip(mac: Mac, writer: State, reader: State, payloads: seq<Bytes>, chunks: seq<Bytes>)
    requires Paired(writer, reader) && forall p :: p in payloads ==> |p| <= writer.limit
    requires Joined(chunks) == Stream(mac, writer, payloads)
    ensures FeedAll(mac, DecodeAll(mac, reader, []), chunks)
         == Drained(payloads, AdvanceBy(reader, |payloads|), Some([]))
  {
    var stream := Stream(mac, writer, payloads);
    ChunksDoNotMatter(mac, reader, [], chunks);
    assert [] + Joined(chunks) == stream;
    WholeStreamDecodes(mac, writer, reader, payloads);
  }

  lemma WholeStreamDecodes(mac: Mac, writer: State, reader: State, payloads: seq<Bytes>)
    requires Paired(writer, reader) && forall p :: p in payloads ==> |p| <= writer.limit
    ensures DecodeAll(mac, reader, Stream(mac, writer, payloads))
         == Drained(payloads, AdvanceBy(reader, |payloads|), Some([]))
  {
    var stream := Stream(mac, writer, payloads);
    StreamDecodes(mac, writer, reader, payloads, []);
    assert stream + [] == stream && payloads + [] == payloads;
  }

  /** A reader that has received only part of what a writer sent has accepted a prefix of it. */
  lemma PartialStream(mac: Mac, writer: State, reader: State, payloads: seq<Bytes>, src: Bytes)
    requires Paired(writer, reader) && forall p :: p in payloads ==> |p| <= writer.limit
    requires src <= Stream(mac, writer, payloads)
    ensures DecodeAll(mac, reader, src).payloads <= payloads && DecodeAll(mac, reader, src).rest.Some?
  {
    var stream := Stream(mac, writer, payloads);
    var missing := stream[|src|..];
    assert src + missing == stream + [];
    DecodeResumes(mac, reader, src, missing);
    StreamDecodes(mac, writer, reader, payloads, []);
    assert payloads + [] == payloads;
  }

  // ---- Every accepted payload is within the limit ----------------------------------------

  lemma {:induction false} AcceptedWithinLimit(mac: Mac, c: State, src: Bytes)
    ensures forall p :: p in DecodeAll(mac, c, src).payloads ==> |p| <= c.limit
    decreases |src|
  {
    var one := DecodeOne(mac, c, src);
    if one.Frame? {
      AcceptedWithinLimit(mac, one.next, one.rest);
    }
  }

  // ---- An arbitrary byte stream ----------------------------------------------------------

  /** At position `i`, `src` holds `p` directly followed by the tag of (direction, counter, p). */
  predicate CarriesAt(mac: Mac, key: Bytes, direction: Byte, src: Bytes, counter: nat, p: Bytes, i: nat) {
    && i + |p| + TAG_LEN <= |src|
    && src[i..i + |p|] == p && src[i + |p|..i + |p| + TAG_LEN] == mac(key, direction, counter, p)
  }

  ghost predicate Carries(mac: Mac, key: Bytes, direction: Byte, src: Bytes, counter: nat, p: Bytes) {
    exists i: nat :: CarriesAt(mac, key, direction, src, counter, p, i)
  }

  /** No valid tag of this session and direction occurs except those the peer produced: `sent[k]`
      under counter `k`. */
  ghost predicate Unforged(mac: Mac, key: Bytes, direction: Byte, sent: seq<Bytes>, src: Bytes) {
    forall k: nat, p: Bytes :: Carries(mac, key, direction, src, k, p) ==> k < |sent| && sent[k] == p
  }

  lemma CarriesInSuffix(mac: Mac, key: Bytes, direction: Byte, src: Bytes, from: nat, counter: nat, p: Bytes)
    requires from <= |src| && Carries(mac, key, direction, src[from..], counter, p)
    ensures Carries(mac, key, direction, src, counter, p)
  {
    var tail := src[from..];
    var i: nat :| CarriesAt(mac, key, direction, tail, counter, p, i);
    assert src[from + i..from + i + |p|] == p;
    assert src[from + i + |p|..from + i + |p| + TAG_LEN] == tail[i + |p|..i + |p| + TAG_LEN];
    assert CarriesAt(mac, key, direction, src, counter, p, from + i);
  }

  lemma AcceptedIsCarried(mac: Mac, c: State, src: Bytes)
    requires c.session.Some? && DecodeOne(mac, c, src).Frame?
    ensures var s := c.session.value;
      Carries(mac, s.key, s.role.RecvDirection(), src, s.received, DecodeOne(mac, c, src).payload)
    ensures exists from: nat :: from <= |src| && DecodeOne(mac, c, src).rest == src[from..]
  {
    var s, n, p := c.session.value, FromBE32(src), DecodeOne(mac, c, src).payload;
    assert src[4..4 + |p|] == p;
    assert src[4 + |p|..4 + |p| + TAG_LEN] == src[4..4 + n][n - TAG_LEN..];
    assert CarriesAt(mac, s.key, s.role.RecvDirection(), src, s.received, p, 4);
  }

  /** Over any byte stream in which no tag was forged, the payloads accepted before the first error
      are the peer's, from the expected counter on, without reordering, replay or gap. */
  lemma {:induction false} AcceptsOnlyInOrder(mac: Mac, c: State, sent: seq<Bytes>, src: Bytes)
    requires c.session.Some? && c.session.value.received <= |sent|
    requires Unforged(mac, c.session.value.key, c.session.value.role.RecvDirection(), sent, src)
    ensures DecodeAll(mac, c, src).payloads <= sent[c.session.value.received..]
    decreases |src|
  {
    var s, one := c.session.value, DecodeOne(mac, c, src);
    if one.Frame? {
      AcceptedIsCarried(mac, c, src);
      var from: nat :| from <= |src| && one.rest == src[from..];
      forall k: nat, p: Bytes | Carries(mac, s.key, s.role.RecvDirection(), one.rest, k, p)
        ensures k < |sent| && sent[k] == p
      {
        CarriesInSuffix(mac, s.key, s.role.RecvDirection(), src, from, k, p);
      }
      AcceptsOnlyInOrder(mac, one.next, sent, one.rest);
      assert sent[s.received..] == [one.payload] + sent[s.received + 1..];
    }
  }
}

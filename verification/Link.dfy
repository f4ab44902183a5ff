/**
  A connection, the network and the peer's read loop together.

  Bytes reach either end in arbitrary chunks. On an authenticated link they are arbitrary bytes in
  which no tag of the session was forged; on a plain link they are what the other end wrote. The
  peer acknowledges frames and writes nothing else.
*/
module Link {
  import opened Seqs
  import opened Words
  import opened Transport
  import opened Conservation
  import opened Order
  import Bundle
  import Codec
  import Receiver

  datatype Net = Net(cfg: Config, mac: Codec.Mac, authenticated: bool)

  /** `frames` are the payloads written in the latest session, `rx` and `ax` the bytes that have
      reached the receiver and the sender in it, `served` how many accepted frames the read loop has
      taken, and `seen` every payload any session's receiver has taken. */
  datatype LinkState = LinkState(conn: State, key: Bytes, frames: seq<Bytes>, rx: Bytes, ax: Bytes,
                                 served: nat, runner: Receiver.Runner, seen: set<Bytes>)

  datatype Event =
    | Local(ev: Transport.Event)
    | Open(key: Bytes)
    | ToReceiver(chunk: Bytes)
    | Serve(acked: bool, handled: nat)
    | ToSender(chunk: Bytes)
    | AckRead

  /** The acknowledgement payload, "Ack". */
  const ACK: Bytes := [65, 99, 107]

  function CodecOf(net: Net, key: Bytes, role: Codec.Role): Codec.State {
    Codec.State(if net.authenticated then Some(Codec.Session(key, role, 0, 0)) else None, MAX_FRAME_LENGTH)
  }

  /** The payloads an end accepts from the bytes that reached it in this session. */
  function Accepted(net: Net, key: Bytes, role: Codec.Role, bytes: Bytes): seq<Bytes> {
    Codec.DecodeAll(net.mac, CodecOf(net, key, role), bytes).payloads
  }

  /** What the network may deliver to `role` when the other end has sent `sent`. */
  ghost predicate Deliverable(net: Net, key: Bytes, role: Codec.Role, sent: seq<Bytes>, bytes: Bytes) {
    if net.authenticated then Codec.Unforged(net.mac, key, role.RecvDirection(), sent, bytes)
    else bytes <= Codec.Stream(net.mac, CodecOf(net, key, role.Peer()), sent)
  }

  function Acks(n: nat): seq<Bytes> {
    seq(n, _ => ACK)
  }

  function Payloads(es: seq<Entry>): (ps: seq<Bytes>)
    ensures |ps| == |es|
  {
    seq(|es|, i requires 0 <= i < |es| => es[i].data)
  }

  function Start(drop: Option<nat>): LinkState {
    LinkState(Init(drop), [], [], [], [], 0, Receiver.Runner(0, [], true), {})
  }

  ghost predicate Enabled(net: Net, s: LinkState, ev: Event) {
    match ev
    case Local(e) => e != Connect && e != Read(true) && Transport.Enabled(net.cfg, s.conn, e)
    case Open(_) => Transport.Enabled(net.cfg, s.conn, Connect)
    case ToReceiver(chunk) => Deliverable(net, s.key, Codec.Listener, s.frames, s.rx + chunk)
    case Serve(_, _) => s.runner.running && s.served < |Accepted(net, s.key, Codec.Listener, s.rx)|
    case ToSender(chunk) => Deliverable(net, s.key, Codec.Dialer, Acks(s.runner.acks), s.ax + chunk)
    case AckRead => Selecting(s.conn) && s.conn.log.acks < |Accepted(net, s.key, Codec.Dialer, s.ax)|
  }

  /** A frame whose write reports failure may still reach the peer, unless the codec refused it. */
  function Trailing(net: Net, conn: Transport.State, ev: Transport.Event): seq<Bytes> {
    var e := FailedEntry(net.cfg, conn, ev);
    if e.Some? && |e.value.data| <= MAX_FRAME_LENGTH then [e.value.data] else []
  }

  ghost function Step(net: Net, s: LinkState, ev: Event): LinkState
    requires Enabled(net, s, ev)
  {
    match ev
    case Local(e) =>
      var conn := Transport.Step(net.cfg, s.conn, e);
      s.(conn := conn, frames := if conn.phase == Up then Payloads(conn.log.written) else s.frames + Trailing(net, s.conn, e))
    case Open(key) =>
      LinkState(Transport.Step(net.cfg, s.conn, Connect), key, [], [], [], 0, Receiver.Runner(0, [], true), s.seen)
    case ToReceiver(chunk) => s.(rx := s.rx + chunk)
    case Serve(acked, handled) =>
      var payload := Accepted(net, s.key, Codec.Listener, s.rx)[s.served];
      s.(served := s.served + 1, seen := s.seen + {payload},
         runner := Receiver.OnFrame(net.cfg.batched, s.runner, payload, acked, handled))
    case ToSender(chunk) => s.(ax := s.ax + chunk)
    case AckRead => s.(conn := Transport.Step(net.cfg, s.conn, Read(true)))
  }

  ghost predicate Legal(net: Net, s: LinkState, evs: seq<Event>)
    decreases |evs|
  {
    evs == [] || (Enabled(net, s, evs[0]) && Legal(net, Step(net, s, evs[0]), evs[1..]))
  }

  ghost function Exec(net: Net, s: LinkState, evs: seq<Event>): LinkState
    requires Legal(net, s, evs)
    decreases |evs|
  {
    if evs == [] then s else Exec(net, Step(net, s, evs[0]), evs[1..])
  }

  // ---- What either end accepts -----------------------------------------------------------

  predicate FramesFit(ps: seq<Bytes>) {
    forall p :: p in ps ==> |p| <= MAX_FRAME_LENGTH
  }

  lemma AcceptedIsPrefix(net: Net, key: Bytes, role: Codec.Role, sent: seq<Bytes>, bytes: Bytes)
    requires FramesFit(sent) && Deliverable(net, key, role, sent, bytes)
    ensures Accepted(net, key, role, bytes) <= sent
  {
    var reader, writer := CodecOf(net, key, role), CodecOf(net, key, role.Peer());
    if net.authenticated {
      Codec.AcceptsOnlyInOrder(net.mac, reader, sent, bytes);
      assert sent[0..] == sent;
    } else {
      assert Codec.Paired(writer, reader);
      Codec.PartialStream(net.mac, writer, reader, sent, bytes);
    }
  }

  lemma AcceptedGrows(net: Net, key: Bytes, role: Codec.Role, bytes: Bytes, chunk: Bytes)
    ensures Accepted(net, key, role, bytes) <= Accepted(net, key, role, bytes + chunk)
  {
    Codec.DecodeResumes(net.mac, CodecOf(net, key, role), bytes, chunk);
  }

  lemma {:induction false} StreamGrows(mac: Codec.Mac, c: Codec.State, xs: seq<Bytes>, ys: seq<Bytes>) returns (tail: Bytes)
    ensures Codec.Stream(mac, c, xs + ys) == Codec.Stream(mac, c, xs) + tail
    decreases |xs|
  {
    if xs == [] {
      assert xs + ys == ys;
      tail := Codec.Stream(mac, c, ys);
    } else {
      tail := StreamGrows(mac, Codec.AfterSend(c), xs[1..], ys);
      TailOfConcat(xs, ys);
      Append(Codec.FrameOf(mac, c, xs[0]), Codec.Stream(mac, Codec.AfterSend(c), xs[1..]), tail);
    }
  }

  /** Sending more never invalidates what was delivered. */
  lemma DeliverableGrows(net: Net, key: Bytes, role: Codec.Role, sent: seq<Bytes>, more: seq<Bytes>, bytes: Bytes)
    requires Deliverable(net, key, role, sent, bytes)
    ensures Deliverable(net, key, role, sent + more, bytes)
  {
    if net.authenticated {
      forall k: nat, p: Bytes | Codec.Carries(net.mac, key, role.RecvDirection(), bytes, k, p)
        ensures k < |sent + more| && (sent + more)[k] == p
      {
        assert k < |sent| && sent[k] == p;
      }
    } else {
      var tail := StreamGrows(net.mac, CodecOf(net, key, role.Peer()), sent, more);
    }
  }

  lemma NothingDelivered(net: Net, key: Bytes, role: Codec.Role, sent: seq<Bytes>)
    ensures Deliverable(net, key, role, sent, [])
  {
    if net.authenticated {
      forall k: nat, p: Bytes ensures !Codec.Carries(net.mac, key, role.RecvDirection(), [], k, p) {
      }
    }
  }

  // ---- The connection's side -------------------------------------------------------------

  predicate EntriesFit(es: seq<Entry>) {
    forall e :: e in es ==> |e.data| <= MAX_FRAME_LENGTH
  }

  /** What a connection event does to the session's frames and to the acknowledged entries. */
  lemma StepFrames(cfg: Config, s: Transport.State, ev: Transport.Event, t: Transport.State)
    requires Transport.Enabled(cfg, s, ev) && ev != Read(true) && t == Transport.Step(cfg, s, ev)
    requires EntriesFit(s.log.written)
    ensures t.log.acked == s.log.acked && EntriesFit(t.log.written)
    ensures t.phase == Up && ev != Connect ==> s.phase == Up && s.log.written <= t.log.written && t.log.acks == s.log.acks
  {
    match ev
    case Pump(ok) => PumpFrames(cfg, s, ok, t);
    case Release(ok) => ReleaseFrames(cfg, s, ok, t);
    case _ =>
  }

  lemma PumpFrames(cfg: Config, s: Transport.State, ok: bool, t: Transport.State)
    requires Transport.Enabled(cfg, s, Pump(ok)) && t == PumpStep(cfg, s, ok) && EntriesFit(s.log.written)
    ensures t.log.acked == s.log.acked && EntriesFit(t.log.written)
    ensures t.phase == Up ==> s.log.written <= t.log.written && t.log.acks == s.log.acks
  {
  }

  lemma ReleaseFrames(cfg: Config, s: Transport.State, ok: bool, t: Transport.State)
    requires Transport.Enabled(cfg, s, Release(ok)) && t == ReleaseStep(cfg, s, ok) && EntriesFit(s.log.written)
    ensures t.log.acked == s.log.acked && EntriesFit(t.log.written)
    ensures t.phase == Up ==> s.log.written <= t.log.written && t.log.acks == s.log.acks
  {
  }

  lemma PayloadsPrefix(xs: seq<Entry>, ys: seq<Entry>)
    requires xs <= ys
    ensures Payloads(ys) == Payloads(xs) + Payloads(ys[|xs|..])
  {
  }

  /** The sender's session has written exactly the frames on the wire. */
  ghost predicate SenderSide(net: Net, conn: Transport.State, frames: seq<Bytes>) {
    && Orderly(net.cfg, conn)
    && EntriesFit(conn.log.written) && EntriesFit(conn.log.acked) && FramesFit(frames)
    && (conn.phase == Up ==> frames == Payloads(conn.log.written))
  }

  /** What the receiver took, it has seen; it acknowledged no more than it took. */
  ghost predicate ReceiverSide(accepted: seq<Bytes>, served: nat, acks: nat, seen: set<Bytes>) {
    && acks <= served <= |accepted|
    && forall i :: 0 <= i < served ==> accepted[i] in seen
  }

  /** Sender, network and receiver agree. */
  ghost predicate Coherent(net: Net, s: LinkState) {
    && SenderSide(net, s.conn, s.frames)
    && Deliverable(net, s.key, Codec.Listener, s.frames, s.rx)
    && Deliverable(net, s.key, Codec.Dialer, Acks(s.runner.acks), s.ax)
    && ReceiverSide(Accepted(net, s.key, Codec.Listener, s.rx), s.served, s.runner.acks, s.seen)
    && (s.conn.phase == Up ==> s.conn.log.acks <= |Accepted(net, s.key, Codec.Dialer, s.ax)|)
    && (forall e :: e in s.conn.log.acked ==> e.data in s.seen)
  }

  /** The frames on the wire only grow. */
  lemma LocalFrames(net: Net, s: LinkState, ev: Transport.Event) returns (more: seq<Bytes>)
    requires SenderSide(net, s.conn, s.frames) && Enabled(net, s, Local(ev))
    ensures var t := Step(net, s, Local(ev)); t.frames == s.frames + more && SenderSide(net, t.conn, t.frames)
  {
    var t := Transport.Step(net.cfg, s.conn, ev);
    StepOrderly(net.cfg, s.conn, ev);
    StepFrames(net.cfg, s.conn, ev, t);
    if t.phase == Up {
      PayloadsPrefix(s.conn.log.written, t.log.written);
      more := Payloads(t.log.written[|s.conn.log.written|..]);
      PayloadsFit(t.log.written);
    } else {
      more := Trailing(net, s.conn, ev);
    }
  }

  lemma PayloadsFit(es: seq<Entry>)
    requires EntriesFit(es)
    ensures FramesFit(Payloads(es))
  {
  }

  lemma LocalCoherent(net: Net, s: LinkState, ev: Transport.Event)
    requires Coherent(net, s) && Enabled(net, s, Local(ev))
    ensures Coherent(net, Step(net, s, Local(ev)))
  {
    var more := LocalFrames(net, s, ev);
    StepFrames(net.cfg, s.conn, ev, Transport.Step(net.cfg, s.conn, ev));
    DeliverableGrows(net, s.key, Codec.Listener, s.frames, more, s.rx);
  }

  lemma OpenCoherent(net: Net, s: LinkState, key: Bytes)
    requires Coherent(net, s) && Enabled(net, s, Open(key))
    ensures Coherent(net, Step(net, s, Open(key)))
  {
    StepOrderly(net.cfg, s.conn, Connect);
    StepFrames(net.cfg, s.conn, Connect, Transport.Step(net.cfg, s.conn, Connect));
    NothingDelivered(net, key, Codec.Listener, []);
    NothingDelivered(net, key, Codec.Dialer, Acks(0));
  }

  lemma DeliveryCoherent(net: Net, s: LinkState, ev: Event)
    requires Coherent(net, s) && Enabled(net, s, ev) && (ev.ToReceiver? || ev.ToSender?)
    ensures Coherent(net, Step(net, s, ev))
  {
    if ev.ToReceiver? {
      AcceptedGrows(net, s.key, Codec.Listener, s.rx, ev.chunk);
    } else {
      AcceptedGrows(net, s.key, Codec.Dialer, s.ax, ev.chunk);
    }
  }

  lemma ServeCoherent(net: Net, s: LinkState, acked: bool, handled: nat)
    requires Coherent(net, s) && Enabled(net, s, Serve(acked, handled))
    ensures Coherent(net, Step(net, s, Serve(acked, handled)))
  {
    var accepted := Accepted(net, s.key, Codec.Listener, s.rx);
    OnFrameAcks(net.cfg.batched, s.runner, accepted[s.served], acked, handled);
    TakeNext(accepted, s.served, s.runner.acks, s.seen, acked);
    AcksGrow(net, s, acked);
  }

  lemma TakeNext(accepted: seq<Bytes>, served: nat, acks: nat, seen: set<Bytes>, acked: bool)
    requires ReceiverSide(accepted, served, acks, seen) && served < |accepted|
    ensures ReceiverSide(accepted, served + 1, acks + if acked then 1 else 0, seen + {accepted[served]})
  {
  }

  lemma AcksGrow(net: Net, s: LinkState, acked: bool)
    requires Deliverable(net, s.key, Codec.Dialer, Acks(s.runner.acks), s.ax)
    ensures Deliverable(net, s.key, Codec.Dialer, Acks(s.runner.acks + if acked then 1 else 0), s.ax)
  {
    if acked {
      assert Acks(s.runner.acks + 1) == Acks(s.runner.acks) + [ACK];
      DeliverableGrows(net, s.key, Codec.Dialer, Acks(s.runner.acks), [ACK], s.ax);
    }
  }

  lemma OnFrameAcks(batch: bool, r: Receiver.Runner, payload: Bytes, acked: bool, handled: nat)
    ensures Receiver.OnFrame(batch, r, payload, acked, handled).acks == r.acks + if acked then 1 else 0
  {
  }

  /** A real acknowledgement: the oldest pending entry is the frame the receiver took at that place. */
  lemma AckMeetsItsFrame(net: Net, s: LinkState)
    requires Coherent(net, s) && Enabled(net, s, AckRead)
    ensures s.conn.sess.pending != [] && s.conn.log.acks < s.served
    ensures s.conn.sess.pending[0].data == Accepted(net, s.key, Codec.Listener, s.rx)[s.conn.log.acks]
  {
    var c, k := s.conn, s.conn.log.acks;
    AcceptedIsPrefix(net, s.key, Codec.Dialer, Acks(s.runner.acks), s.ax);
    AcceptedIsPrefix(net, s.key, Codec.Listener, s.frames, s.rx);
    assert |c.log.written| == k + |c.sess.pending|;
    assert c.log.written[k] == c.sess.pending[0];
    assert s.frames[k] == c.log.written[k].data;
  }

  lemma AckSenderSide(net: Net, conn: Transport.State, frames: seq<Bytes>)
    requires SenderSide(net, conn, frames) && Selecting(conn) && conn.sess.pending != []
    ensures SenderSide(net, Acknowledged(conn), frames)
  {
    StepOrderly(net.cfg, conn, Read(true));
    assert conn.sess.pending[0] == conn.log.written[conn.log.acks];
  }

  lemma AckStep(net: Net, s: LinkState)
    requires Enabled(net, s, AckRead) && s.conn.sess.pending != []
    ensures Step(net, s, AckRead) == s.(conn := Acknowledged(s.conn))
  {
  }

  lemma AckIsSeen(net: Net, s: LinkState)
    requires Coherent(net, s) && Enabled(net, s, AckRead)
    ensures s.conn.sess.pending != [] && s.conn.sess.pending[0].data in s.seen
  {
    AckMeetsItsFrame(net, s);
  }

  lemma AckReadCoherent(net: Net, s: LinkState)
    requires Coherent(net, s) && Enabled(net, s, AckRead)
    ensures Coherent(net, Step(net, s, AckRead))
  {
    AckIsSeen(net, s);
    AckSenderSide(net, s.conn, s.frames);
    AckedCoherent(net, s, Acknowledged(s.conn), s.conn.sess.pending[0]);
    AckStep(net, s);
  }

  lemma AckedCoherent(net: Net, s: LinkState, conn: Transport.State, e: Entry)
    requires Coherent(net, s) && SenderSide(net, conn, s.frames) && e.data in s.seen
    requires conn.log.acked == s.conn.log.acked + [e] && conn.log.acks <= |Accepted(net, s.key, Codec.Dialer, s.ax)|
    ensures Coherent(net, s.(conn := conn))
  {
  }

  lemma StepCoherent(net: Net, s: LinkState, ev: Event)
    requires Coherent(net, s) && Enabled(net, s, ev)
    ensures Coherent(net, Step(net, s, ev))
  {
    match ev
    case Local(e) => LocalCoherent(net, s, e);
    case Open(key) => OpenCoherent(net, s, key);
    case ToReceiver(_) => DeliveryCoherent(net, s, ev);
    case Serve(acked, handled) => ServeCoherent(net, s, acked, handled);
    case ToSender(_) => DeliveryCoherent(net, s, ev);
    case AckRead => AckReadCoherent(net, s);
  }

  lemma {:induction false} ExecCoherent(net: Net, s: LinkState, evs: seq<Event>)
    requires Coherent(net, s) && Legal(net, s, evs)
    ensures Coherent(net, Exec(net, s, evs))
    decreases |evs|
  {
    if evs != [] {
      StepCoherent(net, s, evs[0]);
      ExecCoherent(net, Step(net, s, evs[0]), evs[1..]);
    }
  }

  lemma StartCoherent(net: Net, drop: Option<nat>)
    ensures Coherent(net, Start(drop))
  {
    NothingDelivered(net, [], Codec.Listener, []);
    NothingDelivered(net, [], Codec.Dialer, Acks(0));
  }

  /** The frame of a written entry reads back as the messages the entry stands for. */
  lemma EntryReadsBack(cfg: Config, e: Entry)
    requires Sound(cfg, e) && |e.data| <= MAX_FRAME_LENGTH
    ensures Receiver.Messages(cfg.batched, e.data) == Ok(Datas(e.msgs))
  {
    if cfg.batched {
      Bundle.ShortBundleFits(Datas(e.msgs));
      Bundle.RoundTrip(Datas(e.msgs), []);
      assert Bundle.Encode(Datas(e.msgs)) + [] == Bundle.Encode(Datas(e.msgs));
    } else {
      assert Datas(e.msgs) == [e.data];
    }
  }

  /** Every message of an acknowledged entry is in a frame the receiver has taken and can decode; the
      pending entries of a session are its written frames past the acknowledged ones; and an
      acknowledgement never meets an empty pending queue. */
  ghost predicate Received(net: Net, s: LinkState) {
    && (forall e, m :: e in s.conn.log.acked && m in e.msgs ==>
          && e.data in s.seen
          && Receiver.Messages(net.cfg.batched, e.data).Ok?
          && m.data in Receiver.Messages(net.cfg.batched, e.data).value)
    && (s.conn.phase == Up ==>
          s.conn.log.acks <= |s.conn.log.written| && s.conn.sess.pending == s.conn.log.written[s.conn.log.acks..])
    && (Enabled(net, s, AckRead) ==> s.conn.sess.pending != [])
  }

  lemma AckedReadsBack(net: Net, s: LinkState, e: Entry, m: Msg)
    requires Coherent(net, s) && e in s.conn.log.acked && m in e.msgs
    ensures e.data in s.seen && Receiver.Messages(net.cfg.batched, e.data).Ok?
    ensures m.data in Receiver.Messages(net.cfg.batched, e.data).value
  {
    EntryReadsBack(net.cfg, e);
    var i :| 0 <= i < |e.msgs| && e.msgs[i] == m;
    assert Datas(e.msgs)[i] == m.data;
  }

  lemma CoherentReceives(net: Net, s: LinkState)
    requires Coherent(net, s)
    ensures Received(net, s)
  {
    forall e, m | e in s.conn.log.acked && m in e.msgs
      ensures e.data in s.seen && Receiver.Messages(net.cfg.batched, e.data).Ok?
      ensures m.data in Receiver.Messages(net.cfg.batched, e.data).value
    {
      AckedReadsBack(net, s, e, m);
    }
    if Enabled(net, s, AckRead) {
      AckMeetsItsFrame(net, s);
    }
  }

  /** End-to-end receipt, in every run and over any network behaviour within the assumptions. */
  lemma AcknowledgedMeansReceived(net: Net, drop: Option<nat>, evs: seq<Event>)
    requires Legal(net, Start(drop), evs)
    ensures Received(net, Exec(net, Start(drop), evs))
  {
    StartCoherent(net, drop);
    ExecCoherent(net, Start(drop), evs);
    CoherentReceives(net, Exec(net, Start(drop), evs));
  }
}

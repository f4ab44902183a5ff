/** What the peer's handler is given: the messages of the session's frames, in order, once each. */
module Delivery {
  import opened Seqs
  import opened Words
  import opened Transport
  import opened Conservation
  import opened Link
  import Codec
  import Receiver

  /** The handler has been given the messages of the frames the read loop took: all of them while the
      loop runs; once it has refused one, everything before the last frame and part of that frame. */
  ghost predicate Dispatches(batch: bool, accepted: seq<Bytes>, served: nat, r: Receiver.Runner) {
    && served <= |accepted|
    && var taken := Receiver.AllMessages(batch, accepted[..served]);
       if r.running then r.dispatched == taken
       else served > 0 && Receiver.AllMessages(batch, accepted[..served - 1]) <= r.dispatched && r.dispatched < taken
  }

  /** Every frame of the session decodes, and the handler has been given what the read loop took. */
  ghost predicate InStep(net: Net, s: LinkState) {
    && Receiver.AllDecode(net.cfg.batched, s.frames)
    && Dispatches(net.cfg.batched, Accepted(net, s.key, Codec.Listener, s.rx), s.served, s.runner)
  }

  lemma WrittenDecode(cfg: Config, es: seq<Entry>)
    requires AllSound(cfg, es) && EntriesFit(es)
    ensures Receiver.AllDecode(cfg.batched, Payloads(es))
  {
    forall p | p in Payloads(es) ensures Receiver.Messages(cfg.batched, p).Ok? {
      var i :| 0 <= i < |es| && Payloads(es)[i] == p;
      EntryReadsBack(cfg, es[i]);
    }
  }

  lemma DatasConcat(xs: seq<Msg>, ys: seq<Msg>)
    ensures Datas(xs + ys) == Datas(xs) + Datas(ys)
  {
  }

  lemma {:induction false} FramesReadBack(cfg: Config, es: seq<Entry>)
    requires AllSound(cfg, es) && EntriesFit(es)
    ensures Receiver.AllMessages(cfg.batched, Payloads(es)) == Datas(Flat(es))
  {
    if es != [] {
      EntryReadsBack(cfg, es[0]);
      FramesReadBack(cfg, es[1..]);
      assert Payloads(es)[1..] == Payloads(es[1..]);
      DatasConcat(es[0].msgs, Flat(es[1..]));
    }
  }

  lemma FailedIsSound(cfg: Config, c: Transport.State, ev: Transport.Event)
    requires Shape(cfg, c) && FailedEntry(cfg, c, ev).Some?
    ensures Sound(cfg, FailedEntry(cfg, c, ev).value)
  {
    if ev.Release? {
      assert c.sess.delay[0].entry == Entries(c.sess.delay)[0];
    }
  }

  lemma LocalInStep(net: Net, s: LinkState, ev: Transport.Event)
    requires Coherent(net, s) && InStep(net, s) && Link.Enabled(net, s, Local(ev))
    ensures InStep(net, Link.Step(net, s, Local(ev)))
  {
    var t := Link.Step(net, s, Local(ev));
    if t.conn.phase == Up {
      LocalCoherent(net, s, ev);
      WrittenDecode(net.cfg, t.conn.log.written);
    } else if Trailing(net, s.conn, ev) != [] {
      FailedIsSound(net.cfg, s.conn, ev);
      EntryReadsBack(net.cfg, FailedEntry(net.cfg, s.conn, ev).value);
    }
  }

  lemma DeliveryInStep(net: Net, s: LinkState, chunk: Bytes)
    requires InStep(net, s)
    ensures InStep(net, s.(rx := s.rx + chunk))
  {
    var before, now := Accepted(net, s.key, Codec.Listener, s.rx), Accepted(net, s.key, Codec.Listener, s.rx + chunk);
    AcceptedGrows(net, s.key, Codec.Listener, s.rx, chunk);
    assert now[..s.served] == before[..s.served];
    assert s.served > 0 ==> now[..s.served - 1] == before[..s.served - 1];
  }

  lemma ServeInStep(net: Net, s: LinkState, acked: bool, handled: nat)
    requires FramesFit(s.frames) && Deliverable(net, s.key, Codec.Listener, s.frames, s.rx)
    requires InStep(net, s) && Link.Enabled(net, s, Serve(acked, handled))
    ensures InStep(net, Link.Step(net, s, Serve(acked, handled)))
  {
    AcceptedIsPrefix(net, s.key, Codec.Listener, s.frames, s.rx);
    TakeOne(net.cfg.batched, s.frames, Accepted(net, s.key, Codec.Listener, s.rx), s.served, s.runner, acked, handled);
  }

  lemma PrefixDecodes(batch: bool, frames: seq<Bytes>, accepted: seq<Bytes>, served: nat)
    requires Receiver.AllDecode(batch, frames) && accepted <= frames && served <= |accepted|
    ensures Receiver.AllDecode(batch, accepted[..served])
  {
    var taken := accepted[..served];
    forall p | p in taken ensures p in frames {
      var i :| 0 <= i < served && taken[i] == p;
      assert frames[i] == p;
    }
  }

  lemma TakeOne(batch: bool, frames: seq<Bytes>, accepted: seq<Bytes>, served: nat, r: Receiver.Runner, acked: bool, handled: nat)
    requires Receiver.AllDecode(batch, frames) && accepted <= frames && served < |accepted|
    requires r.running && Dispatches(batch, accepted, served, r)
    ensures Dispatches(batch, accepted, served + 1, Receiver.OnFrame(batch, r, accepted[served], acked, handled))
  {
    var taken, payload := accepted[..served], accepted[served];
    assert accepted[..served + 1] == taken + [payload];
    assert payload == frames[served];
    PrefixDecodes(batch, frames, accepted, served);
    Receiver.AllMessagesSnoc(batch, taken, payload);
  }

  lemma StepInStep(net: Net, s: LinkState, ev: Link.Event)
    requires Coherent(net, s) && InStep(net, s) && Link.Enabled(net, s, ev)
    ensures InStep(net, Link.Step(net, s, ev))
  {
    match ev
    case Local(e) => LocalInStep(net, s, e);
    case ToReceiver(chunk) => DeliveryInStep(net, s, chunk);
    case Serve(acked, handled) => ServeInStep(net, s, acked, handled);
    case _ =>
  }

  lemma {:induction false} ExecInStep(net: Net, s: LinkState, evs: seq<Link.Event>)
    requires Coherent(net, s) && InStep(net, s) && Link.Legal(net, s, evs)
    ensures Coherent(net, Link.Exec(net, s, evs)) && InStep(net, Link.Exec(net, s, evs))
    decreases |evs|
  {
    if evs != [] {
      StepCoherent(net, s, evs[0]);
      StepInStep(net, s, evs[0]);
      ExecInStep(net, Link.Step(net, s, evs[0]), evs[1..]);
    }
  }

  /** The messages of the first `k` frames of the session. */
  function FirstFrames(s: LinkState, k: nat): seq<Bytes>
    requires k <= |s.conn.log.written|
  {
    Datas(Flat(s.conn.log.written[..k]))
  }

  lemma TakenIsWritten(net: Net, s: LinkState, k: nat)
    requires Coherent(net, s) && s.conn.phase == Up && k <= s.served
    ensures s.served <= |s.conn.log.written|
    ensures Receiver.AllMessages(net.cfg.batched, Accepted(net, s.key, Codec.Listener, s.rx)[..k]) == FirstFrames(s, k)
  {
    var accepted, written := Accepted(net, s.key, Codec.Listener, s.rx), s.conn.log.written;
    AcceptedIsPrefix(net, s.key, Codec.Listener, s.frames, s.rx);
    PayloadsTake(accepted, written, k);
    FramesReadBack(net.cfg, written[..k]);
  }

  lemma PayloadsTake(accepted: seq<Bytes>, written: seq<Entry>, k: nat)
    requires accepted <= Payloads(written) && k <= |accepted|
    ensures accepted[..k] == Payloads(written[..k])
  {
  }

  /** The handler has been given the messages of the first `served` written frames, in order and once
      each; all of them while the read loop still runs, and part of the last frame's once the handler
      has refused one. */
  predicate HandlerSaw(s: LinkState) {
    && s.served <= |s.conn.log.written|
    && if s.runner.running then s.runner.dispatched == FirstFrames(s, s.served)
       else s.served > 0 && FirstFrames(s, s.served - 1) <= s.runner.dispatched && s.runner.dispatched < FirstFrames(s, s.served)
  }

  lemma SessionDispatches(net: Net, s: LinkState)
    requires Coherent(net, s) && InStep(net, s) && s.conn.phase == Up
    ensures HandlerSaw(s)
  {
    TakenIsWritten(net, s, s.served);
    if !s.runner.running {
      TakenIsWritten(net, s, s.served - 1);
    }
  }

  /** During every session of every run the handler sees what was written. */
  lemma HandlerSeesWhatWasWritten(net: Net, drop: Option<nat>, evs: seq<Link.Event>)
    requires Link.Legal(net, Start(drop), evs)
    ensures var s := Link.Exec(net, Start(drop), evs); s.conn.phase == Up ==> HandlerSaw(s)
  {
    StartCoherent(net, drop);
    ExecInStep(net, Start(drop), evs);
    var s := Link.Exec(net, Start(drop), evs);
    if s.conn.phase == Up {
      SessionDispatches(net, s);
    }
  }

  // ---- Acknowledged and handled ------------------------------------------------------------

  lemma FirstFramesGrow(s: LinkState, j: nat, k: nat)
    requires j <= k <= |s.conn.log.written|
    ensures FirstFrames(s, j) <= FirstFrames(s, k)
  {
    var w := s.conn.log.written;
    assert w[..k] == w[..j] + w[j..k];
    FlatConcat(w[..j], w[j..k]);
    DatasConcat(Flat(w[..j]), Flat(w[j..k]));
  }

  lemma AcksWithinServed(net: Net, s: LinkState)
    requires Coherent(net, s) && s.conn.phase == Up
    ensures s.conn.log.acks <= s.served
  {
    AcceptedIsPrefix(net, s.key, Codec.Dialer, Acks(s.runner.acks), s.ax);
  }

  /** The handler has been given every message of the acknowledged frames. */
  predicate AllHandled(s: LinkState)
    requires s.conn.log.acks <= |s.conn.log.written|
  {
    FirstFrames(s, s.conn.log.acks) <= s.runner.dispatched
  }

  lemma HandledExactly(s: LinkState)
    requires HandlerSaw(s) && s.conn.log.acks <= s.served
    ensures AllHandled(s) <==> s.runner.running || s.conn.log.acks < s.served
  {
    var acks := s.conn.log.acks;
    FirstFramesGrow(s, acks, s.served);
    if !s.runner.running && acks < s.served {
      FirstFramesGrow(s, acks, s.served - 1);
    }
  }

  /** During every session of every run: the handler has been given every message of the acknowledged
      frames exactly when it has refused nothing so far, or what it refused came in a frame that is
      not acknowledged yet. The read loop acknowledges before it dispatches. */
  lemma AcknowledgedIsHandled(net: Net, drop: Option<nat>, evs: seq<Link.Event>)
    requires Link.Legal(net, Start(drop), evs)
    ensures var s := Link.Exec(net, Start(drop), evs);
      s.conn.phase == Up ==>
        && s.conn.log.acks <= s.served <= |s.conn.log.written|
        && (AllHandled(s) <==> s.runner.running || s.conn.log.acks < s.served)
  {
    StartCoherent(net, drop);
    ExecInStep(net, Start(drop), evs);
    var s := Link.Exec(net, Start(drop), evs);
    if s.conn.phase == Up {
      AcksWithinServed(net, s);
      SessionDispatches(net, s);
      HandledExactly(s);
    }
  }

  // ---- A message that is acknowledged and never handled ------------------------------------

  lemma {:induction false} LinkSnoc(net: Net, s: LinkState, evs: seq<Link.Event>, ev: Link.Event)
    requires Link.Legal(net, s, evs) && Link.Enabled(net, Link.Exec(net, s, evs), ev)
    ensures Link.Legal(net, s, evs + [ev]) && Link.Exec(net, s, evs + [ev]) == Link.Step(net, Link.Exec(net, s, evs), ev)
    decreases |evs|
  {
    if evs == [] {
      assert [ev][1..] == [];
    } else {
      LinkSnoc(net, Link.Step(net, s, evs[0]), evs[1..], ev);
      assert (evs + [ev])[1..] == evs[1..] + [ev];
    }
  }

  /** A plain, unbatched link without latency. */
  function Plain(mac: Codec.Mac): Net {
    Net(Config(false, 1, 0, 0, false, 0), mac, false)
  }

  const REFUSED := Msg(0, [7], Durable(0))

  /** All bytes of a plain stream decode to the payloads sent. */
  lemma PlainStream(net: Net, key: Bytes, role: Codec.Role, sent: seq<Bytes>) returns (bytes: Bytes)
    requires !net.authenticated && FramesFit(sent)
    ensures Deliverable(net, key, role, sent, [] + bytes) && Accepted(net, key, role, [] + bytes) == sent
  {
    var writer, reader := CodecOf(net, key, role.Peer()), CodecOf(net, key, role);
    bytes := Codec.Stream(net.mac, writer, sent);
    assert [] + bytes == bytes;
    assert Codec.Paired(writer, reader);
    Codec.WholeStreamDecodes(net.mac, writer, reader, sent);
  }

  /** The session is up and has the message in its channel, its buffer, or written; nothing has
      reached either end yet. */
  predicate JustUp(s: LinkState) {
    && s.conn.phase == Up && s.conn.closed == {} && s.conn.sess.delay == []
    && s.conn.log.acks == 0 && s.conn.log.acked == []
    && s.rx == [] && s.ax == [] && s.served == 0 && s.runner == Receiver.Runner(0, [], true)
  }

  predicate Submitted(s: LinkState) {
    JustUp(s) && s.conn.inbox == [REFUSED] && s.conn.buffer == [] && s.conn.sess.pending == [] && s.conn.log.written == []
  }

  predicate Buffered(s: LinkState) {
    JustUp(s) && s.conn.buffer == [EntryOf(false, [REFUSED])] && s.conn.sess.pending == [] && s.conn.log.written == []
  }

  predicate OnTheWire(s: LinkState) {
    && s.conn.phase == Up && s.conn.buffer == [] && s.conn.log.acks == 0 && s.conn.log.acked == []
    && s.conn.sess.pending == [EntryOf(false, [REFUSED])] && s.frames == [[7]] && s.ax == []
  }

  lemma OpenRefused(mac: Codec.Mac) returns (evs: seq<Link.Event>)
    ensures Link.Legal(Plain(mac), Start(None), evs) && Submitted(Link.Exec(Plain(mac), Start(None), evs))
  {
    var net, s0, evs1 := Plain(mac), Start(None), [] + [Local(Submit(REFUSED))];
    LinkSnoc(net, s0, [], Local(Submit(REFUSED)));
    LinkSnoc(net, s0, evs1, Open([]));
    evs := evs1 + [Open([])];
  }

  lemma BufferRefused(net: Net, s: LinkState)
    requires !net.cfg.batched && Submitted(s)
    ensures Link.Enabled(net, s, Local(Arrive)) && Buffered(Link.Step(net, s, Local(Arrive)))
  {
    var e := EntryOf(false, [REFUSED]);
    assert [] + [e] == [e];
  }

  lemma WriteRefused(net: Net, s: LinkState)
    requires net.cfg.latency == 0 && Buffered(s)
    ensures Link.Enabled(net, s, Local(Pump(true)))
    ensures
      var t := Link.Step(net, s, Local(Pump(true)));
      OnTheWire(t) && t.rx == [] && t.served == 0 && t.runner == s.runner && t.key == s.key
  {
    var e := EntryOf(false, [REFUSED]);
    assert Replies([REFUSED]) == [0] + Replies([REFUSED][1..]);
    assert 0 in e.replies && [] + [e] == [e] && [e][1..] == [];
    assert Payloads([e]) == [[7]];
  }

  lemma ServeRefused(net: Net, s: LinkState, frame: Bytes)
    requires !net.cfg.batched && OnTheWire(s) && s.rx == [] && s.served == 0 && s.runner == Receiver.Runner(0, [], true)
    requires Deliverable(net, s.key, Codec.Listener, [[7]], [] + frame)
    requires Accepted(net, s.key, Codec.Listener, [] + frame) == [[7]]
    ensures Link.Enabled(net, s, ToReceiver(frame))
    ensures
      var t := Link.Step(net, s, ToReceiver(frame));
      && Link.Enabled(net, t, Serve(true, 0))
      && var u := Link.Step(net, t, Serve(true, 0));
         OnTheWire(u) && u.runner == Receiver.Runner(1, [], false) && u.key == s.key
  {
    assert [[7]][..0] == [];
  }

  lemma SettleRefused(net: Net, s: LinkState, reply: Bytes)
    requires OnTheWire(s) && s.runner == Receiver.Runner(1, [], false)
    requires Deliverable(net, s.key, Codec.Dialer, Acks(1), [] + reply)
    requires Accepted(net, s.key, Codec.Dialer, [] + reply) == Acks(1)
    ensures Link.Enabled(net, s, ToSender(reply))
    ensures
      var t := Link.Step(net, s, ToSender(reply));
      && Link.Enabled(net, t, AckRead)
      && var u := Link.Step(net, t, AckRead);
         u.conn.phase == Up && u.conn.log.acked == [EntryOf(false, [REFUSED])] && u.runner == s.runner
  {
    assert [] + [EntryOf(false, [REFUSED])] == [EntryOf(false, [REFUSED])];
  }

  lemma RefusedReachesPeer(mac: Codec.Mac) returns (evs: seq<Link.Event>)
    ensures Link.Legal(Plain(mac), Start(None), evs)
    ensures
      var s := Link.Exec(Plain(mac), Start(None), evs);
      OnTheWire(s) && s.rx == [] && s.served == 0 && s.runner == Receiver.Runner(0, [], true)
  {
    var net, s0 := Plain(mac), Start(None);
    var evs2 := OpenRefused(mac);
    BufferRefused(net, Link.Exec(net, s0, evs2));
    LinkSnoc(net, s0, evs2, Local(Arrive));
    var evs3 := evs2 + [Local(Arrive)];
    WriteRefused(net, Link.Exec(net, s0, evs3));
    LinkSnoc(net, s0, evs3, Local(Pump(true)));
    evs := evs3 + [Local(Pump(true))];
  }

  /** The read loop acknowledges a frame, the handler refuses its message, and the sender counts the
      message as acknowledged although it was never handled. */
  lemma AcknowledgedButRefused(mac: Codec.Mac) returns (evs: seq<Link.Event>)
    ensures Link.Legal(Plain(mac), Start(None), evs)
    ensures
      var s := Link.Exec(Plain(mac), Start(None), evs);
      && s.conn.phase == Up && s.conn.log.acked == [EntryOf(false, [REFUSED])]
      && s.runner == Receiver.Runner(1, [], false)
  {
    var net, s0 := Plain(mac), Start(None);
    var evs4 := RefusedReachesPeer(mac);
    var s4 := Link.Exec(net, s0, evs4);
    var frame := PlainStream(net, s4.key, Codec.Listener, [[7]]);
    ServeRefused(net, s4, frame);
    LinkSnoc(net, s0, evs4, ToReceiver(frame));
    var evs5 := evs4 + [ToReceiver(frame)];
    LinkSnoc(net, s0, evs5, Serve(true, 0));
    var evs6 := evs5 + [Serve(true, 0)];
    var reply := PlainStream(net, s4.key, Codec.Dialer, Acks(1));
    SettleRefused(net, Link.Exec(net, s0, evs6), reply);
    LinkSnoc(net, s0, evs6, ToSender(reply));
    var evs7 := evs6 + [ToSender(reply)];
    LinkSnoc(net, s0, evs7, AckRead);
    evs := evs7 + [AckRead];
  }
}

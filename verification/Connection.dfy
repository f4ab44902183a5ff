/**
  The connection actor of network/src/reliable_sender.rs as an object. Its methods are the branches
  of the source's loops, and each is proved to take exactly the step Transport gives for its event.
*/
module Connection {
  import opened Seqs
  import opened Words
  import opened Transport
  import opened Conservation
  import Bundle
  import C = Coalescer

  /** The shared map of least dropped keys, by peer address. */
  class DirtyMap {
    var entries: map<nat, nat>

    constructor ()
      ensures entries == map[]
    {
      entries := map[];
    }

    /** Keeps the smaller of the recorded key and `key`; other peers are not touched. */
    method Merge(address: nat, key: nat)
      modifies this
      ensures entries.Keys == old(entries).Keys + {address}
      ensures Some(entries[address]) == MinOption(Lookup(old(entries), address), Some(key))
      ensures forall a :: a in old(entries) && a != address ==> entries[a] == old(entries)[a]
    {
      if address in entries {
        entries := entries[address := if entries[address] < key then entries[address] else key];
      } else {
        entries := entries[address := key];
      }
    }
  }

  function Lookup(entries: map<nat, nat>, address: nat): Option<nat> {
    if address in entries then Some(entries[address]) else None
  }

  /** Coalesced items carry their own message. */
  predicate Carried(items: seq<(Bytes, Msg)>) {
    forall i :: 0 <= i < |items| ==> items[i].0 == items[i].1.data
  }

  lemma CarriedDatas(items: seq<(Bytes, Msg)>)
    requires Carried(items)
    ensures C.Firsts(items) == Datas(C.Extras(items))
  {
  }

  lemma {:induction false} DurableReplies(ms: seq<Msg>)
    requires AllDurable(ms)
    ensures |Replies(ms)| == |ms| && forall i :: 0 <= i < |ms| ==> Replies(ms)[i] == ms[i].cls.reply
    ensures MinKey(ms) == None
  {
    if ms != [] {
      DurableReplies(ms[1..]);
    }
  }

  /** The buffer loop makes progress: it takes one entry or ends the session. */
  lemma PumpShrinks(cfg: Config, s: State, ok: bool)
    requires Enabled(cfg, s, Pump(ok))
    ensures
      var t := Step(cfg, s, Pump(ok));
      (t.phase == Up && |t.buffer| == |s.buffer| - 1) || t.phase == Idle
  {
  }

  /** The requeued state with its drops reported is the specified end of the session. */
  lemma Ended(cfg: Config, s: State, t: State, least: Option<nat>)
    requires
      var queued := Entries(s.sess.delay) + s.sess.pending + s.buffer;
      && least == MinOption(DroppedKey(queued), MinKey(s.sess.volatiles))
      && t == s.(sess := NO_SESSION, buffer := Flushed(s.sess.durables) + Keep(queued, IsUnkeyed()),
                 log := s.log.(lost := s.log.lost + Flat(Keep(queued, IsKeyed())) + s.sess.volatiles,
                               start := [], arrived := [], written := [], acks := 0))
    ensures Transport.ReportLink(t.(phase := Idle, drop := Report(cfg, s.drop, least)), false) == Transport.EndSession(cfg, s)
  {
  }

  class Connection {
    const address: nat
    const cfg: Config
    const dropMap: DirtyMap?
    /** The peer's drop entry when no map is attached: it never changes. */
    ghost const unmapped: Option<nat>
    /** The clock and the reply targets closed so far, as the actor would observe them. */
    var now: nat
    var closed: set<nat>
    var phase: Phase
    var inbox: seq<Msg>
    var buffer: seq<Entry>
    var pending: seq<Entry>
    var delay: seq<Timed>
    const durables: C.Coalescer<Msg>
    var durableDue: Option<nat>
    const volatiles: C.Coalescer<Msg>
    var volatileDue: Option<nat>
    var link: Option<bool>
    ghost var log: Log

    ghost function Drop(): Option<nat>
      reads this, dropMap
    {
      if dropMap == null then unmapped else Lookup(dropMap.entries, address)
    }

    ghost function View(): State
      reads this, durables, volatiles, dropMap
    {
      State(now, phase, inbox, buffer,
            Session(pending, delay, C.Extras(durables.items), durableDue, C.Extras(volatiles.items), volatileDue),
            Drop(), closed, link, log)
    }

    ghost predicate Valid()
      reads this, durables, volatiles
    {
      && durables != volatiles && durables.Valid() && volatiles.Valid()
      && Carried(durables.items) && Carried(volatiles.items)
      && AllDurable(C.Extras(durables.items)) && AllVolatile(C.Extras(volatiles.items))
      && (cfg.dropMap <==> dropMap != null)
    }

    constructor (address: nat, cfg: Config, dropMap: DirtyMap?)
      requires cfg.dropMap <==> dropMap != null
      ensures Valid() && fresh(durables) && fresh(volatiles)
      ensures this.address == address && this.cfg == cfg && this.dropMap == dropMap
      ensures View() == Init(if dropMap == null then None else Lookup(dropMap.entries, address))
    {
      this.address := address;
      this.cfg := cfg;
      this.dropMap := dropMap;
      unmapped := None;
      now := 0;
      closed := {};
      phase := Idle;
      inbox := [];
      buffer := [];
      pending := [];
      delay := [];
      var d := new C.Coalescer<Msg>();
      var v := new C.Coalescer<Msg>();
      durables := d;
      volatiles := v;
      durableDue := None;
      volatileDue := None;
      link := None;
      log := Log([], [], [], [], [], map[], [], [], [], 0);
    }

    /** `report_dropped`. */
    method ReportDropped(key: Option<nat>)
      requires Valid()
      modifies dropMap
      ensures Valid() && View() == old(View()).(drop := Report(cfg, old(Drop()), key))
    {
      if key.Some? && dropMap != null {
        dropMap.Merge(address, key.value);
      }
    }

    /** `report_link`. */
    method ReportLink(up: bool)
      requires Valid()
      modifies this`link, this`log
      ensures Valid() && View() == Transport.ReportLink(old(View()), up)
    {
      if link == Some(up) {
        return;
      }
      link := Some(up);
      log := log.(links := log.links + [up]);
    }

    /** `buffer.retain` while backing off: cancelled entries go, the others keep their order. */
    method RetainOpen()
      requires Valid()
      modifies this`buffer, this`log
      ensures Valid()
      ensures View() == old(View()).(buffer := Keep(old(buffer), IsOpen(closed)),
                                     log := old(log).(discarded := old(log).discarded + Keep(old(buffer), IsShut(closed))))
    {
      var kept;
      ghost var shut;
      kept, shut := RetainOpenOf(buffer, closed);
      buffer := kept;
      log := log.(discarded := log.discarded + shut);
    }

    /** The frame of a single message. */
    method Wrap(data: Bytes) returns (frame: Bytes)
      ensures frame == if cfg.batched then Bundle.Encode([data]) else data
    {
      frame := data;
      if cfg.batched {
        frame := Bundle.EncodeBundle([data]);
      }
    }

    /** Buffers an entry while there is no session, and clears out cancelled ones. */
    method BufferWhileDown(e: Entry)
      requires Valid()
      modifies this`buffer, this`log
      ensures Valid()
      ensures var queued := old(buffer) + [e];
        View() == old(View()).(buffer := Keep(queued, IsOpen(closed)),
                               log := old(log).(discarded := old(log).discarded + Keep(queued, IsShut(closed))))
    {
      buffer := buffer + [e];
      RetainOpen();
    }

    /** One message received while backing off. */
    method WaitArrive()
      requires Valid() && Enabled(cfg, View(), Transport.WaitArrive)
      modifies this`inbox, this`buffer, this`log, dropMap
      ensures Valid() && View() == Step(cfg, old(View()), Transport.WaitArrive)
    {
      var m := inbox[0];
      inbox := inbox[1..];
      log := log.(entered := log.entered[m.id := now]);
      match m.cls
      case Durable(h) =>
        var data := Wrap(m.data);
        SingleFields(m);
        BufferWhileDown(Entry(data, [h], None, None, [m]));
      case Detached(kind) =>
        var data := Wrap(m.data);
        SingleFields(m);
        BufferWhileDown(Entry(data, [], None, kind, [m]));
      case Volatile(k) =>
        log := log.(lost := log.lost + [m]);
        ReportDropped(Some(k));
    }

    /** Size or timer flush of the durable coalescer into the buffer. */
    method FlushDurables()
      requires Valid() && durables.items != []
      modifies this`buffer, this`durableDue, durables
      ensures Valid() && View() == FlushDurableStep(old(View()))
    {
      CarriedDatas(durables.items);
      DurableReplies(C.Extras(durables.items));
      var bundle, msgs := durables.Flush();
      durableDue := None;
      var replies := seq(|msgs|, i requires 0 <= i < |msgs| && msgs[i].cls.Durable? => msgs[i].cls.reply);
      assert replies == Replies(msgs);
      buffer := buffer + [Entry(bundle, replies, None, None, msgs)];
    }

    /** Size or timer flush of the volatile coalescer; the bundle is accounted by its least key. */
    method FlushVolatiles()
      requires Valid() && volatiles.items != []
      modifies this`buffer, this`volatileDue, volatiles
      ensures Valid() && View() == FlushVolatileStep(old(View()))
    {
      CarriedDatas(volatiles.items);
      VolatileFields(C.Extras(volatiles.items));
      var bundle, msgs := volatiles.Flush();
      volatileDue := None;
      var least := LeastOf(msgs);
      assert msgs[0] in msgs;
      buffer := buffer + [Entry(bundle, [], least, None, msgs)];
    }

    method CoalesceDurable(m: Msg)
      requires Valid() && cfg.batched && m.cls.Durable?
      modifies this`buffer, this`durableDue, durables
      ensures Valid() && View() == Transport.OnArrival(cfg, old(View()), m)
    {
      var first := durables.Push(m.data, m);
      assert C.Extras(durables.items) == C.Extras(old(durables.items)) + [m];
      CarriedDatas(durables.items);
      if first {
        durableDue := Some(now + cfg.maxDelay);
      }
      var over := durables.OverCap(cfg.maxBytes);
      if over {
        FlushDurables();
      }
    }

    method CoalesceVolatile(m: Msg)
      requires Valid() && cfg.batched && m.cls.Volatile?
      modifies this`buffer, this`volatileDue, volatiles
      ensures Valid() && View() == Transport.OnArrival(cfg, old(View()), m)
    {
      var first := volatiles.Push(m.data, m);
      assert C.Extras(volatiles.items) == C.Extras(old(volatiles.items)) + [m];
      CarriedDatas(volatiles.items);
      if first {
        volatileDue := Some(now + cfg.maxDelay);
      }
      var over := volatiles.OverCap(cfg.maxBytes);
      if over {
        FlushVolatiles();
      }
    }

    /** `on_arrival`, after the message was taken from the channel. */
    method OnArrival(m: Msg)
      requires Valid()
      modifies this`buffer, this`durableDue, this`volatileDue, durables, volatiles
      ensures Valid() && View() == Transport.OnArrival(cfg, old(View()), m)
    {
      SingleFields(m);
      match m.cls
      case Detached(kind) =>
        var data := m.data;
        if cfg.batched {
          data := Bundle.EncodeBundle([m.data]);
        }
        buffer := buffer + [Entry(data, [], None, kind, [m])];
      case Durable(h) =>
        if cfg.batched {
          CoalesceDurable(m);
        } else {
          buffer := buffer + [Entry(m.data, [h], None, None, [m])];
        }
      case Volatile(k) =>
        if cfg.batched {
          CoalesceVolatile(m);
        } else {
          buffer := buffer + [Entry(m.data, [], Some(k), None, [m])];
        }
    }

    /** The receive arm of the select loop. */
    method Arrive()
      requires Valid() && Enabled(cfg, View(), Transport.Arrive)
      modifies this`inbox, this`log, this`buffer, this`durableDue, this`volatileDue, durables, volatiles
      ensures Valid() && View() == Step(cfg, old(View()), Transport.Arrive)
    {
      var m := inbox[0];
      inbox := inbox[1..];
      log := log.(arrived := log.arrived + [m], entered := log.entered[m.id := now]);
      OnArrival(m);
    }

    /** A connect attempt succeeded: a session starts with empty session state. */
    method Connected()
      requires Valid() && phase == Idle && View().sess == NO_SESSION
      modifies this`phase, this`link, this`log
      ensures Valid() && View() == Step(cfg, old(View()), Connect)
    {
      phase := Up;
      log := log.(start := Flat(buffer), arrived := [], written := [], acks := 0);
      ReportLink(true);
    }

    /** A connect attempt failed: the actor backs off. */
    method ConnectFailed()
      requires Valid() && phase == Idle
      modifies this`phase, this`link, this`log
      ensures Valid() && View() == Step(cfg, old(View()), ConnectFail)
    {
      phase := Waiting;
      ReportLink(false);
    }

    /** One turn of the buffer loop; `ok` is the outcome of the write. */
    method PumpOne(ok: bool)
      requires Valid() && Enabled(cfg, View(), Pump(ok))
      modifies this, durables, volatiles, dropMap
      ensures Valid() && View() == Step(cfg, old(View()), Pump(ok))
    {
      var e := buffer[0];
      buffer := buffer[1..];
      if AllClosed(e.replies, closed) {
        log := log.(discarded := log.discarded + [e]);
      } else if cfg.latency > 0 {
        delay := delay + [Timed(now + cfg.latency, e)];
      } else if ok {
        pending := pending + [e];
        log := log.(written := log.written + [e]);
      } else {
        GiveUp(e);
      }
    }

    /** A failed write: the entry goes back to the front of the buffer and the session ends. */
    method GiveUp(e: Entry)
      requires Valid()
      modifies this, durables, volatiles, dropMap
      ensures Valid() && View() == Transport.EndSession(cfg, old(View()).(buffer := [e] + old(buffer)))
    {
      buffer := [e] + buffer;
      EndSession();
    }

    /** The buffer loop: runs until the buffer is empty or a write fails. The writer refuses frames
        over the limit; otherwise `writes` says which writes succeed. */
    method FlushBuffer(writes: seq<bool>) returns (ghost evs: seq<Event>)
      requires Valid() && phase == Up && |writes| >= |buffer|
      modifies this, durables, volatiles, dropMap
      ensures Valid() && (phase == Up ==> buffer == []) && phase != Waiting
      ensures Legal(cfg, old(View()), evs) && View() == Exec(cfg, old(View()), evs)
      ensures forall ev :: ev in evs ==> ev.Pump?
    {
      evs := [];
      ghost var start := View();
      var i := 0;
      while phase == Up && buffer != []
        invariant Valid() && (phase == Up || phase == Idle)
        invariant phase == Up ==> i + |buffer| <= |writes|
        invariant Legal(cfg, start, evs) && View() == Exec(cfg, start, evs)
        invariant forall ev :: ev in evs ==> ev.Pump?
        decreases if phase == Up then |writes| - i + 1 else 0
      {
        var ok := writes[i] && |buffer[0].data| <= MAX_FRAME_LENGTH;
        ghost var before := View();
        PumpOne(ok);
        ExecSnoc(cfg, start, evs, Pump(ok));
        PumpShrinks(cfg, before, ok);
        evs := evs + [Pump(ok)];
        i := i + 1;
      }
    }

    /** The delay-queue arm: the front entry is due. */
    method ReleaseOne(ok: bool)
      requires Valid() && Enabled(cfg, View(), Release(ok))
      modifies this, durables, volatiles, dropMap
      ensures Valid() && View() == Step(cfg, old(View()), Release(ok))
    {
      var e := delay[0].entry;
      delay := delay[1..];
      if AllClosed(e.replies, closed) {
        log := log.(discarded := log.discarded + [e]);
      } else if ok {
        pending := pending + [e];
        log := log.(written := log.written + [e]);
      } else {
        GiveUp(e);
      }
    }

    /** The reader arm: an acknowledgement, or an error or the end of the stream. */
    method ReadOne(ok: bool)
      requires Valid() && Enabled(cfg, View(), Read(ok))
      modifies this, durables, volatiles, dropMap
      ensures Valid() && View() == Step(cfg, old(View()), Read(ok))
    {
      if pending == [] {
        EndSession();
        return;
      }
      var e := pending[0];
      pending := pending[1..];
      if ok {
        log := log.(acked := log.acked + [e], acks := log.acks + 1);
      } else {
        pending := [e] + pending;
        assert View() == old(View());
        EndSession();
      }
    }

    /** Empties the pending and delay queues onto the front of the buffer. */
    method RequeueSent() returns (least: Option<nat>)
      requires Valid()
      modifies this`buffer, this`pending, this`delay
      ensures Valid() && pending == [] && delay == []
      ensures buffer == Keep(Entries(old(delay)), IsUnkeyed()) + (Keep(old(pending), IsUnkeyed()) + old(buffer))
      ensures least == MinOption(MinOption(None, DroppedKey(old(pending))), DroppedKey(Entries(old(delay))))
    {
      buffer, least := RequeueAll(pending, buffer, None);
      pending := [];
      buffer, least := RequeueAll(Entries(delay), buffer, least);
      delay := [];
    }

    /** Empties both coalescers: durable messages to the front of the buffer, volatile ones dropped. */
    method RequeueCoalesced(start: Option<nat>) returns (least: Option<nat>, ghost front: seq<Entry>)
      requires Valid()
      modifies this`buffer, this`durableDue, this`volatileDue, durables, volatiles
      ensures Valid() && durables.items == [] && volatiles.items == [] && durableDue == None && volatileDue == None
      ensures front == Flushed(C.Extras(old(durables.items))) && NoneKeyed(front) && buffer == front + old(buffer)
      ensures least == MinOption(start, MinKey(C.Extras(old(volatiles.items))))
    {
      var bundle := DrainDurables();
      buffer := bundle + buffer;
      durableDue := None;
      var drained := volatiles.Drain();
      var lost := LeastOf(C.Extras(drained));
      least := MinOption(start, lost);
      volatileDue := None;
      front := bundle;
    }

    /** Everything the session held, in front of the buffer. */
    method Gather() returns (least: Option<nat>, ghost front: seq<Entry>)
      requires Valid()
      modifies this`buffer, this`pending, this`delay, this`durableDue, this`volatileDue, durables, volatiles
      ensures Valid() && View().sess == NO_SESSION
      ensures front == Flushed(C.Extras(old(durables.items))) && NoneKeyed(front)
      ensures buffer == front + (Keep(Entries(old(delay)), IsUnkeyed()) + (Keep(old(pending), IsUnkeyed()) + old(buffer)))
      ensures least == MinOption(MinOption(MinOption(None, DroppedKey(old(pending))), DroppedKey(Entries(old(delay)))),
                                 MinKey(C.Extras(old(volatiles.items))))
    {
      least := RequeueSent();
      least, front := RequeueCoalesced(least);
      assert C.Extras(durables.items) == [] && C.Extras(volatiles.items) == [];
    }

    /** Requeues what must be retried and returns the least key of what is dropped. */
    method Requeue() returns (least: Option<nat>)
      requires Valid()
      modifies this`buffer, this`pending, this`delay, this`durableDue, this`volatileDue, durables, volatiles
      ensures Valid() && View() == old(View()).(buffer := buffer, sess := NO_SESSION)
      ensures var queued := Entries(old(delay)) + old(pending) + old(buffer);
        && buffer == Flushed(C.Extras(old(durables.items))) + Keep(queued, IsUnkeyed())
        && least == MinOption(DroppedKey(queued), MinKey(C.Extras(old(volatiles.items))))
    {
      ghost var d, p, b, lost := Entries(delay), pending, buffer, MinKey(C.Extras(volatiles.items));
      ghost var front;
      least, front := Gather();
      RequeuedBuffer(front, d, p, b);
      RequeuedKey(front, d, p, b, lost);
      buffer, least := RetainUnkeyed(buffer, least);
    }

    /** The end of a session: requeue and drop, account for the drops, report the link as down. */
    method EndSession()
      requires Valid()
      modifies this, durables, volatiles, dropMap
      ensures Valid() && View() == Transport.EndSession(cfg, old(View()))
    {
      ghost var before := View();
      ghost var queued := Entries(delay) + pending + buffer;
      ghost var gone, volatile := Flat(Keep(queued, IsKeyed())), C.Extras(volatiles.items);
      var least := Requeue();
      log := log.(lost := log.lost + gone + volatile, start := [], arrived := [], written := [], acks := 0);
      Ended(cfg, before, View(), least);
      Down(least);
    }

    /** The actor leaves the session: drops are reported, then the link. */
    method Down(least: Option<nat>)
      requires Valid()
      modifies this`phase, this`link, this`log, dropMap
      ensures Valid()
      ensures View() == Transport.ReportLink(old(View()).(phase := Idle, drop := Report(cfg, old(Drop()), least)), false)
    {
      phase := Idle;
      ReportDropped(least);
      ReportLink(false);
    }

    /** Unflushed durable messages go back as one bundle. */
    method DrainDurables() returns (front: seq<Entry>)
      requires Valid()
      modifies durables
      ensures Valid() && durables.items == []
      ensures front == Flushed(C.Extras(old(durables.items))) && NoneKeyed(front)
    {
      CarriedDatas(durables.items);
      DurableReplies(C.Extras(durables.items));
      var drained := durables.Drain();
      if drained == [] {
        return [];
      }
      var bundle := Bundle.EncodeBundle(C.Firsts(drained));
      var msgs := C.Extras(drained);
      var replies := seq(|msgs|, i requires 0 <= i < |msgs| && msgs[i].cls.Durable? => msgs[i].cls.reply);
      assert replies == Replies(msgs);
      assert msgs[0] in msgs;
      front := [Entry(bundle, replies, None, None, msgs)];
    }
  }

  /** The least key of a list of volatile messages. */
  method LeastOf(ms: seq<Msg>) returns (least: Option<nat>)
    requires AllVolatile(ms)
    ensures least == MinKey(ms)
  {
    least := None;
    for i := 0 to |ms|
      invariant least == MinKey(ms[..i])
    {
      assert ms[..i + 1] == ms[..i] + [ms[i]];
      assert ms[i] in ms;
      MinKeyConcat(ms[..i], [ms[i]]);
      SingleFields(ms[i]);
      least := Some(if least.Some? && least.value < ms[i].cls.key then least.value else ms[i].cls.key);
    }
    assert ms[..|ms|] == ms;
  }

  // ---- Requeue and drop ------------------------------------------------------------------

  lemma {:induction false} LeastKeyConcat(xs: seq<Entry>, ys: seq<Entry>)
    ensures LeastKey(xs + ys) == MinOption(LeastKey(xs), LeastKey(ys))
  {
    if xs == [] {
      assert xs + ys == ys;
    } else {
      assert (xs + ys)[1..] == xs[1..] + ys;
      LeastKeyConcat(xs[1..], ys);
    }
  }

  /** The least key among the keyed entries of a list. */
  function DroppedKey(es: seq<Entry>): Option<nat> {
    LeastKey(Keep(es, IsKeyed()))
  }

  lemma DroppedKeyConcat(xs: seq<Entry>, ys: seq<Entry>)
    ensures DroppedKey(xs + ys) == MinOption(DroppedKey(xs), DroppedKey(ys))
  {
    KeepConcat(xs, ys, IsKeyed());
    LeastKeyConcat(Keep(xs, IsKeyed()), Keep(ys, IsKeyed()));
  }

  lemma {:induction false} UnkeyedTwice(es: seq<Entry>)
    ensures Keep(Keep(es, IsUnkeyed()), IsUnkeyed()) == Keep(es, IsUnkeyed())
    ensures DroppedKey(Keep(es, IsUnkeyed())) == None
  {
    if es != [] {
      UnkeyedTwice(es[1..]);
    }
  }

  /** Pops a queue from the back onto the front of the buffer, keeping unkeyed entries and merging
      the keys of the others. */
  method RequeueAll(queue: seq<Entry>, onto: seq<Entry>, start: Option<nat>) returns (buffer: seq<Entry>, least: Option<nat>)
    ensures buffer == Keep(queue, IsUnkeyed()) + onto
    ensures least == MinOption(start, DroppedKey(queue))
  {
    buffer, least := onto, start;
    var q := queue;
    while q != []
      invariant q == queue[..|q|]
      invariant buffer == Keep(queue[|q|..], IsUnkeyed()) + onto
      invariant least == MinOption(start, DroppedKey(queue[|q|..]))
      decreases |q|
    {
      var e := q[|q| - 1];
      assert queue[|q| - 1..] == [e] + queue[|q|..];
      q := q[..|q| - 1];
      match e.key
      case Some(k) => least := MinOption(least, Some(k));
      case None => buffer := [e] + buffer;
    }
    assert queue[0..] == queue;
  }

  /** `retain` with the open entries; the cancelled ones are noted. */
  method RetainOpenOf(all: seq<Entry>, closed: set<nat>) returns (kept: seq<Entry>, ghost shut: seq<Entry>)
    ensures kept == Keep(all, IsOpen(closed)) && shut == Keep(all, IsShut(closed))
  {
    kept, shut := [], [];
    for i := 0 to |all|
      invariant kept == Keep(all[..i], IsOpen(closed)) && shut == Keep(all[..i], IsShut(closed))
    {
      KeepSnoc(all, i, IsOpen(closed));
      KeepSnoc(all, i, IsShut(closed));
      if AllClosed(all[i].replies, closed) {
        shut := shut + [all[i]];
      } else {
        kept := kept + [all[i]];
      }
    }
    assert all[..|all|] == all;
  }

  lemma KeepSnoc(all: seq<Entry>, i: nat, p: Entry -> bool)
    requires i < |all|
    ensures Keep(all[..i + 1], p) == Keep(all[..i], p) + if p(all[i]) then [all[i]] else []
  {
    assert all[..i + 1] == all[..i] + [all[i]];
    KeepConcat(all[..i], [all[i]], p);
    KeepOne(all[i], p);
  }

  /** The final `retain`: drops keyed entries and merges their keys. */
  method RetainUnkeyed(all: seq<Entry>, start: Option<nat>) returns (kept: seq<Entry>, least: Option<nat>)
    ensures kept == Keep(all, IsUnkeyed())
    ensures least == MinOption(start, DroppedKey(all))
  {
    kept, least := [], start;
    for i := 0 to |all|
      invariant kept == Keep(all[..i], IsUnkeyed())
      invariant least == MinOption(start, DroppedKey(all[..i]))
    {
      assert all[..i + 1] == all[..i] + [all[i]];
      KeepConcat(all[..i], [all[i]], IsUnkeyed());
      DroppedKeyConcat(all[..i], [all[i]]);
      KeepOne(all[i], IsUnkeyed());
      KeepOne(all[i], IsKeyed());
      match all[i].key
      case Some(k) =>
        assert LeastKey([all[i]]) == MinOption(Some(k), LeastKey([all[i]][1..]));
        least := MinOption(least, Some(k));
      case None => kept := kept + [all[i]];
    }
    assert all[..|all|] == all;
  }

  /** What the requeue procedure leaves in the buffer is the transport's end-of-session buffer. */
  lemma RequeuedBuffer(front: seq<Entry>, d: seq<Entry>, p: seq<Entry>, b: seq<Entry>)
    requires NoneKeyed(front)
    ensures Keep(front + (Keep(d, IsUnkeyed()) + (Keep(p, IsUnkeyed()) + b)), IsUnkeyed())
         == front + Keep(d + p + b, IsUnkeyed())
  {
    UnkeyedTwice(d);
    UnkeyedTwice(p);
    KeepAll(front, IsUnkeyed());
    KeepSettled(front, Keep(d, IsUnkeyed()), Keep(p, IsUnkeyed()), b, IsUnkeyed());
    KeepThree(d, p, b, IsUnkeyed());
  }

  /** Filtering a line whose first three blocks are already filtered. */
  lemma KeepSettled(w: seq<Entry>, x: seq<Entry>, y: seq<Entry>, z: seq<Entry>, keep: Entry -> bool)
    requires Keep(w, keep) == w && Keep(x, keep) == x && Keep(y, keep) == y
    ensures Keep(w + (x + (y + z)), keep) == w + (x + y + Keep(z, keep))
  {
    KeepFour(w, x, y, z, keep);
    assert x + (y + Keep(z, keep)) == x + y + Keep(z, keep);
  }

  lemma KeepFour(w: seq<Entry>, x: seq<Entry>, y: seq<Entry>, z: seq<Entry>, keep: Entry -> bool)
    ensures Keep(w + (x + (y + z)), keep) == Keep(w, keep) + (Keep(x, keep) + (Keep(y, keep) + Keep(z, keep)))
  {
    KeepConcat(w, x + (y + z), keep);
    KeepConcat(x, y + z, keep);
    KeepConcat(y, z, keep);
  }

  /** The keys it merges along the way are the least key of everything dropped. */
  lemma RequeuedKey(front: seq<Entry>, d: seq<Entry>, p: seq<Entry>, b: seq<Entry>, lost: Option<nat>)
    requires NoneKeyed(front)
    ensures var left := front + (Keep(d, IsUnkeyed()) + (Keep(p, IsUnkeyed()) + b));
      MinOption(MinOption(MinOption(MinOption(None, DroppedKey(p)), DroppedKey(d)), lost), DroppedKey(left))
        == MinOption(DroppedKey(d + p + b), lost)
  {
    var kd, kp := Keep(d, IsUnkeyed()), Keep(p, IsUnkeyed());
    assert DroppedKey(front + (kd + (kp + b))) == DroppedKey(b) by {
      DroppedKeyConcat(front, kd + (kp + b));
      DroppedKeyConcat(kd, kp + b);
      DroppedKeyConcat(kp, b);
      UnkeyedTwice(d);
      UnkeyedTwice(p);
      KeepNone(front, IsKeyed());
    }
    DroppedKeyConcat(d + p, b);
    DroppedKeyConcat(d, p);
    MinOfFour(DroppedKey(p), DroppedKey(d), lost, DroppedKey(b));
  }

  lemma MinOfFour(p: Option<nat>, d: Option<nat>, x: Option<nat>, b: Option<nat>)
    ensures MinOption(MinOption(MinOption(MinOption(None, p), d), x), b) == MinOption(MinOption(MinOption(d, p), b), x)
  {
  }

  /** The fields of a single-message entry. */
  lemma SingleFields(m: Msg)
    ensures Datas([m]) == [m.data]
    ensures Replies([m]) == if m.cls.Durable? then [m.cls.reply] else []
    ensures MinKey([m]) == if m.cls.Volatile? then Some(m.cls.key) else None
  {
    assert Replies([m]) == (if m.cls.Durable? then [m.cls.reply] else []) + Replies([m][1..]);
    assert MinKey([m]) == MinOption(if m.cls.Volatile? then Some(m.cls.key) else None, MinKey([m][1..]));
  }
}

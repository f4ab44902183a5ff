/** Flush deadlines, release times and the size cap of a connection. */
module Timers {
  import opened Seqs
  import opened Transport
  import opened Conservation
  import opened Order

  type Stamps = map<nat, nat>

  /** Every message reached the connection at least `slack` before `t`. */
  predicate StampedBy(entered: Stamps, ms: seq<Msg>, slack: nat, t: nat) {
    forall m :: m in ms ==> m.id in entered && entered[m.id] + slack <= t
  }

  predicate AllStamped(entered: Stamps, es: seq<Entry>, slack: nat, t: nat) {
    forall e :: e in es ==> StampedBy(entered, e.msgs, slack, t)
  }

  /** A coalescer: armed exactly when non-empty, due `maxDelay` after its oldest message reached
      the connection, and below the size cap. */
  predicate Armed(cfg: Config, entered: Stamps, ms: seq<Msg>, due: Option<nat>) {
    if ms == [] then due == None
    else ms[0].id in entered && due == Some(entered[ms[0].id] + cfg.maxDelay) && TotalData(ms) < cfg.maxBytes
  }

  predicate Scheduled(cfg: Config, entered: Stamps, delay: seq<Timed>, now: nat) {
    && (forall i, j :: 0 <= i < j < |delay| ==> delay[i].release <= delay[j].release)
    && (forall i :: 0 <= i < |delay| ==> delay[i].release <= now + cfg.latency)
    && (forall i :: 0 <= i < |delay| ==> StampedBy(entered, delay[i].entry.msgs, cfg.latency, delay[i].release))
  }

  ghost predicate Punctual(cfg: Config, s: State) {
    && Armed(cfg, s.log.entered, s.sess.durables, s.sess.durableDue)
    && Armed(cfg, s.log.entered, s.sess.volatiles, s.sess.volatileDue)
    && StampedBy(s.log.entered, s.sess.durables, 0, s.now)
    && StampedBy(s.log.entered, s.sess.volatiles, 0, s.now)
    && AllStamped(s.log.entered, s.buffer, 0, s.now)
    && AllStamped(s.log.entered, s.sess.pending, 0, s.now)
    && AllStamped(s.log.entered, s.log.written, cfg.latency, s.now)
    && Scheduled(cfg, s.log.entered, s.sess.delay, s.now)
  }

  // ---- Stamping a new arrival disturbs nobody --------------------------------------------

  /** Copies of `x` past the channel. */
  function Inside(s: State, x: Msg): nat {
    Within(s.buffer, x) + Within(s.sess.pending, x) + Within(Entries(s.sess.delay), x) + Within(s.log.written, x)
    + Count(s.sess.durables, x) + Count(s.sess.volatiles, x)
  }

  /** The next message in the channel has an id no message past the channel has. */
  lemma NewIdInside(cfg: Config, s: State, x: Msg)
    requires Orderly(cfg, s) && s.inbox != [] && Inside(s, x) > 0
    ensures x.id != s.inbox[0].id
  {
    var m := s.inbox[0];
    var k := |s.log.acked| - s.log.acks;
    WithinConcat(s.log.acked[k..], s.sess.pending, x);
    WithinSuffix(s.log.acked, k, x);
    assert Count(s.log.sent, x) == Held(s, x) + Settled(s, x);
    assert Count(s.log.sent, m) == Held(s, m) + Settled(s, m);
    SentOnce(s, x);
    CountIn(s.inbox, m);
    CountIn(s.log.sent, x);
    CountIn(s.log.sent, m);
  }

  lemma {:induction false} WithinMember(es: seq<Entry>, e: Entry, m: Msg)
    requires e in es && m in e.msgs
    ensures Within(es, m) > 0
  {
    if es[0] == e {
      CountIn(e.msgs, m);
    } else {
      WithinMember(es[1..], e, m);
    }
  }

  /** The messages of entries past the channel keep their stamps when the next message is stamped. */
  lemma RestampEntries(cfg: Config, s: State, es: seq<Entry>, slack: nat)
    requires Orderly(cfg, s) && s.inbox != []
    requires es == s.buffer || es == s.sess.pending || es == s.log.written
    requires AllStamped(s.log.entered, es, slack, s.now)
    ensures AllStamped(s.log.entered[s.inbox[0].id := s.now], es, slack, s.now)
  {
    var entered := s.log.entered[s.inbox[0].id := s.now];
    forall e, m | e in es && m in e.msgs ensures m.id in entered && entered[m.id] + slack <= s.now {
      assert StampedBy(s.log.entered, e.msgs, slack, s.now);
      WithinMember(es, e, m);
      NewIdInside(cfg, s, m);
    }
  }

  lemma RestampDelay(cfg: Config, s: State)
    requires Orderly(cfg, s) && s.inbox != [] && Scheduled(cfg, s.log.entered, s.sess.delay, s.now)
    ensures Scheduled(cfg, s.log.entered[s.inbox[0].id := s.now], s.sess.delay, s.now)
  {
    var entered := s.log.entered[s.inbox[0].id := s.now];
    forall i | 0 <= i < |s.sess.delay|
      ensures StampedBy(entered, s.sess.delay[i].entry.msgs, cfg.latency, s.sess.delay[i].release)
    {
      var e := s.sess.delay[i].entry;
      assert Entries(s.sess.delay)[i] == e;
      forall m | m in e.msgs ensures m.id != s.inbox[0].id {
        WithinMember(Entries(s.sess.delay), e, m);
        NewIdInside(cfg, s, m);
      }
    }
  }

  lemma RestampCoalescers(cfg: Config, s: State)
    requires Orderly(cfg, s) && s.inbox != [] && Punctual(cfg, s)
    ensures var entered := s.log.entered[s.inbox[0].id := s.now];
      && StampedBy(entered, s.sess.durables, 0, s.now) && StampedBy(entered, s.sess.volatiles, 0, s.now)
      && Armed(cfg, entered, s.sess.durables, s.sess.durableDue)
      && Armed(cfg, entered, s.sess.volatiles, s.sess.volatileDue)
  {
    forall m | m in s.sess.durables || m in s.sess.volatiles ensures m.id != s.inbox[0].id {
      CountIn(s.sess.durables, m);
      CountIn(s.sess.volatiles, m);
      NewIdInside(cfg, s, m);
    }
  }

  lemma Restamp(cfg: Config, s: State)
    requires Orderly(cfg, s) && s.inbox != [] && Punctual(cfg, s)
    ensures Punctual(cfg, s.(log := s.log.(entered := s.log.entered[s.inbox[0].id := s.now])))
  {
    RestampEntries(cfg, s, s.buffer, 0);
    RestampEntries(cfg, s, s.sess.pending, 0);
    RestampEntries(cfg, s, s.log.written, cfg.latency);
    RestampDelay(cfg, s);
    RestampCoalescers(cfg, s);
  }

  // ---- Steps -----------------------------------------------------------------------------

  lemma KeepStamped(entered: Stamps, es: seq<Entry>, p: Entry -> bool, slack: nat, t: nat)
    requires AllStamped(entered, es, slack, t)
    ensures AllStamped(entered, Keep(es, p), slack, t)
  {
    forall e | e in Keep(es, p) ensures StampedBy(entered, e.msgs, slack, t) {
      KeepMember(es, p, e);
    }
  }

  lemma DelayStamped(cfg: Config, entered: Stamps, delay: seq<Timed>, now: nat)
    requires Scheduled(cfg, entered, delay, now)
    ensures AllStamped(entered, Entries(delay), 0, now)
  {
    forall e | e in Entries(delay) ensures StampedBy(entered, e.msgs, 0, now) {
      var i :| 0 <= i < |delay| && Entries(delay)[i] == e;
      assert StampedBy(entered, delay[i].entry.msgs, cfg.latency, delay[i].release);
    }
  }

  lemma LostPunctual(cfg: Config, s: State, t: State)
    requires Punctual(cfg, s) && Lost(s, t)
    ensures Punctual(cfg, t)
  {
    var queued := Entries(s.sess.delay) + s.sess.pending + s.buffer;
    DelayStamped(cfg, s.log.entered, s.sess.delay, s.now);
    assert AllStamped(s.log.entered, queued, 0, s.now);
    KeepStamped(s.log.entered, queued, IsUnkeyed(), 0, s.now);
  }

  lemma EndSessionPunctual(cfg: Config, s: State)
    requires Punctual(cfg, s)
    ensures Punctual(cfg, EndSession(cfg, s))
  {
    EndSessionLoses(cfg, s);
    LostPunctual(cfg, s, EndSession(cfg, s));
  }

  /** One entry leaves the buffer for the delay queue or the writer, or is cancelled. */
  lemma PumpedPunctual(cfg: Config, s: State, t: State)
    requires Punctual(cfg, s) && s.buffer != [] && t.buffer == s.buffer[1..] && t.now == s.now
    requires t.log.entered == s.log.entered
    requires t.sess.durables == s.sess.durables && t.sess.durableDue == s.sess.durableDue
    requires t.sess.volatiles == s.sess.volatiles && t.sess.volatileDue == s.sess.volatileDue
    requires t.sess.delay == s.sess.delay || t.sess.delay == s.sess.delay + [Timed(s.now + cfg.latency, s.buffer[0])]
    requires t.sess.pending == s.sess.pending || t.sess.pending == s.sess.pending + [s.buffer[0]]
    requires t.log.written == s.log.written || (cfg.latency == 0 && t.log.written == s.log.written + [s.buffer[0]])
    ensures Punctual(cfg, t)
  {
    assert StampedBy(s.log.entered, s.buffer[0].msgs, 0, s.now);
  }

  lemma FailedPump(cfg: Config, s: State)
    requires s.buffer != [] && !AllClosed(s.buffer[0].replies, s.closed) && cfg.latency == 0
    ensures Lost(s, PumpStep(cfg, s, false))
  {
    assert [s.buffer[0]] + s.buffer[1..] == s.buffer;
    EndSessionLoses(cfg, s.(buffer := s.buffer[1..]).(buffer := [s.buffer[0]] + s.buffer[1..]));
  }

  lemma PumpPunctual(cfg: Config, s: State, ok: bool)
    requires Punctual(cfg, s) && Enabled(cfg, s, Pump(ok))
    ensures Punctual(cfg, PumpStep(cfg, s, ok))
  {
    var e, t := s.buffer[0], PumpStep(cfg, s, ok);
    if !AllClosed(e.replies, s.closed) && cfg.latency == 0 && !ok {
      FailedPump(cfg, s);
      LostPunctual(cfg, s, t);
    } else {
      PumpedPunctual(cfg, s, t);
    }
  }

  lemma ReleasePunctual(cfg: Config, s: State, ok: bool)
    requires Punctual(cfg, s) && Enabled(cfg, s, Release(ok))
    ensures Punctual(cfg, ReleaseStep(cfg, s, ok))
  {
    var e, s' := s.sess.delay[0].entry, s.(sess := s.sess.(delay := s.sess.delay[1..]));
    assert StampedBy(s.log.entered, e.msgs, cfg.latency, s.now);
    assert Scheduled(cfg, s.log.entered, s'.sess.delay, s.now);
    if !AllClosed(e.replies, s.closed) && !ok {
      EndSessionPunctual(cfg, s'.(buffer := [e] + s'.buffer));
    }
  }

  lemma WaitArrivePunctual(cfg: Config, s: State)
    requires Orderly(cfg, s) && Punctual(cfg, s) && Enabled(cfg, s, WaitArrive)
    ensures Punctual(cfg, WaitArriveStep(cfg, s))
  {
    var m := s.inbox[0];
    Restamp(cfg, s);
    if !m.cls.Volatile? {
      var queued := s.buffer + [EntryOf(cfg.batched, [m])];
      KeepStamped(s.log.entered[m.id := s.now], queued, IsOpen(s.closed), 0, s.now);
    }
  }

  /** A message joins a coalescer that stays below the cap. */
  lemma ArmedGrows(cfg: Config, entered: Stamps, ms: seq<Msg>, due: Option<nat>, m: Msg, now: nat)
    requires Armed(cfg, entered, ms, due) && m.id in entered && entered[m.id] == now
    requires TotalData(ms + [m]) < cfg.maxBytes
    ensures Armed(cfg, entered, ms + [m], if ms == [] then Some(now + cfg.maxDelay) else due)
  {
    assert (ms + [m])[0] == if ms == [] then m else ms[0];
  }

  /** Taking in one message: it waits in its coalescer or leaves with it for the buffer. */
  lemma TakenPunctual(cfg: Config, s: State, t: State, m: Msg, front: seq<Entry>)
    requires Punctual(cfg, s) && t.now == s.now && t.log.entered == s.log.entered && t.log.written == s.log.written
    requires t.sess.pending == s.sess.pending && t.sess.delay == s.sess.delay
    requires t.buffer == s.buffer + front && AllStamped(s.log.entered, front, 0, s.now)
    requires Armed(cfg, s.log.entered, t.sess.durables, t.sess.durableDue)
    requires Armed(cfg, s.log.entered, t.sess.volatiles, t.sess.volatileDue)
    requires StampedBy(s.log.entered, t.sess.durables, 0, s.now) && StampedBy(s.log.entered, t.sess.volatiles, 0, s.now)
    ensures Punctual(cfg, t)
  {
  }

  lemma OnArrivalPunctual(cfg: Config, s: State, m: Msg)
    requires Punctual(cfg, s) && m.id in s.log.entered && s.log.entered[m.id] == s.now
    ensures Punctual(cfg, OnArrival(cfg, s, m))
  {
    var t := OnArrival(cfg, s, m);
    if m.cls.Detached? || !cfg.batched {
      TakenPunctual(cfg, s, t, m, [EntryOf(cfg.batched, [m])]);
    } else if m.cls.Durable? {
      var ms := s.sess.durables + [m];
      if TotalData(ms) < cfg.maxBytes {
        ArmedGrows(cfg, s.log.entered, s.sess.durables, s.sess.durableDue, m, s.now);
        TakenPunctual(cfg, s, t, m, []);
      } else {
        TakenPunctual(cfg, s, t, m, [EntryOf(true, ms)]);
      }
    } else {
      var ms := s.sess.volatiles + [m];
      if TotalData(ms) < cfg.maxBytes {
        ArmedGrows(cfg, s.log.entered, s.sess.volatiles, s.sess.volatileDue, m, s.now);
        TakenPunctual(cfg, s, t, m, []);
      } else {
        TakenPunctual(cfg, s, t, m, [EntryOf(true, ms)]);
      }
    }
  }

  lemma ArrivePunctual(cfg: Config, s: State)
    requires Orderly(cfg, s) && Punctual(cfg, s) && Enabled(cfg, s, Arrive)
    ensures Punctual(cfg, ArriveStep(cfg, s))
  {
    var m := s.inbox[0];
    Restamp(cfg, s);
    OnArrivalPunctual(cfg, s.(inbox := s.inbox[1..],
                              log := s.log.(arrived := s.log.arrived + [m], entered := s.log.entered[m.id := s.now])), m);
  }

  /** Events that move no message past the channel; time may pass. */
  lemma QuietPunctual(cfg: Config, s: State, t: State)
    requires Punctual(cfg, s) && s.now <= t.now && t.buffer == s.buffer && t.sess == s.sess
    requires t.log.entered == s.log.entered && (t.log.written == s.log.written || t.log.written == [])
    ensures Punctual(cfg, t)
  {
  }

  lemma FlushPunctual(cfg: Config, s: State)
    requires Punctual(cfg, s)
    ensures Punctual(cfg, FlushDurableStep(s)) && Punctual(cfg, FlushVolatileStep(s))
  {
  }

  lemma ReadPunctual(cfg: Config, s: State, ok: bool)
    requires Punctual(cfg, s)
    ensures Punctual(cfg, ReadStep(cfg, s, ok))
  {
    if s.sess.pending == [] || !ok {
      EndSessionPunctual(cfg, s);
    }
  }

  lemma StepPunctual(cfg: Config, s: State, ev: Event)
    requires Orderly(cfg, s) && Punctual(cfg, s) && Enabled(cfg, s, ev)
    ensures Punctual(cfg, Step(cfg, s, ev))
  {
    match ev
    case WaitArrive => WaitArrivePunctual(cfg, s);
    case Pump(ok) => PumpPunctual(cfg, s, ok);
    case Release(ok) => ReleasePunctual(cfg, s, ok);
    case FlushDurable => FlushPunctual(cfg, s);
    case FlushVolatile => FlushPunctual(cfg, s);
    case Arrive => ArrivePunctual(cfg, s);
    case Read(ok) => ReadPunctual(cfg, s, ok);
    case _ => QuietPunctual(cfg, s, Step(cfg, s, ev));
  }

  lemma {:induction false} ExecPunctual(cfg: Config, s: State, evs: seq<Event>)
    requires Orderly(cfg, s) && Punctual(cfg, s) && Legal(cfg, s, evs)
    ensures Punctual(cfg, Exec(cfg, s, evs))
    decreases |evs|
  {
    if evs != [] {
      StepOrderly(cfg, s, evs[0]);
      StepPunctual(cfg, s, evs[0]);
      ExecPunctual(cfg, Step(cfg, s, evs[0]), evs[1..]);
    }
  }

  /** A flush timer is set exactly while its coalescer is non-empty, for the arrival of the oldest
      message plus the maximum delay; the coalescer is below the size cap; release times never
      decrease along the delay queue; and what is written reached the connection at least the fixed
      latency ago. */
  ghost predicate OnTime(cfg: Config, s: State) {
    && Armed(cfg, s.log.entered, s.sess.durables, s.sess.durableDue)
    && Armed(cfg, s.log.entered, s.sess.volatiles, s.sess.volatileDue)
    && (forall i, j :: 0 <= i < j < |s.sess.delay| ==> s.sess.delay[i].release <= s.sess.delay[j].release)
    && AllStamped(s.log.entered, s.log.written, cfg.latency, s.now)
  }

  lemma PunctualIsOnTime(cfg: Config, s: State)
    requires Punctual(cfg, s)
    ensures OnTime(cfg, s)
  {
  }

  /** Every run is on time. */
  lemma TimersArePunctual(cfg: Config, drop: Option<nat>, evs: seq<Event>)
    requires Legal(cfg, Init(drop), evs)
    ensures OnTime(cfg, Exec(cfg, Init(drop), evs))
  {
    ExecPunctual(cfg, Init(drop), evs);
    PunctualIsOnTime(cfg, Exec(cfg, Init(drop), evs));
  }
}

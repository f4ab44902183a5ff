/** What every event of a connection keeps: well-formed entries and the conservation of messages. */
module Conservation {
  import opened Seqs
  import opened Transport

  predicate AllDurable(ms: seq<Msg>) {
    forall m :: m in ms ==> m.cls.Durable?
  }

  predicate AllVolatile(ms: seq<Msg>) {
    forall m :: m in ms ==> m.cls.Volatile?
  }

  /** An entry carries one class, and its real fields are those of the messages it stands for. */
  predicate Sound(cfg: Config, e: Entry) {
    && e.msgs != []
    && (cfg.batched || |e.msgs| == 1)
    && (AllDurable(e.msgs) || AllVolatile(e.msgs) || (|e.msgs| == 1 && e.msgs[0].cls.Detached?))
    && e == EntryOf(cfg.batched, e.msgs)
  }

  predicate AllSound(cfg: Config, es: seq<Entry>) {
    forall e :: e in es ==> Sound(cfg, e)
  }

  /** Discarding is justified: there was a reply target and every reply target is closed. */
  predicate Cancelled(closed: set<nat>, es: seq<Entry>) {
    forall e :: e in es ==> AllClosed(e.replies, closed)
  }

  predicate NoneKeyed(es: seq<Entry>) {
    forall e :: e in es ==> e.key.None?
  }

  ghost predicate Shape(cfg: Config, s: State) {
    && AllSound(cfg, s.buffer) && AllSound(cfg, s.sess.pending) && AllSound(cfg, Entries(s.sess.delay))
    && AllSound(cfg, s.log.acked) && AllSound(cfg, s.log.discarded) && AllSound(cfg, s.log.written)
    && AllDurable(s.sess.durables) && AllVolatile(s.sess.volatiles) && AllVolatile(s.log.lost)
    && (!cfg.batched ==> s.sess.durables == [] && s.sess.volatiles == [])
    && (cfg.latency == 0 ==> s.sess.delay == [])
    && (s.phase != Up ==> s.sess == NO_SESSION && NoneKeyed(s.buffer))
    && Cancelled(s.closed, s.log.discarded)
  }

  // ---- Entries ---------------------------------------------------------------------------

  lemma {:induction false} DurableFields(ms: seq<Msg>)
    requires ms != [] && AllDurable(ms)
    ensures Replies(ms) != [] && MinKey(ms) == None
  {
    if |ms| > 1 {
      DurableFields(ms[1..]);
    }
  }

  lemma {:induction false} VolatileFields(ms: seq<Msg>)
    requires ms != [] && AllVolatile(ms)
    ensures Replies(ms) == [] && MinKey(ms).Some?
  {
    if |ms| > 1 {
      VolatileFields(ms[1..]);
    }
  }

  /** A key marks exactly the volatile entries; only an entry of durable messages can be cancelled. */
  lemma SoundFields(cfg: Config, e: Entry, closed: set<nat>)
    requires Sound(cfg, e)
    ensures e.key.Some? <==> AllVolatile(e.msgs)
    ensures e.key.None? ==> forall m :: m in e.msgs ==> !m.cls.Volatile?
    ensures AllClosed(e.replies, closed) ==> AllDurable(e.msgs) && e.key.None?
  {
    var m := e.msgs[0];
    assert m in e.msgs;
    if AllDurable(e.msgs) {
      DurableFields(e.msgs);
    } else if AllVolatile(e.msgs) {
      VolatileFields(e.msgs);
    } else {
      assert Replies(e.msgs) == Replies(e.msgs[1..]) == [];
      assert MinKey(e.msgs) == MinKey(e.msgs[1..]) == None;
    }
  }

  lemma SoundBundle(cfg: Config, ms: seq<Msg>)
    requires ms != [] && (AllDurable(ms) || AllVolatile(ms)) && cfg.batched
    ensures Sound(cfg, EntryOf(true, ms))
  {
  }

  lemma SoundSingle(cfg: Config, m: Msg)
    ensures Sound(cfg, EntryOf(cfg.batched, [m]))
  {
  }

  lemma KeepSound(cfg: Config, es: seq<Entry>, p: Entry -> bool)
    requires AllSound(cfg, es)
    ensures AllSound(cfg, Keep(es, p))
  {
    forall e | e in Keep(es, p) ensures Sound(cfg, e) {
      KeepMember(es, p, e);
    }
  }

  lemma {:induction false} FlatMember(es: seq<Entry>, m: Msg)
    ensures m in Flat(es) <==> exists e :: e in es && m in e.msgs
  {
    if es != [] {
      FlatMember(es[1..], m);
      assert es == [es[0]] + es[1..];
    }
  }

  // ---- The shape is an invariant ---------------------------------------------------------

  /** `t` is `s` after its session was lost. */
  ghost predicate Lost(s: State, t: State) {
    var queued := Entries(s.sess.delay) + s.sess.pending + s.buffer;
    && t.now == s.now && t.phase == Idle && t.sess == NO_SESSION && t.inbox == s.inbox && t.closed == s.closed
    && t.buffer == Flushed(s.sess.durables) + Keep(queued, IsUnkeyed())
    && t.log.lost == s.log.lost + Flat(Keep(queued, IsKeyed())) + s.sess.volatiles
    && t.log.sent == s.log.sent && t.log.acked == s.log.acked && t.log.discarded == s.log.discarded
    && t.log.entered == s.log.entered && t.log.written == [] && t.log.acks == 0
  }

  lemma EndSessionLoses(cfg: Config, s: State)
    ensures Lost(s, EndSession(cfg, s))
  {
  }

  lemma LostShape(cfg: Config, s: State, t: State)
    requires Shape(cfg, s) && Lost(s, t)
    ensures Shape(cfg, t)
  {
    var queued := Entries(s.sess.delay) + s.sess.pending + s.buffer;
    assert AllSound(cfg, queued);
    KeptShape(cfg, queued);
    DroppedShape(cfg, queued);
    FlushedShape(cfg, s.sess.durables);
    assert Entries([]) == [];
  }

  lemma FlushedShape(cfg: Config, ms: seq<Msg>)
    requires AllDurable(ms) && (!cfg.batched ==> ms == [])
    ensures AllSound(cfg, Flushed(ms)) && NoneKeyed(Flushed(ms))
  {
    if ms != [] {
      SoundBundle(cfg, ms);
      DurableFields(ms);
    }
  }

  lemma EndSessionShape(cfg: Config, s: State)
    requires Shape(cfg, s)
    ensures Shape(cfg, EndSession(cfg, s))
  {
    EndSessionLoses(cfg, s);
    LostShape(cfg, s, EndSession(cfg, s));
  }

  lemma KeptShape(cfg: Config, queued: seq<Entry>)
    requires AllSound(cfg, queued)
    ensures AllSound(cfg, Keep(queued, IsUnkeyed())) && NoneKeyed(Keep(queued, IsUnkeyed()))
  {
    KeepSound(cfg, queued, IsUnkeyed());
    forall e | e in Keep(queued, IsUnkeyed()) ensures e.key.None? {
      KeepMember(queued, IsUnkeyed(), e);
    }
  }

  lemma DroppedShape(cfg: Config, queued: seq<Entry>)
    requires AllSound(cfg, queued)
    ensures AllVolatile(Flat(Keep(queued, IsKeyed())))
  {
    var dropped := Keep(queued, IsKeyed());
    forall m | m in Flat(dropped) ensures m.cls.Volatile? {
      FlatMember(dropped, m);
      var e :| e in dropped && m in e.msgs;
      KeepMember(queued, IsKeyed(), e);
      SoundFields(cfg, e, {});
    }
  }

  lemma WaitArriveShape(cfg: Config, s: State)
    requires Shape(cfg, s) && s.phase == Waiting && s.inbox != []
    ensures Shape(cfg, WaitArriveStep(cfg, s))
  {
    var m := s.inbox[0];
    if !m.cls.Volatile? {
      var newest := EntryOf(cfg.batched, [m]);
      SoundSingle(cfg, m);
      SoundFields(cfg, newest, s.closed);
      var queued := s.buffer + [newest];
      KeepSound(cfg, queued, IsOpen(s.closed));
      KeepSound(cfg, queued, IsShut(s.closed));
      forall e | e in Keep(queued, IsOpen(s.closed)) ensures e.key.None? {
        KeepMember(queued, IsOpen(s.closed), e);
        assert m in newest.msgs;
      }
      forall e | e in Keep(queued, IsShut(s.closed)) ensures AllClosed(e.replies, s.closed) {
        KeepMember(queued, IsShut(s.closed), e);
      }
    }
  }

  lemma PumpShape(cfg: Config, s: State, ok: bool)
    requires Shape(cfg, s) && Enabled(cfg, s, Pump(ok))
    ensures Shape(cfg, PumpStep(cfg, s, ok))
  {
    var e, s' := s.buffer[0], s.(buffer := s.buffer[1..]);
    assert Shape(cfg, s');
    if !AllClosed(e.replies, s.closed) {
      if cfg.latency > 0 {
        EntriesConcat(s.sess.delay, [Timed(s.now + cfg.latency, e)]);
      } else if !ok {
        EndSessionShape(cfg, s'.(buffer := [e] + s'.buffer));
      }
    }
  }

  lemma ReleaseShape(cfg: Config, s: State, ok: bool)
    requires Shape(cfg, s) && Enabled(cfg, s, Release(ok))
    ensures Shape(cfg, ReleaseStep(cfg, s, ok))
  {
    var e, s' := s.sess.delay[0].entry, s.(sess := s.sess.(delay := s.sess.delay[1..]));
    assert e == Entries(s.sess.delay)[0];
    assert Entries(s'.sess.delay) == Entries(s.sess.delay)[1..];
    assert Shape(cfg, s');
    if !AllClosed(e.replies, s.closed) && !ok {
      EndSessionShape(cfg, s'.(buffer := [e] + s'.buffer));
    }
  }

  /** Taking in one message: one more sound entry, or one more message in its coalescer. */
  lemma TakenShape(cfg: Config, s: State, t: State, front: seq<Entry>)
    requires Shape(cfg, s) && s.phase == Up && t.phase == Up && t.closed == s.closed
    requires AllSound(cfg, front) && t.buffer == s.buffer + front
    requires t.log.acked == s.log.acked && t.log.discarded == s.log.discarded
    requires t.log.lost == s.log.lost && t.log.written == s.log.written
    requires t.sess.pending == s.sess.pending && t.sess.delay == s.sess.delay
    requires AllDurable(t.sess.durables) && AllVolatile(t.sess.volatiles)
    requires !cfg.batched ==> t.sess.durables == [] && t.sess.volatiles == []
    ensures Shape(cfg, t)
  {
  }

  lemma ArriveShape(cfg: Config, s: State)
    requires Shape(cfg, s) && Enabled(cfg, s, Arrive)
    ensures Shape(cfg, ArriveStep(cfg, s))
  {
    var m, t := s.inbox[0], ArriveStep(cfg, s);
    SoundSingle(cfg, m);
    if cfg.batched && m.cls.Durable? {
      SoundBundle(cfg, s.sess.durables + [m]);
    } else if cfg.batched && m.cls.Volatile? {
      SoundBundle(cfg, s.sess.volatiles + [m]);
    }
    var front := t.buffer[|s.buffer|..];
    assert t.buffer == s.buffer + front;
    TakenShape(cfg, s, t, front);
  }

  /** Events that touch no entry. */
  lemma QuietShape(cfg: Config, s: State, t: State)
    requires Shape(cfg, s) && t.buffer == s.buffer && s.closed <= t.closed && AllVolatile(t.log.lost)
    requires t.log.acked == s.log.acked && t.log.discarded == s.log.discarded
    requires t.sess == s.sess && t.log.written == s.log.written && (t.phase != Up ==> s.phase != Up)
    ensures Shape(cfg, t)
  {
  }

  lemma ConnectShape(cfg: Config, s: State)
    requires Shape(cfg, s) && s.phase == Idle
    ensures Shape(cfg, ConnectStep(s))
  {
    assert Entries([]) == [];
  }

  lemma ReadShape(cfg: Config, s: State, ok: bool)
    requires Shape(cfg, s) && s.phase == Up
    ensures Shape(cfg, ReadStep(cfg, s, ok))
  {
    if s.sess.pending == [] || !ok {
      EndSessionShape(cfg, s);
    }
  }

  lemma StepShape(cfg: Config, s: State, ev: Event)
    requires Shape(cfg, s) && Enabled(cfg, s, ev)
    ensures Shape(cfg, Step(cfg, s, ev))
  {
    match ev
    case WaitArrive => WaitArriveShape(cfg, s);
    case Pump(ok) => PumpShape(cfg, s, ok);
    case Release(ok) => ReleaseShape(cfg, s, ok);
    case FlushDurable =>
      SoundBundle(cfg, s.sess.durables);
      TakenShape(cfg, s, Step(cfg, s, ev), [EntryOf(true, s.sess.durables)]);
    case FlushVolatile =>
      SoundBundle(cfg, s.sess.volatiles);
      TakenShape(cfg, s, Step(cfg, s, ev), [EntryOf(true, s.sess.volatiles)]);
    case Arrive => ArriveShape(cfg, s);
    case Read(ok) => ReadShape(cfg, s, ok);
    case Connect => ConnectShape(cfg, s);
    case _ => QuietShape(cfg, s, Step(cfg, s, ev));
  }

  // ---- Conservation ----------------------------------------------------------------------

  /** How often `m` occurs in a list of messages. */
  function Count(ms: seq<Msg>, m: Msg): nat {
    if ms == [] then 0 else (if ms[0] == m then 1 else 0) + Count(ms[1..], m)
  }

  lemma {:induction false} CountConcat(xs: seq<Msg>, ys: seq<Msg>, m: Msg)
    ensures Count(xs + ys, m) == Count(xs, m) + Count(ys, m)
  {
    if xs == [] {
      assert xs + ys == ys;
    } else {
      assert (xs + ys)[1..] == xs[1..] + ys;
      CountConcat(xs[1..], ys, m);
    }
  }

  lemma CountAppend(xs: seq<Msg>, x: Msg, m: Msg)
    ensures Count(xs + [x], m) == Count(xs, m) + (if x == m then 1 else 0)
    ensures Count([x], m) == if x == m then 1 else 0
  {
    CountConcat(xs, [x], m);
    assert Count([x], m) == (if x == m then 1 else 0) + Count([x][1..], m);
  }

  lemma {:induction false} CountIn(ms: seq<Msg>, m: Msg)
    ensures Count(ms, m) > 0 <==> m in ms
  {
    if ms != [] {
      assert ms == [ms[0]] + ms[1..];
      CountIn(ms[1..], m);
    }
  }

  /** How often `m` occurs in a list of entries. */
  function Within(es: seq<Entry>, m: Msg): nat {
    if es == [] then 0 else Count(es[0].msgs, m) + Within(es[1..], m)
  }

  lemma {:induction false} WithinConcat(xs: seq<Entry>, ys: seq<Entry>, m: Msg)
    ensures Within(xs + ys, m) == Within(xs, m) + Within(ys, m)
  {
    if xs == [] {
      assert xs + ys == ys;
    } else {
      assert (xs + ys)[1..] == xs[1..] + ys;
      WithinConcat(xs[1..], ys, m);
    }
  }

  lemma WithinOne(e: Entry, m: Msg)
    ensures Within([e], m) == Count(e.msgs, m)
  {
    assert Within([e], m) == Count(e.msgs, m) + Within([e][1..], m);
  }

  /** Dropping or appending one entry. */
  lemma WithinEnds(es: seq<Entry>, e: Entry, m: Msg)
    ensures es != [] ==> Within(es, m) == Count(es[0].msgs, m) + Within(es[1..], m)
    ensures Within(es + [e], m) == Within(es, m) + Count(e.msgs, m)
  {
    WithinConcat(es, [e], m);
    WithinOne(e, m);
  }

  lemma {:induction false} WithinIsFlat(es: seq<Entry>, m: Msg)
    ensures Within(es, m) == Count(Flat(es), m)
  {
    if es != [] {
      WithinIsFlat(es[1..], m);
      CountConcat(es[0].msgs, Flat(es[1..]), m);
    }
  }

  lemma {:induction false} WithinSplits(es: seq<Entry>, p: Entry -> bool, q: Entry -> bool, m: Msg)
    requires forall e :: e in es ==> p(e) != q(e)
    ensures Within(Keep(es, p), m) + Within(Keep(es, q), m) == Within(es, m)
  {
    if es != [] {
      WithinSplits(es[1..], p, q, m);
    }
  }

  /** Copies of `m` still inside the connection, container by container. */
  function Held(s: State, m: Msg): nat {
    Count(s.inbox, m) + Within(s.buffer, m) + Within(s.sess.pending, m) + Within(Entries(s.sess.delay), m)
    + Count(s.sess.durables, m) + Count(s.sess.volatiles, m)
  }

  /** Copies of `m` the connection is done with: acknowledged, cancelled, or lost. */
  function Settled(s: State, m: Msg): nat {
    Within(s.log.acked, m) + Within(s.log.discarded, m) + Count(s.log.lost, m)
  }

  /** Every message handed to the sender is in exactly one place, as often as it was handed over. */
  ghost predicate Conserved(s: State) {
    forall m :: Count(s.log.sent, m) == Held(s, m) + Settled(s, m)
  }

  /** Copies of `m` in any place. */
  function Total(s: State, m: Msg): nat {
    Held(s, m) + Settled(s, m)
  }

  lemma WithinThree(x: seq<Entry>, y: seq<Entry>, z: seq<Entry>, m: Msg)
    ensures Within(x + y + z, m) == Within(x, m) + Within(y, m) + Within(z, m)
  {
    WithinConcat(x + y, z, m);
    WithinConcat(x, y, m);
  }

  lemma CountThree(x: seq<Msg>, y: seq<Msg>, z: seq<Msg>, m: Msg)
    ensures Count(x + y + z, m) == Count(x, m) + Count(y, m) + Count(z, m)
  {
    CountConcat(x + y, z, m);
    CountConcat(x, y, m);
  }

  /** What a session held goes back to the buffer or is lost. */
  lemma RequeueKeeps(queued: seq<Entry>, durables: seq<Msg>, volatiles: seq<Msg>, lost: seq<Msg>, m: Msg)
    ensures
      Within(Flushed(durables) + Keep(queued, IsUnkeyed()), m)
        + Count(lost + Flat(Keep(queued, IsKeyed())) + volatiles, m)
      == Within(queued, m) + Count(durables, m) + Count(volatiles, m) + Count(lost, m)
  {
    var kept, dropped := Keep(queued, IsUnkeyed()), Keep(queued, IsKeyed());
    WithinSplits(queued, IsUnkeyed(), IsKeyed(), m);
    WithinConcat(Flushed(durables), kept, m);
    WithinOne(EntryOf(true, durables), m);
    WithinIsFlat(dropped, m);
    CountThree(lost, Flat(dropped), volatiles, m);
  }

  lemma LossKeeps(s: State, t: State, m: Msg)
    requires t.sess == NO_SESSION && t.inbox == s.inbox
    requires t.log.acked == s.log.acked && t.log.discarded == s.log.discarded
    requires Within(t.buffer, m) + Count(t.log.lost, m)
          == Within(Entries(s.sess.delay), m) + Within(s.sess.pending, m) + Within(s.buffer, m)
             + Count(s.sess.durables, m) + Count(s.sess.volatiles, m) + Count(s.log.lost, m)
    ensures Total(t, m) == Total(s, m)
  {
    assert Entries([]) == [];
  }

  lemma LostKeeps(s: State, t: State, m: Msg)
    requires Lost(s, t)
    ensures Total(t, m) == Total(s, m)
  {
    var d, p, b := Entries(s.sess.delay), s.sess.pending, s.buffer;
    WithinThree(d, p, b, m);
    RequeueKeeps(d + p + b, s.sess.durables, s.sess.volatiles, s.log.lost, m);
    LossKeeps(s, t, m);
  }

  lemma EndSessionKeeps(cfg: Config, s: State, m: Msg)
    ensures Total(EndSession(cfg, s), m) == Total(s, m)
  {
    EndSessionLoses(cfg, s);
    LostKeeps(s, EndSession(cfg, s), m);
  }

  lemma WaitArriveKeeps(cfg: Config, s: State, m: Msg)
    requires s.inbox != []
    ensures Total(WaitArriveStep(cfg, s), m) == Total(s, m)
  {
    var x := s.inbox[0];
    if x.cls.Volatile? {
      CountAppend(s.log.lost, x, m);
    } else {
      var newest := EntryOf(cfg.batched, [x]);
      var queued := s.buffer + [newest];
      WithinEnds(s.buffer, newest, m);
      CountAppend([], x, m);
      WithinSplits(queued, IsOpen(s.closed), IsShut(s.closed), m);
      WithinConcat(s.log.discarded, Keep(queued, IsShut(s.closed)), m);
    }
  }

  lemma WrittenKeeps(s: State, e: Entry, m: Msg)
    ensures Held(Written(s, e), m) == Held(s, m) + Count(e.msgs, m)
    ensures Settled(Written(s, e), m) == Settled(s, m)
  {
    WithinEnds(s.sess.pending, e, m);
  }

  lemma DiscardedKeeps(s: State, e: Entry, m: Msg)
    ensures Held(Discarded(s, e), m) == Held(s, m)
    ensures Settled(Discarded(s, e), m) == Settled(s, m) + Count(e.msgs, m)
  {
    WithinEnds(s.log.discarded, e, m);
  }

  lemma PumpKeeps(cfg: Config, s: State, ok: bool, m: Msg)
    requires s.buffer != []
    ensures Total(PumpStep(cfg, s, ok), m) == Total(s, m)
  {
    var e, s' := s.buffer[0], s.(buffer := s.buffer[1..]);
    assert Held(s, m) == Held(s', m) + Count(e.msgs, m);
    if AllClosed(e.replies, s.closed) {
      DiscardedKeeps(s', e, m);
    } else if cfg.latency > 0 {
      var later := [Timed(s.now + cfg.latency, e)];
      EntriesConcat(s.sess.delay, later);
      assert Entries(later) == [e];
      WithinEnds(Entries(s.sess.delay), e, m);
    } else if ok {
      WrittenKeeps(s', e, m);
    } else {
      assert s'.(buffer := [e] + s'.buffer) == s;
      EndSessionKeeps(cfg, s, m);
    }
  }

  lemma ReleaseKeeps(cfg: Config, s: State, ok: bool, m: Msg)
    requires s.sess.delay != []
    ensures Total(ReleaseStep(cfg, s, ok), m) == Total(s, m)
  {
    var e, s' := s.sess.delay[0].entry, s.(sess := s.sess.(delay := s.sess.delay[1..]));
    assert Entries(s.sess.delay)[1..] == Entries(s'.sess.delay);
    assert Held(s, m) == Held(s', m) + Count(e.msgs, m);
    if AllClosed(e.replies, s.closed) {
      DiscardedKeeps(s', e, m);
    } else if ok {
      WrittenKeeps(s', e, m);
    } else {
      var back := s'.(buffer := [e] + s'.buffer);
      WithinConcat([e], s'.buffer, m);
      WithinOne(e, m);
      EndSessionKeeps(cfg, back, m);
    }
  }

  lemma FlushKeeps(s: State, m: Msg)
    ensures Total(FlushDurableStep(s), m) == Total(s, m) && Total(FlushVolatileStep(s), m) == Total(s, m)
  {
    WithinEnds(s.buffer, EntryOf(true, s.sess.durables), m);
    WithinEnds(s.buffer, EntryOf(true, s.sess.volatiles), m);
  }

  /** A message taken from the channel and put in one other place. */
  lemma TakenKeeps(s: State, t: State, x: Msg, m: Msg)
    requires s.inbox != [] && x == s.inbox[0] && t.inbox == s.inbox[1..]
    requires t.sess.pending == s.sess.pending && t.sess.delay == s.sess.delay
    requires t.log.acked == s.log.acked && t.log.discarded == s.log.discarded && t.log.lost == s.log.lost
    requires Within(t.buffer, m) + Count(t.sess.durables, m) + Count(t.sess.volatiles, m)
          == Within(s.buffer, m) + Count(s.sess.durables, m) + Count(s.sess.volatiles, m) + (if x == m then 1 else 0)
    ensures Total(t, m) == Total(s, m)
  {
  }

  lemma ArriveKeeps(cfg: Config, s: State, m: Msg)
    requires s.inbox != []
    ensures Total(ArriveStep(cfg, s), m) == Total(s, m)
  {
    var x, t := s.inbox[0], ArriveStep(cfg, s);
    if x.cls.Detached? || !cfg.batched {
      WithinEnds(s.buffer, EntryOf(cfg.batched, [x]), m);
      CountAppend([], x, m);
    } else if x.cls.Durable? {
      CountAppend(s.sess.durables, x, m);
      WithinEnds(s.buffer, EntryOf(true, s.sess.durables + [x]), m);
    } else {
      CountAppend(s.sess.volatiles, x, m);
      WithinEnds(s.buffer, EntryOf(true, s.sess.volatiles + [x]), m);
    }
    TakenKeeps(s, t, x, m);
  }

  lemma SubmitKeeps(cfg: Config, s: State, x: Msg, m: Msg)
    ensures Total(SubmitStep(cfg, s, x), m) == Total(s, m) + (if x == m then 1 else 0)
  {
    CountAppend(s.inbox, x, m);
    CountAppend(s.log.lost, x, m);
  }

  lemma ReadKeeps(cfg: Config, s: State, ok: bool, m: Msg)
    ensures Total(ReadStep(cfg, s, ok), m) == Total(s, m)
  {
    if s.sess.pending == [] || !ok {
      EndSessionKeeps(cfg, s, m);
    } else {
      WithinEnds(s.log.acked, s.sess.pending[0], m);
    }
  }

  /** Events that move no message. */
  lemma QuietKeeps(s: State, t: State, m: Msg)
    requires t.inbox == s.inbox && t.buffer == s.buffer && t.sess == s.sess
    requires t.log.acked == s.log.acked && t.log.discarded == s.log.discarded && t.log.lost == s.log.lost
    ensures Total(t, m) == Total(s, m)
  {
  }

  lemma StepKeeps(cfg: Config, s: State, ev: Event, m: Msg)
    requires Enabled(cfg, s, ev) && (s.phase != Up ==> s.sess == NO_SESSION)
    ensures Total(Step(cfg, s, ev), m) == Total(s, m) + (if ev == Submit(m) then 1 else 0)
  {
    match ev
    case Submit(x) => SubmitKeeps(cfg, s, x, m);
    case WaitArrive => WaitArriveKeeps(cfg, s, m);
    case Pump(ok) => PumpKeeps(cfg, s, ok, m);
    case Release(ok) => ReleaseKeeps(cfg, s, ok, m);
    case FlushDurable => FlushKeeps(s, m);
    case FlushVolatile => FlushKeeps(s, m);
    case Arrive => ArriveKeeps(cfg, s, m);
    case Read(ok) => ReadKeeps(cfg, s, ok, m);
    case _ => QuietKeeps(s, Step(cfg, s, ev), m);
  }

  lemma StepSent(cfg: Config, s: State, ev: Event)
    requires Enabled(cfg, s, ev)
    ensures Step(cfg, s, ev).log.sent == s.log.sent + (if ev.Submit? then [ev.m] else [])
  {
  }

  /** The invariant of a connection: sound entries, and no message lost or copied. */
  ghost predicate Inv(cfg: Config, s: State) {
    Shape(cfg, s) && Conserved(s)
  }

  lemma StepConserved(cfg: Config, s: State, ev: Event, t: State)
    requires Conserved(s) && Enabled(cfg, s, ev) && (s.phase != Up ==> s.sess == NO_SESSION)
    requires t == Step(cfg, s, ev)
    ensures Conserved(t)
  {
    forall m ensures Count(t.log.sent, m) == Held(t, m) + Settled(t, m) {
      StepKeeps(cfg, s, ev, m);
      StepSent(cfg, s, ev);
      if ev.Submit? {
        CountAppend(s.log.sent, ev.m, m);
      } else {
        assert s.log.sent + [] == s.log.sent;
      }
    }
  }

  lemma StepInv(cfg: Config, s: State, ev: Event)
    requires Inv(cfg, s) && Enabled(cfg, s, ev)
    ensures Inv(cfg, Step(cfg, s, ev))
  {
    StepShape(cfg, s, ev);
    StepConserved(cfg, s, ev, Step(cfg, s, ev));
  }

  lemma {:induction false} ExecInv(cfg: Config, s: State, evs: seq<Event>)
    requires Inv(cfg, s) && Legal(cfg, s, evs)
    ensures Inv(cfg, Exec(cfg, s, evs))
    decreases |evs|
  {
    if evs != [] {
      StepInv(cfg, s, evs[0]);
      ExecInv(cfg, Step(cfg, s, evs[0]), evs[1..]);
    }
  }

  /** Over every run, with any number of failed writes, lost sessions and failed connects: each
      message handed to the sender is held in one container, acknowledged, cancelled by its own
      reply targets, or (volatile only) lost. Detached messages are never discarded. */
  lemma MessagesAreConserved(cfg: Config, drop: Option<nat>, evs: seq<Event>)
    requires Legal(cfg, Init(drop), evs)
    ensures var s := Exec(cfg, Init(drop), evs);
      && (forall m :: Count(s.log.sent, m) == Held(s, m) + Settled(s, m))
      && (forall m :: Count(s.log.lost, m) > 0 ==> m.cls.Volatile?)
      && (forall m :: Within(s.log.discarded, m) > 0 ==> m.cls.Durable? && m.cls.reply in s.closed)
      && (forall e :: e in s.log.discarded ==> AllClosed(e.replies, s.closed))
  {
    ExecInv(cfg, Init(drop), evs);
    var s := Exec(cfg, Init(drop), evs);
    forall m | Count(s.log.lost, m) > 0 ensures m.cls.Volatile? {
      CountIn(s.log.lost, m);
    }
    forall m | Within(s.log.discarded, m) > 0 ensures m.cls.Durable? && m.cls.reply in s.closed {
      WithinIsFlat(s.log.discarded, m);
      CountIn(Flat(s.log.discarded), m);
      FlatMember(s.log.discarded, m);
      var e :| e in s.log.discarded && m in e.msgs;
      SoundFields(cfg, e, s.closed);
      ReplyOf(e.msgs, m);
    }
  }

  lemma {:induction false} ReplyOf(ms: seq<Msg>, m: Msg)
    requires m in ms && m.cls.Durable?
    ensures m.cls.reply in Replies(ms)
  {
    if m != ms[0] {
      ReplyOf(ms[1..], m);
    }
  }

  /** A durable or detached message is never lost: until it is acknowledged, or all reply targets
      of the entry that carries it close, some container holds it. */
  lemma DurableIsNeverLost(cfg: Config, drop: Option<nat>, evs: seq<Event>, m: Msg)
    requires Legal(cfg, Init(drop), evs)
    requires var s := Exec(cfg, Init(drop), evs);
      m in s.log.sent && !m.cls.Volatile? && Within(s.log.acked, m) == 0
    requires m.cls.Durable? ==> m.cls.reply !in Exec(cfg, Init(drop), evs).closed
    ensures Held(Exec(cfg, Init(drop), evs), m) > 0
  {
    MessagesAreConserved(cfg, drop, evs);
    CountIn(Exec(cfg, Init(drop), evs).log.sent, m);
  }
}

/** Order of messages per class within a session, and what it rests on. */
module Order {
  import opened Seqs
  import opened Transport
  import opened Conservation

  // ---- Every message is handed over once -------------------------------------------------

  /** Ids are positions in the submission history. */
  ghost predicate Numbered(s: State) {
    forall i :: 0 <= i < |s.log.sent| ==> s.log.sent[i].id == i
  }

  lemma StepNumbered(cfg: Config, s: State, ev: Event)
    requires Numbered(s) && Enabled(cfg, s, ev)
    ensures Numbered(Step(cfg, s, ev))
  {
    StepSent(cfg, s, ev);
  }

  lemma {:induction false} DistinctCounts(ms: seq<Msg>, m: Msg)
    requires Distinct(ms)
    ensures Count(ms, m) <= 1
  {
    if ms != [] {
      assert ms == [ms[0]] + ms[1..];
      DistinctParts([ms[0]], ms[1..]);
      assert ms[0] in [ms[0]];
      CountIn(ms[1..], m);
      DistinctCounts(ms[1..], m);
    }
  }

  lemma {:induction false} CountsDistinct(ms: seq<Msg>)
    requires forall m :: Count(ms, m) <= 1
    ensures Distinct(ms)
  {
    if ms != [] {
      var x, rest := ms[0], ms[1..];
      forall m ensures Count(rest, m) <= 1 {
        assert Count(ms, m) <= 1;
      }
      CountsDistinct(rest);
      assert Count(ms, x) <= 1;
      CountIn(rest, x);
      assert forall j :: 0 < j < |ms| ==> ms[j] == rest[j - 1];
    }
  }

  lemma SentOnce(s: State, m: Msg)
    requires Numbered(s)
    ensures Count(s.log.sent, m) <= 1
  {
    DistinctCounts(s.log.sent, m);
  }

  // ---- The session ledger ----------------------------------------------------------------

  /** The frames of this session are the acknowledged ones followed by the pending ones. */
  ghost predicate Ledger(s: State) {
    && s.log.acks <= |s.log.acked|
    && s.log.written == s.log.acked[|s.log.acked| - s.log.acks..] + s.sess.pending
  }

  lemma WrittenLedger(s: State, e: Entry)
    requires Ledger(s)
    ensures Ledger(Written(s, e))
  {
  }

  lemma PumpLedger(cfg: Config, s: State, ok: bool)
    requires Ledger(s) && s.buffer != []
    ensures Ledger(PumpStep(cfg, s, ok))
  {
    WrittenLedger(s.(buffer := s.buffer[1..]), s.buffer[0]);
  }

  lemma ReleaseLedger(cfg: Config, s: State, ok: bool)
    requires Ledger(s) && s.sess.delay != []
    ensures Ledger(ReleaseStep(cfg, s, ok))
  {
    WrittenLedger(s.(sess := s.sess.(delay := s.sess.delay[1..])), s.sess.delay[0].entry);
  }

  lemma ReadLedger(cfg: Config, s: State, ok: bool)
    requires Ledger(s)
    ensures Ledger(ReadStep(cfg, s, ok))
  {
    if s.sess.pending != [] && ok {
      var acked := s.log.acked + [s.sess.pending[0]];
      assert acked[|acked| - (s.log.acks + 1)..] == s.log.acked[|s.log.acked| - s.log.acks..] + [s.sess.pending[0]];
    }
  }

  lemma StepLedger(cfg: Config, s: State, ev: Event)
    requires Ledger(s) && Enabled(cfg, s, ev) && (s.phase != Up ==> s.sess == NO_SESSION)
    ensures Ledger(Step(cfg, s, ev))
  {
    match ev
    case Pump(ok) => PumpLedger(cfg, s, ok);
    case Release(ok) => ReleaseLedger(cfg, s, ok);
    case Read(ok) => ReadLedger(cfg, s, ok);
    case _ =>
      var t := Step(cfg, s, ev);
      assert ev != Connect ==> t.log.acked == s.log.acked && t.log.acks == s.log.acks;
      assert ev != Connect ==> t.log.written == s.log.written && t.sess.pending == s.sess.pending;
  }

  /** Everything the order theorems rest on. */
  ghost predicate Orderly(cfg: Config, s: State) {
    Inv(cfg, s) && Numbered(s) && Ledger(s)
  }

  lemma StepOrderly(cfg: Config, s: State, ev: Event)
    requires Orderly(cfg, s) && Enabled(cfg, s, ev)
    ensures Orderly(cfg, Step(cfg, s, ev))
  {
    StepInv(cfg, s, ev);
    StepNumbered(cfg, s, ev);
    StepLedger(cfg, s, ev);
  }

  // ---- Removing cancelled entries --------------------------------------------------------

  /** Messages of cancelled entries. */
  function Gone(s: State): set<Msg> {
    ToSet(Flat(s.log.discarded))
  }

  /** Filtering a line that already is a filtered history filters the history further. */
  lemma FilterLine(line: seq<Msg>, history: seq<Msg>, gone: set<Msg>, more: set<Msg>, p: Msg -> bool)
    requires Keep(line, p) == Keep(Keep(history, p), NotIn(gone))
    ensures Keep(Keep(line, NotIn(more)), p) == Keep(Keep(history, p), NotIn(gone + more))
  {
    KeepCommutes(line, NotIn(more), p);
    KeepNotInTwice(Keep(history, p), gone, more);
  }

  /** Taking one entry's messages out of a line of distinct messages filters the line. */
  lemma RemoveEntry(before: seq<Msg>, e: Entry, after: seq<Msg>, history: seq<Msg>, gone: set<Msg>, p: Msg -> bool)
    requires Distinct(before + e.msgs + after)
    requires Keep(before + e.msgs + after, p) == Keep(Keep(history, p), NotIn(gone))
    ensures Keep(before + after, p) == Keep(Keep(history, p), NotIn(gone + ToSet(e.msgs)))
  {
    KeepDropsSegment(before, e.msgs, after);
    FilterLine(before + e.msgs + after, history, gone, ToSet(e.msgs), p);
  }

  lemma GoneGrows(s: State, e: Entry)
    ensures Gone(Discarded(s, e)) == Gone(s) + ToSet(e.msgs)
  {
    FlatConcat(s.log.discarded, [e]);
    FlatOne(e);
  }

  // ---- Arrival order within a session ----------------------------------------------------

  datatype Lane = DurableLane | DetachedLane | VolatileLane

  function LaneOf(m: Msg): Lane {
    match m.cls
    case Durable(_) => DurableLane
    case Detached(_) => DetachedLane
    case Volatile(_) => VolatileLane
  }

  function InLane(lane: Lane): Msg -> bool {
    m => LaneOf(m) == lane
  }

  /** This session's frames, then what is scheduled and buffered. */
  function Head(s: State): seq<Msg> {
    Flat(s.log.written) + Flat(Entries(s.sess.delay)) + Flat(s.buffer)
  }

  /** The head, then what is coalescing. */
  function Line(s: State): seq<Msg> {
    Head(s) + s.sess.durables + s.sess.volatiles
  }

  /** In every class, the line is what the session started with and received, in that order,
      without the messages of cancelled entries. */
  ghost predicate LaneInOrder(s: State, lane: Lane) {
    s.phase == Up ==>
      Keep(Line(s), InLane(lane)) == Keep(Keep(s.log.start + s.log.arrived, InLane(lane)), NotIn(Gone(s)))
  }

  lemma {:induction false} WithinSuffix(es: seq<Entry>, k: nat, m: Msg)
    requires k <= |es|
    ensures Within(es[k..], m) <= Within(es, m)
  {
    WithinConcat(es[..k], es[k..], m);
    assert es[..k] + es[k..] == es;
  }

  lemma LineCount(s: State, m: Msg)
    ensures Count(Line(s), m) == Within(s.log.written, m) + Within(Entries(s.sess.delay), m) + Within(s.buffer, m)
                                 + Count(s.sess.durables, m) + Count(s.sess.volatiles, m)
  {
    var w, d, b := Flat(s.log.written), Flat(Entries(s.sess.delay)), Flat(s.buffer);
    CountConcat(w + d + b + s.sess.durables, s.sess.volatiles, m);
    CountConcat(w + d + b, s.sess.durables, m);
    CountConcat(w + d, b, m);
    CountConcat(w, d, m);
    WithinIsFlat(s.log.written, m);
    WithinIsFlat(Entries(s.sess.delay), m);
    WithinIsFlat(s.buffer, m);
  }

  lemma LineDistinct(cfg: Config, s: State)
    requires Orderly(cfg, s)
    ensures Distinct(Line(s))
  {
    forall m ensures Count(Line(s), m) <= 1 {
      LineCount(s, m);
      SentOnce(s, m);
      var k := |s.log.acked| - s.log.acks;
      WithinConcat(s.log.acked[k..], s.sess.pending, m);
      WithinSuffix(s.log.acked, k, m);
      assert Count(s.log.sent, m) == Held(s, m) + Settled(s, m);
    }
    CountsDistinct(Line(s));
  }

  lemma NotGone(cfg: Config, s: State, m: Msg)
    requires Orderly(cfg, s) && Held(s, m) > 0
    ensures m !in Gone(s)
  {
    SentOnce(s, m);
    assert Count(s.log.sent, m) == Held(s, m) + Settled(s, m);
    WithinIsFlat(s.log.discarded, m);
    CountIn(Flat(s.log.discarded), m);
  }

  /** Moving an entry between the buffer, the delay queue and the writer leaves the line alone. */
  lemma DelayedLine(s: State, t: State)
    requires s.buffer != [] && t.buffer == s.buffer[1..] && Entries(t.sess.delay) == Entries(s.sess.delay) + [s.buffer[0]]
    requires t.log.written == s.log.written && t.sess.durables == s.sess.durables && t.sess.volatiles == s.sess.volatiles
    ensures Line(t) == Line(s)
  {
    FlatPasses(Flat(s.log.written), Entries(s.sess.delay), s.buffer);
  }

  lemma WrittenLine(s: State, t: State)
    requires s.buffer != [] && t.buffer == s.buffer[1..] && s.sess.delay == [] && t.sess.delay == []
    requires t.log.written == s.log.written + [s.buffer[0]]
    requires t.sess.durables == s.sess.durables && t.sess.volatiles == s.sess.volatiles
    ensures Line(t) == Line(s)
  {
    var w, m, b := Flat(s.log.written), s.buffer[0].msgs, Flat(t.buffer);
    FlatSnoc(s.log.written, s.buffer[0]);
    assert Entries([]) == [];
    NothingDelayed(w, m, b);
  }

  lemma NothingDelayed(w: seq<Msg>, m: seq<Msg>, b: seq<Msg>)
    ensures w + m + [] + b == w + [] + (m + b)
  {
  }

  lemma ReleasedLine(s: State, t: State)
    requires s.sess.delay != [] && t.sess.delay == s.sess.delay[1..] && t.buffer == s.buffer
    requires t.log.written == s.log.written + [s.sess.delay[0].entry]
    requires t.sess.durables == s.sess.durables && t.sess.volatiles == s.sess.volatiles
    ensures Line(t) == Line(s)
  {
    var d := Entries(s.sess.delay);
    assert Entries(t.sess.delay) == d[1..] && d[0] == s.sess.delay[0].entry;
    FlatSnoc(s.log.written, d[0]);
    Append(Flat(s.log.written), d[0].msgs, Flat(d[1..]));
  }

  lemma MovedLane(s: State, t: State, lane: Lane)
    requires LaneInOrder(s, lane) && t.phase == s.phase && Line(t) == Line(s)
    requires t.log.discarded == s.log.discarded && t.log.start == s.log.start && t.log.arrived == s.log.arrived
    ensures LaneInOrder(t, lane)
  {
  }

  /** Cancelling one entry of the line. */
  lemma CancelledLane(cfg: Config, s: State, t: State, before: seq<Msg>, e: Entry, after: seq<Msg>, lane: Lane)
    requires Orderly(cfg, s) && LaneInOrder(s, lane) && s.phase == Up
    requires Line(s) == before + e.msgs + after && Line(t) == before + after
    requires t.log.discarded == s.log.discarded + [e] && t.log.start == s.log.start && t.log.arrived == s.log.arrived
    ensures LaneInOrder(t, lane)
  {
    LineDistinct(cfg, s);
    RemoveEntry(before, e, after, s.log.start + s.log.arrived, Gone(s), InLane(lane));
    GoneGrows(s, e);
  }

  lemma CancelBufferedLane(cfg: Config, s: State, t: State, lane: Lane)
    requires Orderly(cfg, s) && LaneInOrder(s, lane) && s.phase == Up && s.buffer != []
    requires t == Discarded(s.(buffer := s.buffer[1..]), s.buffer[0])
    ensures LaneInOrder(t, lane)
  {
    var x, y := Flat(s.log.written) + Flat(Entries(s.sess.delay)), s.sess.durables + s.sess.volatiles;
    FlatWithoutFirst(x, s.buffer, y);
    Append(x + Flat(s.buffer), s.sess.durables, s.sess.volatiles);
    Append(x + Flat(t.buffer), s.sess.durables, s.sess.volatiles);
    CancelledLane(cfg, s, t, x, s.buffer[0], Flat(t.buffer) + y, lane);
  }

  lemma CancelDelayedLane(cfg: Config, s: State, t: State, lane: Lane)
    requires Orderly(cfg, s) && LaneInOrder(s, lane) && s.phase == Up && s.sess.delay != []
    requires t == Discarded(s.(sess := s.sess.(delay := s.sess.delay[1..])), s.sess.delay[0].entry)
    ensures LaneInOrder(t, lane)
  {
    var d := Entries(s.sess.delay);
    assert Entries(t.sess.delay) == d[1..] && d[0] == s.sess.delay[0].entry;
    var x, y := Flat(s.log.written), Flat(s.buffer) + (s.sess.durables + s.sess.volatiles);
    FlatWithoutFirst(x, d, y);
    AppendThree(x + Flat(d), Flat(s.buffer), s.sess.durables, s.sess.volatiles);
    AppendThree(x + Flat(d[1..]), Flat(s.buffer), s.sess.durables, s.sess.volatiles);
    CancelledLane(cfg, s, t, x, d[0], Flat(d[1..]) + y, lane);
  }

  lemma PumpLane(cfg: Config, s: State, ok: bool, lane: Lane)
    requires Orderly(cfg, s) && LaneInOrder(s, lane) && Enabled(cfg, s, Pump(ok))
    ensures LaneInOrder(PumpStep(cfg, s, ok), lane)
  {
    var e, t := s.buffer[0], PumpStep(cfg, s, ok);
    if AllClosed(e.replies, s.closed) {
      CancelBufferedLane(cfg, s, t, lane);
    } else if cfg.latency > 0 {
      var later := [Timed(s.now + cfg.latency, e)];
      EntriesConcat(s.sess.delay, later);
      assert Entries(later) == [e];
      DelayedLine(s, t);
      MovedLane(s, t, lane);
    } else if ok {
      WrittenLine(s, t);
      MovedLane(s, t, lane);
    }
  }

  lemma ReleaseLane(cfg: Config, s: State, ok: bool, lane: Lane)
    requires Orderly(cfg, s) && LaneInOrder(s, lane) && Enabled(cfg, s, Release(ok))
    ensures LaneInOrder(ReleaseStep(cfg, s, ok), lane)
  {
    var t := ReleaseStep(cfg, s, ok);
    if AllClosed(s.sess.delay[0].entry.replies, s.closed) {
      CancelDelayedLane(cfg, s, t, lane);
    } else if ok {
      ReleasedLine(s, t);
      MovedLane(s, t, lane);
    }
  }

  /** The coalescers hold one class each, so a lane sees at most one of them. */
  function Coalesced(durables: seq<Msg>, volatiles: seq<Msg>, lane: Lane): seq<Msg> {
    if lane == DurableLane then durables else if lane == VolatileLane then volatiles else []
  }

  lemma DurablesLane(ms: seq<Msg>, lane: Lane)
    requires AllDurable(ms)
    ensures Keep(ms, InLane(lane)) == if lane == DurableLane then ms else []
  {
    if lane == DurableLane {
      KeepAll(ms, InLane(lane));
    } else {
      KeepNone(ms, InLane(lane));
    }
  }

  lemma VolatilesLane(ms: seq<Msg>, lane: Lane)
    requires AllVolatile(ms)
    ensures Keep(ms, InLane(lane)) == if lane == VolatileLane then ms else []
  {
    if lane == VolatileLane {
      KeepAll(ms, InLane(lane));
    } else {
      KeepNone(ms, InLane(lane));
    }
  }

  /** The lane of a line, container by container. */
  lemma LaneParts(head: seq<Msg>, durables: seq<Msg>, volatiles: seq<Msg>, lane: Lane)
    requires AllDurable(durables) && AllVolatile(volatiles)
    ensures Keep(head + durables + volatiles, InLane(lane))
         == Keep(head, InLane(lane)) + Coalesced(durables, volatiles, lane)
  {
    KeepThree(head, durables, volatiles, InLane(lane));
    DurablesLane(durables, lane);
    VolatilesLane(volatiles, lane);
    OneCoalescer(Keep(head, InLane(lane)), durables, volatiles, lane);
  }

  lemma OneCoalescer(head: seq<Msg>, durables: seq<Msg>, volatiles: seq<Msg>, lane: Lane)
    ensures head + (if lane == DurableLane then durables else []) + (if lane == VolatileLane then volatiles else [])
         == head + Coalesced(durables, volatiles, lane)
  {
  }

  lemma BufferGrows(s: State, e: Entry)
    ensures Head(s.(buffer := s.buffer + [e])) == Head(s) + e.msgs
  {
    FlatConcat(s.buffer, [e]);
    FlatOne(e);
  }

  lemma FlushDurableLane(s: State)
    ensures Line(FlushDurableStep(s)) == Line(s)
  {
    BufferGrows(s, EntryOf(true, s.sess.durables));
  }

  lemma MovedVolatiles(head: seq<Msg>, durables: seq<Msg>, volatiles: seq<Msg>, lane: Lane)
    requires AllDurable(durables) && AllVolatile(volatiles)
    ensures Keep(head + volatiles + durables + [], InLane(lane)) == Keep(head + durables + volatiles, InLane(lane))
  {
    LaneParts(head, durables, volatiles, lane);
    LaneParts(head + volatiles, durables, [], lane);
    KeepConcat(head, volatiles, InLane(lane));
    VolatilesLane(volatiles, lane);
  }

  lemma FlushVolatileLane(s: State, lane: Lane)
    requires AllDurable(s.sess.durables) && AllVolatile(s.sess.volatiles)
    ensures Keep(Line(FlushVolatileStep(s)), InLane(lane)) == Keep(Line(s), InLane(lane))
  {
    BufferGrows(s, EntryOf(true, s.sess.volatiles));
    MovedVolatiles(Head(s), s.sess.durables, s.sess.volatiles, lane);
  }

  lemma AppendedToHead(head: seq<Msg>, durables: seq<Msg>, volatiles: seq<Msg>, m: Msg, lane: Lane)
    requires AllDurable(durables) && AllVolatile(volatiles)
    requires m.cls.Detached? || (durables == [] && volatiles == [])
    ensures Keep(head + [m] + durables + volatiles, InLane(lane))
         == Keep(head + durables + volatiles, InLane(lane)) + (if LaneOf(m) == lane then [m] else [])
  {
    LaneParts(head, durables, volatiles, lane);
    LaneParts(head + [m], durables, volatiles, lane);
    KeepConcat(head, [m], InLane(lane));
    KeepOne(m, InLane(lane));
  }

  lemma ToBufferLane(cfg: Config, s: State, m: Msg, lane: Lane)
    requires AllDurable(s.sess.durables) && AllVolatile(s.sess.volatiles)
    requires m.cls.Detached? || (s.sess.durables == [] && s.sess.volatiles == [])
    ensures Keep(Line(s.(buffer := s.buffer + [EntryOf(cfg.batched, [m])])), InLane(lane))
         == Keep(Line(s), InLane(lane)) + (if LaneOf(m) == lane then [m] else [])
  {
    BufferGrows(s, EntryOf(cfg.batched, [m]));
    AppendedToHead(Head(s), s.sess.durables, s.sess.volatiles, m, lane);
  }

  lemma JoinCoalescer(head: seq<Msg>, durables: seq<Msg>, volatiles: seq<Msg>, m: Msg, lane: Lane)
    ensures m.cls.Durable? ==>
      head + Coalesced(durables + [m], volatiles, lane) == head + Coalesced(durables, volatiles, lane) + if lane == DurableLane then [m] else []
    ensures m.cls.Volatile? ==>
      head + Coalesced(durables, volatiles + [m], lane) == head + Coalesced(durables, volatiles, lane) + if lane == VolatileLane then [m] else []
  {
  }

  lemma CoalesceLane(head: seq<Msg>, durables: seq<Msg>, volatiles: seq<Msg>, m: Msg, lane: Lane)
    requires AllDurable(durables) && AllVolatile(volatiles) && !m.cls.Detached?
    ensures
      var line := if m.cls.Durable? then head + (durables + [m]) + volatiles else head + durables + (volatiles + [m]);
      Keep(line, InLane(lane)) == Keep(head + durables + volatiles, InLane(lane)) + (if LaneOf(m) == lane then [m] else [])
  {
    LaneParts(head, durables, volatiles, lane);
    JoinCoalescer(Keep(head, InLane(lane)), durables, volatiles, m, lane);
    if m.cls.Durable? {
      LaneParts(head, durables + [m], volatiles, lane);
    } else {
      LaneParts(head, durables, volatiles + [m], lane);
    }
  }

  /** Routing a message appends it to its lane and to no other. */
  lemma OnArrivalLane(cfg: Config, s: State, m: Msg, lane: Lane)
    requires AllDurable(s.sess.durables) && AllVolatile(s.sess.volatiles)
    requires !cfg.batched ==> s.sess.durables == [] && s.sess.volatiles == []
    ensures Keep(Line(OnArrival(cfg, s, m)), InLane(lane))
         == Keep(Line(s), InLane(lane)) + (if LaneOf(m) == lane then [m] else [])
  {
    if m.cls.Detached? || !cfg.batched {
      ToBufferLane(cfg, s, m, lane);
    } else if m.cls.Durable? {
      var due := if s.sess.durables == [] then Some(s.now + cfg.maxDelay) else s.sess.durableDue;
      var t := s.(sess := s.sess.(durables := s.sess.durables + [m], durableDue := due));
      CoalesceLane(Head(s), s.sess.durables, s.sess.volatiles, m, lane);
      FlushDurableLane(t);
    } else {
      var due := if s.sess.volatiles == [] then Some(s.now + cfg.maxDelay) else s.sess.volatileDue;
      var t := s.(sess := s.sess.(volatiles := s.sess.volatiles + [m], volatileDue := due));
      CoalesceLane(Head(s), s.sess.durables, s.sess.volatiles, m, lane);
      FlushVolatileLane(t, lane);
    }
  }

  lemma ArriveLane(cfg: Config, s: State, lane: Lane)
    requires Orderly(cfg, s) && LaneInOrder(s, lane) && Enabled(cfg, s, Arrive)
    ensures LaneInOrder(ArriveStep(cfg, s), lane)
  {
    var m := s.inbox[0];
    var s' := s.(inbox := s.inbox[1..],
                 log := s.log.(arrived := s.log.arrived + [m], entered := s.log.entered[m.id := s.now]));
    OnArrivalLane(cfg, s', m, lane);
    CountIn(s.inbox, m);
    NotGone(cfg, s, m);
    GrownLane(s, ArriveStep(cfg, s), m, lane);
  }

  lemma GrownLane(s: State, t: State, m: Msg, lane: Lane)
    requires LaneInOrder(s, lane) && s.phase == Up && m !in Gone(s)
    requires t.log.discarded == s.log.discarded && t.log.start == s.log.start && t.log.arrived == s.log.arrived + [m]
    requires Keep(Line(t), InLane(lane)) == Keep(Line(s), InLane(lane)) + (if LaneOf(m) == lane then [m] else [])
    ensures LaneInOrder(t, lane)
  {
    Append(s.log.start, s.log.arrived, [m]);
    HistoryGrows(s.log.start + s.log.arrived, m, Gone(s), lane);
  }

  lemma HistoryGrows(history: seq<Msg>, m: Msg, gone: set<Msg>, lane: Lane)
    requires m !in gone
    ensures Keep(Keep(history + [m], InLane(lane)), NotIn(gone))
         == Keep(Keep(history, InLane(lane)), NotIn(gone)) + (if LaneOf(m) == lane then [m] else [])
  {
    KeepConcat(history, [m], InLane(lane));
    KeepOne(m, InLane(lane));
    KeepConcat(Keep(history, InLane(lane)), Keep([m], InLane(lane)), NotIn(gone));
    KeepAll(Keep([m], InLane(lane)), NotIn(gone));
  }

  lemma BufferNotGone(cfg: Config, s: State, lane: Lane)
    requires Orderly(cfg, s)
    ensures Keep(Keep(Flat(s.buffer), InLane(lane)), NotIn(Gone(s))) == Keep(Flat(s.buffer), InLane(lane))
  {
    var kept := Keep(Flat(s.buffer), InLane(lane));
    forall m | m in kept ensures NotIn(Gone(s))(m) {
      KeepMember(Flat(s.buffer), InLane(lane), m);
      WithinIsFlat(s.buffer, m);
      CountIn(Flat(s.buffer), m);
      NotGone(cfg, s, m);
    }
    KeepAll(kept, NotIn(Gone(s)));
  }

  lemma FreshLine(t: State)
    requires t.log.written == [] && t.sess == NO_SESSION
    ensures Line(t) == Flat(t.buffer)
  {
    var b := Flat(t.buffer);
    assert [] + [] + b + [] + [] == b;
    assert Entries([]) == [];
  }

  lemma ConnectLane(cfg: Config, s: State, lane: Lane)
    requires Orderly(cfg, s) && s.phase == Idle
    ensures LaneInOrder(ConnectStep(s), lane)
  {
    var t := ConnectStep(s);
    BufferNotGone(cfg, s, lane);
    FreshLine(t);
    assert t.log.start + t.log.arrived == Flat(s.buffer);
    assert Gone(t) == Gone(s);
  }

  lemma QuietLane(s: State, t: State, lane: Lane)
    requires LaneInOrder(s, lane) && t.phase == s.phase && t.buffer == s.buffer && t.sess == s.sess
    requires t.log.written == s.log.written && t.log.discarded == s.log.discarded
    requires t.log.start == s.log.start && t.log.arrived == s.log.arrived
    ensures LaneInOrder(t, lane)
  {
  }

  lemma ReadLane(cfg: Config, s: State, ok: bool, lane: Lane)
    requires LaneInOrder(s, lane)
    ensures LaneInOrder(ReadStep(cfg, s, ok), lane)
  {
    if s.sess.pending != [] && ok {
      assert Line(ReadStep(cfg, s, ok)) == Line(s);
    }
  }

  lemma FlushLane(cfg: Config, s: State, lane: Lane)
    requires Orderly(cfg, s) && LaneInOrder(s, lane)
    ensures LaneInOrder(FlushDurableStep(s), lane) && LaneInOrder(FlushVolatileStep(s), lane)
  {
    FlushDurableLane(s);
    FlushVolatileLane(s, lane);
  }

  lemma StepLane(cfg: Config, s: State, ev: Event, lane: Lane)
    requires Orderly(cfg, s) && LaneInOrder(s, lane) && Enabled(cfg, s, ev)
    ensures LaneInOrder(Step(cfg, s, ev), lane)
  {
    match ev
    case Connect => ConnectLane(cfg, s, lane);
    case Pump(ok) => PumpLane(cfg, s, ok, lane);
    case Release(ok) => ReleaseLane(cfg, s, ok, lane);
    case FlushDurable => FlushLane(cfg, s, lane);
    case FlushVolatile => FlushLane(cfg, s, lane);
    case Arrive => ArriveLane(cfg, s, lane);
    case Read(ok) => ReadLane(cfg, s, ok, lane);
    case Tick(_) => QuietLane(s, Step(cfg, s, ev), lane);
    case Close(_) => QuietLane(s, Step(cfg, s, ev), lane);
    case Submit(_) => QuietLane(s, Step(cfg, s, ev), lane);
    case _ => DownLane(Step(cfg, s, ev), lane);
  }

  lemma DownLane(t: State, lane: Lane)
    requires t.phase != Up
    ensures LaneInOrder(t, lane)
  {
  }

  lemma {:induction false} ExecLane(cfg: Config, s: State, evs: seq<Event>, lane: Lane)
    requires Orderly(cfg, s) && LaneInOrder(s, lane) && Legal(cfg, s, evs)
    ensures Orderly(cfg, Exec(cfg, s, evs)) && LaneInOrder(Exec(cfg, s, evs), lane)
    decreases |evs|
  {
    if evs != [] {
      StepOrderly(cfg, s, evs[0]);
      StepLane(cfg, s, evs[0], lane);
      ExecLane(cfg, Step(cfg, s, evs[0]), evs[1..], lane);
    }
  }

  /** In every run and every class: what this session has written, followed by what is scheduled,
      buffered and coalescing, is what the session found in the buffer followed by what arrived,
      in that order, less cancelled entries. No message is written twice in one session. */
  lemma SessionWritesInArrivalOrder(cfg: Config, drop: Option<nat>, evs: seq<Event>, lane: Lane)
    requires Legal(cfg, Init(drop), evs)
    ensures var s := Exec(cfg, Init(drop), evs);
      s.phase == Up ==>
        && Keep(Line(s), InLane(lane)) == Keep(Keep(s.log.start + s.log.arrived, InLane(lane)), NotIn(Gone(s)))
        && Keep(Flat(s.log.written), InLane(lane)) <= Keep(Line(s), InLane(lane))
        && Distinct(Line(s))
  {
    ExecLane(cfg, Init(drop), evs, lane);
    var s := Exec(cfg, Init(drop), evs);
    LineDistinct(cfg, s);
    WrittenFirst(s, lane);
  }

  /** In every run, each message handed to the sender is in exactly one place: one container, or
      acknowledged, or cancelled, or lost. */
  lemma ExactlyOnePlace(cfg: Config, drop: Option<nat>, evs: seq<Event>, m: Msg)
    requires Legal(cfg, Init(drop), evs) && m in Exec(cfg, Init(drop), evs).log.sent
    ensures var s := Exec(cfg, Init(drop), evs); Held(s, m) + Settled(s, m) == 1
  {
    var s := Exec(cfg, Init(drop), evs);
    ExecLane(cfg, Init(drop), evs, DurableLane);
    SentOnce(s, m);
    CountIn(s.log.sent, m);
    MessagesAreConserved(cfg, drop, evs);
  }

  lemma WrittenFirst(s: State, lane: Lane)
    ensures Keep(Flat(s.log.written), InLane(lane)) <= Keep(Line(s), InLane(lane))
  {
    var rest := Flat(Entries(s.sess.delay)) + Flat(s.buffer) + s.sess.durables + s.sess.volatiles;
    FiveParts(Flat(s.log.written), Flat(Entries(s.sess.delay)), Flat(s.buffer), s.sess.durables, s.sess.volatiles);
    KeepConcat(Flat(s.log.written), rest, InLane(lane));
  }

  lemma FiveParts(a: seq<Msg>, b: seq<Msg>, c: seq<Msg>, d: seq<Msg>, e: seq<Msg>)
    ensures a + b + c + d + e == a + (b + c + d + e)
  {
  }
}

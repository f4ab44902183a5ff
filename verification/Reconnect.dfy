/** Submission order across lost sessions, and exactly when a lost session breaks it. */
module Reconnect {
  import opened Seqs
  import opened Transport
  import opened Conservation
  import opened Order
  import Bundle

  /** The messages whose order is followed: one class that is retried, or both of them. */
  datatype Stream = DurableStream | DetachedStream | RetriedStream

  function Chosen(stream: Stream): Msg -> bool {
    (m: Msg) => match stream
      case DurableStream => m.cls.Durable?
      case DetachedStream => m.cls.Detached?
      case RetriedStream => !m.cls.Volatile?
  }

  /** With batching, durable messages coalesce while detached ones do not, so only one class at a
      time forms a line. */
  predicate Lines(cfg: Config, stream: Stream) {
    stream == RetriedStream ==> !cfg.batched
  }

  // ---- The line of retried messages --------------------------------------------------------

  /** Acknowledged, pending, delayed, buffered, coalescing and queued messages, in that order. */
  function InTurn(a: seq<Entry>, p: seq<Entry>, d: seq<Entry>, b: seq<Entry>, c: seq<Msg>, i: seq<Msg>): seq<Msg> {
    Flat(a) + Flat(p) + Flat(d) + Flat(b) + c + i
  }

  function History(s: State): seq<Msg> {
    InTurn(s.log.acked, s.sess.pending, Entries(s.sess.delay), s.buffer, s.sess.durables, s.inbox)
  }

  /** The stream is acknowledged, retried and queued in submission order; only the messages of
      cancelled entries are missing. */
  ghost predicate InSubmissionOrder(s: State, stream: Stream) {
    Keep(History(s), Chosen(stream)) == Keep(Keep(s.log.sent, Chosen(stream)), NotIn(Gone(s)))
  }

  /** The chosen messages of a list of entries. */
  function Part(es: seq<Entry>, stream: Stream): seq<Msg> {
    Keep(Flat(es), Chosen(stream))
  }

  lemma KeepSix(a: seq<Msg>, p: seq<Msg>, d: seq<Msg>, b: seq<Msg>, c: seq<Msg>, i: seq<Msg>, keep: Msg -> bool)
    ensures Keep(a + p + d + b + c + i, keep)
         == Keep(a, keep) + Keep(p, keep) + Keep(d, keep) + Keep(b, keep) + Keep(c, keep) + Keep(i, keep)
  {
    KeepConcat(a + p + d + b + c, i, keep);
    KeepConcat(a + p + d + b, c, keep);
    KeepConcat(a + p + d, b, keep);
    KeepConcat(a + p, d, keep);
    KeepConcat(a, p, keep);
  }

  lemma KeepInTurn(a: seq<Entry>, p: seq<Entry>, d: seq<Entry>, b: seq<Entry>, c: seq<Msg>, i: seq<Msg>, stream: Stream)
    ensures Keep(InTurn(a, p, d, b, c, i), Chosen(stream))
         == Part(a, stream) + Part(p, stream) + Part(d, stream) + Part(b, stream)
            + Keep(c, Chosen(stream)) + Keep(i, Chosen(stream))
  {
    KeepSix(Flat(a), Flat(p), Flat(d), Flat(b), c, i, Chosen(stream));
  }

  lemma CountSix(a: seq<Msg>, p: seq<Msg>, d: seq<Msg>, b: seq<Msg>, c: seq<Msg>, i: seq<Msg>, m: Msg)
    ensures Count(a + p + d + b + c + i, m)
         == Count(a, m) + Count(p, m) + Count(d, m) + Count(b, m) + Count(c, m) + Count(i, m)
  {
    CountConcat(a + p + d + b + c, i, m);
    CountConcat(a + p + d + b, c, m);
    CountConcat(a + p + d, b, m);
    CountConcat(a + p, d, m);
    CountConcat(a, p, m);
  }

  lemma CountHistory(s: State, m: Msg)
    ensures Count(History(s), m) <= Held(s, m) + Settled(s, m)
  {
    CountSix(Flat(s.log.acked), Flat(s.sess.pending), Flat(Entries(s.sess.delay)), Flat(s.buffer), s.sess.durables, s.inbox, m);
    WithinIsFlat(s.log.acked, m);
    WithinIsFlat(s.sess.pending, m);
    WithinIsFlat(Entries(s.sess.delay), m);
    WithinIsFlat(s.buffer, m);
  }

  lemma HistoryDistinct(cfg: Config, s: State)
    requires Orderly(cfg, s)
    ensures Distinct(History(s))
  {
    forall m ensures Count(History(s), m) <= 1 {
      CountHistory(s, m);
      SentOnce(s, m);
      assert Count(s.log.sent, m) == Held(s, m) + Settled(s, m);
    }
    CountsDistinct(History(s));
  }

  // ---- Moving entries along the line -------------------------------------------------------

  lemma BufferToDelay(a: seq<Entry>, p: seq<Entry>, d: seq<Entry>, b: seq<Entry>, c: seq<Msg>, i: seq<Msg>)
    requires b != []
    ensures InTurn(a, p, d + [b[0]], b[1..], c, i) == InTurn(a, p, d, b, c, i)
  {
    FlatPasses(Flat(a) + Flat(p), d, b);
  }

  lemma BufferToPending(a: seq<Entry>, p: seq<Entry>, b: seq<Entry>, c: seq<Msg>, i: seq<Msg>)
    requires b != []
    ensures InTurn(a, p + [b[0]], [], b[1..], c, i) == InTurn(a, p, [], b, c, i)
  {
    FlatPasses(Flat(a), p, b);
    var x, y := Flat(a) + Flat(p + [b[0]]), Flat(a) + Flat(p);
    assert x + [] == x && y + [] == y;
  }

  lemma DelayToPending(a: seq<Entry>, p: seq<Entry>, d: seq<Entry>, b: seq<Entry>, c: seq<Msg>, i: seq<Msg>)
    requires d != []
    ensures InTurn(a, p + [d[0]], d[1..], b, c, i) == InTurn(a, p, d, b, c, i)
  {
    FlatPasses(Flat(a), p, d);
  }

  lemma PendingToAcked(a: seq<Entry>, p: seq<Entry>, d: seq<Entry>, b: seq<Entry>, c: seq<Msg>, i: seq<Msg>)
    requires p != []
    ensures InTurn(a + [p[0]], p[1..], d, b, c, i) == InTurn(a, p, d, b, c, i)
  {
    FlatSnoc(a, p[0]);
    Append(Flat(a), p[0].msgs, Flat(p[1..]));
  }

  /** A flush moves the coalescing messages to the end of the buffer. */
  lemma CoalescerToBuffer(a: seq<Entry>, p: seq<Entry>, d: seq<Entry>, b: seq<Entry>, e: Entry, i: seq<Msg>)
    ensures InTurn(a, p, d, b + [e], [], i) == InTurn(a, p, d, b, e.msgs, i)
  {
    FlatSnoc(b, e);
    var x, y := Flat(a) + Flat(p) + Flat(d), Flat(b);
    assert x + (y + e.msgs) + [] == x + y + e.msgs;
  }

  lemma QueueToCoalescer(a: seq<Entry>, p: seq<Entry>, d: seq<Entry>, b: seq<Entry>, c: seq<Msg>, i: seq<Msg>)
    requires i != []
    ensures InTurn(a, p, d, b, c + [i[0]], i[1..]) == InTurn(a, p, d, b, c, i)
  {
    var x := Flat(a) + Flat(p) + Flat(d) + Flat(b);
    assert i == [i[0]] + i[1..];
    assert x + (c + [i[0]]) + i[1..] == x + c + ([i[0]] + i[1..]);
  }

  lemma PartSnoc(es: seq<Entry>, e: Entry, stream: Stream)
    ensures Part(es + [e], stream) == Part(es, stream) + Keep(e.msgs, Chosen(stream))
  {
    FlatSnoc(es, e);
    KeepConcat(Flat(es), e.msgs, Chosen(stream));
  }

  lemma KeepHead(ms: seq<Msg>, keep: Msg -> bool)
    requires ms != []
    ensures Keep(ms, keep) == Keep([ms[0]], keep) + Keep(ms[1..], keep)
  {
    assert ms == [ms[0]] + ms[1..];
    KeepConcat([ms[0]], ms[1..], keep);
  }

  lemma PastCoalescer(x: seq<Msg>, y: seq<Msg>, one: seq<Msg>, c: seq<Msg>, z: seq<Msg>)
    requires one == [] || c == []
    ensures x + (y + one) + c + z == x + y + c + (one + z)
  {
  }

  /** A message that passes the coalescer overtakes nothing of the stream. */
  lemma QueueToBuffer(a: seq<Entry>, p: seq<Entry>, d: seq<Entry>, b: seq<Entry>, c: seq<Msg>, i: seq<Msg>, e: Entry, stream: Stream)
    requires i != [] && e.msgs == [i[0]]
    requires Keep([i[0]], Chosen(stream)) == [] || Keep(c, Chosen(stream)) == []
    ensures Keep(InTurn(a, p, d, b + [e], c, i[1..]), Chosen(stream)) == Keep(InTurn(a, p, d, b, c, i), Chosen(stream))
  {
    var keep := Chosen(stream);
    KeepInTurn(a, p, d, b + [e], c, i[1..], stream);
    KeepInTurn(a, p, d, b, c, i, stream);
    PartSnoc(b, e, stream);
    KeepHead(i, keep);
    PastCoalescer(Part(a, stream) + Part(p, stream) + Part(d, stream), Part(b, stream), Keep([i[0]], keep), Keep(c, keep), Keep(i[1..], keep));
  }

  /** Only the stream's part of the buffer matters. */
  lemma OtherBuffer(a: seq<Entry>, p: seq<Entry>, d: seq<Entry>, b: seq<Entry>, b': seq<Entry>, c: seq<Msg>, i: seq<Msg>, stream: Stream)
    requires Part(b', stream) == Part(b, stream)
    ensures Keep(InTurn(a, p, d, b', c, i), Chosen(stream)) == Keep(InTurn(a, p, d, b, c, i), Chosen(stream))
  {
    KeepInTurn(a, p, d, b, c, i, stream);
    KeepInTurn(a, p, d, b', c, i, stream);
  }

  // ---- Steps that keep the order -----------------------------------------------------------

  lemma SameOrder(s: State, t: State, stream: Stream)
    requires InSubmissionOrder(s, stream) && t.log.sent == s.log.sent && t.log.discarded == s.log.discarded
    requires Keep(History(t), Chosen(stream)) == Keep(History(s), Chosen(stream))
    ensures InSubmissionOrder(t, stream)
  {
  }

  /** Cancelling one entry of the line. */
  lemma CancelOrder(cfg: Config, s: State, t: State, before: seq<Msg>, e: Entry, after: seq<Msg>, stream: Stream)
    requires Orderly(cfg, s) && InSubmissionOrder(s, stream)
    requires History(s) == before + e.msgs + after && History(t) == before + after
    requires t.log.sent == s.log.sent && t.log.discarded == s.log.discarded + [e]
    ensures InSubmissionOrder(t, stream)
  {
    HistoryDistinct(cfg, s);
    RemoveEntry(before, e, after, s.log.sent, Gone(s), Chosen(stream));
    GoneGrows(s, e);
  }

  lemma CancelBuffered(cfg: Config, s: State, stream: Stream)
    requires Orderly(cfg, s) && InSubmissionOrder(s, stream) && s.buffer != []
    ensures InSubmissionOrder(Discarded(s.(buffer := s.buffer[1..]), s.buffer[0]), stream)
  {
    var t := Discarded(s.(buffer := s.buffer[1..]), s.buffer[0]);
    var x := Flat(s.log.acked) + Flat(s.sess.pending) + Flat(Entries(s.sess.delay));
    var y := s.sess.durables + s.inbox;
    FlatWithoutFirst(x, s.buffer, y);
    Append(x + Flat(s.buffer), s.sess.durables, s.inbox);
    Append(x + Flat(t.buffer), s.sess.durables, s.inbox);
    CancelOrder(cfg, s, t, x, s.buffer[0], Flat(t.buffer) + y, stream);
  }

  lemma CancelDelayed(cfg: Config, s: State, stream: Stream)
    requires Orderly(cfg, s) && InSubmissionOrder(s, stream) && s.sess.delay != []
    ensures InSubmissionOrder(Discarded(s.(sess := s.sess.(delay := s.sess.delay[1..])), s.sess.delay[0].entry), stream)
  {
    var t := Discarded(s.(sess := s.sess.(delay := s.sess.delay[1..])), s.sess.delay[0].entry);
    var d := Entries(s.sess.delay);
    assert Entries(t.sess.delay) == d[1..] && d[0] == s.sess.delay[0].entry;
    var x, y := Flat(s.log.acked) + Flat(s.sess.pending), Flat(s.buffer) + (s.sess.durables + s.inbox);
    FlatWithoutFirst(x, d, y);
    AppendThree(x + Flat(d), Flat(s.buffer), s.sess.durables, s.inbox);
    AppendThree(x + Flat(d[1..]), Flat(s.buffer), s.sess.durables, s.inbox);
    CancelOrder(cfg, s, t, x, d[0], Flat(d[1..]) + y, stream);
  }

  lemma PumpOrder(cfg: Config, s: State, ok: bool, stream: Stream)
    requires Orderly(cfg, s) && InSubmissionOrder(s, stream) && Enabled(cfg, s, Pump(ok)) && !Loses(cfg, s, Pump(ok))
    ensures InSubmissionOrder(PumpStep(cfg, s, ok), stream)
  {
    var e, t := s.buffer[0], PumpStep(cfg, s, ok);
    var a, p, d, c := s.log.acked, s.sess.pending, Entries(s.sess.delay), s.sess.durables;
    if AllClosed(e.replies, s.closed) {
      CancelBuffered(cfg, s, stream);
    } else if cfg.latency > 0 {
      EntriesConcat(s.sess.delay, [Timed(s.now + cfg.latency, e)]);
      assert Entries(t.sess.delay) == d + [e];
      BufferToDelay(a, p, d, s.buffer, c, s.inbox);
      SameOrder(s, t, stream);
    } else {
      assert d == [] && Entries(t.sess.delay) == [];
      BufferToPending(a, p, s.buffer, c, s.inbox);
      SameOrder(s, t, stream);
    }
  }

  lemma ReleaseOrder(cfg: Config, s: State, ok: bool, stream: Stream)
    requires Orderly(cfg, s) && InSubmissionOrder(s, stream) && Enabled(cfg, s, Release(ok)) && !Loses(cfg, s, Release(ok))
    ensures InSubmissionOrder(ReleaseStep(cfg, s, ok), stream)
  {
    if AllClosed(s.sess.delay[0].entry.replies, s.closed) {
      CancelDelayed(cfg, s, stream);
    } else {
      var t, d := ReleaseStep(cfg, s, ok), Entries(s.sess.delay);
      assert Entries(t.sess.delay) == d[1..] && d[0] == s.sess.delay[0].entry;
      DelayToPending(s.log.acked, s.sess.pending, d, s.buffer, s.sess.durables, s.inbox);
      SameOrder(s, t, stream);
    }
  }

  lemma ReadOrder(cfg: Config, s: State, ok: bool, stream: Stream)
    requires InSubmissionOrder(s, stream) && !Loses(cfg, s, Read(ok))
    ensures InSubmissionOrder(ReadStep(cfg, s, ok), stream)
  {
    PendingToAcked(s.log.acked, s.sess.pending, Entries(s.sess.delay), s.buffer, s.sess.durables, s.inbox);
    SameOrder(s, ReadStep(cfg, s, ok), stream);
  }

  lemma FlushDurableOrder(s: State, stream: Stream)
    requires InSubmissionOrder(s, stream)
    ensures InSubmissionOrder(FlushDurableStep(s), stream)
  {
    CoalescerToBuffer(s.log.acked, s.sess.pending, Entries(s.sess.delay), s.buffer, EntryOf(true, s.sess.durables), s.inbox);
    SameOrder(s, FlushDurableStep(s), stream);
  }

  lemma FlushVolatileOrder(s: State, stream: Stream)
    requires InSubmissionOrder(s, stream) && AllVolatile(s.sess.volatiles)
    ensures InSubmissionOrder(FlushVolatileStep(s), stream)
  {
    var e := EntryOf(true, s.sess.volatiles);
    PartSnoc(s.buffer, e, stream);
    KeepNone(e.msgs, Chosen(stream));
    OtherBuffer(s.log.acked, s.sess.pending, Entries(s.sess.delay), s.buffer, s.buffer + [e], s.sess.durables, s.inbox, stream);
    SameOrder(s, FlushVolatileStep(s), stream);
  }

  lemma ArriveOrder(cfg: Config, s: State, stream: Stream)
    requires s.inbox != [] && Lines(cfg, stream) && Orderly(cfg, s) && InSubmissionOrder(s, stream)
    ensures InSubmissionOrder(ArriveStep(cfg, s), stream)
  {
    var m := s.inbox[0];
    if m.cls.Detached? || !cfg.batched {
      ToBufferOrder(cfg, s, stream);
    } else if m.cls.Durable? {
      ToCoalescerOrder(cfg, s, stream);
    } else {
      VolatileOrder(cfg, s, stream);
    }
  }

  lemma ToBufferOrder(cfg: Config, s: State, stream: Stream)
    requires s.inbox != [] && (s.inbox[0].cls.Detached? || !cfg.batched)
    requires Lines(cfg, stream) && Orderly(cfg, s) && InSubmissionOrder(s, stream)
    ensures InSubmissionOrder(ArriveStep(cfg, s), stream)
  {
    var m, c := s.inbox[0], s.sess.durables;
    KeepOne(m, Chosen(stream));
    if stream == DetachedStream {
      KeepNone(c, Chosen(stream));
    }
    QueueToBuffer(s.log.acked, s.sess.pending, Entries(s.sess.delay), s.buffer, c, s.inbox, EntryOf(cfg.batched, [m]), stream);
    SameOrder(s, ArriveStep(cfg, s), stream);
  }

  /** A state with one more message taken into its coalescer. */
  function Taken(cfg: Config, s: State): State
    requires s.inbox != []
  {
    var m, d, v := s.inbox[0], s.sess.durables, s.sess.volatiles;
    s.(inbox := s.inbox[1..],
       sess := if m.cls.Durable? then
                 s.sess.(durables := d + [m], durableDue := if d == [] then Some(s.now + cfg.maxDelay) else s.sess.durableDue)
               else
                 s.sess.(volatiles := v + [m], volatileDue := if v == [] then Some(s.now + cfg.maxDelay) else s.sess.volatileDue),
       log := s.log.(arrived := s.log.arrived + [m], entered := s.log.entered[m.id := s.now]))
  }

  /** Such a message stays, or leaves at once with its coalescer. */
  lemma ArriveTaken(cfg: Config, s: State)
    requires cfg.batched && s.inbox != [] && !s.inbox[0].cls.Detached?
    ensures
      var t, u := ArriveStep(cfg, s), Taken(cfg, s);
      t == u || t == if s.inbox[0].cls.Durable? then FlushDurableStep(u) else FlushVolatileStep(u)
  {
  }

  lemma ToCoalescerOrder(cfg: Config, s: State, stream: Stream)
    requires cfg.batched && s.inbox != [] && s.inbox[0].cls.Durable? && InSubmissionOrder(s, stream)
    ensures InSubmissionOrder(ArriveStep(cfg, s), stream)
  {
    QueueToCoalescer(s.log.acked, s.sess.pending, Entries(s.sess.delay), s.buffer, s.sess.durables, s.inbox);
    SameOrder(s, Taken(cfg, s), stream);
    FlushDurableOrder(Taken(cfg, s), stream);
    ArriveTaken(cfg, s);
  }

  /** A message outside the stream leaves the channel. */
  lemma OtherQueue(s: State, t: State, stream: Stream)
    requires s.inbox != [] && !Chosen(stream)(s.inbox[0]) && t.inbox == s.inbox[1..] && t.buffer == s.buffer
    requires t.sess.pending == s.sess.pending && t.sess.delay == s.sess.delay && t.sess.durables == s.sess.durables
    requires t.log.acked == s.log.acked && t.log.discarded == s.log.discarded && t.log.sent == s.log.sent
    requires InSubmissionOrder(s, stream)
    ensures InSubmissionOrder(t, stream)
  {
    var a, p, d, b, c, i := s.log.acked, s.sess.pending, Entries(s.sess.delay), s.buffer, s.sess.durables, s.inbox;
    KeepInTurn(a, p, d, b, c, i, stream);
    KeepInTurn(a, p, d, b, c, i[1..], stream);
    SameOrder(s, t, stream);
  }

  lemma VolatileOrder(cfg: Config, s: State, stream: Stream)
    requires s.inbox != [] && s.inbox[0].cls.Volatile? && cfg.batched && AllVolatile(s.sess.volatiles)
    requires InSubmissionOrder(s, stream)
    ensures InSubmissionOrder(ArriveStep(cfg, s), stream)
  {
    OtherQueue(s, Taken(cfg, s), stream);
    FlushVolatileOrder(Taken(cfg, s), stream);
    ArriveTaken(cfg, s);
  }

  // ---- While there is no session -----------------------------------------------------------

  function ShutMsgs(es: seq<Entry>, closed: set<nat>): set<Msg> {
    ToSet(Flat(Keep(es, IsShut(closed))))
  }

  lemma {:induction false} ShutMsgsInside(es: seq<Entry>, closed: set<nat>, m: Msg)
    requires m in ShutMsgs(es, closed)
    ensures m in Flat(es)
  {
    if !AllClosed(es[0].replies, closed) || m !in es[0].msgs {
      ShutMsgsInside(es[1..], closed, m);
    }
  }

  /** Retaining the open entries filters out exactly the messages of the cancelled ones. */
  lemma {:induction false} RetainFilters(es: seq<Entry>, closed: set<nat>)
    requires Distinct(Flat(es))
    ensures Flat(Keep(es, IsOpen(closed))) == Keep(Flat(es), NotIn(ShutMsgs(es, closed)))
  {
    if es != [] {
      var e, rest := es[0], es[1..];
      var gone, later := ShutMsgs(es, closed), ShutMsgs(rest, closed);
      DistinctParts(e.msgs, Flat(rest));
      RetainFilters(rest, closed);
      KeepConcat(e.msgs, Flat(rest), NotIn(gone));
      if AllClosed(e.replies, closed) {
        assert forall m :: m in e.msgs ==> m in gone;
        KeepNone(e.msgs, NotIn(gone));
        KeepSame(Flat(rest), NotIn(gone), NotIn(later));
      } else {
        forall m | m in e.msgs ensures m !in gone {
          if m in gone {
            ShutMsgsInside(rest, closed, m);
          }
        }
        KeepAll(e.msgs, NotIn(gone));
      }
    }
  }

  /** The same inside a longer line of distinct messages. */
  lemma RetainFiltersLine(before: seq<Msg>, es: seq<Entry>, after: seq<Msg>, closed: set<nat>)
    requires Distinct(before + Flat(es) + after)
    ensures before + Flat(Keep(es, IsOpen(closed))) + after
         == Keep(before + Flat(es) + after, NotIn(ShutMsgs(es, closed)))
  {
    var gone := ShutMsgs(es, closed);
    DistinctParts(before + Flat(es), after);
    DistinctParts(before, Flat(es));
    RetainFilters(es, closed);
    forall m | m in before || m in after ensures m !in gone {
      if m in gone {
        ShutMsgsInside(es, closed, m);
      }
    }
    KeepConcat(before + Flat(es), after, NotIn(gone));
    KeepConcat(before, Flat(es), NotIn(gone));
    KeepAll(before, NotIn(gone));
    KeepAll(after, NotIn(gone));
  }

  lemma IdleHistory(s: State)
    requires s.sess == NO_SESSION
    ensures History(s) == Flat(s.log.acked) + Flat(s.buffer) + s.inbox
  {
    assert Entries([]) == [];
    var a, b := Flat(s.log.acked), Flat(s.buffer);
    assert a + [] + [] + b + [] + s.inbox == a + b + s.inbox;
  }

  /** The line with the next message already in the buffer. */
  lemma WaitLine(s: State, e: Entry)
    requires s.inbox != [] && e.msgs == [s.inbox[0]] && s.sess == NO_SESSION
    ensures History(s) == Flat(s.log.acked) + Flat(s.buffer + [e]) + s.inbox[1..]
  {
    IdleHistory(s);
    FlatSnoc(s.buffer, e);
    assert s.inbox == [s.inbox[0]] + s.inbox[1..];
    Rejoin(Flat(s.log.acked), Flat(s.buffer), [s.inbox[0]], s.inbox[1..]);
  }

  lemma WaitHistory(cfg: Config, s: State, t: State, e: Entry)
    requires s.inbox != [] && e.msgs == [s.inbox[0]] && s.sess == NO_SESSION && Orderly(cfg, s)
    requires t.sess == NO_SESSION && t.inbox == s.inbox[1..] && t.log.acked == s.log.acked
    requires t.buffer == Keep(s.buffer + [e], IsOpen(s.closed))
    ensures History(t) == Keep(History(s), NotIn(ShutMsgs(s.buffer + [e], s.closed)))
  {
    IdleHistory(t);
    WaitLine(s, e);
    HistoryDistinct(cfg, s);
    RetainFiltersLine(Flat(s.log.acked), s.buffer + [e], s.inbox[1..], s.closed);
  }

  lemma WaitGone(cfg: Config, s: State, e: Entry)
    requires s.inbox != [] && !s.inbox[0].cls.Volatile? && e == EntryOf(cfg.batched, [s.inbox[0]])
    ensures Gone(WaitArriveStep(cfg, s)) == Gone(s) + ShutMsgs(s.buffer + [e], s.closed)
  {
    FlatConcat(s.log.discarded, Keep(s.buffer + [e], IsShut(s.closed)));
  }

  lemma WaitKeepOrder(cfg: Config, s: State, stream: Stream)
    requires Orderly(cfg, s) && InSubmissionOrder(s, stream) && s.sess == NO_SESSION
    requires s.inbox != [] && !s.inbox[0].cls.Volatile?
    ensures InSubmissionOrder(WaitArriveStep(cfg, s), stream)
  {
    var e := EntryOf(cfg.batched, [s.inbox[0]]);
    FilterLine(History(s), s.log.sent, Gone(s), ShutMsgs(s.buffer + [e], s.closed), Chosen(stream));
    WaitHistory(cfg, s, WaitArriveStep(cfg, s), e);
    WaitGone(cfg, s, e);
  }

  lemma SubmitOrder(cfg: Config, s: State, m: Msg, stream: Stream)
    requires Orderly(cfg, s) && InSubmissionOrder(s, stream) && Enabled(cfg, s, Submit(m))
    ensures InSubmissionOrder(SubmitStep(cfg, s, m), stream)
  {
    var t, keep := SubmitStep(cfg, s, m), Chosen(stream);
    NewIsNotGone(cfg, s, m);
    SentGrows(s.log.sent, m, Gone(s), keep);
    if !Sheds(cfg, s, m) {
      assert History(t) == History(s) + [m];
      KeepConcat(History(s), [m], keep);
      KeepOne(m, keep);
    }
  }

  lemma SentGrows(sent: seq<Msg>, m: Msg, gone: set<Msg>, keep: Msg -> bool)
    requires m !in gone
    ensures Keep(Keep(sent + [m], keep), NotIn(gone)) == Keep(Keep(sent, keep), NotIn(gone)) + if keep(m) then [m] else []
  {
    KeepConcat(sent, [m], keep);
    KeepOne(m, keep);
    KeepConcat(Keep(sent, keep), Keep([m], keep), NotIn(gone));
    KeepAll(Keep([m], keep), NotIn(gone));
  }

  lemma NewIsNotGone(cfg: Config, s: State, m: Msg)
    requires Orderly(cfg, s) && m.id == |s.log.sent|
    ensures m !in Gone(s)
  {
    CountIn(s.log.sent, m);
    assert Count(s.log.sent, m) == Held(s, m) + Settled(s, m);
    WithinIsFlat(s.log.discarded, m);
    CountIn(Flat(s.log.discarded), m);
  }

  // ---- A lost session ----------------------------------------------------------------------

  /** The event ends the session: a failed write, a read error, or an acknowledgement nobody awaits. */
  predicate Loses(cfg: Config, s: State, ev: Event) {
    FailedEntry(cfg, s, ev).Some? || (ev.Read? && (s.sess.pending == [] || !ev.ok))
  }

  /** Pending messages and those in or back in the buffer: a released entry whose write failed goes
      back to the buffer. */
  function First(s: State, ev: Event, stream: Stream): seq<Msg> {
    Part(s.sess.pending, stream)
    + Part(if ev.Release? && s.sess.delay != [] then [s.sess.delay[0].entry] else s.buffer, stream)
  }

  /** What is still delayed. */
  function Rest(s: State, ev: Event, stream: Stream): seq<Msg> {
    Part(Entries(if ev.Release? && s.sess.delay != [] then s.sess.delay[1..] else s.sess.delay), stream)
  }

  /** Nothing the lost session moves to the front of the buffer overtakes anything: the coalescer is
      empty or nothing else is queued, and nothing is still delayed or nothing is in front of it. */
  predicate NothingOvertaken(s: State, ev: Event, stream: Stream) {
    var first, rest, last := First(s, ev, stream), Rest(s, ev, stream), Keep(s.sess.durables, Chosen(stream));
    (last == [] || first + rest == []) && (rest == [] || first == [])
  }

  /** Dropping keyed entries drops no durable and no detached message. */
  lemma {:induction false} KeyedAreVolatile(cfg: Config, es: seq<Entry>, p: Msg -> bool)
    requires AllSound(cfg, es) && forall m: Msg :: p(m) ==> !m.cls.Volatile?
    ensures Keep(Flat(Keep(es, IsUnkeyed())), p) == Keep(Flat(es), p)
  {
    if es != [] {
      var e, rest := es[0], es[1..];
      KeyedAreVolatile(cfg, rest, p);
      KeepConcat(e.msgs, Flat(rest), p);
      assert Sound(cfg, e);
      SoundFields(cfg, e, {});
      if e.key.Some? {
        KeepNone(e.msgs, p);
      } else {
        KeepConcat(e.msgs, Flat(Keep(rest, IsUnkeyed())), p);
      }
    }
  }

  lemma FlushedMsgs(ms: seq<Msg>)
    ensures Flat(Flushed(ms)) == ms
  {
    if ms != [] {
      FlatOne(EntryOf(true, ms));
    }
  }

  /** The stream in the buffer after a lost session: coalescing, delayed, pending, then buffered. */
  lemma RequeuedParts(cfg: Config, c: seq<Msg>, d: seq<Entry>, p: seq<Entry>, b: seq<Entry>, stream: Stream)
    requires AllSound(cfg, d) && AllSound(cfg, p) && AllSound(cfg, b)
    ensures Part(Flushed(c) + Keep(d + p + b, IsUnkeyed()), stream)
         == Keep(c, Chosen(stream)) + Part(d, stream) + (Part(p, stream) + Part(b, stream))
  {
    var keep, queued := Chosen(stream), d + p + b;
    assert AllSound(cfg, queued);
    KeyedAreVolatile(cfg, queued, keep);
    FlushedInFront(c, Keep(queued, IsUnkeyed()), stream);
    PartOfThree(d, p, b, stream);
    Blocks(Keep(c, keep), Part(d, stream), Part(p, stream), Part(b, stream));
  }

  lemma Blocks(x: seq<Msg>, y: seq<Msg>, z: seq<Msg>, w: seq<Msg>)
    ensures x + (y + z + w) == x + y + (z + w)
  {
  }

  lemma FlushedInFront(c: seq<Msg>, es: seq<Entry>, stream: Stream)
    ensures Part(Flushed(c) + es, stream) == Keep(c, Chosen(stream)) + Part(es, stream)
  {
    FlushedMsgs(c);
    FlatConcat(Flushed(c), es);
    KeepConcat(c, Flat(es), Chosen(stream));
  }

  lemma PartOfThree(d: seq<Entry>, p: seq<Entry>, b: seq<Entry>, stream: Stream)
    ensures Part(d + p + b, stream) == Part(d, stream) + Part(p, stream) + Part(b, stream)
  {
    FlatConcat(d + p, b);
    FlatConcat(d, p);
    KeepConcat(Flat(d) + Flat(p), Flat(b), Chosen(stream));
    KeepConcat(Flat(d), Flat(p), Chosen(stream));
  }

  /** Moving the last block, then the second, to the front of a line without repeats leaves the line
      as it was only if there was nothing they could overtake. */
  lemma RotatedLine(first: seq<Msg>, rest: seq<Msg>, last: seq<Msg>)
    requires Distinct(first + rest + last)
    ensures last + rest + first == first + rest + last <==> (last == [] || first + rest == []) && (rest == [] || first == [])
  {
    var before, after := first + rest + last, last + rest + first;
    if last != [] && first + rest != [] {
      assert after[0] == last[0] && before[|first + rest|] == last[0];
      assert before[0] != last[0];
    } else if rest != [] && first != [] {
      assert last == [] && after[0] == rest[0] && before[|first|] == rest[0];
      assert before[0] != rest[0];
    } else if last != [] {
      assert first + rest == [] && after == last && before == last;
    } else if rest != [] {
      assert after == rest && before == rest;
    } else {
      assert after == first && before == first;
    }
  }

  lemma RotatedInside(a: seq<Msg>, first: seq<Msg>, rest: seq<Msg>, last: seq<Msg>, i: seq<Msg>)
    requires Distinct(a + (first + rest + last) + i)
    ensures a + (last + rest + first) + i == a + (first + rest + last) + i
       <==> (last == [] || first + rest == []) && (rest == [] || first == [])
  {
    var before, after := first + rest + last, last + rest + first;
    DistinctParts(a + before, i);
    DistinctParts(a, before);
    RotatedLine(first, rest, last);
    if a + after + i == a + before + i {
      assert (a + after + i)[|a|..|a| + |after|] == after;
      assert (a + before + i)[|a|..|a| + |before|] == before;
    }
  }

  lemma PartSplit(es: seq<Entry>, stream: Stream)
    requires es != []
    ensures Part(es, stream) == Part([es[0]], stream) + Part(es[1..], stream)
  {
    FlatOne(es[0]);
    KeepConcat(es[0].msgs, Flat(es[1..]), Chosen(stream));
  }

  /** The stream before the loss, block by block. */
  lemma LineBefore(cfg: Config, s: State, ev: Event, stream: Stream)
    requires Shape(cfg, s) && Enabled(cfg, s, ev) && Loses(cfg, s, ev)
    ensures Keep(History(s), Chosen(stream))
         == Part(s.log.acked, stream)
            + (First(s, ev, stream) + Rest(s, ev, stream) + Keep(s.sess.durables, Chosen(stream)))
            + Keep(s.inbox, Chosen(stream))
  {
    var d := Entries(s.sess.delay);
    KeepInTurn(s.log.acked, s.sess.pending, d, s.buffer, s.sess.durables, s.inbox, stream);
    var a, p, c, i := Part(s.log.acked, stream), Part(s.sess.pending, stream),
                      Keep(s.sess.durables, Chosen(stream)), Keep(s.inbox, Chosen(stream));
    if ev.Release? {
      assert d[0] == s.sess.delay[0].entry && d[1..] == Entries(s.sess.delay[1..]);
      PartSplit(d, stream);
      WithoutMiddle(a, p, Part([d[0]], stream), Part(d[1..], stream), Part(s.buffer, stream), c, i);
    } else {
      EitherEmpty(a, p, Part(d, stream), Part(s.buffer, stream), c, i);
    }
  }

  lemma WithoutMiddle(a: seq<Msg>, p: seq<Msg>, e: seq<Msg>, d: seq<Msg>, b: seq<Msg>, c: seq<Msg>, i: seq<Msg>)
    requires b == []
    ensures a + p + (e + d) + b + c + i == a + (p + e + d + c) + i
  {
  }

  lemma EitherEmpty(a: seq<Msg>, p: seq<Msg>, d: seq<Msg>, b: seq<Msg>, c: seq<Msg>, i: seq<Msg>)
    requires b == [] || d == []
    ensures a + p + d + b + c + i == a + (p + b + d + c) + i
  {
  }

  lemma IdleParts(s: State, stream: Stream)
    requires s.sess == NO_SESSION
    ensures Keep(History(s), Chosen(stream))
         == Part(s.log.acked, stream) + Part(s.buffer, stream) + Keep(s.inbox, Chosen(stream))
  {
    IdleHistory(s);
    KeepConcat(Flat(s.log.acked) + Flat(s.buffer), s.inbox, Chosen(stream));
    KeepConcat(Flat(s.log.acked), Flat(s.buffer), Chosen(stream));
  }

  /** The stream after the loss of the session in `u`. */
  lemma LineAfter(cfg: Config, u: State, stream: Stream)
    requires Shape(cfg, u)
    ensures
      var t := EndSession(cfg, u);
      && t.log.sent == u.log.sent && t.log.discarded == u.log.discarded
      && Keep(History(t), Chosen(stream))
         == Part(u.log.acked, stream)
            + (Keep(u.sess.durables, Chosen(stream)) + Part(Entries(u.sess.delay), stream)
               + (Part(u.sess.pending, stream) + Part(u.buffer, stream)))
            + Keep(u.inbox, Chosen(stream))
  {
    RequeuedParts(cfg, u.sess.durables, Entries(u.sess.delay), u.sess.pending, u.buffer, stream);
    IdleParts(EndSession(cfg, u), stream);
  }

  /** The state whose session an event loses, with a failed entry back in the buffer. */
  function Losing(s: State, ev: Event): State {
    if ev.Release? && s.sess.delay != [] then
      s.(sess := s.sess.(delay := s.sess.delay[1..]), buffer := [s.sess.delay[0].entry] + s.buffer)
    else s
  }

  lemma LosesInto(cfg: Config, s: State, ev: Event)
    requires Shape(cfg, s) && Enabled(cfg, s, ev) && Loses(cfg, s, ev)
    ensures Step(cfg, s, ev) == EndSession(cfg, Losing(s, ev)) && Shape(cfg, Losing(s, ev))
  {
    match ev
    case Pump(ok) =>
      var e := s.buffer[0];
      assert [e] + s.buffer[1..] == s.buffer;
      assert s.(buffer := s.buffer[1..]).(buffer := [e] + s.buffer[1..]) == s;
    case Release(ok) =>
      var d := Entries(s.sess.delay);
      assert d[0] == s.sess.delay[0].entry && Entries(s.sess.delay[1..]) == d[1..];
    case _ =>
  }

  lemma LosingParts(s: State, ev: Event, stream: Stream)
    requires ev.Release? ==> s.buffer == []
    ensures
      var u := Losing(s, ev);
      && First(s, ev, stream) == Part(u.sess.pending, stream) + Part(u.buffer, stream)
      && Rest(s, ev, stream) == Part(Entries(u.sess.delay), stream)
      && u.log == s.log && u.inbox == s.inbox && u.sess.durables == s.sess.durables
  {
    if ev.Release? && s.sess.delay != [] {
      assert [s.sess.delay[0].entry] + s.buffer == [s.sess.delay[0].entry];
    }
  }

  /** The stream after the loss, block by block. */
  lemma LineOfLoss(cfg: Config, s: State, ev: Event, stream: Stream)
    requires Shape(cfg, s) && Enabled(cfg, s, ev) && Loses(cfg, s, ev)
    ensures
      var t := Step(cfg, s, ev);
      && t.log.sent == s.log.sent && t.log.discarded == s.log.discarded
      && Keep(History(t), Chosen(stream))
         == Part(s.log.acked, stream)
            + (Keep(s.sess.durables, Chosen(stream)) + Rest(s, ev, stream) + First(s, ev, stream))
            + Keep(s.inbox, Chosen(stream))
  {
    LosesInto(cfg, s, ev);
    LosingParts(s, ev, stream);
    LineAfter(cfg, Losing(s, ev), stream);
  }

  /** Losing a session keeps a stream in submission order exactly when nothing that goes back to the
      buffer overtakes anything. */
  lemma LostSessionOrder(cfg: Config, s: State, ev: Event, stream: Stream)
    requires Orderly(cfg, s) && InSubmissionOrder(s, stream) && Enabled(cfg, s, ev) && Loses(cfg, s, ev)
    ensures InSubmissionOrder(Step(cfg, s, ev), stream) <==> NothingOvertaken(s, ev, stream)
  {
    LineBefore(cfg, s, ev, stream);
    LineOfLoss(cfg, s, ev, stream);
    HistoryDistinct(cfg, s);
    KeepDistinct(History(s), Chosen(stream));
    RotatedInside(Part(s.log.acked, stream), First(s, ev, stream), Rest(s, ev, stream),
                  Keep(s.sess.durables, Chosen(stream)), Keep(s.inbox, Chosen(stream)));
  }

  // ---- Over a run --------------------------------------------------------------------------

  lemma StepOrder(cfg: Config, s: State, ev: Event, stream: Stream)
    requires Lines(cfg, stream) && Orderly(cfg, s) && InSubmissionOrder(s, stream)
    requires Enabled(cfg, s, ev) && !Loses(cfg, s, ev)
    ensures InSubmissionOrder(Step(cfg, s, ev), stream)
  {
    match ev
    case Submit(m) => SubmitOrder(cfg, s, m, stream);
    case WaitArrive =>
      if s.inbox[0].cls.Volatile? {
        OtherQueue(s, Step(cfg, s, ev), stream);
      } else {
        WaitKeepOrder(cfg, s, stream);
      }
    case Pump(ok) => PumpOrder(cfg, s, ok, stream);
    case Release(ok) => ReleaseOrder(cfg, s, ok, stream);
    case FlushDurable => FlushDurableOrder(s, stream);
    case FlushVolatile => FlushVolatileOrder(s, stream);
    case Arrive => ArriveOrder(cfg, s, stream);
    case Read(ok) => ReadOrder(cfg, s, ok, stream);
    case _ => QuietOrder(s, Step(cfg, s, ev), stream);
  }

  /** Events that move no message. */
  lemma QuietOrder(s: State, t: State, stream: Stream)
    requires t.inbox == s.inbox && t.buffer == s.buffer && t.sess == s.sess
    requires t.log.acked == s.log.acked && t.log.discarded == s.log.discarded && t.log.sent == s.log.sent
    requires InSubmissionOrder(s, stream)
    ensures InSubmissionOrder(t, stream)
  {
  }

  /** Every session the run loses is lost without overtaking. */
  ghost predicate SafeLosses(cfg: Config, s: State, evs: seq<Event>, stream: Stream)
    requires Legal(cfg, s, evs)
    decreases |evs|
  {
    evs == [] ||
    ((Loses(cfg, s, evs[0]) ==> NothingOvertaken(s, evs[0], stream))
     && SafeLosses(cfg, Step(cfg, s, evs[0]), evs[1..], stream))
  }

  /** The stream is in submission order after every event of the run. */
  ghost predicate AlwaysInOrder(cfg: Config, s: State, evs: seq<Event>, stream: Stream)
    requires Legal(cfg, s, evs)
    decreases |evs|
  {
    InSubmissionOrder(s, stream) && (evs != [] ==> AlwaysInOrder(cfg, Step(cfg, s, evs[0]), evs[1..], stream))
  }

  lemma {:induction false} RunOrder(cfg: Config, s: State, evs: seq<Event>, stream: Stream)
    requires Lines(cfg, stream) && Orderly(cfg, s) && InSubmissionOrder(s, stream) && Legal(cfg, s, evs)
    ensures AlwaysInOrder(cfg, s, evs, stream) <==> SafeLosses(cfg, s, evs, stream)
    decreases |evs|
  {
    if evs != [] {
      var t := Step(cfg, s, evs[0]);
      StepOrderly(cfg, s, evs[0]);
      if Loses(cfg, s, evs[0]) {
        LostSessionOrder(cfg, s, evs[0], stream);
      } else {
        StepOrder(cfg, s, evs[0], stream);
      }
      if InSubmissionOrder(t, stream) {
        RunOrder(cfg, t, evs[1..], stream);
      }
    }
  }

  lemma {:induction false} LastInOrder(cfg: Config, s: State, evs: seq<Event>, stream: Stream)
    requires Legal(cfg, s, evs) && AlwaysInOrder(cfg, s, evs, stream)
    ensures InSubmissionOrder(Exec(cfg, s, evs), stream)
    decreases |evs|
  {
    if evs != [] {
      LastInOrder(cfg, Step(cfg, s, evs[0]), evs[1..], stream);
    }
  }

  /** In every mode and over every run, a stream stays in submission order throughout exactly when
      every lost session is lost without overtaking. */
  lemma OrderHoldsExactly(cfg: Config, drop: Option<nat>, evs: seq<Event>, stream: Stream)
    requires Lines(cfg, stream) && Legal(cfg, Init(drop), evs)
    ensures AlwaysInOrder(cfg, Init(drop), evs, stream) <==> SafeLosses(cfg, Init(drop), evs, stream)
  {
    RunOrder(cfg, Init(drop), evs, stream);
  }

  predicate Direct(cfg: Config) {
    !cfg.batched && cfg.latency == 0
  }

  lemma {:induction false} DirectLosesSafely(cfg: Config, s: State, evs: seq<Event>, stream: Stream)
    requires Direct(cfg) && Orderly(cfg, s) && Legal(cfg, s, evs)
    ensures SafeLosses(cfg, s, evs, stream)
    decreases |evs|
  {
    if evs != [] {
      assert s.sess.delay == [] && Entries([]) == [] && s.sess.durables == [];
      StepOrderly(cfg, s, evs[0]);
      DirectLosesSafely(cfg, Step(cfg, s, evs[0]), evs[1..], stream);
    }
  }

  /** Unbatched and without latency, for any pattern of write failures and lost sessions: the
      acknowledged, then pending, then buffered, then queued durable and detached messages are the
      submission history without cancelled messages, in submission order. */
  lemma ReconnectsKeepSubmissionOrder(cfg: Config, drop: Option<nat>, evs: seq<Event>)
    requires Direct(cfg) && Legal(cfg, Init(drop), evs)
    ensures var s, keep := Exec(cfg, Init(drop), evs), Chosen(RetriedStream);
      Keep(Flat(s.log.acked) + Flat(s.sess.pending) + Flat(s.buffer) + s.inbox, keep)
        == Keep(Keep(s.log.sent, keep), NotIn(ToSet(Flat(s.log.discarded))))
  {
    var s := Exec(cfg, Init(drop), evs);
    DirectLosesSafely(cfg, Init(drop), evs, RetriedStream);
    RunOrder(cfg, Init(drop), evs, RetriedStream);
    LastInOrder(cfg, Init(drop), evs, RetriedStream);
    ExecLane(cfg, Init(drop), evs, DurableLane);
    DirectHistory(cfg, s);
  }

  lemma DirectHistory(cfg: Config, s: State)
    requires Direct(cfg) && Shape(cfg, s)
    ensures History(s) == Flat(s.log.acked) + Flat(s.sess.pending) + Flat(s.buffer) + s.inbox
  {
    var a, p, b := Flat(s.log.acked), Flat(s.sess.pending), Flat(s.buffer);
    assert s.sess.delay == [] && s.sess.durables == [] && Entries([]) == [];
    assert a + p + [] + b + [] + s.inbox == a + p + b + s.inbox;
  }

  // ---- A run that breaks the order ---------------------------------------------------------

  const BATCHING := Config(true, 2, 5, 0, false, 0)

  const FIRST := Msg(0, [7, 7], Durable(0))

  const SECOND := Msg(1, [9], Durable(1))

  /** A bundle of one message: its wire length and the bytes that count towards the cap. */
  lemma OneMessage(m: Msg)
    requires m.cls.Durable?
    ensures TotalData([m]) == |m.data| && |EntryOf(true, [m]).data| == 8 + |m.data|
    ensures EntryOf(true, [m]).replies == [m.cls.reply] && EntryOf(true, [m]).key == None
    ensures Flat([EntryOf(true, [m])]) == [m]
  {
    var ds := Datas([m]);
    assert ds[1..] == [];
    Bundle.EncodedLength(ds);
    assert Replies([m]) == [m.cls.reply] + Replies([m][1..]);
    assert MinKey([m]) == MinKey([m][1..]);
    FlatOne(EntryOf(true, [m]));
  }

  lemma BothQueued(evs: seq<Event>)
    requires evs == [Submit(FIRST), Submit(SECOND), Connect]
    ensures Legal(BATCHING, Init(None), evs)
    ensures var s := Exec(BATCHING, Init(None), evs);
      s.phase == Up && s.inbox == [FIRST, SECOND] && s.buffer == [] && s.sess == NO_SESSION && s.closed == {}
  {
    var cfg, s0 := BATCHING, Init(None);
    ExecSnoc(cfg, s0, [], Submit(FIRST));
    ExecSnoc(cfg, s0, [Submit(FIRST)], Submit(SECOND));
    ExecSnoc(cfg, s0, [Submit(FIRST), Submit(SECOND)], Connect);
  }

  lemma FirstIsPending(evs: seq<Event>)
    requires evs == [Submit(FIRST), Submit(SECOND), Connect] + [Arrive] + [Pump(true)]
    ensures Legal(BATCHING, Init(None), evs)
    ensures var s := Exec(BATCHING, Init(None), evs);
      && s.phase == Up && s.inbox == [SECOND] && s.buffer == []
      && s.sess == NO_SESSION.(pending := [EntryOf(true, [FIRST])])
  {
    var cfg, s0, e := BATCHING, Init(None), EntryOf(true, [FIRST]);
    var evs3 := [Submit(FIRST), Submit(SECOND), Connect];
    BothQueued(evs3);
    OneMessage(FIRST);
    ExecSnoc(cfg, s0, evs3, Arrive);
    var s4 := Exec(cfg, s0, evs3 + [Arrive]);
    assert [] + [FIRST] == [FIRST];
    assert s4.buffer == [e] && s4.inbox == [SECOND] && s4.sess == NO_SESSION && s4.closed == {};
    assert 0 in e.replies && !AllClosed(e.replies, s4.closed);
    assert s4.sess.pending + [e] == [e];
    ExecSnoc(cfg, s0, evs3 + [Arrive], Pump(true));
  }

  lemma SecondIsCoalescing(evs: seq<Event>)
    requires evs == [Submit(FIRST), Submit(SECOND), Connect] + [Arrive] + [Pump(true)] + [Arrive]
    ensures Legal(BATCHING, Init(None), evs)
    ensures var s := Exec(BATCHING, Init(None), evs);
      && s.phase == Up && s.buffer == [] && s.sess.delay == [] && s.sess.durables == [SECOND]
      && s.sess.pending == [EntryOf(true, [FIRST])]
  {
    var cfg, s0 := BATCHING, Init(None);
    var evs5 := [Submit(FIRST), Submit(SECOND), Connect] + [Arrive] + [Pump(true)];
    FirstIsPending(evs5);
    OneMessage(SECOND);
    assert [] + [SECOND] == [SECOND];
    ExecSnoc(cfg, s0, evs5, Arrive);
  }

  /** With batching the order can break: an unacknowledged first message is requeued behind a
      second one that was still coalescing. */
  lemma BatchingCanReorder(evs: seq<Event>)
    requires evs == [Submit(FIRST), Submit(SECOND), Connect] + [Arrive] + [Pump(true)] + [Arrive] + [Read(false)]
    ensures Legal(BATCHING, Init(None), evs)
    ensures Flat(Exec(BATCHING, Init(None), evs).buffer) == [SECOND, FIRST]
  {
    var evs6 := [Submit(FIRST), Submit(SECOND), Connect] + [Arrive] + [Pump(true)] + [Arrive];
    SecondIsCoalescing(evs6);
    ExecSnoc(BATCHING, Init(None), evs6, Read(false));
    var e0, e1 := EntryOf(true, [FIRST]), EntryOf(true, [SECOND]);
    OneMessage(FIRST);
    OneMessage(SECOND);
    assert Entries([]) + [e0] + [] == [e0];
    KeepOne(e0, IsUnkeyed());
    FlatConcat([e1], [e0]);
  }
}

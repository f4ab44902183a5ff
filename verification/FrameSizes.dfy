/** The size of the entries a connection writes, against its byte cap and the frame limit. */
module FrameSizes {
  import opened Seqs
  import opened Words
  import opened Transport
  import opened Conservation
  import opened Order
  import opened Timers
  import Bundle
  import Sizes

  /** What no entry exceeds as long as no message is empty. */
  function SizeBound(cfg: Config, largest: nat): nat {
    if cfg.batched then Sizes.BundleBound(cfg.maxBytes, largest) else largest
  }

  predicate AllCapped(cfg: Config, es: seq<Entry>) {
    forall e :: e in es ==> Sizes.Capped(cfg.maxBytes, Datas(e.msgs))
  }

  /** Every entry past the channel was cut off by the cap. */
  predicate CappedState(cfg: Config, s: State) {
    AllCapped(cfg, s.buffer) && AllCapped(cfg, s.sess.pending) && AllCapped(cfg, Entries(s.sess.delay))
  }

  predicate Below(cfg: Config, ms: seq<Msg>) {
    ms != [] ==> TotalData(ms) < cfg.maxBytes
  }

  // ---- Every event keeps the entries capped ------------------------------------------------

  lemma SingleCapped(cfg: Config, m: Msg)
    ensures Sizes.Capped(cfg.maxBytes, Datas([m]))
  {
  }

  lemma DatasSnoc(ms: seq<Msg>, m: Msg)
    ensures Datas(ms + [m]) == Datas(ms) + [m.data]
  {
  }

  lemma GrownCapped(cfg: Config, ms: seq<Msg>, m: Msg)
    requires Below(cfg, ms)
    ensures Sizes.Capped(cfg.maxBytes, Datas(ms + [m]))
  {
    DatasSnoc(ms, m);
    Sizes.CappedSnoc(cfg.maxBytes, Datas(ms), m.data);
  }

  lemma KeepCapped(cfg: Config, es: seq<Entry>, p: Entry -> bool)
    requires AllCapped(cfg, es)
    ensures AllCapped(cfg, Keep(es, p))
  {
    forall e | e in Keep(es, p) ensures Sizes.Capped(cfg.maxBytes, Datas(e.msgs)) {
      KeepMember(es, p, e);
    }
  }

  lemma FlushedCapped(cfg: Config, ms: seq<Msg>)
    requires Below(cfg, ms)
    ensures AllCapped(cfg, Flushed(ms))
  {
    if ms != [] {
      Sizes.CappedBelow(cfg.maxBytes, Datas(ms));
    }
  }

  lemma EndSessionCapped(cfg: Config, s: State)
    requires CappedState(cfg, s) && Below(cfg, s.sess.durables)
    ensures CappedState(cfg, EndSession(cfg, s))
  {
    var queued := Entries(s.sess.delay) + s.sess.pending + s.buffer;
    assert AllCapped(cfg, queued);
    KeepCapped(cfg, queued, IsUnkeyed());
    FlushedCapped(cfg, s.sess.durables);
  }

  lemma WaitArriveCapped(cfg: Config, s: State)
    requires CappedState(cfg, s) && s.inbox != []
    ensures CappedState(cfg, WaitArriveStep(cfg, s))
  {
    var e := EntryOf(cfg.batched, [s.inbox[0]]);
    SingleCapped(cfg, s.inbox[0]);
    assert AllCapped(cfg, s.buffer + [e]);
    KeepCapped(cfg, s.buffer + [e], IsOpen(s.closed));
  }

  lemma PumpCapped(cfg: Config, s: State, ok: bool)
    requires CappedState(cfg, s) && Below(cfg, s.sess.durables) && s.buffer != []
    ensures CappedState(cfg, PumpStep(cfg, s, ok))
  {
    var e, s' := s.buffer[0], s.(buffer := s.buffer[1..]);
    if !AllClosed(e.replies, s.closed) && cfg.latency > 0 {
      EntriesConcat(s.sess.delay, [Timed(s.now + cfg.latency, e)]);
    } else if !AllClosed(e.replies, s.closed) && !ok {
      EndSessionCapped(cfg, s'.(buffer := [e] + s'.buffer));
    }
  }

  lemma ReleaseCapped(cfg: Config, s: State, ok: bool)
    requires CappedState(cfg, s) && Below(cfg, s.sess.durables) && s.sess.delay != []
    ensures CappedState(cfg, ReleaseStep(cfg, s, ok))
  {
    var e, s' := s.sess.delay[0].entry, s.(sess := s.sess.(delay := s.sess.delay[1..]));
    assert e == Entries(s.sess.delay)[0] && Entries(s'.sess.delay) == Entries(s.sess.delay)[1..];
    if !AllClosed(e.replies, s.closed) && !ok {
      EndSessionCapped(cfg, s'.(buffer := [e] + s'.buffer));
    }
  }

  lemma FlushCapped(cfg: Config, s: State)
    requires CappedState(cfg, s)
    ensures Sizes.Capped(cfg.maxBytes, Datas(s.sess.durables)) ==> CappedState(cfg, FlushDurableStep(s))
    ensures Sizes.Capped(cfg.maxBytes, Datas(s.sess.volatiles)) ==> CappedState(cfg, FlushVolatileStep(s))
  {
  }

  lemma OnArrivalCapped(cfg: Config, s: State, m: Msg)
    requires CappedState(cfg, s) && Below(cfg, s.sess.durables) && Below(cfg, s.sess.volatiles)
    ensures CappedState(cfg, OnArrival(cfg, s, m))
  {
    if m.cls.Detached? || !cfg.batched {
      SingleCapped(cfg, m);
    } else if m.cls.Durable? {
      GrownCapped(cfg, s.sess.durables, m);
    } else {
      GrownCapped(cfg, s.sess.volatiles, m);
    }
  }

  lemma StepCapped(cfg: Config, s: State, ev: Event)
    requires CappedState(cfg, s) && Enabled(cfg, s, ev) && Below(cfg, s.sess.durables) && Below(cfg, s.sess.volatiles)
    ensures CappedState(cfg, Step(cfg, s, ev))
  {
    match ev
    case WaitArrive => WaitArriveCapped(cfg, s);
    case Pump(ok) => PumpCapped(cfg, s, ok);
    case Release(ok) => ReleaseCapped(cfg, s, ok);
    case FlushDurable =>
      Sizes.CappedBelow(cfg.maxBytes, Datas(s.sess.durables));
      FlushCapped(cfg, s);
    case FlushVolatile =>
      Sizes.CappedBelow(cfg.maxBytes, Datas(s.sess.volatiles));
      FlushCapped(cfg, s);
    case Arrive =>
      var m := s.inbox[0];
      OnArrivalCapped(cfg, s.(inbox := s.inbox[1..],
                              log := s.log.(arrived := s.log.arrived + [m], entered := s.log.entered[m.id := s.now])), m);
    case Read(ok) => EndSessionCapped(cfg, s);
    case _ =>
  }

  lemma {:induction false} ExecCapped(cfg: Config, s: State, evs: seq<Event>)
    requires CappedState(cfg, s) && Orderly(cfg, s) && Punctual(cfg, s) && Legal(cfg, s, evs)
    ensures CappedState(cfg, Exec(cfg, s, evs)) && Orderly(cfg, Exec(cfg, s, evs))
    decreases |evs|
  {
    if evs != [] {
      StepCapped(cfg, s, evs[0]);
      StepOrderly(cfg, s, evs[0]);
      StepPunctual(cfg, s, evs[0]);
      ExecCapped(cfg, Step(cfg, s, evs[0]), evs[1..]);
    }
  }

  // ---- The bound over every run ------------------------------------------------------------

  /** Every submitted message has between `least` and `largest` bytes. */
  predicate Submits(evs: seq<Event>, least: nat, largest: nat) {
    forall ev :: ev in evs && ev.Submit? ==> least <= |ev.m.data| <= largest
  }

  lemma {:induction false} SentSizes(cfg: Config, s: State, evs: seq<Event>, least: nat, largest: nat)
    requires Legal(cfg, s, evs) && Submits(evs, least, largest)
    requires forall m :: m in s.log.sent ==> least <= |m.data| <= largest
    ensures forall m :: m in Exec(cfg, s, evs).log.sent ==> least <= |m.data| <= largest
    decreases |evs|
  {
    if evs != [] {
      StepSent(cfg, s, evs[0]);
      SentSizes(cfg, Step(cfg, s, evs[0]), evs[1..], least, largest);
    }
  }

  /** The entries a connection holds. */
  function Queued(s: State): seq<Entry> {
    s.buffer + s.sess.pending + Entries(s.sess.delay)
  }

  lemma QueuedWasSent(s: State, e: Entry, m: Msg)
    requires Conserved(s) && e in Queued(s) && m in e.msgs
    ensures m in s.log.sent
  {
    var b, p, d := s.buffer, s.sess.pending, Entries(s.sess.delay);
    WithinMember(Queued(s), e, m);
    WithinConcat(b + p, d, m);
    WithinConcat(b, p, m);
    assert Count(s.log.sent, m) == Held(s, m) + Settled(s, m);
    CountIn(s.log.sent, m);
  }

  /** Messages are of at most `largest` bytes and entries were cut off by the cap. */
  ghost predicate Bounded(cfg: Config, s: State, largest: nat) {
    && CappedState(cfg, s) && Orderly(cfg, s)
    && forall m :: m in s.log.sent ==> |m.data| <= largest
  }

  lemma ExecBounded(cfg: Config, drop: Option<nat>, evs: seq<Event>, least: nat, largest: nat)
    requires Legal(cfg, Init(drop), evs) && Submits(evs, least, largest)
    ensures var s := Exec(cfg, Init(drop), evs); Bounded(cfg, s, largest) && forall m :: m in s.log.sent ==> least <= |m.data|
  {
    ExecCapped(cfg, Init(drop), evs);
    SentSizes(cfg, Init(drop), evs, least, largest);
  }

  lemma QueuedIsSound(cfg: Config, s: State, e: Entry)
    requires CappedState(cfg, s) && Orderly(cfg, s) && e in Queued(s)
    ensures Sound(cfg, e) && Sizes.Capped(cfg.maxBytes, Datas(e.msgs))
  {
  }

  lemma EntryIsBounded(cfg: Config, s: State, largest: nat, e: Entry)
    requires Bounded(cfg, s, largest) && e in Queued(s)
    ensures |e.data| <= SizeBound(cfg, largest) + 4 * Sizes.Empties(Datas(e.msgs))
  {
    QueuedIsSound(cfg, s, e);
    forall i | 0 <= i < |e.msgs| ensures |Datas(e.msgs)[i]| <= largest {
      QueuedWasSent(s, e, e.msgs[i]);
    }
    Sizes.CappedBundleSize(cfg.maxBytes, Datas(e.msgs), largest);
  }

  /** In every run, whatever the messages: an entry is at most 5B + 3 + M bytes and four more for
      each empty message in it. */
  lemma EntriesAreBounded(cfg: Config, drop: Option<nat>, evs: seq<Event>, largest: nat, e: Entry)
    requires Legal(cfg, Init(drop), evs) && Submits(evs, 0, largest)
    requires e in Queued(Exec(cfg, Init(drop), evs))
    ensures |e.data| <= SizeBound(cfg, largest) + 4 * Sizes.Empties(Datas(e.msgs))
  {
    ExecBounded(cfg, drop, evs, 0, largest);
    EntryIsBounded(cfg, Exec(cfg, Init(drop), evs), largest, e);
  }

  predicate AllWithin(es: seq<Entry>, bound: nat) {
    forall e :: e in es ==> |e.data| <= bound
  }

  lemma NonEmptyEntries(cfg: Config, s: State, largest: nat)
    requires Bounded(cfg, s, largest) && forall m :: m in s.log.sent ==> 1 <= |m.data|
    ensures AllWithin(Queued(s), SizeBound(cfg, largest))
  {
    forall e | e in Queued(s) ensures |e.data| <= SizeBound(cfg, largest) {
      EntryIsBounded(cfg, s, largest, e);
      forall i | 0 <= i < |e.msgs| ensures Datas(e.msgs)[i] != [] {
        QueuedWasSent(s, e, e.msgs[i]);
      }
      Sizes.NoEmpties(Datas(e.msgs));
    }
  }

  lemma EntriesWithin(cfg: Config, drop: Option<nat>, evs: seq<Event>, largest: nat)
    requires Legal(cfg, Init(drop), evs) && Submits(evs, 1, largest)
    ensures AllWithin(Queued(Exec(cfg, Init(drop), evs)), SizeBound(cfg, largest))
  {
    ExecBounded(cfg, drop, evs, 1, largest);
    NonEmptyEntries(cfg, Exec(cfg, Init(drop), evs), largest);
  }

  /** No write is refused for its size. */
  predicate WritesFit(cfg: Config, s: State) {
    && (Enabled(cfg, s, Pump(false)) ==> Enabled(cfg, s, Pump(true)))
    && (Enabled(cfg, s, Release(false)) ==> Enabled(cfg, s, Release(true)))
  }

  lemma SmallEntriesFit(cfg: Config, s: State, bound: nat)
    requires AllWithin(Queued(s), bound) && bound <= MAX_FRAME_LENGTH
    ensures WritesFit(cfg, s)
  {
    if s.buffer != [] {
      assert s.buffer[0] in Queued(s);
    }
    if s.sess.delay != [] {
      assert s.sess.delay[0].entry == Entries(s.sess.delay)[0] && Entries(s.sess.delay)[0] in Queued(s);
    }
  }

  /** With non-empty messages of at most M bytes, no entry of any run is larger than 5B + 3 + M; so
      when that is within the frame limit, no write is ever refused for its size. */
  lemma EntriesFitFrames(cfg: Config, drop: Option<nat>, evs: seq<Event>, largest: nat)
    requires Legal(cfg, Init(drop), evs) && Submits(evs, 1, largest)
    ensures AllWithin(Queued(Exec(cfg, Init(drop), evs)), SizeBound(cfg, largest))
    ensures SizeBound(cfg, largest) <= MAX_FRAME_LENGTH ==> WritesFit(cfg, Exec(cfg, Init(drop), evs))
  {
    EntriesWithin(cfg, drop, evs, largest);
    if SizeBound(cfg, largest) <= MAX_FRAME_LENGTH {
      SmallEntriesFit(cfg, Exec(cfg, Init(drop), evs), SizeBound(cfg, largest));
    }
  }

  // ---- Runs that reach the bound, and that exceed it with empty messages -------------------

  /** Durable messages with the given contents, numbered in order. */
  function Durables(ds: seq<Bytes>): (ms: seq<Msg>)
    ensures |ms| == |ds|
  {
    seq(|ds|, i requires 0 <= i < |ds| => Msg(i, ds[i], Durable(i)))
  }

  lemma DurablesSnoc(ds: seq<Bytes>, d: Bytes)
    ensures Durables(ds + [d]) == Durables(ds) + [Msg(|ds|, d, Durable(|ds|))] && Datas(Durables(ds)) == ds
  {
  }

  /** A session that has been up since time zero, has taken `ms` in and holds them in `durables`. */
  predicate Holding(cfg: Config, s: State, ms: seq<Msg>) {
    && s.phase == Up && s.now == 0 && s.inbox == [] && s.buffer == [] && s.closed == {} && s.sess.delay == []
    && |s.log.sent| == |ms| && s.sess.durables == ms && (ms != [] ==> s.sess.durableDue == Some(cfg.maxDelay))
  }

  predicate SubmitsOnly(evs: seq<Event>, ds: seq<Bytes>) {
    forall ev :: ev in evs && ev.Submit? ==> ev.m.data in ds
  }

  /** One more durable message submitted to, and taken in by, such a session. */
  lemma TakeIn(cfg: Config, evs: seq<Event>, ms: seq<Msg>, m: Msg) returns (evs': seq<Event>)
    requires cfg.batched && Legal(cfg, Init(None), evs) && Holding(cfg, Exec(cfg, Init(None), evs), ms)
    requires m.id == |ms| && m.cls.Durable?
    ensures evs' == evs + [Submit(m)] + [Arrive] && Legal(cfg, Init(None), evs')
    ensures
      var t := Exec(cfg, Init(None), evs');
      if TotalData(ms + [m]) < cfg.maxBytes then Holding(cfg, t, ms + [m])
      else t.buffer == [EntryOf(true, ms + [m])]
  {
    var s := Exec(cfg, Init(None), evs);
    ExecSnoc(cfg, Init(None), evs, Submit(m));
    var s1 := Exec(cfg, Init(None), evs + [Submit(m)]);
    assert s1.inbox == [m] && s1.inbox[1..] == [];
    ExecSnoc(cfg, Init(None), evs + [Submit(m)], Arrive);
    evs' := evs + [Submit(m)] + [Arrive];
    assert [] + [EntryOf(true, ms + [m])] == [EntryOf(true, ms + [m])];
  }

  /** Any contents below the cap can be coalescing. */
  lemma {:induction false} Gathers(cfg: Config, ds: seq<Bytes>) returns (evs: seq<Event>)
    requires cfg.batched && (ds != [] ==> Bundle.TotalLength(ds) < cfg.maxBytes)
    ensures Legal(cfg, Init(None), evs) && Holding(cfg, Exec(cfg, Init(None), evs), Durables(ds)) && SubmitsOnly(evs, ds)
  {
    if ds == [] {
      ExecSnoc(cfg, Init(None), [], Connect);
      evs := [] + [Connect];
      assert Flat([]) == [];
    } else {
      var front, d := ds[..|ds| - 1], ds[|ds| - 1];
      assert ds == front + [d];
      Sizes.TotalSnoc(front, d);
      var before := Gathers(cfg, front);
      DurablesSnoc(front, d);
      DurablesSnoc(ds, d);
      evs := TakeIn(cfg, before, Durables(front), Msg(|front|, d, Durable(|front|)));
    }
  }

  function Copies(d: Bytes, k: nat): (ds: seq<Bytes>)
    ensures |ds| == k && forall i :: 0 <= i < k ==> ds[i] == d
  {
    seq(k, _ => d)
  }

  lemma {:induction false} CopiesTotal(d: Bytes, k: nat)
    ensures Bundle.TotalLength(Copies(d, k)) == k * |d|
  {
    if k > 0 {
      CopiesTotal(d, k - 1);
      assert Copies(d, k)[1..] == Copies(d, k - 1);
      assert k * |d| == (k - 1) * |d| + |d|;
    }
  }

  /** Empty messages never reach a positive cap: for every k there is a run whose one entry bundles
      k of them, so no bound on the message size bounds the entries. */
  lemma EmptyBundleGrows(cfg: Config, k: nat) returns (evs: seq<Event>)
    requires cfg.batched && cfg.maxBytes >= 1 && k > 0
    ensures Legal(cfg, Init(None), evs) && Submits(evs, 0, 0)
    ensures
      var s := Exec(cfg, Init(None), evs);
      |s.buffer| == 1 && s.buffer[0].msgs == Durables(Copies([], k)) && |s.buffer[0].data| == 4 + 4 * k
  {
    var ds := Copies([], k);
    CopiesTotal([], k);
    var evs0 := Gathers(cfg, ds);
    ExecSnoc(cfg, Init(None), evs0, Tick(cfg.maxDelay));
    var evs1 := evs0 + [Tick(cfg.maxDelay)];
    ExecSnoc(cfg, Init(None), evs1, FlushDurable);
    evs := evs1 + [FlushDurable];
    DurablesSnoc(ds, []);
    Bundle.EncodedLength(ds);
  }

  /** The bound is reached: B - 1 one-byte messages, then one of M bytes. */
  lemma BoundIsReached(cfg: Config, largest: nat) returns (evs: seq<Event>)
    requires cfg.batched && largest >= 1
    ensures Legal(cfg, Init(None), evs) && Submits(evs, 1, largest)
    ensures var s := Exec(cfg, Init(None), evs); |s.buffer| == 1 && |s.buffer[0].data| == SizeBound(cfg, largest)
  {
    var k := if cfg.maxBytes == 0 then 0 else cfg.maxBytes - 1;
    var ds, last := Copies([0], k), seq(largest, _ => 0);
    CopiesTotal([0], k);
    var evs0 := Gathers(cfg, ds);
    DurablesSnoc(ds, last);
    Sizes.TotalSnoc(ds, last);
    DurablesSnoc(ds + [last], last);
    evs := TakeIn(cfg, evs0, Durables(ds), Msg(k, last, Durable(k)));
    FullBundle(cfg.maxBytes, ds, last);
  }

  lemma FullBundle(cap: nat, ds: seq<Bytes>, last: Bytes)
    requires |ds| == Bundle.TotalLength(ds) == if cap == 0 then 0 else cap - 1
    ensures |Bundle.Encode(ds + [last])| == Sizes.BundleBound(cap, |last|)
  {
    Sizes.TotalSnoc(ds, last);
    Bundle.EncodedLength(ds + [last]);
  }

  // ---- Exactly when the bound holds --------------------------------------------------------

  /** Every run on messages of these sizes keeps every entry within the bound. */
  ghost predicate BoundHolds(cfg: Config, least: nat, largest: nat) {
    forall drop: Option<nat>, evs: seq<Event> ::
      Legal(cfg, Init(drop), evs) && Submits(evs, least, largest) ==>
        AllWithin(Queued(Exec(cfg, Init(drop), evs)), SizeBound(cfg, largest))
  }

  lemma BoundHoldsWithout(cfg: Config, least: nat, largest: nat)
    requires least >= 1 || !cfg.batched || cfg.maxBytes == 0
    ensures BoundHolds(cfg, least, largest)
  {
    forall drop: Option<nat>, evs: seq<Event> | Legal(cfg, Init(drop), evs) && Submits(evs, least, largest)
      ensures AllWithin(Queued(Exec(cfg, Init(drop), evs)), SizeBound(cfg, largest))
    {
      if least >= 1 {
        EntriesWithin(cfg, drop, evs, largest);
      } else {
        SinglesWithin(cfg, drop, evs, largest);
      }
    }
  }

  lemma SingleEntries(cfg: Config, s: State, largest: nat)
    requires Bounded(cfg, s, largest) && (!cfg.batched || cfg.maxBytes == 0)
    ensures AllWithin(Queued(s), SizeBound(cfg, largest))
  {
    forall e | e in Queued(s) ensures |e.data| <= SizeBound(cfg, largest) {
      QueuedIsSound(cfg, s, e);
      QueuedWasSent(s, e, e.msgs[0]);
      SingleSize(cfg, e);
    }
  }

  /** Without batching, or with a zero cap, an entry is a single message. */
  lemma SinglesWithin(cfg: Config, drop: Option<nat>, evs: seq<Event>, largest: nat)
    requires Legal(cfg, Init(drop), evs) && Submits(evs, 0, largest) && (!cfg.batched || cfg.maxBytes == 0)
    ensures AllWithin(Queued(Exec(cfg, Init(drop), evs)), SizeBound(cfg, largest))
  {
    ExecBounded(cfg, drop, evs, 0, largest);
    SingleEntries(cfg, Exec(cfg, Init(drop), evs), largest);
  }

  lemma SingleSize(cfg: Config, e: Entry)
    requires Sound(cfg, e) && |e.msgs| == 1
    ensures |e.data| == |e.msgs[0].data| + if cfg.batched then 8 else 0
  {
    var ds := Datas(e.msgs);
    assert ds[1..] == [];
    Bundle.EncodedLength(ds);
  }

  /** The size bound holds over all runs on messages of `least` to `largest` bytes exactly when no
      message may be empty, or nothing is ever bundled. */
  lemma BoundHoldsExactly(cfg: Config, least: nat, largest: nat)
    requires least <= largest
    ensures BoundHolds(cfg, least, largest) <==> least >= 1 || !cfg.batched || cfg.maxBytes == 0
  {
    if least >= 1 || !cfg.batched || cfg.maxBytes == 0 {
      BoundHoldsWithout(cfg, least, largest);
    } else {
      var evs := EmptyBundleGrows(cfg, SizeBound(cfg, largest) + 1);
      var s := Exec(cfg, Init(None), evs);
      assert s.buffer[0] in Queued(s);
      assert Submits(evs, least, largest);
    }
  }
}

/**
  The reliable connection of network/src/reliable_sender.rs as a transition system.

  One state describes the actor of one peer: the channel in front of it, the retry buffer, and,
  while a session is up, the entries awaiting an acknowledgement, the delay queue and the two
  coalescers. Every await point of the source separates two events, so reply targets may close
  and time may pass between any two of them.
*/
module Transport {
  import opened Seqs
  import opened Words
  import Bundle

  /** Delivery class of a message; a reply target is identified by a number. */
  datatype Class = Durable(reply: nat) | Detached(kind: Option<string>) | Volatile(key: nat)

  /** A message handed to the sender; `id` is its position among all of them. */
  datatype Msg = Msg(id: nat, data: Bytes, cls: Class)

  /** A buffered entry: wire bytes, reply targets, volatile key, detached type, and (for
      specification) the messages it stands for. No step branches on `msgs`. */
  datatype Entry = Entry(data: Bytes, replies: seq<nat>, key: Option<nat>, kind: Option<string>, msgs: seq<Msg>)

  datatype Timed = Timed(release: nat, entry: Entry)

  datatype Config = Config(batched: bool, maxBytes: nat, maxDelay: nat, latency: nat, dropMap: bool, softCap: nat)

  /** Idle: about to connect. Waiting: backing off after a failed connect. Up: in a session. */
  datatype Phase = Idle | Waiting | Up

  datatype Session = Session(pending: seq<Entry>, delay: seq<Timed>,
                             durables: seq<Msg>, durableDue: Option<nat>,
                             volatiles: seq<Msg>, volatileDue: Option<nat>)

  /** What has happened so far; `entered` is the time a message id reached the connection. The
      last four fields restart with every session. */
  datatype Log = Log(sent: seq<Msg>, acked: seq<Entry>, discarded: seq<Entry>, lost: seq<Msg>, links: seq<bool>,
                     entered: map<nat, nat>,
                     start: seq<Msg>, arrived: seq<Msg>, written: seq<Entry>, acks: nat)

  datatype State = State(now: nat, phase: Phase, inbox: seq<Msg>, buffer: seq<Entry>, sess: Session,
                         drop: Option<nat>, closed: set<nat>, link: Option<bool>, log: Log)

  datatype Event =
    | Tick(dt: nat)
    | Close(reply: nat)
    | Submit(m: Msg)
    | Connect
    | ConnectFail
    | WaitArrive
    | WaitOver
    | Pump(ok: bool)
    | Release(ok: bool)
    | FlushDurable
    | FlushVolatile
    | Arrive
    | Read(ok: bool)

  const CHANNEL_CAPACITY: nat := 100_000

  const MAX_FRAME_LENGTH: nat := 64 * 1024 * 1024

  const NO_SESSION := Session([], [], [], None, [], None)

  // ---- Entries ---------------------------------------------------------------------------

  function Datas(ms: seq<Msg>): (ds: seq<Bytes>)
    ensures |ds| == |ms|
  {
    seq(|ms|, i requires 0 <= i < |ms| => ms[i].data)
  }

  function Replies(ms: seq<Msg>): seq<nat> {
    if ms == [] then []
    else (if ms[0].cls.Durable? then [ms[0].cls.reply] else []) + Replies(ms[1..])
  }

  /** The least key among the volatile messages. */
  function MinKey(ms: seq<Msg>): Option<nat> {
    if ms == [] then None
    else MinOption(if ms[0].cls.Volatile? then Some(ms[0].cls.key) else None, MinKey(ms[1..]))
  }

  function KindOf(ms: seq<Msg>): Option<string> {
    if |ms| == 1 && ms[0].cls.Detached? then ms[0].cls.kind else None
  }

  /** The entry that carries `ms`: a bundle when batching, otherwise the bare message. */
  function EntryOf(batched: bool, ms: seq<Msg>): Entry {
    Entry(if batched then Bundle.Encode(Datas(ms)) else if |ms| == 1 then ms[0].data else [],
          Replies(ms), MinKey(ms), KindOf(ms), ms)
  }

  /** True when there are reply targets and all of them are closed. */
  predicate AllClosed(replies: seq<nat>, closed: set<nat>) {
    replies != [] && forall r :: r in replies ==> r in closed
  }

  function IsOpen(closed: set<nat>): Entry -> bool {
    (e: Entry) => !AllClosed(e.replies, closed)
  }

  function IsShut(closed: set<nat>): Entry -> bool {
    (e: Entry) => AllClosed(e.replies, closed)
  }

  function IsKeyed(): Entry -> bool {
    (e: Entry) => e.key.Some?
  }

  function IsUnkeyed(): Entry -> bool {
    (e: Entry) => e.key.None?
  }

  /** The least volatile key recorded on a list of entries. */
  function LeastKey(es: seq<Entry>): Option<nat> {
    if es == [] then None else MinOption(es[0].key, LeastKey(es[1..]))
  }

  /** The messages of a list of entries, in order. */
  function Flat(es: seq<Entry>): seq<Msg> {
    if es == [] then [] else es[0].msgs + Flat(es[1..])
  }

  function Entries(delay: seq<Timed>): (es: seq<Entry>)
    ensures |es| == |delay|
  {
    seq(|delay|, i requires 0 <= i < |delay| => delay[i].entry)
  }

  function TotalData(ms: seq<Msg>): nat {
    Bundle.TotalLength(Datas(ms))
  }

  // ---- Steps -----------------------------------------------------------------------------

  function Init(drop: Option<nat>): State {
    State(0, Idle, [], [], NO_SESSION, drop, {}, None, Log([], [], [], [], [], map[], [], [], [], 0))
  }

  /** `report_dropped` and `record_volatile_shed`: the map keeps the least key lost. */
  function Report(cfg: Config, drop: Option<nat>, key: Option<nat>): Option<nat> {
    if cfg.dropMap then MinOption(drop, key) else drop
  }

  /** `report_link`: only transitions reach the log. */
  function ReportLink(s: State, up: bool): State {
    if s.link == Some(up) then s else s.(link := Some(up), log := s.log.(links := s.log.links + [up]))
  }

  /** `send_volatile` gives the message up instead of waiting for channel capacity. */
  predicate Sheds(cfg: Config, s: State, m: Msg) {
    m.cls.Volatile? && cfg.softCap > 0 && (|s.inbox| >= cfg.softCap || |s.inbox| >= CHANNEL_CAPACITY)
  }

  function SubmitStep(cfg: Config, s: State, m: Msg): State {
    var log := s.log.(sent := s.log.sent + [m]);
    if Sheds(cfg, s, m) then
      s.(drop := Report(cfg, s.drop, Some(m.cls.key)), log := log.(lost := log.lost + [m]))
    else
      s.(inbox := s.inbox + [m], log := log)
  }

  function ConnectStep(s: State): State {
    ReportLink(s.(phase := Up, sess := NO_SESSION,
                  log := s.log.(start := Flat(s.buffer), arrived := [], written := [], acks := 0)), true)
  }

  /** A message received while backing off (lines 780-793). */
  function WaitArriveStep(cfg: Config, s: State): State
    requires s.inbox != []
  {
    var m := s.inbox[0];
    var log := s.log.(entered := s.log.entered[m.id := s.now]);
    if m.cls.Volatile? then
      s.(inbox := s.inbox[1..], drop := Report(cfg, s.drop, Some(m.cls.key)), log := log.(lost := log.lost + [m]))
    else
      var queued := s.buffer + [EntryOf(cfg.batched, [m])];
      s.(inbox := s.inbox[1..], buffer := Keep(queued, IsOpen(s.closed)),
         log := log.(discarded := log.discarded + Keep(queued, IsShut(s.closed))))
  }

  function Flushed(ms: seq<Msg>): seq<Entry> {
    if ms == [] then [] else [EntryOf(true, ms)]
  }

  /** Requeue and drop procedure at the end of a session (lines 931-957 and 1040-1071). */
  function Requeued(cfg: Config, s: State): State {
    var queued := Entries(s.sess.delay) + s.sess.pending + s.buffer;
    var dropped := Keep(queued, IsKeyed());
    s.(phase := Idle, sess := NO_SESSION,
       buffer := Flushed(s.sess.durables) + Keep(queued, IsUnkeyed()),
       drop := Report(cfg, s.drop, MinOption(LeastKey(dropped), MinKey(s.sess.volatiles))),
       log := s.log.(lost := s.log.lost + Flat(dropped) + s.sess.volatiles,
                     start := [], arrived := [], written := [], acks := 0))
  }

  function EndSession(cfg: Config, s: State): State {
    ReportLink(Requeued(cfg, s), false)
  }

  /** A frame handed to the writer: it now waits for its acknowledgement. */
  function Written(s: State, e: Entry): State {
    s.(sess := s.sess.(pending := s.sess.pending + [e]), log := s.log.(written := s.log.written + [e]))
  }

  function Discarded(s: State, e: Entry): State {
    s.(log := s.log.(discarded := s.log.discarded + [e]))
  }

  /** One iteration of the buffer loop: written at once, or scheduled when a latency is set. */
  function PumpStep(cfg: Config, s: State, ok: bool): State
    requires s.buffer != []
  {
    var e, s' := s.buffer[0], s.(buffer := s.buffer[1..]);
    if AllClosed(e.replies, s.closed) then Discarded(s', e)
    else if cfg.latency > 0 then
      s'.(sess := s.sess.(delay := s.sess.delay + [Timed(s.now + cfg.latency, e)]))
    else if ok then Written(s', e)
    else EndSession(cfg, s'.(buffer := [e] + s'.buffer))
  }

  function ReleaseStep(cfg: Config, s: State, ok: bool): State
    requires s.sess.delay != []
  {
    var e, s' := s.sess.delay[0].entry, s.(sess := s.sess.(delay := s.sess.delay[1..]));
    if AllClosed(e.replies, s.closed) then Discarded(s', e)
    else if ok then Written(s', e)
    else EndSession(cfg, s'.(buffer := [e] + s'.buffer))
  }

  function FlushDurableStep(s: State): State {
    s.(sess := s.sess.(durables := [], durableDue := None), buffer := s.buffer + [EntryOf(true, s.sess.durables)])
  }

  function FlushVolatileStep(s: State): State {
    s.(sess := s.sess.(volatiles := [], volatileDue := None), buffer := s.buffer + [EntryOf(true, s.sess.volatiles)])
  }

  /** `on_arrival`: route one message to the buffer or to its coalescer. */
  function OnArrival(cfg: Config, s: State, m: Msg): State {
    if m.cls.Detached? || !cfg.batched then
      s.(buffer := s.buffer + [EntryOf(cfg.batched, [m])])
    else if m.cls.Durable? then
      var due := if s.sess.durables == [] then Some(s.now + cfg.maxDelay) else s.sess.durableDue;
      var s' := s.(sess := s.sess.(durables := s.sess.durables + [m], durableDue := due));
      if TotalData(s'.sess.durables) >= cfg.maxBytes then FlushDurableStep(s') else s'
    else
      var due := if s.sess.volatiles == [] then Some(s.now + cfg.maxDelay) else s.sess.volatileDue;
      var s' := s.(sess := s.sess.(volatiles := s.sess.volatiles + [m], volatileDue := due));
      if TotalData(s'.sess.volatiles) >= cfg.maxBytes then FlushVolatileStep(s') else s'
  }

  function ArriveStep(cfg: Config, s: State): State
    requires s.inbox != []
  {
    var m := s.inbox[0];
    OnArrival(cfg, s.(inbox := s.inbox[1..],
                      log := s.log.(arrived := s.log.arrived + [m], entered := s.log.entered[m.id := s.now])), m)
  }

  /** The reader yields an acknowledgement (`ok`), an error, or the end of the stream. */
  function ReadStep(cfg: Config, s: State, ok: bool): State {
    if s.sess.pending == [] || !ok then EndSession(cfg, s) else Acknowledged(s)
  }

  /** The oldest pending entry is settled. */
  function Acknowledged(s: State): State
    requires s.sess.pending != []
  {
    s.(sess := s.sess.(pending := s.sess.pending[1..]),
       log := s.log.(acked := s.log.acked + [s.sess.pending[0]], acks := s.log.acks + 1))
  }

  /** The select arms are polled only once the buffer loop has emptied the buffer. */
  predicate Selecting(s: State) {
    s.phase == Up && s.buffer == []
  }

  predicate Due(at: Option<nat>, now: nat) {
    at.Some? && at.value <= now
  }

  predicate Enabled(cfg: Config, s: State, ev: Event) {
    match ev
    case Tick(_) => true
    case Close(_) => true
    case Submit(m) => m.id == |s.log.sent| && (Sheds(cfg, s, m) || |s.inbox| < CHANNEL_CAPACITY)
    case Connect => s.phase == Idle
    case ConnectFail => s.phase == Idle
    case WaitArrive => s.phase == Waiting && s.inbox != []
    case WaitOver => s.phase == Waiting
    case Pump(ok) => s.phase == Up && s.buffer != [] && (ok ==> |s.buffer[0].data| <= MAX_FRAME_LENGTH)
    case Release(ok) =>
      Selecting(s) && s.sess.delay != [] && s.sess.delay[0].release <= s.now
      && (ok ==> |s.sess.delay[0].entry.data| <= MAX_FRAME_LENGTH)
    case FlushDurable => Selecting(s) && cfg.batched && s.sess.durables != [] && Due(s.sess.durableDue, s.now)
    case FlushVolatile => Selecting(s) && cfg.batched && s.sess.volatiles != [] && Due(s.sess.volatileDue, s.now)
    case Arrive => Selecting(s) && s.inbox != []
    case Read(_) => Selecting(s)
  }

  function Step(cfg: Config, s: State, ev: Event): State
    requires Enabled(cfg, s, ev)
  {
    match ev
    case Tick(dt) => s.(now := s.now + dt)
    case Close(r) => s.(closed := s.closed + {r})
    case Submit(m) => SubmitStep(cfg, s, m)
    case Connect => ConnectStep(s)
    case ConnectFail => ReportLink(s.(phase := Waiting), false)
    case WaitArrive => WaitArriveStep(cfg, s)
    case WaitOver => s.(phase := Idle)
    case Pump(ok) => PumpStep(cfg, s, ok)
    case Release(ok) => ReleaseStep(cfg, s, ok)
    case FlushDurable => FlushDurableStep(s)
    case FlushVolatile => FlushVolatileStep(s)
    case Arrive => ArriveStep(cfg, s)
    case Read(ok) => ReadStep(cfg, s, ok)
  }

  /** The entry whose write an event reports as failed, if it does. */
  function FailedEntry(cfg: Config, s: State, ev: Event): Option<Entry> {
    match ev
    case Pump(ok) =>
      if s.buffer != [] && !AllClosed(s.buffer[0].replies, s.closed) && cfg.latency == 0 && !ok then Some(s.buffer[0]) else None
    case Release(ok) =>
      if s.sess.delay != [] && !AllClosed(s.sess.delay[0].entry.replies, s.closed) && !ok then Some(s.sess.delay[0].entry)
      else None
    case _ => None
  }

  /** Every event of the run is enabled when its turn comes. */
  predicate Legal(cfg: Config, s: State, evs: seq<Event>)
    decreases |evs|
  {
    evs == [] || (Enabled(cfg, s, evs[0]) && Legal(cfg, Step(cfg, s, evs[0]), evs[1..]))
  }

  function Exec(cfg: Config, s: State, evs: seq<Event>): State
    requires Legal(cfg, s, evs)
    decreases |evs|
  {
    if evs == [] then s else Exec(cfg, Step(cfg, s, evs[0]), evs[1..])
  }

  lemma {:induction false} ExecSnoc(cfg: Config, s: State, evs: seq<Event>, ev: Event)
    requires Legal(cfg, s, evs) && Enabled(cfg, Exec(cfg, s, evs), ev)
    ensures Legal(cfg, s, evs + [ev]) && Exec(cfg, s, evs + [ev]) == Step(cfg, Exec(cfg, s, evs), ev)
    decreases |evs|
  {
    if evs == [] {
      assert [ev][1..] == [];
    } else {
      ExecSnoc(cfg, Step(cfg, s, evs[0]), evs[1..], ev);
      assert (evs + [ev])[1..] == evs[1..] + [ev];
    }
  }

  // ---- Facts about entry lists -----------------------------------------------------------

  lemma {:induction false} FlatConcat(xs: seq<Entry>, ys: seq<Entry>)
    ensures Flat(xs + ys) == Flat(xs) + Flat(ys)
  {
    if xs == [] {
      assert xs + ys == ys;
    } else {
      assert (xs + ys)[1..] == xs[1..] + ys;
      FlatConcat(xs[1..], ys);
    }
  }

  lemma FlatOne(e: Entry)
    ensures Flat([e]) == e.msgs
  {
    assert Flat([e]) == e.msgs + Flat([e][1..]);
  }

  lemma FlatSnoc(es: seq<Entry>, e: Entry)
    ensures Flat(es + [e]) == Flat(es) + e.msgs
  {
    FlatConcat(es, [e]);
    FlatOne(e);
  }

  /** The first entry of one list moves to the end of the list before it. */
  lemma FlatPasses(x: seq<Msg>, es: seq<Entry>, fs: seq<Entry>)
    requires fs != []
    ensures x + Flat(es + [fs[0]]) + Flat(fs[1..]) == x + Flat(es) + Flat(fs)
  {
    FlatSnoc(es, fs[0]);
    Rejoin(x, Flat(es), fs[0].msgs, Flat(fs[1..]));
  }

  lemma Rejoin(x: seq<Msg>, y: seq<Msg>, m: seq<Msg>, z: seq<Msg>)
    ensures x + (y + m) + z == x + y + (m + z)
  {
  }

  /** The first entry of a list is between what precedes the list and the rest of it. */
  lemma FlatWithoutFirst(x: seq<Msg>, es: seq<Entry>, y: seq<Msg>)
    requires es != []
    ensures x + Flat(es) + y == x + es[0].msgs + (Flat(es[1..]) + y) && x + Flat(es[1..]) + y == x + (Flat(es[1..]) + y)
  {
    Regroup(x, es[0].msgs, Flat(es[1..]), y);
  }

  lemma EntriesConcat(xs: seq<Timed>, ys: seq<Timed>)
    ensures Entries(xs + ys) == Entries(xs) + Entries(ys)
  {
  }

  lemma {:induction false} MinKeyConcat(xs: seq<Msg>, ys: seq<Msg>)
    ensures MinKey(xs + ys) == MinOption(MinKey(xs), MinKey(ys))
  {
    if xs == [] {
      assert xs + ys == ys;
    } else {
      assert (xs + ys)[1..] == xs[1..] + ys;
      MinKeyConcat(xs[1..], ys);
    }
  }
}

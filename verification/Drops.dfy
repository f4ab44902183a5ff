/** Volatile loss accounting: the drop map names the least key of everything lost. */
module Drops {
  import opened Seqs
  import opened Transport
  import opened Conservation

  /** The entry for the peer is the minimum of its starting value and every lost key. */
  ghost predicate Accounted(cfg: Config, start: Option<nat>, s: State) {
    s.drop == Report(cfg, start, MinKey(s.log.lost))
  }

  /** The keys recorded on sound entries account for the messages inside them. */
  lemma {:induction false} LeastKeyIsMinKey(cfg: Config, es: seq<Entry>)
    requires AllSound(cfg, es)
    ensures LeastKey(es) == MinKey(Flat(es))
  {
    if es != [] {
      assert Sound(cfg, es[0]);
      LeastKeyIsMinKey(cfg, es[1..]);
      MinKeyConcat(es[0].msgs, Flat(es[1..]));
    }
  }

  lemma ReportMore(cfg: Config, start: Option<nat>, drop: Option<nat>, lost: seq<Msg>, more: seq<Msg>)
    requires drop == Report(cfg, start, MinKey(lost))
    ensures Report(cfg, drop, MinKey(more)) == Report(cfg, start, MinKey(lost + more))
  {
    MinKeyConcat(lost, more);
  }

  lemma ReportOne(cfg: Config, start: Option<nat>, s: State, m: Msg)
    requires Accounted(cfg, start, s) && m.cls.Volatile?
    ensures Report(cfg, s.drop, Some(m.cls.key)) == Report(cfg, start, MinKey(s.log.lost + [m]))
  {
    ReportMore(cfg, start, s.drop, s.log.lost, [m]);
    assert MinKey([m]) == MinOption(Some(m.cls.key), MinKey([m][1..]));
  }

  lemma EndSessionAccounts(cfg: Config, start: Option<nat>, s: State)
    requires Shape(cfg, s) && Accounted(cfg, start, s)
    ensures Accounted(cfg, start, EndSession(cfg, s))
  {
    var queued := Entries(s.sess.delay) + s.sess.pending + s.buffer;
    var dropped := Keep(queued, IsKeyed());
    KeepSound(cfg, queued, IsKeyed());
    LeastKeyIsMinKey(cfg, dropped);
    MinKeyConcat(Flat(dropped), s.sess.volatiles);
    ReportMore(cfg, start, s.drop, s.log.lost, Flat(dropped) + s.sess.volatiles);
    assert s.log.lost + (Flat(dropped) + s.sess.volatiles) == s.log.lost + Flat(dropped) + s.sess.volatiles;
  }

  lemma PumpAccounts(cfg: Config, start: Option<nat>, s: State, ok: bool)
    requires Shape(cfg, s) && Accounted(cfg, start, s) && Enabled(cfg, s, Pump(ok))
    ensures Accounted(cfg, start, PumpStep(cfg, s, ok))
  {
    assert [s.buffer[0]] + s.buffer[1..] == s.buffer;
    EndSessionAccounts(cfg, start, s);
  }

  lemma ReleaseAccounts(cfg: Config, start: Option<nat>, s: State, ok: bool)
    requires Shape(cfg, s) && Accounted(cfg, start, s) && Enabled(cfg, s, Release(ok))
    ensures Accounted(cfg, start, ReleaseStep(cfg, s, ok))
  {
    var e, s' := s.sess.delay[0].entry, s.(sess := s.sess.(delay := s.sess.delay[1..]));
    if !AllClosed(e.replies, s.closed) && !ok {
      assert e == Entries(s.sess.delay)[0];
      assert Entries(s'.sess.delay) == Entries(s.sess.delay)[1..];
      EndSessionAccounts(cfg, start, s'.(buffer := [e] + s'.buffer));
    }
  }

  lemma StepAccounts(cfg: Config, start: Option<nat>, s: State, ev: Event)
    requires Shape(cfg, s) && Accounted(cfg, start, s) && Enabled(cfg, s, ev)
    ensures Accounted(cfg, start, Step(cfg, s, ev))
  {
    match ev
    case Submit(m) =>
      if Sheds(cfg, s, m) {
        ReportOne(cfg, start, s, m);
      }
    case WaitArrive =>
      if s.inbox[0].cls.Volatile? {
        ReportOne(cfg, start, s, s.inbox[0]);
      }
    case Pump(ok) => PumpAccounts(cfg, start, s, ok);
    case Release(ok) => ReleaseAccounts(cfg, start, s, ok);
    case Read(ok) => EndSessionAccounts(cfg, start, s);
    case _ =>
  }

  lemma {:induction false} ExecAccounts(cfg: Config, start: Option<nat>, s: State, evs: seq<Event>)
    requires Shape(cfg, s) && Accounted(cfg, start, s) && Legal(cfg, s, evs)
    ensures Accounted(cfg, start, Exec(cfg, s, evs))
    decreases |evs|
  {
    if evs != [] {
      StepShape(cfg, s, evs[0]);
      StepAccounts(cfg, start, s, evs[0]);
      ExecAccounts(cfg, start, Step(cfg, s, evs[0]), evs[1..]);
    }
  }

  /** MinKey is the greatest lower bound of the volatile keys that is attained. */
  lemma {:induction false} MinKeyIsLeast(ms: seq<Msg>, k: nat)
    ensures MinKey(ms) == Some(k)
       <==> (exists m :: m in ms && m.cls == Volatile(k)) && (forall m :: m in ms && m.cls.Volatile? ==> k <= m.cls.key)
  {
    if ms != [] {
      var m, rest := ms[0], ms[1..];
      assert ms == [m] + rest;
      MinKeyIsLeast(rest, k);
      if MinKey(rest).Some? {
        MinKeyIsLeast(rest, MinKey(rest).value);
      } else {
        NoMinKey(rest);
      }
    }
  }

  lemma {:induction false} NoMinKey(ms: seq<Msg>)
    ensures MinKey(ms) == None <==> forall m :: m in ms ==> !m.cls.Volatile?
  {
    if ms != [] {
      assert ms == [ms[0]] + ms[1..];
      NoMinKey(ms[1..]);
    }
  }

  /** Over every run: with a drop map attached, the peer's entry is the least of its starting value
      and the keys of all volatile messages lost so far; without one it never moves. Every volatile
      message handed over that no container holds and nobody acknowledged is among the lost ones, so
      its key bounds the entry. Between sessions no volatile entry waits in the buffer. */
  lemma VolatileLossIsAccounted(cfg: Config, start: Option<nat>, evs: seq<Event>)
    requires Legal(cfg, Init(start), evs)
    ensures var s := Exec(cfg, Init(start), evs);
      && s.drop == (if cfg.dropMap then MinOption(start, MinKey(s.log.lost)) else start)
      && (forall m :: m in s.log.sent && m.cls.Volatile? && Held(s, m) == 0 && Within(s.log.acked, m) == 0
            ==> m in s.log.lost && (cfg.dropMap ==> s.drop.Some? && s.drop.value <= m.cls.key))
      && (s.phase != Up ==> NoneKeyed(s.buffer))
  {
    var s := Exec(cfg, Init(start), evs);
    ExecInv(cfg, Init(start), evs);
    ExecAccounts(cfg, start, Init(start), evs);
    MessagesAreConserved(cfg, start, evs);
    forall m | m in s.log.sent && m.cls.Volatile? && Held(s, m) == 0 && Within(s.log.acked, m) == 0
      ensures m in s.log.lost && (cfg.dropMap ==> s.drop.Some? && s.drop.value <= m.cls.key)
    {
      CountIn(s.log.sent, m);
      CountIn(s.log.lost, m);
      NoMinKey(s.log.lost);
      MinKeyIsLeast(s.log.lost, MinKey(s.log.lost).value);
    }
  }
}

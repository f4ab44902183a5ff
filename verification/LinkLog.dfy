/** The link transitions a connection reports, network/src/reliable_sender.rs lines 728-739. */
module LinkLog {
  import opened Seqs
  import opened Transport

  predicate Alternates(links: seq<bool>) {
    forall i :: 0 < i < |links| ==> links[i] != links[i - 1]
  }

  /** The last report is the remembered state, and it matches the phase. */
  predicate Tracks(s: State) {
    && Alternates(s.log.links)
    && s.link == (if s.log.links == [] then None else Some(s.log.links[|s.log.links| - 1]))
    && (s.phase == Up ==> s.link == Some(true))
    && (s.phase == Waiting ==> s.link == Some(false))
    && (s.phase == Idle ==> s.link != Some(true))
  }

  lemma ReportTracks(s: State, up: bool)
    requires Alternates(s.log.links)
    requires s.link == (if s.log.links == [] then None else Some(s.log.links[|s.log.links| - 1]))
    requires (s.phase == Up ==> up) && (s.phase != Up ==> !up)
    ensures Tracks(ReportLink(s, up))
  {
  }

  lemma EndTracks(cfg: Config, s: State)
    requires Tracks(s)
    ensures Tracks(EndSession(cfg, s))
  {
    ReportTracks(Requeued(cfg, s), false);
  }

  lemma PumpTracks(cfg: Config, s: State, ok: bool)
    requires s.buffer != [] && Tracks(s)
    ensures Tracks(PumpStep(cfg, s, ok))
  {
    var e, s' := s.buffer[0], s.(buffer := s.buffer[1..]);
    if !AllClosed(e.replies, s.closed) && cfg.latency == 0 && !ok {
      EndTracks(cfg, s'.(buffer := [e] + s'.buffer));
    }
  }

  lemma ReleaseTracks(cfg: Config, s: State, ok: bool)
    requires s.sess.delay != [] && Tracks(s)
    ensures Tracks(ReleaseStep(cfg, s, ok))
  {
    EndTracks(cfg, s.(sess := s.sess.(delay := s.sess.delay[1..]), buffer := [s.sess.delay[0].entry] + s.buffer));
  }

  lemma StepTracks(cfg: Config, s: State, ev: Event)
    requires Enabled(cfg, s, ev) && Tracks(s)
    ensures Tracks(Step(cfg, s, ev))
  {
    match ev
    case Connect =>
      ReportTracks(s.(phase := Up, sess := NO_SESSION,
                      log := s.log.(start := Flat(s.buffer), arrived := [], written := [], acks := 0)), true);
    case ConnectFail =>
      ReportTracks(s.(phase := Waiting), false);
    case Pump(ok) =>
      PumpTracks(cfg, s, ok);
    case Release(ok) =>
      ReleaseTracks(cfg, s, ok);
    case Read(ok) =>
      EndTracks(cfg, s);
    case _ =>
  }

  lemma {:induction false} ExecTracks(cfg: Config, s: State, evs: seq<Event>)
    requires Legal(cfg, s, evs) && Tracks(s)
    ensures Tracks(Exec(cfg, s, evs))
    decreases |evs|
  {
    if evs != [] {
      StepTracks(cfg, s, evs[0]);
      ExecTracks(cfg, Step(cfg, s, evs[0]), evs[1..]);
    }
  }

  /** Over every run the reports alternate, starting anywhere, and the last one says whether a
      session is up. */
  lemma LinkReportsAlternate(cfg: Config, drop: Option<nat>, evs: seq<Event>)
    requires Legal(cfg, Init(drop), evs)
    ensures var s := Exec(cfg, Init(drop), evs);
      && Alternates(s.log.links)
      && (s.phase == Up <==> s.log.links != [] && s.log.links[|s.log.links| - 1])
  {
    ExecTracks(cfg, Init(drop), evs);
  }
}

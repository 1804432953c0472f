/** One sweep: poll the due sources, admit what is unseen, sight it, and alert under a cap. */
module SentinelRunner {
  import opened Common
  import opened Database
  import opened Alerting
  import opened Guarded
  import opened Delivery
  import opened SentinelStore
  import I = Identity

  datatype Candidate = Candidate(reference: string, url: I.Url, title: string)

  /** What polling a source brings back; an adapter may also raise. */
  datatype Poll =
    | PollRaised(error: string)
    | Polled(status: PollStatus, candidates: seq<Candidate>)

  datatype Config = Config(
    registry: seq<Source>,
    refreshAfter: int,
    maxAlerts: int,
    sha: I.Url -> string)

  /** One firing of the scheduler, with everything the outside world will answer during it. */
  datatype SweepInput = SweepInput(
    now: int,
    forceBaseline: bool,
    onlySource: Option<string>,
    lockGranted: bool,
    poll: string -> Poll,
    channel: nat -> Channel)

  datatype RunStatus = RunSuccess | RunPartial | RunBlocked | RunFailed | SkippedOverlap

  datatype Entry =
    | NotDue
    | PollFailure(error: string)
    | Refused(status: PollStatus, candidates: nat)
    | Processed(status: PollStatus, candidates: nat, baselineMode: bool, unseen: nat, suppressed: nat)

  /** The database, the counters and the posts made while one sweep runs; `unseen` and `suppressed` count the
      current source. */
  datatype Progress = Progress(
    db: Db,
    known: set<string>,
    unseen: nat,
    suppressed: nat,
    sent: nat,
    failed: nat,
    capped: nat,
    posts: seq<Posted>)

  /** One post to the provider for the alert of sighting `id`, with what it brought back. */
  datatype Posted = Posted(id: nat, outcome: PostOutcome)

  datatype Report = Report(
    perSource: map<string, Entry>,
    ok: nat,
    failed: nat,
    blocked: nat,
    candidates: nat,
    unseen: nat,
    suppressed: nat)

  datatype Outcome = Outcome(progress: Progress, report: Report)

  const EMPTY_REPORT := Report(map[], 0, 0, 0, 0, 0, 0)

  /** Where a sweep starts: a snapshot of the known keys, and nothing counted or posted. */
  function Begun(db: Db): Outcome {
    Outcome(Progress(db, db.identities.Keys, 0, 0, 0, 0, 0, []), EMPTY_REPORT)
  }

  function Tagged(id: nat, log: seq<PostOutcome>): seq<Posted> {
    seq(|log|, i requires 0 <= i < |log| => Posted(id, log[i]))
  }

  /* ---- What one sweep does, as functions of its inputs ---- */

  function Resolve(cfg: Config, source: Source, c: Candidate): I.Identity {
    I.IdentityAlwaysExists(cfg.sha, source.manufacturer, c.reference, c.url);
    I.BuildIdentity(cfg.sha, source.manufacturer, c.reference, c.url).value
  }

  function CandidateStep(cfg: Config, input: SweepInput, source: Source, armed: bool, p: Progress, c: Candidate)
    : Progress
  {
    var identity := Resolve(cfg, source, c);
    if armed && identity.key in p.known then
      p.(db := Touched(p.db, identity.key, source.name, c.title, input.now, cfg.refreshAfter),
         suppressed := p.suppressed + 1)
    else
      var created := identity.key !in p.db.identities;
      var via := if armed then Via.Sighting else Via.Baseline;
      var admitted := Admitted(p.db, identity, source.name, c.title, via, input.now);
      if !armed then
        p.(db := if created then admitted
                 else Touched(admitted, identity.key, source.name, c.title, input.now, cfg.refreshAfter))
      else if !created then
        p.(suppressed := p.suppressed + 1)
      else
        Alerted(cfg, input, JustSighted(cfg, input, source, p, c))
  }

  /** The progress at the moment an unseen candidate has been admitted and sighted, before its alert. */
  function JustSighted(cfg: Config, input: SweepInput, source: Source, p: Progress, c: Candidate): Progress {
    var identity := Resolve(cfg, source, c);
    var admitted := Admitted(p.db, identity, source.name, c.title, Via.Sighting, input.now);
    p.(db := WithSighting(admitted, identity, source.name, c.title, input.now),
       known := p.known + {identity.key}, unseen := p.unseen + 1)
  }

  /** The newest sighting is capped or sent. */
  function Alerted(cfg: Config, input: SweepInput, p: Progress): Progress
    requires |p.db.sightings| > 0
  {
    var id := |p.db.sightings|;
    if p.sent + p.failed >= cfg.maxAlerts then
      p.(db := SetAlert(p.db, id, AlertCapped, "sweep alert cap"), capped := p.capped + 1)
    else
      var after := AfterSend(p.db, id, input.channel(id), input.now);
      Counted(p.(db := after, posts := p.posts + Tagged(id, PostsOfSend(p.db, id, input.channel(id)))),
              after.sightings[id - 1].alertState)
  }

  function Counted(p: Progress, state: AlertState): Progress {
    match state
    case AlertSent => p.(sent := p.sent + 1)
    case AlertFailed => p.(failed := p.failed + 1)
    case AlertCapped => p.(capped := p.capped + 1)
    case AlertDisabled => p
  }

  function Candidates(cfg: Config, input: SweepInput, source: Source, armed: bool, p: Progress, cs: seq<Candidate>)
    : Progress
  {
    if |cs| == 0 then p
    else CandidateStep(cfg, input, source, armed,
                       Candidates(cfg, input, source, armed, p, cs[..|cs| - 1]), cs[|cs| - 1])
  }

  predicate Armed(db: Db, input: SweepInput, source: Source)
    requires source.name in db.states
  {
    db.states[source.name].armedAt.Some? && !input.forceBaseline
  }

  function SourceStep(cfg: Config, input: SweepInput, due: set<string>, o: Outcome, source: Source): (after: Outcome)
    requires source.name in o.progress.db.states
  {
    var p, r := o.progress, o.report;
    if source.name !in due then
      Outcome(p, r.(perSource := r.perSource[source.name := NotDue]))
    else match input.poll(source.name) {
      case PollRaised(error) =>
        Outcome(p.(db := MarkPolled(p.db, source.name, false, PollFailed, input.now)),
                r.(perSource := r.perSource[source.name := PollFailure(error)], failed := r.failed + 1))
      case Polled(status, cs) =>
        if status == PollFailed || status == PollBlocked then
          Outcome(p.(db := MarkPolled(p.db, source.name, false, status, input.now)),
                  r.(perSource := r.perSource[source.name := Refused(status, |cs|)],
                     candidates := r.candidates + |cs|,
                     failed := r.failed + (if status == PollFailed then 1 else 0),
                     blocked := r.blocked + (if status == PollBlocked then 1 else 0)))
        else
          var armed := Armed(p.db, input, source);
          var done := Candidates(cfg, input, source, armed, p.(unseen := 0, suppressed := 0), cs);
          CandidatesKeepStates(cfg, input, source, armed, p.(unseen := 0, suppressed := 0), cs);
          Outcome(done.(db := MarkPolled(done.db, source.name, status == PollSuccess, status, input.now)),
                  r.(perSource := r.perSource[source.name := Processed(status, |cs|, !armed, done.unseen,
                                                                      done.suppressed)],
                     candidates := r.candidates + |cs|, ok := r.ok + 1,
                     unseen := r.unseen + done.unseen, suppressed := r.suppressed + done.suppressed))
    }
  }

  /** Capping or sending settles the newest sighting only. */
  lemma AlertedIsLocal(cfg: Config, input: SweepInput, p: Progress)
    requires |p.db.sightings| > 0
    ensures OnlyAlert(p.db, Alerted(cfg, input, p).db, |p.db.sightings|)
    ensures Alerted(cfg, input, p).known == p.known
  {
    var id := |p.db.sightings|;
    SetAlertIsLocal(p.db, id, AlertCapped, "sweep alert cap");
    SendIsLocal(p.db, id, input.channel(id), input.now);
  }

  lemma CandidateKeepsStates(cfg: Config, input: SweepInput, source: Source, armed: bool, p: Progress, c: Candidate)
    ensures CandidateStep(cfg, input, source, armed, p, c).db.states == p.db.states
  {
    if armed && Resolve(cfg, source, c).key !in p.db.identities {
      AlertedIsLocal(cfg, input, JustSighted(cfg, input, source, p, c));
    }
  }

  lemma {:induction false} CandidatesKeepStates(cfg: Config, input: SweepInput, source: Source, armed: bool,
                                                p: Progress, cs: seq<Candidate>)
    ensures Candidates(cfg, input, source, armed, p, cs).db.states == p.db.states
  {
    if |cs| == 0 {
    } else {
      var front := cs[..|cs| - 1];
      CandidatesKeepStates(cfg, input, source, armed, p, front);
      CandidateKeepsStates(cfg, input, source, armed, Candidates(cfg, input, source, armed, p, front), cs[|cs| - 1]);
    }
  }

  ghost predicate AllHaveState(db: Db, sources: seq<Source>) {
    forall s :: s in sources ==> s.name in db.states
  }

  function Sources(cfg: Config, input: SweepInput, due: set<string>, o: Outcome, sources: seq<Source>): (after: Outcome)
    requires AllHaveState(o.progress.db, sources)
    ensures after.progress.db.states.Keys == o.progress.db.states.Keys
  {
    if |sources| == 0 then o
    else
      var before := Sources(cfg, input, due, o, sources[..|sources| - 1]);
      StepKeepsStateRows(cfg, input, due, before, sources[|sources| - 1]);
      SourceStep(cfg, input, due, before, sources[|sources| - 1])
  }

  lemma SourcesNext(cfg: Config, input: SweepInput, due: set<string>, o: Outcome, sources: seq<Source>, i: nat)
    requires AllHaveState(o.progress.db, sources) && i < |sources|
    ensures sources[i].name in Sources(cfg, input, due, o, sources[..i]).progress.db.states
    ensures Sources(cfg, input, due, o, sources[..i + 1])
         == SourceStep(cfg, input, due, Sources(cfg, input, due, o, sources[..i]), sources[i])
  {
    assert sources[..i + 1][..i] == sources[..i];
    assert sources[i] in sources;
  }

  lemma StepKeepsStateRows(cfg: Config, input: SweepInput, due: set<string>, o: Outcome, source: Source)
    requires source.name in o.progress.db.states
    ensures SourceStep(cfg, input, due, o, source).progress.db.states.Keys == o.progress.db.states.Keys
  {
    var p := o.progress;
    if source.name in due && input.poll(source.name).Polled? {
      CandidatesKeepStates(cfg, input, source, Armed(p.db, input, source), p.(unseen := 0, suppressed := 0),
                           input.poll(source.name).candidates);
    }
  }

  function WithStates(db: Db, sources: seq<Source>): (after: Db)
    ensures AllHaveState(after, sources)
    ensures after.identities == db.identities && after.sightings == db.sightings && after.receipts == db.receipts
    ensures forall n :: n in db.states ==> n in after.states && after.states[n] == db.states[n]
  {
    if |sources| == 0 then db
    else WithState(WithStates(db, sources[..|sources| - 1]), sources[|sources| - 1].name)
  }

  function Chosen(cfg: Config, input: SweepInput): seq<Source> {
    match input.onlySource
    case None => Filter((s: Source) => s.enabled, cfg.registry)
    case Some(name) => Filter((s: Source) => s.name == name, cfg.registry)
  }

  ghost function Due(cfg: Config, input: SweepInput, db: Db): set<string> {
    set s | s in Chosen(cfg, input)
         && (input.forceBaseline || input.onlySource.Some? || IsDue(db.states, s.name, s.cadenceMinutes, input.now))
      :: s.name
  }

  /** A sweep that runs: states for all sources, then every source in order from the snapshot of known keys. */
  ghost function Swept(cfg: Config, input: SweepInput, db: Db): Outcome {
    var ready := WithStates(db, Chosen(cfg, input));
    Sources(cfg, input, Due(cfg, input, ready), Begun(ready), Chosen(cfg, input))
  }

  predicate Refuses(cfg: Config, input: SweepInput) {
    !input.lockGranted || (input.onlySource.Some? && Chosen(cfg, input) == [])
  }

  function Status(r: Report): RunStatus {
    if r.ok + r.failed + r.blocked == 0 then RunSuccess
    else if r.failed == 0 && r.blocked == 0 then RunSuccess
    else if r.ok > 0 then RunPartial
    else if r.blocked > 0 && r.failed == 0 then RunBlocked
    else RunFailed
  }

  datatype Totals = Totals(unseen: nat, suppressed: nat, sent: nat, failed: nat, capped: nat, candidates: nat)

  class SentinelRunner {
    const cfg: Config
    const session: Session
    const store: SentinelStore
    const alerter: SentinelAlerter

    constructor (cfg: Config, session: Session)
      ensures Valid() && this.session == session && this.cfg == cfg
    {
      this.cfg := cfg;
      this.session := session;
      store := new SentinelStore(session);
      alerter := new SentinelAlerter(session);
    }

    ghost predicate Valid() {
      store.session == session && alerter.session == session && alerter.Valid()
    }

    /** The whole sweep: without the lock or with an unknown source nothing changes. */
    method RunSweep(input: SweepInput)
      returns (status: RunStatus, totals: Totals, perSource: map<string, Entry>, posts: seq<Posted>)
      requires Valid()
      modifies session
      ensures Refuses(cfg, input) ==>
                && session.View() == old(session.View()) && perSource == map[] && posts == []
                && status == (if input.lockGranted then RunFailed else SkippedOverlap)
      ensures !Refuses(cfg, input) ==>
                var o := Swept(cfg, input, old(session.View()));
                && session.View() == o.progress.db
                && perSource == o.report.perSource && status == Status(o.report) && posts == o.progress.posts
                && totals == Totals(o.report.unseen, o.report.suppressed, o.progress.sent, o.progress.failed,
                                    o.progress.capped, o.report.candidates)
    {
      totals, perSource, posts := Totals(0, 0, 0, 0, 0, 0), map[], [];
      if !input.lockGranted {
        return SkippedOverlap, totals, perSource, posts;
      }
      var sources := Chosen(cfg, input);
      if input.onlySource.Some? && sources == [] {
        return RunFailed, totals, perSource, posts;
      }
      EnsureStates(sources);
      ghost var ready := session.View();
      var due: set<string>;
      if input.forceBaseline || input.onlySource.Some? {
        due := set s | s in sources :: s.name;
      } else {
        due := store.SourcesDue(sources, input.now);
      }
      assert due == Due(cfg, input, ready);
      var p, r := RunSources(input, sources, due);
      return Status(r), Totals(r.unseen, r.suppressed, p.sent, p.failed, p.capped, r.candidates), r.perSource, p.posts;
    }

    method EnsureStates(sources: seq<Source>)
      requires Valid()
      modifies session`states
      ensures session.View() == WithStates(old(session.View()), sources)
    {
      for i := 0 to |sources|
        invariant session.View() == WithStates(old(session.View()), sources[..i])
      {
        store.EnsureSourceState(sources[i].name);
        assert sources[..i + 1][..i] == sources[..i];
      }
      assert sources[..|sources|] == sources;
    }

    method RunSources(input: SweepInput, sources: seq<Source>, due: set<string>) returns (p: Progress, r: Report)
      requires Valid() && AllHaveState(session.View(), sources)
      modifies session
      ensures Outcome(p, r) == Sources(cfg, input, due, Begun(old(session.View())), sources)
      ensures p.db == session.View()
    {
      var known := store.KnownIdentityKeys();
      p, r := Progress(session.View(), known, 0, 0, 0, 0, 0, []), EMPTY_REPORT;
      ghost var start := Outcome(p, r);
      for i := 0 to |sources|
        invariant p.db == session.View()
        invariant Outcome(p, r) == Sources(cfg, input, due, start, sources[..i])
      {
        SourcesNext(cfg, input, due, start, sources, i);
        p, r := VisitSource(input, due, sources[i], p, r);
      }
      assert sources[..|sources|] == sources;
    }

    /** One source: skipped, failed, refused, or its candidates processed and the poll marked. */
    method VisitSource(input: SweepInput, due: set<string>, source: Source, p0: Progress, r0: Report)
      returns (p: Progress, r: Report)
      requires Valid() && p0.db == session.View() && source.name in session.states
      modifies session
      ensures Outcome(p, r) == SourceStep(cfg, input, due, Outcome(p0, r0), source)
      ensures p.db == session.View()
    {
      p, r := p0, r0;
      if source.name !in due {
        r := r.(perSource := r.perSource[source.name := NotDue]);
        return;
      }
      match input.poll(source.name) {
        case PollRaised(error) =>
          store.MarkPoll(source.name, false, PollFailed, input.now);
          r := r.(perSource := r.perSource[source.name := PollFailure(error)], failed := r.failed + 1);
        case Polled(status, found) =>
          r := r.(candidates := r.candidates + |found|);
          if status == PollFailed || status == PollBlocked {
            store.MarkPoll(source.name, false, status, input.now);
            if status == PollFailed {
              r := r.(failed := r.failed + 1);
            } else {
              r := r.(blocked := r.blocked + 1);
            }
            r := r.(perSource := r.perSource[source.name := Refused(status, |found|)]);
          } else {
            var armed := session.states[source.name].armedAt.Some? && !input.forceBaseline;
            p := SweepCandidates(input, source, armed, found, p.(unseen := 0, suppressed := 0));
            r := r.(unseen := r.unseen + p.unseen, suppressed := r.suppressed + p.suppressed);
            store.MarkPoll(source.name, status == PollSuccess, status, input.now);
            var entry := Processed(status, |found|, !armed, p.unseen, p.suppressed);
            r := r.(ok := r.ok + 1, perSource := r.perSource[source.name := entry]);
          }
      }
      p := p.(db := session.View());
    }

    /** The candidates of one polled source. */
    method SweepCandidates(input: SweepInput, source: Source, armed: bool, found: seq<Candidate>, p0: Progress)
      returns (p: Progress)
      requires Valid() && p0.db == session.View()
      modifies session
      ensures p == Candidates(cfg, input, source, armed, p0, found)
      ensures p.db == session.View() && session.states == old(session.states)
    {
      p := p0;
      CandidatesKeepStates(cfg, input, source, armed, p0, found);
      for i := 0 to |found|
        invariant p.db == session.View() && p == Candidates(cfg, input, source, armed, p0, found[..i])
      {
        assert found[..i + 1][..i] == found[..i];
        p := VisitCandidate(input, source, armed, found[i], p);
      }
      assert found[..|found|] == found;
    }

    /** One candidate: suppressed, silently recorded, or admitted, sighted and alerted. */
    method VisitCandidate(input: SweepInput, source: Source, armed: bool, c: Candidate, p0: Progress)
      returns (p: Progress)
      requires Valid() && p0.db == session.View()
      modifies session
      ensures p == CandidateStep(cfg, input, source, armed, p0, c)
      ensures p.db == session.View()
    {
      hide Alerted;
      p := p0;
      var identity := Resolve(cfg, source, c);
      if armed && identity.key in p.known {
        if identity.key in session.identities {
          store.RefreshLastSeen(identity.key, source.name, c.title, input.now, cfg.refreshAfter);
        }
        return p.(db := session.View(), suppressed := p.suppressed + 1);
      }
      var via := if armed then Via.Sighting else Via.Baseline;
      var created := store.Admit(identity, source.name, c.title, via, input.now);
      if !armed {
        if !created {
          store.RefreshLastSeen(identity.key, source.name, c.title, input.now, cfg.refreshAfter);
        }
        return p.(db := session.View());
      }
      if !created {
        return p.(suppressed := p.suppressed + 1);
      }
      var id := store.RecordSighting(identity, source.name, c.title, input.now);
      p := p.(db := session.View(), known := p.known + {identity.key}, unseen := p.unseen + 1);
      p := AlertNewest(input, id, p);
    }

    method AlertNewest(input: SweepInput, id: nat, p0: Progress) returns (p: Progress)
      requires Valid() && p0.db == session.View() && 0 < id == |session.sightings|
      modifies session
      ensures p == Alerted(cfg, input, p0)
      ensures p.db == session.View()
    {
      p := p0;
      if p.sent + p.failed >= cfg.maxAlerts {
        alerter.Set(id, AlertCapped, "sweep alert cap");
        return p.(db := session.View(), capped := p.capped + 1);
      }
      var state, log := alerter.Send(id, input.channel(id), input.now);
      p := p.(db := session.View(), posts := p.posts + Tagged(id, log));
      match state {
        case AlertSent => p := p.(sent := p.sent + 1);
        case AlertFailed => p := p.(failed := p.failed + 1);
        case AlertCapped => p := p.(capped := p.capped + 1);
        case AlertDisabled =>
      }
    }
  }
}

/** When sources are polled and armed over whole runs, told from the entries the sweeps report. */
module SentinelCadence {
  import opened Common
  import opened Database
  import opened SentinelStore
  import opened SentinelRunner
  import opened SentinelTheorems
  import opened SentinelRuns

  /** The bookkeeping row after a sweep that reported this entry for the source. */
  function AfterEntry(state: SourceState, e: Entry, now: int): SourceState {
    match e
    case NotDue => state
    case PollFailure(_) => Marked(state, false, PollFailed, now)
    case Refused(status, _) => Marked(state, false, status, now)
    case Processed(status, _, _, _, _) => Marked(state, status == PollSuccess, status, now)
  }

  /** What one source step does to the bookkeeping rows and to the report. */
  ghost predicate StepFollows(input: SweepInput, due: set<string>, o: Outcome, source: Source, after: Outcome)
    requires source.name in o.progress.db.states
  {
    && source.name in after.report.perSource
    && after.progress.db.states == o.progress.db.states[source.name :=
         AfterEntry(o.progress.db.states[source.name], after.report.perSource[source.name], input.now)]
    && (after.report.perSource[source.name] == NotDue <==> source.name !in due)
    && after.report.perSource == o.report.perSource[source.name := after.report.perSource[source.name]]
  }

  lemma SourceFollowsEntry(cfg: Config, input: SweepInput, due: set<string>, o: Outcome, source: Source)
    requires source.name in o.progress.db.states
    ensures StepFollows(input, due, o, source, SourceStep(cfg, input, due, o, source))
  {
    hide Candidates;
    var p := o.progress;
    if source.name in due && input.poll(source.name).Polled? {
      CandidatesKeepStates(cfg, input, source, Armed(p.db, input, source), p.(unseen := 0, suppressed := 0),
                           input.poll(source.name).candidates);
    }
  }

  /** The state row and the entry of one processed source agree. */
  ghost predicate FollowedAt(input: SweepInput, due: set<string>, ready: Db, o: Outcome, name: string)
    requires name in ready.states
  {
    && name in o.progress.db.states && name in o.report.perSource
    && o.progress.db.states[name] == AfterEntry(ready.states[name], o.report.perSource[name], input.now)
    && (o.report.perSource[name] == NotDue <==> name !in due)
  }

  /** They agree for every source processed so far, and all other rows are as they were. */
  ghost predicate Followed(input: SweepInput, due: set<string>, ready: Db, o: Outcome, sources: seq<Source>)
    requires AllHaveState(ready, sources)
  {
    && o.progress.db.states.Keys == ready.states.Keys
    && (forall s :: s in sources ==> FollowedAt(input, due, ready, o, s.name))
    && (forall n :: n in ready.states && (forall s :: s in sources ==> s.name != n) ==>
          o.progress.db.states[n] == ready.states[n])
  }

  lemma FollowOneMore(input: SweepInput, due: set<string>, ready: Db, o: Outcome, sources: seq<Source>, after: Outcome)
    requires |sources| > 0 && AllHaveState(ready, sources) && DistinctNames(sources)
    requires Followed(input, due, ready, o, sources[..|sources| - 1])
    requires sources[|sources| - 1].name in o.progress.db.states
    requires StepFollows(input, due, o, sources[|sources| - 1], after)
    ensures Followed(input, due, ready, after, sources)
  {
    var front, last := sources[..|sources| - 1], sources[|sources| - 1];
    assert sources == front + [last];
    assert o.progress.db.states[last.name] == ready.states[last.name];
    forall s | s in sources ensures FollowedAt(input, due, ready, after, s.name) {
      if s in front {
        assert s.name != last.name && FollowedAt(input, due, ready, o, s.name);
      }
    }
  }

  lemma {:induction false} SourcesFollow(cfg: Config, input: SweepInput, due: set<string>, o: Outcome,
                                         sources: seq<Source>)
    requires AllHaveState(o.progress.db, sources) && DistinctNames(sources)
    ensures Followed(input, due, o.progress.db, Sources(cfg, input, due, o, sources), sources)
  {
    if |sources| == 0 {
    } else {
      SourcesFollow(cfg, input, due, o, sources[..|sources| - 1]);
      assert sources[|sources| - 1] in sources;
      var before := Sources(cfg, input, due, o, sources[..|sources| - 1]);
      SourceFollowsEntry(cfg, input, due, before, sources[|sources| - 1]);
      FollowOneMore(input, due, o.progress.db, before, sources, Sources(cfg, input, due, o, sources));
    }
  }

  /** The entries a sweep reports; a refused sweep reports none. */
  ghost function EntriesOf(cfg: Config, input: SweepInput, db: Db): map<string, Entry> {
    if Refuses(cfg, input) then map[] else Swept(cfg, input, db).report.perSource
  }

  function StateOf(db: Db, name: string): SourceState {
    if name in db.states then db.states[name] else NEVER_POLLED
  }

  lemma ReadyState(db: Db, sources: seq<Source>, name: string)
    ensures StateOf(WithStates(db, sources), name) == StateOf(db, name)
  {
    NewStatesAreUnarmed(db, sources);
  }

  lemma SweepFollows(cfg: Config, input: SweepInput, db: Db, name: string)
    requires DistinctNames(cfg.registry)
    ensures StateOf(AfterSweep(cfg, input, db), name)
         == (if name in EntriesOf(cfg, input, db)
             then AfterEntry(StateOf(db, name), EntriesOf(cfg, input, db)[name], input.now) else StateOf(db, name))
    ensures name in EntriesOf(cfg, input, db)
       <==> !Refuses(cfg, input) && exists s :: s in Chosen(cfg, input) && s.name == name
  {
    if !Refuses(cfg, input) {
      var sources := Chosen(cfg, input);
      ChosenDistinct(cfg, input);
      var ready := WithStates(db, sources);
      var start := Begun(ready);
      var due := Due(cfg, input, ready);
      SourcesFollow(cfg, input, due, start, sources);
      ReadyState(db, sources, name);
      OnlyChosenReport(cfg, input, due, start, sources);
    }
  }

  lemma {:induction false} OnlyChosenReport(cfg: Config, input: SweepInput, due: set<string>, o: Outcome,
                                            sources: seq<Source>)
    requires AllHaveState(o.progress.db, sources)
    ensures Sources(cfg, input, due, o, sources).report.perSource.Keys
         == o.report.perSource.Keys + (set s | s in sources :: s.name)
  {
    hide SourceStep;
    if |sources| == 0 {
    } else {
      var front, last := sources[..|sources| - 1], sources[|sources| - 1];
      OnlyChosenReport(cfg, input, due, o, front);
      assert sources == front + [last];
      assert last in sources;
      SourceFollowsEntry(cfg, input, due, Sources(cfg, input, due, o, front), last);
    }
  }

  predicate IsSuccess(entries: map<string, Entry>, name: string) {
    name in entries && entries[name].Processed? && entries[name].status == PollSuccess
  }

  /** The times, oldest first, of the sweeps that reported a SUCCESS poll of the source. */
  ghost function SuccessTimes(firings: seq<Firing>, db: Db, name: string): seq<int> {
    if |firings| == 0 then []
    else
      var front, last := firings[..|firings| - 1], firings[|firings| - 1];
      SuccessTimes(front, db, name)
      + (if IsSuccess(EntriesOf(last.cfg, last.input, AfterRun(front, db)), name) then [last.input.now] else [])
  }

  /** Armed at the first of the times, last successful at the last of them. */
  predicate Tells(state: SourceState, times: seq<int>) {
    && state.armedAt == (if times == [] then None else Some(times[0]))
    && state.lastSuccessAt == (if times == [] then None else Some(times[|times| - 1]))
  }

  /** Arming is never undone and success times are exact: from a state that never succeeded, a source is armed at
      its first SUCCESS poll, for good, and its success time is that of its latest SUCCESS poll. Failed, blocked
      and empty polls leave both alone. */
  lemma {:induction false} StateTellsHistory(firings: seq<Firing>, db: Db, name: string)
    requires NamesDistinct(firings) && StateOf(db, name) == NEVER_POLLED
    ensures Tells(StateOf(AfterRun(firings, db), name), SuccessTimes(firings, db, name))
  {
    hide EntriesOf, AfterSweep, StateOf;
    if |firings| == 0 {
    } else {
      var front, last := firings[..|firings| - 1], firings[|firings| - 1];
      StateTellsHistory(front, db, name);
      SweepFollows(last.cfg, last.input, AfterRun(front, db), name);
    }
  }

  /** Every sighting that a new source ever gets falls in a sweep after its first SUCCESS poll, however often it is
      polled and whatever the others do. */
  lemma SightedAfterSuccess(firings: seq<Firing>, db: Db, i: nat) returns (k: nat)
    requires NamesDistinct(firings) && |db.sightings| <= i < |AfterRun(firings, db).sightings|
    requires StateOf(db, AfterRun(firings, db).sightings[i].source) == NEVER_POLLED
    ensures k < |firings|
    ensures |AfterRun(firings[..k], db).sightings| <= i < |AfterRun(firings[..k + 1], db).sightings|
    ensures SuccessTimes(firings[..k], db, AfterRun(firings, db).sightings[i].source) != []
  {
    k := SightingsFromArmed(firings, db, i);
    var name := AfterRun(firings, db).sightings[i].source;
    RowsStay(firings, db, k + 1, i);
    StateTellsHistory(firings[..k], db, name);
  }

  /** A sighting once recorded keeps its key and source. */
  lemma {:induction false} RowsStay(firings: seq<Firing>, db: Db, k: nat, i: nat)
    requires NamesDistinct(firings) && k <= |firings| && i < |AfterRun(firings[..k], db).sightings|
    ensures i < |AfterRun(firings, db).sightings|
    ensures AfterRun(firings, db).sightings[i] == AfterRun(firings[..k], db).sightings[i]
    decreases |firings|
  {
    if k == |firings| {
      assert firings[..k] == firings;
    } else {
      var front, last := firings[..|firings| - 1], firings[|firings| - 1];
      assert front[..k] == firings[..k];
      RowsStay(front, db, k, i);
      SweepTracks(last.cfg, last.input, AfterRun(front, db));
    }
  }

  lemma OneMoreDistinct(firings: seq<Firing>, next: Firing)
    requires NamesDistinct(firings + [next])
    ensures NamesDistinct(firings) && DistinctNames(next.cfg.registry)
  {
    assert (firings + [next])[|firings|] == next;
    forall i | 0 <= i < |firings| ensures firings[i] == (firings + [next])[i] {}
  }

  /** The sweep that follows the run polls the source. */
  ghost predicate PolledAfter(firings: seq<Firing>, db: Db, next: Firing, name: string) {
    var entries := EntriesOf(next.cfg, next.input, AfterRun(firings, db));
    name in entries && entries[name] != NotDue
  }

  /** Long enough after the last of the given times. */
  predicate Elapsed(times: seq<int>, now: int, cadenceMinutes: int) {
    times == [] || now - times[|times| - 1] >= 60 * cadenceMinutes
  }

  lemma InDueExactly(cfg: Config, input: SweepInput, db: Db, source: Source)
    requires DistinctNames(cfg.registry) && source in Chosen(cfg, input)
    requires !input.forceBaseline && input.onlySource.None?
    ensures var ready := WithStates(db, Chosen(cfg, input));
            source.name in Due(cfg, input, ready)
            <==> IsDue(ready.states, source.name, source.cadenceMinutes, input.now)
  {
    ChosenDistinct(cfg, input);
    forall s | s in Chosen(cfg, input) && s.name == source.name ensures s == source {
      DistinctNamesIdentify(Chosen(cfg, input), s, source);
    }
  }

  lemma UnforcedEntry(cfg: Config, input: SweepInput, db: Db, source: Source)
    requires DistinctNames(cfg.registry) && source in Chosen(cfg, input)
    requires input.lockGranted && !input.forceBaseline && input.onlySource.None?
    ensures var ready := WithStates(db, Chosen(cfg, input));
            && source.name in EntriesOf(cfg, input, db)
            && (EntriesOf(cfg, input, db)[source.name] != NotDue <==> source.name in Due(cfg, input, ready))
  {
    ChosenDistinct(cfg, input);
    var ready := WithStates(db, Chosen(cfg, input));
    var start := Begun(ready);
    SourcesFollow(cfg, input, Due(cfg, input, ready), start, Chosen(cfg, input));
  }

  lemma DueByHistory(db: Db, sources: seq<Source>, source: Source, now: int, times: seq<int>)
    requires source in sources && Tells(StateOf(db, source.name), times)
    ensures IsDue(WithStates(db, sources).states, source.name, source.cadenceMinutes, now)
       <==> Elapsed(times, now, source.cadenceMinutes)
  {
    ReadyState(db, sources, source.name);
  }

  /** An unforced sweep polls an enabled source exactly when it never succeeded or its cadence has passed since
      its last SUCCESS poll: no failed, blocked or empty poll postpones it, and nothing hurries it. */
  lemma PolledExactlyWhenDue(firings: seq<Firing>, db: Db,
                                                next: Firing, source: Source)
    requires NamesDistinct(firings + [next]) && StateOf(db, source.name) == NEVER_POLLED
    requires source in next.cfg.registry && source.enabled
    requires next.input.lockGranted && !next.input.forceBaseline && next.input.onlySource.None?
    ensures PolledAfter(firings, db, next, source.name)
       <==> Elapsed(SuccessTimes(firings, db, source.name), next.input.now, source.cadenceMinutes)
  {
    var before := AfterRun(firings, db);
    OneMoreDistinct(firings, next);
    FilterMember((s: Source) => s.enabled, next.cfg.registry, source);
    StateTellsHistory(firings, db, source.name);
    InDueExactly(next.cfg, next.input, before, source);
    UnforcedEntry(next.cfg, next.input, before, source);
    DueByHistory(before, Chosen(next.cfg, next.input), source, next.input.now, SuccessTimes(firings, db, source.name));
  }

  lemma DistinctNamesIdentify(sources: seq<Source>, s: Source, t: Source)
    requires DistinctNames(sources) && s in sources && t in sources && s.name == t.name
    ensures s == t
  {
    var i :| 0 <= i < |sources| && sources[i] == s;
    var j :| 0 <= j < |sources| && sources[j] == t;
    assert i == j;
  }

  ghost predicate TimesNeverGoBack(firings: seq<Firing>) {
    forall i, j :: 0 <= i < j < |firings| ==> firings[i].input.now <= firings[j].input.now
  }

  lemma {:induction false} SuccessTimesBounded(firings: seq<Firing>, db: Db, name: string, now: int)
    requires TimesNeverGoBack(firings) && forall i :: 0 <= i < |firings| ==> firings[i].input.now <= now
    ensures Ascending(SuccessTimes(firings, db, name), now)
  {
    if |firings| == 0 {
    } else {
      var front, last := firings[..|firings| - 1], firings[|firings| - 1];
      SuccessTimesBounded(front, db, name, last.input.now);
      AscendingSnoc(SuccessTimes(front, db, name), last.input.now, now);
    }
  }

  /** The times never go back and none is later than `now`. */
  ghost predicate Ascending(times: seq<int>, now: int) {
    && (forall i :: 0 <= i < |times| ==> times[i] <= now)
    && (forall i, j :: 0 <= i < j < |times| ==> times[i] <= times[j])
  }

  lemma AscendingSnoc(times: seq<int>, last: int, now: int)
    requires Ascending(times, last) && last <= now
    ensures Ascending(times, now) && Ascending(times + [last], now) && Ascending(times + [], now)
  {
  }

  /** No closer than the cadence to any of the times. */
  ghost predicate KeepsDistance(times: seq<int>, now: int, cadenceMinutes: int) {
    forall k :: 0 <= k < |times| ==> now - times[k] >= 60 * cadenceMinutes
  }

  lemma ElapsedKeepsDistance(times: seq<int>, latest: int, now: int, cadenceMinutes: int)
    requires Ascending(times, latest) && Elapsed(times, now, cadenceMinutes)
    ensures KeepsDistance(times, now, cadenceMinutes)
  {
    forall k | 0 <= k < |times| ensures times[k] <= times[|times| - 1] {
    }
  }

  /** With a clock that never goes back, an unforced poll keeps its distance from every earlier SUCCESS poll. */
  lemma UnforcedPollsKeepTheirDistance(firings: seq<Firing>, db: Db,
                                                          next: Firing, source: Source)
    requires NamesDistinct(firings + [next]) && StateOf(db, source.name) == NEVER_POLLED
    requires source in next.cfg.registry && source.enabled
    requires next.input.lockGranted && !next.input.forceBaseline && next.input.onlySource.None?
    requires TimesNeverGoBack(firings) && PolledAfter(firings, db, next, source.name)
    ensures KeepsDistance(SuccessTimes(firings, db, source.name), next.input.now, source.cadenceMinutes)
  {
    var latest := if |firings| == 0 then 0 else firings[|firings| - 1].input.now;
    SuccessTimesBounded(firings, db, source.name, latest);
    PolledExactlyWhenDue(firings, db, next, source);
    ElapsedKeepsDistance(SuccessTimes(firings, db, source.name), latest, next.input.now, source.cadenceMinutes);
  }
}

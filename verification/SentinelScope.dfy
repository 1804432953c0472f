/** Which sources a sweep polls: all enabled ones that are due, every one of them when forced, or the one that is
    named. */
module SentinelScope {
  import opened Common
  import opened Database
  import opened SentinelStore
  import opened SentinelRunner
  import opened SentinelTheorems
  import opened SentinelRuns
  import opened SentinelCadence
  import opened SentinelBaseline

  /** A source that the sweep is for: the named one, or any enabled one. */
  ghost predicate IsMeant(cfg: Config, input: SweepInput, s: Source) {
    s in cfg.registry && (if input.onlySource.Some? then s.name == input.onlySource.value else s.enabled)
  }

  ghost predicate InScope(cfg: Config, input: SweepInput, name: string) {
    exists s: Source :: s.name == name && IsMeant(cfg, input, s)
  }

  lemma ChosenExactly(cfg: Config, input: SweepInput, s: Source)
    ensures s in Chosen(cfg, input) <==> IsMeant(cfg, input, s)
  {
    FilterMember((s: Source) => s.enabled, cfg.registry, s);
    if input.onlySource.Some? {
      var name := input.onlySource.value;
      FilterMember((s: Source) => s.name == name, cfg.registry, s);
    }
  }

  /** A sweep is refused without the lock, or for a name that no source has, and then reports and changes nothing. */
  lemma RefusedExactly(cfg: Config, input: SweepInput, db: Db)
    ensures Refuses(cfg, input)
       <==> !input.lockGranted
            || (input.onlySource.Some? && forall s :: s in cfg.registry ==> s.name != input.onlySource.value)
    ensures Refuses(cfg, input) ==> EntriesOf(cfg, input, db) == map[] && AfterSweep(cfg, input, db) == db
  {
    forall s ensures s in Chosen(cfg, input) <==> IsMeant(cfg, input, s) {
      ChosenExactly(cfg, input, s);
    }
    if Chosen(cfg, input) != [] {
      assert IsMeant(cfg, input, Chosen(cfg, input)[0]);
    }
    if input.onlySource.Some? {
      forall s | s in cfg.registry && s.name == input.onlySource.value ensures Chosen(cfg, input) != [] {
        assert IsMeant(cfg, input, s);
      }
    }
  }

  /** A sweep that is not refused reports an entry for every source in its scope and for no other, polls every one of
      them when it is forced or names its source, and otherwise exactly those that are due; and the bookkeeping of all
      sources outside its scope stays as it was. */
  lemma ScopeExactly(cfg: Config, input: SweepInput, db: Db, name: string)
    requires DistinctNames(cfg.registry) && !Refuses(cfg, input)
    ensures name in EntriesOf(cfg, input, db) <==> InScope(cfg, input, name)
    ensures InScope(cfg, input, name) && (input.forceBaseline || input.onlySource.Some?) ==>
              EntriesOf(cfg, input, db)[name] != NotDue
    ensures !InScope(cfg, input, name) ==> SameState(db, AfterSweep(cfg, input, db), name)
  {
    SweepFollows(cfg, input, db, name);
    forall s ensures s in Chosen(cfg, input) <==> IsMeant(cfg, input, s) {
      ChosenExactly(cfg, input, s);
    }
    if InScope(cfg, input, name) {
      SweepEntryTells(cfg, input, db, name);
      var s :| s in Chosen(cfg, input) && s.name == name;
      hide EntriesOf, Chosen;
    } else {
      OutsideStays(cfg, input, db, name);
    }
  }

  ghost predicate SameState(before: Db, after: Db, name: string) {
    (name in before.states <==> name in after.states) && (name in before.states ==>
       after.states[name] == before.states[name])
  }

  lemma {:induction false} StatesAdded(db: Db, sources: seq<Source>)
    ensures WithStates(db, sources).states.Keys == db.states.Keys + set s | s in sources :: s.name
  {
    if |sources| == 0 {
    } else {
      var front, last := sources[..|sources| - 1], sources[|sources| - 1];
      StatesAdded(db, front);
      assert sources == front + [last];
    }
  }

  lemma OutsideStays(cfg: Config, input: SweepInput, db: Db, name: string)
    requires DistinctNames(cfg.registry) && !Refuses(cfg, input)
    requires forall s :: s in Chosen(cfg, input) ==> s.name != name
    ensures SameState(db, AfterSweep(cfg, input, db), name)
  {
    var sources := Chosen(cfg, input);
    var ready := WithStates(db, sources);
    ChosenDistinct(cfg, input);
    StatesAdded(db, sources);
    SourcesFollow(cfg, input, Due(cfg, input, ready), Begun(ready), sources);
  }

  /** A sweep for one source polls that source, due or not, and leaves the bookkeeping of all others alone. */
  lemma NamedSweepPollsIt(cfg: Config, input: SweepInput, db: Db, source: Source)
    requires DistinctNames(cfg.registry) && input.lockGranted && source in cfg.registry
    requires input.onlySource == Some(source.name)
    ensures EntriesOf(cfg, input, db).Keys == {source.name} && EntriesOf(cfg, input, db)[source.name] != NotDue
    ensures forall n :: n != source.name ==> SameState(db, AfterSweep(cfg, input, db), n)
  {
    RefusedExactly(cfg, input, db);
    forall n
      ensures n in EntriesOf(cfg, input, db) <==> n == source.name
      ensures n == source.name ==> EntriesOf(cfg, input, db)[n] != NotDue
      ensures n != source.name ==> SameState(db, AfterSweep(cfg, input, db), n)
    {
      ScopeExactly(cfg, input, db, n);
      hide EntriesOf, AfterSweep, SameState;
    }
  }

  /** A forced sweep polls every enabled source, due or not, and no other. */
  lemma ForcedSweepPollsAll(cfg: Config, input: SweepInput, db: Db)
    requires DistinctNames(cfg.registry) && input.lockGranted && input.forceBaseline && input.onlySource.None?
    ensures EntriesOf(cfg, input, db).Keys == set s | s in cfg.registry && s.enabled :: s.name
    ensures forall n :: n in EntriesOf(cfg, input, db) ==> EntriesOf(cfg, input, db)[n] != NotDue
  {
    RefusedExactly(cfg, input, db);
    forall n
      ensures n in EntriesOf(cfg, input, db) <==> n in (set s | s in cfg.registry && s.enabled :: s.name)
      ensures n in EntriesOf(cfg, input, db) ==> EntriesOf(cfg, input, db)[n] != NotDue
    {
      ScopeExactly(cfg, input, db, n);
      hide EntriesOf;
    }
  }

  /* ---- The latest poll ---- */

  /** One poll of a source that a sweep reported. */
  datatype PollMark = PollMark(at: int, status: PollStatus)

  function StatusTold(e: Entry): PollStatus
    requires e != NotDue
  {
    match e
    case PollFailure(_) => PollFailed
    case Refused(status, _) => status
    case Processed(status, _, _, _, _) => status
  }

  /** Every poll of the source over a run, oldest first. */
  ghost function PollsOf(firings: seq<Firing>, db: Db, name: string): seq<PollMark> {
    if |firings| == 0 then []
    else
      var front, last := firings[..|firings| - 1], firings[|firings| - 1];
      var entries := EntriesOf(last.cfg, last.input, AfterRun(front, db));
      PollsOf(front, db, name)
      + (if name in entries && entries[name] != NotDue
         then [PollMark(last.input.now, StatusTold(entries[name]))] else [])
  }

  predicate TellsLastPoll(state: SourceState, polls: seq<PollMark>) {
    if polls == [] then state == SourceState(None, None, None, None)
    else state.lastPollAt == Some(polls[|polls| - 1].at) && state.lastStatus == Some(polls[|polls| - 1].status)
  }

  /** The bookkeeping shows the time and the status of the source's latest poll, whatever came of it. */
  lemma {:induction false} LastPollTold(firings: seq<Firing>, db: Db, name: string)
    requires NamesDistinct(firings) && StateOf(db, name) == NEVER_POLLED
    ensures TellsLastPoll(StateOf(AfterRun(firings, db), name), PollsOf(firings, db, name))
  {
    hide EntriesOf, AfterSweep, StateOf;
    if |firings| == 0 {
    } else {
      var front, last := firings[..|firings| - 1], firings[|firings| - 1];
      LastPollTold(front, db, name);
      SweepFollows(last.cfg, last.input, AfterRun(front, db), name);
    }
  }
}

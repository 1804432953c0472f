/** The dashboard's local collection controller: one lock-guarded state, its worker threads, and every interleaving
    of their steps. */
module Controller {
  import opened Common

  /** The result of one collector run, as far as the state keeps it. */
  datatype Detail = Detail(status: string, error: Option<string>)

  datatype Job =
    | NoJob
    | Single(collector: string, detail: Option<Detail>)
    | Batch(total: nat, completed: nat, current: Option<string>, results: map<string, Detail>, okCount: Option<nat>)

  datatype State = State(status: string, running: bool, job: Job)

  const IDLE := State("IDLE", false, NoJob)
  const GOOD := {"SUCCESS", "PARTIAL", "ZERO_ITEMS", "COMPLETED"}

  function GoodOnes(results: map<string, Detail>): set<string> {
    set id | id in results && results[id].status in GOOD
  }

  /* ---- The sections under the lock ---- */

  function Started(collector: string): State {
    State("RUNNING", true, Single(collector, None))
  }

  function StartedAll(jobs: seq<string>): State {
    State("RUNNING", true, Batch(|jobs|, 0, None, map[], None))
  }

  function SingleDone(s: State, detail: Detail): State {
    State(detail.status, false, if s.job.Single? then s.job.(detail := Some(detail)) else s.job)
  }

  function CurrentSet(s: State, id: string): State
    requires s.job.Batch?
  {
    s.(job := s.job.(current := Some(id)))
  }

  function ResultAdded(s: State, id: string, detail: Detail): State
    requires s.job.Batch?
  {
    s.(job := s.job.(results := s.job.results[id := detail], completed := s.job.completed + 1))
  }

  function BatchDone(s: State): State
    requires s.job.Batch?
  {
    State("COMPLETED", false, s.job.(current := None, okCount := Some(|GoodOnes(s.job.results)|)))
  }

  class LocalCollectionController {
    var state: State

    constructor ()
      ensures state == State("IDLE", false, NoJob)
    {
      state := IDLE;
    }

    method Snapshot() returns (s: State)
      ensures s == state
    {
      s := state;
    }

    /** True exactly when a worker is to be launched. */
    method Start(collector: string) returns (launch: bool)
      modifies this
      ensures launch == !old(state.running)
      ensures state == if launch then Started(collector) else old(state)
      ensures launch ==> state == State("RUNNING", true, Single(collector, None))
    {
      if state.running {
        return false;
      }
      state := State("RUNNING", true, Single(collector, None));
      launch := true;
    }

    method StartAll(jobs: seq<string>) returns (launch: bool)
      modifies this
      ensures launch == !old(state.running)
      ensures state == if launch then StartedAll(jobs) else old(state)
      ensures launch ==> state == State("RUNNING", true, Batch(|jobs|, 0, None, map[], None))
    {
      if state.running {
        return false;
      }
      state := State("RUNNING", true, Batch(|jobs|, 0, None, map[], None));
      launch := true;
    }

    /** The end of a single run. */
    method FinishSingle(detail: Detail)
      requires state.job.Single?
      modifies this
      ensures state == SingleDone(old(state), detail)
      ensures state == State(detail.status, false, Single(old(state).job.collector, Some(detail)))
    {
      state := State(detail.status, false, state.job.(detail := Some(detail)));
    }

    /** What the batch thread does when nothing else starts and no step raises: every job in turn, each in two
        locked sections, and the closing one. */
    method RunAll(jobs: seq<string>, runs: nat -> Detail)
      requires state == StartedAll(jobs)
      modifies this
      ensures state == BatchDone(AllRecorded(StartedAll(jobs), jobs, runs))
      ensures EndsBatch(state, jobs) && LatestResults(state.job.results, jobs, |jobs|, runs)
    {
      for n := 0 to |jobs|
        invariant state.job.Batch? && state.job.(current := None) == AllRecorded(StartedAll(jobs), jobs[..n], runs).job
        invariant state.running && state.status == "RUNNING"
      {
        state := CurrentSet(state, jobs[n]);
        state := ResultAdded(state, jobs[n], runs(n));
        assert jobs[..n + 1][..n] == jobs[..n];
      }
      assert jobs[..|jobs|] == jobs;
      state := BatchDone(state);
      BatchMeaning(jobs, runs);
    }
  }

  /** The results of the first jobs, one after the other. */
  function AllRecorded(s: State, jobs: seq<string>, runs: nat -> Detail): (r: State)
    requires s.job.Batch?
    ensures r.job.Batch?
  {
    if |jobs| == 0 then s
    else ResultAdded(AllRecorded(s, jobs[..|jobs| - 1], runs), jobs[|jobs| - 1], runs(|jobs| - 1))
  }

  /* ---- Threads ---- */

  /** A thread from the moment its start was granted. `busy` is a batch between the two locked sections of a job. */
  datatype Worker =
    | SingleWorker(collector: string, launched: bool)
    | BatchWorker(jobs: seq<string>, launched: bool, done: nat, busy: bool)

  /** `lost` counts threads that were granted but could not be launched, or died of an exception. */
  datatype System = System(state: State, workers: map<nat, Worker>, lost: nat)

  const INITIAL := System(IDLE, map[], 0)

  datatype Action =
    | AskStart(collector: string, thread: nat)
    | AskStartAll(jobs: seq<string>, thread: nat)
    | Launch(thread: nat)
    | Work(thread: nat, detail: Detail)
    | Die(thread: nat)

  ghost predicate Enabled(s: System, a: Action) {
    match a
    case AskStart(_, thread) => thread !in s.workers
    case AskStartAll(_, thread) => thread !in s.workers
    case Launch(thread) => thread in s.workers && !s.workers[thread].launched
    case Work(thread, _) => thread in s.workers && s.workers[thread].launched
    case Die(thread) => thread in s.workers
  }

  function Worked(s: System, thread: nat, detail: Detail): System
    requires thread in s.workers
  {
    match s.workers[thread]
    case SingleWorker(_, _) => System(SingleDone(s.state, detail), s.workers - {thread}, s.lost)
    case BatchWorker(jobs, launched, done, busy) =>
      if !s.state.job.Batch? then s
      else if done >= |jobs| then System(BatchDone(s.state), s.workers - {thread}, s.lost)
      else if busy
      then System(ResultAdded(s.state, jobs[done], detail),
                  s.workers[thread := BatchWorker(jobs, launched, done + 1, false)], s.lost)
      else System(CurrentSet(s.state, jobs[done]),
                  s.workers[thread := BatchWorker(jobs, launched, done, true)], s.lost)
  }

  ghost function Next(s: System, a: Action): System
    requires Enabled(s, a)
  {
    match a
    case AskStart(collector, thread) =>
      if s.state.running then s
      else System(Started(collector), s.workers[thread := SingleWorker(collector, false)], s.lost)
    case AskStartAll(jobs, thread) =>
      if s.state.running then s
      else System(StartedAll(jobs), s.workers[thread := BatchWorker(jobs, false, 0, false)], s.lost)
    case Launch(thread) => s.(workers := s.workers[thread := s.workers[thread].(launched := true)])
    case Work(thread, detail) => Worked(s, thread, detail)
    case Die(thread) => s.(workers := s.workers - {thread}, lost := s.lost + 1)
  }

  /* ---- The invariant ---- */

  function Ids(jobs: seq<string>): set<string> {
    set id | id in jobs
  }

  /** The state that the running worker has built up so far. */
  ghost predicate Serves(state: State, w: Worker) {
    match w
    case SingleWorker(collector, _) => state == State("RUNNING", true, Single(collector, None))
    case BatchWorker(jobs, _, done, busy) =>
      && state.running && state.status == "RUNNING" && state.job.Batch?
      && done <= |jobs| && (busy ==> done < |jobs| && state.job.current == Some(jobs[done]))
      && Counts(state.job, jobs, done) && state.job.okCount.None?
  }

  /** How many results are good, by the statuses that count as such. */
  function GoodCount(results: map<string, Detail>): nat {
    |set id | id in results && results[id].status in {"SUCCESS", "PARTIAL", "ZERO_ITEMS", "COMPLETED"}|
  }

  lemma GoodCounted(results: map<string, Detail>)
    ensures |GoodOnes(results)| == GoodCount(results)
  {
    assert GoodOnes(results)
        == set id | id in results && results[id].status in {"SUCCESS", "PARTIAL", "ZERO_ITEMS", "COMPLETED"};
  }

  /** A batch that has come to its end: every job counted, nothing current, a result for each collector and no other,
      and the good ones counted. */
  ghost predicate EndsBatch(s: State, jobs: seq<string>) {
    && !s.running && s.status == "COMPLETED" && s.job.Batch? && s.job.current.None?
    && s.job.completed == s.job.total == |jobs| && s.job.results.Keys == Ids(jobs)
    && s.job.okCount == Some(GoodCount(s.job.results))
  }

  /** A batch of which this many jobs are recorded. */
  ghost predicate Counts(job: Job, jobs: seq<string>, done: nat)
    requires job.Batch? && done <= |jobs|
  {
    job.total == |jobs| && job.completed == done && job.results.Keys == Ids(jobs[..done])
  }

  ghost predicate AtMostOne(workers: map<nat, Worker>) {
    forall s, t :: s in workers && t in workers ==> s == t
  }

  ghost predicate Inv(s: System) {
    && AtMostOne(s.workers)
    && (forall t :: t in s.workers ==> Serves(s.state, s.workers[t]) && s.lost == 0)
    && (s.state.running <==> s.workers != map[] || s.lost > 0)
    && s.lost <= 1
  }

  lemma OneJobMore(jobs: seq<string>, done: nat)
    requires done < |jobs|
    ensures Ids(jobs[..done + 1]) == Ids(jobs[..done]) + {jobs[done]}
  {
    assert jobs[..done + 1] == jobs[..done] + [jobs[done]];
  }

  lemma WorkKeepsInv(s: System, thread: nat, detail: Detail)
    requires Inv(s) && Enabled(s, Work(thread, detail))
    ensures Inv(Worked(s, thread, detail))
  {
    var w, after := s.workers[thread], Worked(s, thread, detail);
    assert Serves(s.state, w);
    assert s.workers.Keys == {thread};
    if w.BatchWorker? && w.done < |w.jobs| {
      OneJobMore(w.jobs, w.done);
      assert after.workers.Keys == {thread};
      assert Serves(after.state, after.workers[thread]);
    } else {
      assert after.workers.Keys == {};
    }
  }

  lemma StepKeepsInv(s: System, a: Action)
    requires Inv(s) && Enabled(s, a)
    ensures Inv(Next(s, a))
  {
    match a {
      case AskStart(_, thread) => assert thread in Next(s, a).workers || Next(s, a) == s;
      case AskStartAll(jobs, thread) =>
        assert thread in Next(s, a).workers || Next(s, a) == s;
        assert Ids(jobs[..0]) == {};
      case Launch(thread) => assert Serves(s.state, s.workers[thread]) && thread in Next(s, a).workers;
      case Work(thread, detail) => WorkKeepsInv(s, thread, detail);
      case Die(thread) =>
        assert s.workers.Keys == {thread};
        assert Next(s, a).workers.Keys == {};
    }
  }

  /** Anything may be asked at any moment under a new thread's name, a granted thread may be launched or be lost, and a
      launched one, and no other, may work. A granted start is pending first. */
  lemma NobodyIsStuck(s: System, thread: nat, collector: string, jobs: seq<string>, detail: Detail)
    ensures thread !in s.workers ==> Enabled(s, AskStart(collector, thread)) && Enabled(s, AskStartAll(jobs, thread))
    ensures thread in s.workers ==>
              && Enabled(s, Die(thread))
              && (Enabled(s, Work(thread, detail)) <==> s.workers[thread].launched)
              && (Enabled(s, Launch(thread)) <==> !s.workers[thread].launched)
    ensures thread !in s.workers && !s.state.running ==>
              && PendingOnly(Next(s, AskStart(collector, thread)), thread)
              && PendingOnly(Next(s, AskStartAll(jobs, thread)), thread)
  {
  }

  /** Granted, but its thread is not launched yet. */
  ghost predicate PendingOnly(s: System, thread: nat) {
    thread in s.workers && !s.workers[thread].launched
  }

  ghost predicate Run(states: seq<System>, actions: seq<Action>) {
    && |states| == |actions| + 1 && states[0] == INITIAL
    && forall i :: 0 <= i < |actions| ==> Enabled(states[i], actions[i]) && states[i + 1] == Next(states[i], actions[i])
  }

  lemma {:induction false} RunKeepsInv(states: seq<System>, actions: seq<Action>, i: nat)
    requires Run(states, actions) && i < |states|
    ensures Inv(states[i])
  {
    if i == 0 {
    } else {
      RunKeepsInv(states, actions, i - 1);
      StepKeepsInv(states[i - 1], actions[i - 1]);
    }
  }

  /** Jobs never overlap, whichever button started them: at most one thread is pending or live, and it works on the
      job that the state shows. `running` is true exactly while there is one, or after one was lost. */
  lemma RunningExactly(states: seq<System>, actions: seq<Action>, i: nat)
    requires Run(states, actions) && i < |states|
    ensures AtMostOne(states[i].workers)
    ensures forall t :: t in states[i].workers ==> Serves(states[i].state, states[i].workers[t])
    ensures states[i].state.running <==> states[i].workers != map[] || states[i].lost > 0
  {
    RunKeepsInv(states, actions, i);
  }

  /** The claim "busy means a worker" holds if and only if no thread was ever lost. */
  lemma BusyMeansWorkerExactly(states: seq<System>, actions: seq<Action>, i: nat)
    requires Run(states, actions) && i < |states|
    ensures (states[i].state.running <==> states[i].workers != map[]) <==> states[i].lost == 0
  {
    RunKeepsInv(states, actions, i);
    if states[i].lost > 0 && states[i].workers != map[] {
      NoneAfterLoss(states[i]);
    }
  }

  lemma NoneAfterLoss(s: System)
    requires Inv(s) && s.lost > 0
    ensures s.workers == map[]
  {
    assert s.workers.Keys == {};
  }

  /** One lost thread is final: the state never changes again, and every later start is refused. */
  lemma {:induction false} LostIsFinal(states: seq<System>, actions: seq<Action>, i: nat, j: nat)
    requires Run(states, actions) && i <= j < |states| && states[i].lost > 0
    ensures states[j] == states[i] && states[j].state.running && states[j].workers == map[]
    decreases j
  {
    RunKeepsInv(states, actions, i);
    NoneAfterLoss(states[i]);
    if i == j {
    } else {
      LostIsFinal(states, actions, i, j - 1);
    }
  }

  /* ---- Batch accounting ---- */

  lemma DistinctSnoc(front: seq<string>, last: string)
    ensures Distinct(front + [last]) <==> Distinct(front) && last !in front
    ensures Ids(front + [last]) == Ids(front) + {last}
  {
    var jobs := front + [last];
    assert forall i :: 0 <= i < |front| ==> jobs[i] == front[i];
    assert jobs[|front|] == last;
  }

  lemma {:induction false} DistinctCount(jobs: seq<string>)
    ensures |Ids(jobs)| <= |jobs|
    ensures |Ids(jobs)| == |jobs| <==> Distinct(jobs)
  {
    if |jobs| == 0 {
      assert Ids(jobs) == {};
    } else {
      hide Distinct;
      var front, last := jobs[..|jobs| - 1], jobs[|jobs| - 1];
      assert jobs == front + [last];
      DistinctCount(front);
      DistinctSnoc(front, last);
      assert last in Ids(front) <==> last in front;
    }
  }

  /** A batch under way: `completed` never exceeds `total`, the results are those of the jobs done, and the two
      numbers agree exactly while no collector was run twice. */
  lemma BatchAccounts(states: seq<System>, actions: seq<Action>, i: nat, thread: nat)
    requires Run(states, actions) && i < |states|
    requires thread in states[i].workers && states[i].workers[thread].BatchWorker?
    ensures var job, w := states[i].state.job, states[i].workers[thread];
            && job.Batch? && w.done <= |w.jobs|
            && job.completed == w.done <= job.total == |w.jobs|
            && |job.results| <= job.completed
            && (job.completed == |job.results| <==> Distinct(w.jobs[..w.done]))
  {
    RunKeepsInv(states, actions, i);
    var job, w := states[i].state.job, states[i].workers[thread];
    DistinctCount(w.jobs[..w.done]);
    assert |job.results| == |job.results.Keys|;
  }

  /** The step that ends a batch leaves every job counted, a result for each collector, and the good ones counted. */
  lemma BatchEndsComplete(states: seq<System>, actions: seq<Action>, i: nat, thread: nat)
    requires Run(states, actions) && i < |actions| && actions[i].Work? && actions[i].thread == thread
    requires states[i].workers[thread].BatchWorker? && thread !in states[i + 1].workers
    ensures var job, jobs := states[i + 1].state.job, states[i].workers[thread].jobs;
            EndsBatch(states[i + 1].state, jobs) && (job.completed == |job.results| <==> Distinct(jobs))
  {
    RunKeepsInv(states, actions, i);
    var w := states[i].workers[thread];
    assert Serves(states[i].state, w);
    assert w.jobs[..|w.jobs|] == w.jobs;
    DistinctCount(w.jobs);
    GoodCounted(states[i].state.job.results);
    assert |states[i].state.job.results| == |states[i].state.job.results.Keys|;
  }

  /** The step that ends a single run leaves its collector shown, with the result and under the result's own status. */
  lemma SingleEndsWithItsResult(states: seq<System>, actions: seq<Action>, i: nat, thread: nat)
    requires Run(states, actions) && i < |actions| && actions[i].Work? && actions[i].thread == thread
    requires states[i].workers[thread].SingleWorker?
    ensures var collector, detail := states[i].workers[thread].collector, actions[i].detail;
            && states[i + 1].state == State(detail.status, false, Single(collector, Some(detail)))
            && states[i + 1].workers == map[]
  {
    RunKeepsInv(states, actions, i);
    assert Serves(states[i].state, states[i].workers[thread]);
    assert states[i].workers.Keys == {thread};
    assert states[i + 1].workers.Keys == {};
  }

  /* ---- The batch loop as a run of its thread ---- */

  /** Job `i` is the latest, among the first `done`, for its collector. */
  ghost predicate Latest(jobs: seq<string>, done: nat, i: nat)
    requires done <= |jobs|
  {
    i < done && forall j :: i < j < done ==> jobs[j] != jobs[i]
  }

  /** Each collector's result is that of its latest run. */
  ghost predicate LatestResults(results: map<string, Detail>, jobs: seq<string>, done: nat, runs: nat -> Detail)
    requires done <= |jobs|
  {
    forall i: nat :: Latest(jobs, done, i) ==> jobs[i] in results && results[jobs[i]] == runs(i)
  }

  /** What the batch loop has built: every job counted, one result for each collector, that of its latest run. */
  ghost predicate Holds(s: State, jobs: seq<string>, done: nat, runs: nat -> Detail)
    requires done <= |jobs|
  {
    && s.running && s.status == "RUNNING" && s.job.Batch? && s.job.current.None? && s.job.okCount.None?
    && Counts(s.job, jobs, done) && LatestResults(s.job.results, jobs, done, runs)
  }

  lemma OneResultMore(results: map<string, Detail>, jobs: seq<string>, done: nat, runs: nat -> Detail)
    requires done < |jobs| && LatestResults(results, jobs, done, runs)
    ensures LatestResults(results[jobs[done] := runs(done)], jobs, done + 1, runs)
  {
    forall i: nat | Latest(jobs, done + 1, i) && i < done ensures Latest(jobs, done, i) && jobs[i] != jobs[done] {}
  }

  lemma {:induction false} AllRecordedHolds(jobs: seq<string>, done: nat, runs: nat -> Detail)
    requires done <= |jobs|
    ensures Holds(AllRecorded(StartedAll(jobs), jobs[..done], runs), jobs, done, runs)
  {
    hide LatestResults;
    if done == 0 {
      assert Ids(jobs[..0]) == {};
      NoResults(jobs, runs);
    } else {
      AllRecordedHolds(jobs, done - 1, runs);
      assert jobs[..done][..done - 1] == jobs[..done - 1];
      OneJobMore(jobs, done - 1);
      OneResultMore(AllRecorded(StartedAll(jobs), jobs[..done - 1], runs).job.results, jobs, done - 1, runs);
    }
  }

  lemma NoResults(jobs: seq<string>, runs: nat -> Detail)
    ensures LatestResults(map[], jobs, 0, runs)
  {
  }

  /** What RunAll leaves: every job counted, a result for each collector and no other, each from that collector's last
      run, and the good ones counted. The results are as many as the jobs exactly when no collector was run twice. */
  lemma BatchMeaning(jobs: seq<string>, runs: nat -> Detail)
    ensures var s := BatchDone(AllRecorded(StartedAll(jobs), jobs, runs));
            && EndsBatch(s, jobs) && LatestResults(s.job.results, jobs, |jobs|, runs)
            && (|s.job.results| == |jobs| <==> Distinct(jobs))
  {
    AllRecordedHolds(jobs, |jobs|, runs);
    hide AllRecorded, LatestResults, GoodOnes, GoodCount, Ids, Distinct;
    assert jobs[..|jobs|] == jobs;
    DistinctCount(jobs);
    var job := AllRecorded(StartedAll(jobs), jobs, runs).job;
    GoodCounted(job.results);
    assert |job.results| == |job.results.Keys|;
  }

  /** The state between two jobs, the last one still shown as current. */
  function Between(jobs: seq<string>, done: nat, runs: nat -> Detail): State
    requires done <= |jobs|
  {
    var s := AllRecorded(StartedAll(jobs), jobs[..done], runs);
    if done == 0 then s else s.(job := s.job.(current := Some(jobs[done - 1])))
  }

  lemma RunOneMore(states: seq<System>, actions: seq<Action>, a: Action)
    requires Run(states, actions) && Enabled(states[|actions|], a)
    ensures Run(states + [Next(states[|actions|], a)], actions + [a])
  {
  }

  lemma RecordedNext(jobs: seq<string>, done: nat, runs: nat -> Detail)
    requires done < |jobs|
    ensures AllRecorded(StartedAll(jobs), jobs[..done + 1], runs)
         == ResultAdded(AllRecorded(StartedAll(jobs), jobs[..done], runs), jobs[done], runs(done))
  {
    assert jobs[..done + 1][..done] == jobs[..done];
  }

  lemma OneJob(jobs: seq<string>, done: nat, runs: nat -> Detail)
    requires done < |jobs|
    ensures Between(jobs, done, runs).job.Batch?
    ensures ResultAdded(CurrentSet(Between(jobs, done, runs), jobs[done]), jobs[done], runs(done))
         == Between(jobs, done + 1, runs)
  {
    RecordedNext(jobs, done, runs);
    hide AllRecorded;
  }

  /** One job: the thread shows it, runs it and records it. */
  lemma JobSteps(jobs: seq<string>, done: nat, runs: nat -> Detail, thread: nat)
    requires done < |jobs|
    ensures var s := System(Between(jobs, done, runs), map[thread := BatchWorker(jobs, true, done, false)], 0);
            Worked(Worked(s, thread, runs(done)), thread, runs(done))
            == System(Between(jobs, done + 1, runs), map[thread := BatchWorker(jobs, true, done + 1, false)], 0)
  {
    OneJob(jobs, done, runs);
    var one := map[thread := BatchWorker(jobs, true, done, false)];
    assert one[thread := BatchWorker(jobs, true, done, true)] == map[thread := BatchWorker(jobs, true, done, true)];
    assert map[thread := BatchWorker(jobs, true, done, true)][thread := BatchWorker(jobs, true, done + 1, false)]
        == map[thread := BatchWorker(jobs, true, done + 1, false)];
    hide Between, ResultAdded, CurrentSet;
  }

  lemma BatchStarts(states0: seq<System>, actions0: seq<Action>, jobs: seq<string>, runs: nat -> Detail, thread: nat)
    returns (states: seq<System>, actions: seq<Action>)
    requires Run(states0, actions0) && !states0[|actions0|].state.running
    ensures Run(states, actions) && states0 <= states && actions0 <= actions
    ensures states[|actions|]
         == System(Between(jobs, 0, runs), map[thread := BatchWorker(jobs, true, 0, false)], 0)
  {
    var idle := states0[|actions0|];
    RunKeepsInv(states0, actions0, |actions0|);
    assert idle.workers == map[] && idle.lost == 0;
    RunOneMore(states0, actions0, AskStartAll(jobs, thread));
    var asked := Next(idle, AskStartAll(jobs, thread));
    assert asked.workers == map[thread := BatchWorker(jobs, false, 0, false)];
    RunOneMore(states0 + [asked], actions0 + [AskStartAll(jobs, thread)], Launch(thread));
    states := states0 + [asked] + [Next(asked, Launch(thread))];
    actions := actions0 + [AskStartAll(jobs, thread)] + [Launch(thread)];
    assert Next(asked, Launch(thread)).workers == map[thread := BatchWorker(jobs, true, 0, false)];
    assert jobs[..0] == [];
  }

  lemma {:induction false} BatchReaches(states0: seq<System>, actions0: seq<Action>, jobs: seq<string>,
                                        runs: nat -> Detail, thread: nat, done: nat)
    returns (states: seq<System>, actions: seq<Action>)
    requires Run(states0, actions0) && !states0[|actions0|].state.running && done <= |jobs|
    ensures Run(states, actions) && states0 <= states && actions0 <= actions
    ensures states[|actions|]
         == System(Between(jobs, done, runs), map[thread := BatchWorker(jobs, true, done, false)], 0)
  {
    if done == 0 {
      states, actions := BatchStarts(states0, actions0, jobs, runs, thread);
    } else {
      var ss, acts := BatchReaches(states0, actions0, jobs, runs, thread, done - 1);
      var s, work := ss[|acts|], Work(thread, runs(done - 1));
      AllRecordedHolds(jobs, done - 1, runs);
      hide LatestResults, Counts, AllRecorded;
      JobSteps(jobs, done - 1, runs, thread);
      RunOneMore(ss, acts, work);
      RunOneMore(ss + [Next(s, work)], acts + [work], work);
      states, actions := ss + [Next(s, work)] + [Next(Next(s, work), work)], acts + [work] + [work];
    }
  }

  /** The batch method is a run of the protocol: from any reachable state in which nothing runs, one launched thread
      that is not disturbed ends, with no thread left, in exactly the state that RunAll computes. */
  lemma BatchIsRun(states0: seq<System>, actions0: seq<Action>, jobs: seq<string>, runs: nat -> Detail, thread: nat)
    returns (states: seq<System>, actions: seq<Action>)
    requires Run(states0, actions0) && !states0[|actions0|].state.running
    ensures Run(states, actions) && states0 <= states && actions0 <= actions
    ensures states[|actions|] == System(BatchDone(AllRecorded(StartedAll(jobs), jobs, runs)), map[], 0)
  {
    var ss, acts := BatchReaches(states0, actions0, jobs, runs, thread, |jobs|);
    var s, last := ss[|acts|], Work(thread, Detail("", None));
    AllRecordedHolds(jobs, |jobs|, runs);
    assert jobs[..|jobs|] == jobs;
    RunOneMore(ss, acts, last);
    assert s.workers - {thread} == map[];
    states, actions := ss + [Next(s, last)], acts + [last];
  }

  /* ---- Two witnesses ---- */

  /** A thread that dies right after its start: the controller runs nothing, says it does, and refuses. */
  lemma LostThreadLocks(collector: string)
    ensures var started := Next(INITIAL, AskStart(collector, 0));
            var lost := Next(started, Die(0));
            && lost.state.running && lost.workers == map[]
            && Next(lost, AskStart(collector, 1)) == lost && Next(lost, AskStartAll([collector], 1)) == lost
  {
    assert map[0 := SingleWorker(collector, false)] - {0} == map[];
  }

  /** A batch that names one collector twice ends with two jobs completed and one result. */
  lemma DoubledJobCountsTwice(collector: string, runs: nat -> Detail)
    ensures var job := BatchDone(AllRecorded(StartedAll([collector, collector]), [collector, collector], runs)).job;
            job.Batch? && job.completed == 2 && job.results == map[collector := runs(1)]
  {
    var jobs := [collector, collector];
    BatchMeaning(jobs, runs);
    hide AllRecorded;
    assert Latest(jobs, 2, 1) && jobs[1] == collector;
    assert Ids(jobs) == {collector};
  }
}

/** The initial-fill window: open while every run so far served only first-time addresses. */
module InitialFill {
  import opened Common
  import opened Selection

  const INITIAL_FILL_RUNS := 4

  /** The invocation budget recorded with a run, as the metadata may hold it. */
  datatype Budget =
    | NoMetadata
    | Unreadable
    | FieldAbsent
    | Unbounded
    | Bounded(limit: int)
    | NotANumber

  datatype RunRecord = RunRecord(status: string, discovered: int, newWatches: int, budget: Budget)

  predicate IsCataloguePass(r: RunRecord, defaultBudget: int) {
    match r.budget
    case Unbounded => true
    case Bounded(limit) => limit >= defaultBudget
    case NoMetadata | Unreadable | FieldAbsent | NotANumber => false
  }

  predicate Counts(r: RunRecord) {
    r.status in {"SUCCESS", "PARTIAL"}
  }

  /** Every item the run served was new. */
  predicate IsPure(r: RunRecord) {
    r.newWatches > 0 && r.discovered == r.newWatches
  }

  /** The runs that succeeded at least in part. */
  function Counted(history: seq<RunRecord>): seq<RunRecord> {
    Filter(Counts, history)
  }

  function Passes(runs: seq<RunRecord>, defaultBudget: int): nat {
    if |runs| == 0 then 0
    else
      Passes(runs[..|runs| - 1], defaultBudget)
      + (if IsCataloguePass(runs[|runs| - 1], defaultBudget) then 1 else 0)
  }

  predicate InitialFillActive(history: seq<RunRecord>, defaultBudget: int) {
    var runs := Counted(history);
    |runs| == 0
    || ((forall r :: r in runs ==> IsPure(r)) && Passes(runs, defaultBudget) < INITIAL_FILL_RUNS)
  }

  /** A pass over the whole catalogue: without a budget, or with a full one. */
  predicate FullPass(r: RunRecord, defaultBudget: int) {
    r.status in {"SUCCESS", "PARTIAL"}
    && (r.budget.Unbounded? || (r.budget.Bounded? && r.budget.limit >= defaultBudget))
  }

  function FullPasses(history: seq<RunRecord>, defaultBudget: int): seq<RunRecord> {
    Filter((r: RunRecord) => FullPass(r, defaultBudget), history)
  }

  lemma FullPassesSnoc(front: seq<RunRecord>, last: RunRecord, defaultBudget: int)
    ensures |FullPasses(front + [last], defaultBudget)|
         == |FullPasses(front, defaultBudget)| + (if Counts(last) && IsCataloguePass(last, defaultBudget) then 1 else 0)
  {
    FilterSnoc((r: RunRecord) => FullPass(r, defaultBudget), front, last);
  }

  lemma {:induction false} PassesAreFull(history: seq<RunRecord>, defaultBudget: int)
    ensures Passes(Counted(history), defaultBudget) == |FullPasses(history, defaultBudget)|
  {
    if |history| == 0 {
    } else {
      var front, last := history[..|history| - 1], history[|history| - 1];
      PassesAreFull(front, defaultBudget);
      FullPassesSnoc(front, last, defaultBudget);
      assert front + [last] == history;
      if Counts(last) {
        assert Counted(history) == Counted(front) + [last];
        PassesConcat(Counted(front), [last], defaultBudget);
        assert [last][..0] == [] && Passes([], defaultBudget) == 0;
        assert Passes([last], defaultBudget) == if IsCataloguePass(last, defaultBudget) then 1 else 0;
      } else {
        assert Counted(history) == Counted(front);
      }
    }
  }

  /** The window over any history: open before the first run that succeeded at least in part, and from then on exactly
      while every such run served nothing but new items and fewer than four of them were full passes. A run whose
      budget is missing, unreadable or no number is no full pass. */
  lemma WindowExactly(history: seq<RunRecord>, defaultBudget: int)
    ensures InitialFillActive(history, defaultBudget)
       <==> (forall r :: r in history ==> r.status !in {"SUCCESS", "PARTIAL"})
            || ((forall r :: r in history && r.status in {"SUCCESS", "PARTIAL"} ==>
                   r.newWatches > 0 && r.discovered == r.newWatches)
                && |FullPasses(history, defaultBudget)| < 4)
  {
    PassesAreFull(history, defaultBudget);
    forall r ensures r in Counted(history) <==> r in history && r.status in {"SUCCESS", "PARTIAL"} {
      FilterMember(Counts, history, r);
    }
    if |Counted(history)| > 0 {
      assert Counted(history)[0] in Counted(history);
    }
  }

  lemma {:induction false} PassesConcat(s: seq<RunRecord>, t: seq<RunRecord>, defaultBudget: int)
    ensures Passes(s + t, defaultBudget) == Passes(s, defaultBudget) + Passes(t, defaultBudget)
  {
    if |t| == 0 {
      assert s + t == s;
    } else {
      assert (s + t)[..|s + t| - 1] == s + t[..|t| - 1];
      PassesConcat(s, t[..|t| - 1], defaultBudget);
    }
  }

  /** A closed window stays closed whatever runs are added, at the end or anywhere between earlier ones. */
  lemma ClosedStaysClosed(before: seq<RunRecord>, added: seq<RunRecord>, after: seq<RunRecord>, defaultBudget: int)
    requires !InitialFillActive(before + after, defaultBudget)
    ensures !InitialFillActive(before + added + after, defaultBudget)
  {
    FilterConcat(Counts, before, after);
    FilterConcat(Counts, before + added, after);
    FilterConcat(Counts, before, added);
    var b, m, a := Counted(before), Counted(added), Counted(after);
    assert forall r :: r in b + a ==> r in b + m + a;
    PassesConcat(b, a, defaultBudget);
    PassesConcat(b + m, a, defaultBudget);
    PassesConcat(b, m, defaultBudget);
  }

  /* ---- Composition with new-first selection over a fixed catalogue ---- */

  /** The record of a successful run: the selection it processed, and as new what was unseen before. */
  function RecordFor(selected: seq<string>, known: set<string>, budget: Budget): RunRecord {
    RunRecord("SUCCESS", |selected|, |Unseen(selected, known)|, budget)
  }

  function RecordOf(items: seq<string>, known: set<string>, budget: nat): RunRecord {
    RecordFor(Selected(items, known, budget), known, Bounded(budget))
  }

  /** The history after `k` runs that all begin with nothing known and use one budget. */
  function History(items: seq<string>, budget: nat, k: nat): seq<RunRecord> {
    if k == 0 then []
    else History(items, budget, k - 1) + [RecordOf(items, KnownAfter(items, {}, budget, k - 1), budget)]
  }

  /** A run's numbers: it serves the budget or the whole catalogue, and as many new as were left. */
  lemma RecordNumbers(items: seq<string>, known: set<string>, budget: nat)
    ensures RecordOf(items, known, budget).discovered == Min(budget, |items|)
    ensures RecordOf(items, known, budget).newWatches == Served(items, known, budget)
  {
    ServesUnseenFirst(items, known, budget);
    var selected, served := Selected(items, known, budget), Served(items, known, budget);
    assert selected == selected[..served] + selected[served..];
    forall x ensures (x in selected[..served] ==> x !in known) && (x in selected[served..] ==> x in known) {
      Members(items, known, x);
    }
    Concat(selected[..served], selected[served..], known);
    AllUnseen(selected[..served], known);
    AllKnown(selected[served..], known);
  }

  /** The window's test on the recorded numbers and the storefront's own flag say the same of a run. */
  lemma PureAgrees(items: seq<string>, known: set<string>, budget: nat)
    ensures IsPure(RecordOf(items, known, budget))
       <==> SliceIsPureUnseen(Selected(items, known, budget), Some(known))
  {
    hide Unseen, Selected, RecordOf;
    RecordNumbers(items, known, budget);
    UnseenBounded(items, known);
    PureSliceExactly(items, known, budget);
  }

  lemma UnseenBounded(items: seq<string>, known: set<string>)
    ensures |Unseen(items, known)| <= |items|
  {
    SplitsMultiset(items, known);
    assert |multiset(Unseen(items, known))| + |multiset(Known(items, known))| == |multiset(items)|;
  }

  /** The run after `m` addresses have been served is pure exactly when a full budget of unseen ones is left,
      or it is the first run. */
  lemma PureExactly(items: seq<string>, known: set<string>, budget: nat, m: nat)
    requires |items| > 0 && budget > 0
    requires |Unseen(items, known)| == |items| - Min(m, |items|)
    ensures IsPure(RecordOf(items, known, budget)) <==> m == 0 || m + budget <= |items|
  {
    RecordNumbers(items, known, budget);
  }

  ghost predicate AllPure(history: seq<RunRecord>) {
    forall r :: r in history ==> IsPure(r)
  }

  lemma {:induction false} HistoryPure(items: seq<string>, budget: nat, k: nat)
    requires Distinct(items) && |items| > 0 && budget > 0
    ensures AllPure(History(items, budget, k)) <==> k <= 1 || Capacity(budget, k) <= |items|
  {
    hide Unseen, Selected, RecordOf, IsPure, AllPure;
    if k == 0 {
      NothingIsPure();
    } else {
      var front := History(items, budget, k - 1);
      var known := KnownAfter(items, {}, budget, k - 1);
      HistoryPure(items, budget, k - 1);
      AllUnseen(items, {});
      UnseenAfterRuns(items, {}, budget, k - 1);
      PureExactly(items, known, budget, Capacity(budget, k - 1));
      PureSnoc(front, RecordOf(items, known, budget));
    }
  }

  lemma NothingIsPure()
    ensures AllPure([])
  {
  }

  lemma PureSnoc(front: seq<RunRecord>, last: RunRecord)
    ensures AllPure(front + [last]) <==> AllPure(front) && IsPure(last)
  {
    assert last in front + [last];
  }

  lemma RecordCounts(items: seq<string>, known: set<string>, budget: nat, defaultBudget: int)
    ensures Counts(RecordOf(items, known, budget))
    ensures IsCataloguePass(RecordOf(items, known, budget), defaultBudget) <==> budget >= defaultBudget
  {
  }

  lemma NothingCounted()
    ensures Counted([]) == []
  {
  }

  lemma {:induction false} HistoryShape(items: seq<string>, budget: nat, k: nat, defaultBudget: int)
    ensures |History(items, budget, k)| == k
    ensures Counted(History(items, budget, k)) == History(items, budget, k)
    ensures Passes(History(items, budget, k), defaultBudget) == if budget >= defaultBudget then k else 0
  {
    hide Unseen, Selected, KnownAfter, RecordOf, Counts, IsCataloguePass, Filter;
    if k == 0 {
      NothingCounted();
    } else {
      var front := History(items, budget, k - 1);
      var last := RecordOf(items, KnownAfter(items, {}, budget, k - 1), budget);
      HistoryShape(items, budget, k - 1, defaultBudget);
      RecordCounts(items, KnownAfter(items, {}, budget, k - 1), budget, defaultBudget);
      FilterSnoc(Counts, front, last);
      assert (front + [last])[..|front|] == front;
    }
  }

  /** The law of the window: over a catalogue of N addresses with one budget a run, it is open after `k` runs
      exactly when no run but the first fell short of a full budget of unseen addresses, and, where the budget
      is a full one, fewer than four passes were made. */
  lemma WindowLaw(items: seq<string>, budget: nat, k: nat, defaultBudget: int)
    requires Distinct(items) && |items| > 0 && budget > 0
    ensures InitialFillActive(History(items, budget, k), defaultBudget)
       <==> (k <= 1 || k * budget <= |items|) && (budget >= defaultBudget ==> k < INITIAL_FILL_RUNS)
  {
    hide Unseen, Selected, KnownAfter, RecordOf, History, Passes, Capacity, IsPure;
    CapacityIsProduct(budget, k);
    HistoryPure(items, budget, k);
    HistoryShape(items, budget, k, defaultBudget);
  }

  lemma AfterOne(first: RunRecord, defaultBudget: int)
    requires Counts(first) && IsPure(first)
    ensures Counted([first]) == [first] && InitialFillActive([first], defaultBudget)
  {
    FilterSnoc(Counts, [], first);
    assert [] + [first] == [first];
    assert [first][..0] == [];
  }

  /** One impure run closes the window. */
  lemma ImpureCloses(history: seq<RunRecord>, last: RunRecord, defaultBudget: int)
    requires Counts(last) && !IsPure(last)
    ensures !InitialFillActive(history + [last], defaultBudget)
  {
    hide Passes, Counts, IsPure;
    FilterSnoc(Counts, history, last);
    assert last in Counted(history) + [last];
  }

  /** A first run without a budget selects the whole catalogue, in its order, and leaves the window open; the next
      run, which then knows all of it, closes the window whatever its budget. */
  lemma UnboundedFirstPassCloses(items: seq<string>, budget: nat, defaultBudget: int)
    requires |items| > 0 && budget > 0
    ensures var (selected, deferred) := SelectSitemap(items, {}, None);
            var first := RecordFor(selected, {}, Unbounded);
            && selected == items && deferred == []
            && InitialFillActive([first], defaultBudget)
            && !InitialFillActive([first, RecordOf(items, Urls(selected), budget)], defaultBudget)
  {
    AllUnseen(items, {});
    var first, second := RecordFor(items, {}, Unbounded), RecordOf(items, Urls(items), budget);
    AfterOne(first, defaultBudget);
    hide Unseen, Known, Selected, RecordOf, RecordFor, InitialFillActive;
    RecordNumbers(items, Urls(items), budget);
    AllKnown(items, Urls(items));
    RecordCounts(items, Urls(items), budget, defaultBudget);
    ImpureCloses([first], second, defaultBudget);
    assert [first, second] == [first] + [second];
  }
}

/** Choosing what to process this run: unseen addresses first, under a budget. */
module Selection {
  import opened Common

  /** Addresses not yet known, in document order. */
  function Unseen(items: seq<string>, known: set<string>): seq<string> {
    if |items| == 0 then []
    else
      var last := items[|items| - 1];
      Unseen(items[..|items| - 1], known) + (if last !in known then [last] else [])
  }

  function Known(items: seq<string>, known: set<string>): seq<string> {
    if |items| == 0 then []
    else
      var last := items[|items| - 1];
      Known(items[..|items| - 1], known) + (if last in known then [last] else [])
  }

  function NewFirst(items: seq<string>, known: set<string>): seq<string> {
    Unseen(items, known) + Known(items, known)
  }

  /** Where the slice `[:limit]` of a list of length `n` ends; a negative limit counts from the end. */
  function SliceEnd(n: nat, limit: int): (e: nat)
    ensures e <= n
  {
    if limit >= 0 then Min(limit, n) else Max(n + limit, 0)
  }

  /** The sitemap family: the selected and the deferred addresses. */
  function SelectSitemap(items: seq<string>, known: set<string>, maxItems: Option<int>): (seq<string>, seq<string>) {
    var pending := if known != {} then NewFirst(items, known) else items;
    match maxItems
    case None => (pending, [])
    case Some(limit) => (pending[..SliceEnd(|pending|, limit)], pending[SliceEnd(|pending|, limit)..])
  }

  /** The storefront families: the order is only touched under a budget. */
  function SelectShopify(items: seq<string>, known: set<string>, maxItems: Option<int>): seq<string> {
    match maxItems
    case None => items
    case Some(limit) =>
      if known != {} then
        var pending := NewFirst(items, known);
        pending[..SliceEnd(|pending|, limit)]
      else items[..SliceEnd(|items|, limit)]
  }

  /** The slice is non-empty and served nothing already known. */
  predicate SliceIsPureUnseen(selected: seq<string>, known: Option<set<string>>) {
    known.Some? && |selected| > 0 && forall u :: u in selected ==> u !in known.value
  }

  lemma {:induction false} Members(items: seq<string>, known: set<string>, x: string)
    ensures x in Unseen(items, known) <==> x in items && x !in known
    ensures x in Known(items, known) <==> x in items && x in known
  {
    if |items| == 0 {
    } else {
      var front := items[..|items| - 1];
      assert items == front + [items[|items| - 1]];
      Members(front, known, x);
    }
  }

  lemma {:induction false} Concat(s: seq<string>, t: seq<string>, known: set<string>)
    ensures Unseen(s + t, known) == Unseen(s, known) + Unseen(t, known)
    ensures Known(s + t, known) == Known(s, known) + Known(t, known)
  {
    if |t| == 0 {
      assert s + t == s;
    } else {
      assert (s + t)[..|s + t| - 1] == s + t[..|t| - 1];
      Concat(s, t[..|t| - 1], known);
    }
  }

  lemma {:induction false} AllUnseen(s: seq<string>, known: set<string>)
    requires forall x :: x in s ==> x !in known
    ensures Unseen(s, known) == s && Known(s, known) == []
  {
    if |s| == 0 {
    } else {
      var front, last := s[..|s| - 1], s[|s| - 1];
      assert s == front + [last] && last in s;
      AllUnseen(front, known);
    }
  }

  lemma {:induction false} AllKnown(s: seq<string>, known: set<string>)
    requires forall x :: x in s ==> x in known
    ensures Unseen(s, known) == [] && Known(s, known) == s
  {
    if |s| == 0 {
    } else {
      var front, last := s[..|s| - 1], s[|s| - 1];
      assert s == front + [last] && last in s;
      AllKnown(front, known);
    }
  }

  lemma {:induction false} SplitsMultiset(items: seq<string>, known: set<string>)
    ensures multiset(Unseen(items, known)) + multiset(Known(items, known)) == multiset(items)
  {
    if |items| == 0 {
    } else {
      var front, last := items[..|items| - 1], items[|items| - 1];
      SplitsMultiset(front, known);
      assert items == front + [last];
      assert multiset(items) == multiset(front) + multiset{last};
    }
  }

  /** The same addresses, each class in its original order, and no known address before an unseen one. */
  ghost predicate StableRearrangement(all: seq<string>, items: seq<string>, known: set<string>) {
    && multiset(all) == multiset(items)
    && Unseen(all, known) == Unseen(items, known) && Known(all, known) == Known(items, known)
    && (forall i, j :: 0 <= i < j < |all| && all[j] !in known ==> all[i] !in known)
  }

  lemma NewFirstIsStable(items: seq<string>, known: set<string>)
    ensures StableRearrangement(NewFirst(items, known), items, known)
  {
    SplitsMultiset(items, known);
    var unseen, rest := Unseen(items, known), Known(items, known);
    forall x ensures (x in unseen ==> x !in known) && (x in rest ==> x in known) {
      Members(items, known, x);
    }
    Concat(unseen, rest, known);
    AllUnseen(unseen, known);
    AllKnown(rest, known);
    forall j | |unseen| <= j < |unseen + rest| ensures (unseen + rest)[j] in known {
      assert rest[j - |unseen|] in rest;
    }
  }

  /** Selected followed by deferred is a stable rearrangement of the discovered list: nothing is dropped or
      repeated, both classes keep their document order, and no known address stands before an unseen one. */
  lemma SelectionIsStableRearrangement(items: seq<string>, known: set<string>, maxItems: Option<int>)
    ensures var (selected, deferred) := SelectSitemap(items, known, maxItems);
            StableRearrangement(selected + deferred, items, known)
  {
    var (selected, deferred) := SelectSitemap(items, known, maxItems);
    AllUnseen(items, {});
    assert selected + deferred == NewFirst(items, known);
    NewFirstIsStable(items, known);
  }

  /** Under a budget both families choose the same addresses. */
  lemma FamiliesAgreeUnderBudget(items: seq<string>, known: set<string>, limit: int)
    ensures SelectShopify(items, known, Some(limit)) == SelectSitemap(items, known, Some(limit)).0
  {
  }

  /** What a storefront run serves is the beginning of a rearrangement of what was discovered, cut at the budget
      where there is one. */
  lemma ShopifyServesBeginning(items: seq<string>, known: set<string>, maxItems: Option<int>)
    returns (order: seq<string>)
    ensures multiset(order) == multiset(items)
    ensures SelectShopify(items, known, maxItems) <= order
    ensures |SelectShopify(items, known, maxItems)|
         == match maxItems
            case None => |items|
            case Some(limit) => if limit >= 0 then Min(limit, |items|) else Max(|items| + limit, 0)
  {
    NewFirstIsStable(items, known);
    order := if maxItems.Some? && known != {} then NewFirst(items, known) else items;
    assert |order| == |multiset(order)| == |multiset(items)| == |items|;
  }

  /** Without a budget nothing is left out, whatever was known: the storefront families serve every discovered address
      in document order, the sitemap family every one with the unseen ones ahead, and defers none. */
  lemma UnbudgetedServesAll(items: seq<string>, known: set<string>)
    ensures SelectShopify(items, known, None) == items
    ensures var (selected, deferred) := SelectSitemap(items, known, None);
            StableRearrangement(selected, items, known) && deferred == []
            && Unseen(items, known + Urls(selected)) == []
    ensures Unseen(items, known + Urls(SelectShopify(items, known, None))) == []
  {
    var (selected, deferred) := SelectSitemap(items, known, None);
    SelectionIsStableRearrangement(items, known, None);
    assert selected + deferred == selected;
    forall x | x in items ensures x in selected {
      assert x in multiset(items) && x in multiset(selected);
    }
    AllKnown(items, known + Urls(selected));
    AllKnown(items, known + Urls(items));
  }

  /* ---- A fixed catalogue over many runs ---- */

  function Selected(items: seq<string>, known: set<string>, budget: nat): seq<string> {
    SelectSitemap(items, known, Some(budget)).0
  }

  function Urls(s: seq<string>): set<string> {
    set u | u in s
  }

  /** The known addresses after `k` runs, each adding what it selected. */
  function KnownAfter(items: seq<string>, known: set<string>, budget: nat, k: nat): set<string> {
    if k == 0 then known
    else
      var before := KnownAfter(items, known, budget, k - 1);
      before + Urls(Selected(items, before, budget))
  }

  /** What is left of `s` without its first `m` elements. */
  ghost predicate Suffix(t: seq<string>, s: seq<string>, m: nat) {
    |t| + m == |s| && forall i {:trigger t[i]} :: 0 <= i < |t| ==> t[i] == s[m + i]
  }

  lemma {:induction false} DropPrefix(s: seq<string>, m: nat)
    requires Distinct(s) && m <= |s|
    ensures Suffix(Unseen(s, Urls(s[..m])), s, m)
  {
    if m == |s| {
      assert s[..m] == s;
      AllKnown(s, Urls(s));
    } else {
      assert s[..|s| - 1][..m] == s[..m];
      DropPrefix(s[..|s| - 1], m);
    }
  }

  lemma {:induction false} UnseenTwice(items: seq<string>, known: set<string>, more: set<string>, both: set<string>)
    requires forall x :: x in items ==> (x in both <==> x in known || x in more)
    ensures Unseen(Unseen(items, known), more) == Unseen(items, both)
  {
    if |items| == 0 {
    } else {
      var front, last := items[..|items| - 1], items[|items| - 1];
      UnseenTwice(front, known, more, both);
      Concat(Unseen(front, known), if last !in known then [last] else [], more);
      assert last in items;
    }
  }

  lemma {:induction false} UnseenDistinct(items: seq<string>, known: set<string>)
    requires Distinct(items)
    ensures Distinct(Unseen(items, known))
  {
    if |items| == 0 {
    } else {
      var front, last := items[..|items| - 1], items[|items| - 1];
      assert Distinct(front) && last !in front;
      UnseenDistinct(front, known);
      Members(front, known, last);
    }
  }

  lemma SelectedShape(items: seq<string>, known: set<string>, budget: nat)
    ensures |NewFirst(items, known)| == |items|
    ensures Selected(items, known, budget) == NewFirst(items, known)[..Min(budget, |items|)]
  {
    AllUnseen(items, {});
    SplitsMultiset(items, known);
    assert |multiset(Unseen(items, known))| + |multiset(Known(items, known))| == |multiset(items)|;
  }

  /** How many unseen addresses one run serves. */
  function Served(items: seq<string>, known: set<string>, budget: nat): nat {
    Min(budget, |Unseen(items, known)|)
  }

  /** One run serves the first unseen addresses, and known ones only after the last of them. */
  lemma ServesUnseenFirst(items: seq<string>, known: set<string>, budget: nat)
    ensures var selected, served := Selected(items, known, budget), Served(items, known, budget);
            && |selected| == Min(budget, |items|) && served <= |selected|
            && selected[..served] == Unseen(items, known)[..served]
            && (forall i :: served <= i < |selected| ==> selected[i] in known)
  {
    var unseen, rest := Unseen(items, known), Known(items, known);
    var selected := Selected(items, known, budget);
    SelectedShape(items, known, budget);
    forall i | Served(items, known, budget) <= i < |selected| ensures selected[i] in known {
      assert selected[i] == rest[i - |unseen|] && rest[i - |unseen|] in rest;
      Members(items, known, rest[i - |unseen|]);
    }
  }

  /** The flag "this slice is purely unseen" is raised exactly while the run is no longer than what was left unseen;
      one known address in the slice means the first pass has wrapped. */
  lemma PureSliceExactly(items: seq<string>, known: set<string>, budget: nat)
    ensures SliceIsPureUnseen(Selected(items, known, budget), Some(known))
       <==> 0 < Min(budget, |items|) <= |Unseen(items, known)|
  {
    var selected, served := Selected(items, known, budget), Served(items, known, budget);
    ServesUnseenFirst(items, known, budget);
    forall i | 0 <= i < served ensures selected[i] !in known {
      assert selected[i] == selected[..served][i] == Unseen(items, known)[i];
      Members(items, known, selected[i]);
    }
    if served < |selected| {
      assert selected[served] in selected && selected[served] in known;
    } else {
      assert forall u :: u in selected ==> exists i :: 0 <= i < served && selected[i] == u;
    }
  }

  /** What one run leaves unseen, in order: the unseen count drops by the budget or to nothing. */
  lemma OneRun(items: seq<string>, known: set<string>, budget: nat)
    requires Distinct(items)
    ensures Suffix(Unseen(items, known + Urls(Selected(items, known, budget))), Unseen(items, known),
                   Served(items, known, budget))
  {
    var unseen, selected := Unseen(items, known), Selected(items, known, budget);
    var head := unseen[..Served(items, known, budget)];
    var later := known + Urls(selected);
    ServesUnseenFirst(items, known, budget);
    forall x | x in items ensures x in later <==> x in known || x in Urls(head) {
      SelectedSplits(selected, known, head, x);
    }
    UnseenTwice(items, known, Urls(head), later);
    UnseenDistinct(items, known);
    DropPrefix(unseen, |head|);
  }

  lemma SelectedSplits(selected: seq<string>, known: set<string>, head: seq<string>, x: string)
    requires |head| <= |selected| && selected[..|head|] == head
    requires forall i :: |head| <= i < |selected| ==> selected[i] in known
    ensures x in known + Urls(selected) <==> x in known || x in head
  {
    if x in selected {
      var i :| 0 <= i < |selected| && selected[i] == x;
      if i < |head| {
        assert head[i] == x;
      }
    }
    if x in head {
      var i :| 0 <= i < |head| && head[i] == x;
      assert selected[i] == x;
    }
  }

  /** How many addresses `k` runs can serve. */
  function Capacity(budget: nat, k: nat): nat {
    if k == 0 then 0 else Capacity(budget, k - 1) + budget
  }

  lemma {:induction false} CapacityIsProduct(budget: nat, k: nat)
    ensures Capacity(budget, k) == k * budget
  {
    if k == 0 {
    } else {
      CapacityIsProduct(budget, k - 1);
    }
  }

  lemma SuffixOfSuffix(all: seq<string>, before: seq<string>, after: seq<string>, m: nat, n: nat)
    requires Suffix(before, all, m) && Suffix(after, before, n)
    ensures Suffix(after, all, m + n)
  {
  }

  /** How many of the addresses unseen at the start `k` runs have served. */
  function ServedBy(items: seq<string>, known: set<string>, budget: nat, k: nat): nat {
    Min(Capacity(budget, k), |Unseen(items, known)|)
  }

  /** After `k` runs, each with its own selection made known, exactly the first budgets of unseen addresses are gone. */
  lemma {:induction false} UnseenAfterRuns(items: seq<string>, known: set<string>, budget: nat, k: nat)
    requires Distinct(items)
    ensures Suffix(Unseen(items, KnownAfter(items, known, budget, k)), Unseen(items, known),
                   ServedBy(items, known, budget, k))
  {
    hide Unseen, Selected, Urls;
    if k == 0 {
    } else {
      var before := KnownAfter(items, known, budget, k - 1);
      UnseenAfterRuns(items, known, budget, k - 1);
      OneRun(items, before, budget);
      SuffixOfSuffix(Unseen(items, known), Unseen(items, before),
                     Unseen(items, before + Urls(Selected(items, before, budget))),
                     ServedBy(items, known, budget, k - 1), Served(items, before, budget));
    }
  }

  lemma CapacityBefore(budget: nat, j: nat)
    requires budget > 0
    ensures Capacity(budget, j / budget) == j - j % budget
  {
    CapacityIsProduct(budget, j / budget);
  }

  /** No starvation: the unseen address at position `j` is selected in run `j / budget`, counting from zero, and
      so within as many runs as the budget goes into the unseen count, rounded up. */
  lemma NoStarvation(items: seq<string>, known: set<string>, budget: nat, j: nat)
    requires Distinct(items) && budget > 0 && j < |Unseen(items, known)|
    ensures Unseen(items, known)[j] in Selected(items, KnownAfter(items, known, budget, j / budget), budget)
  {
    hide Unseen, Selected, KnownAfter;
    var all, run, at: nat := Unseen(items, known), j / budget, j % budget;
    var before := KnownAfter(items, known, budget, run);
    CapacityBefore(budget, j);
    UnseenAfterRuns(items, known, budget, run);
    ServesUnseenFirst(items, before, budget);
    assert Unseen(items, before)[at] == all[j];
    assert Selected(items, before, budget)[at] == Unseen(items, before)[..Served(items, before, budget)][at];
  }
}

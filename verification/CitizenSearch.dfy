/** Paging through the two search listings, and what arrives from honest and dishonest servers. */
module CitizenSearch {
  import opened Common

  const SEARCH_PAGE_SIZE: nat := 48
  const MAX_CANDIDATES_PER_COLLECTION: nat := 600
  const SEARCH_COLLECTIONS: nat := 2

  /** One listing page: a failed fetch, or its hits and the total it may report. */
  datatype Page = Failed | Page(refs: seq<string>, total: Option<int>)

  /** The hits of one collection from this offset on, as the stopping rules let them in. */
  function CollectFrom(pages: nat -> Page, offset: nat, fetched: nat, total: Option<int>): seq<string>
    requires fetched < MAX_CANDIDATES_PER_COLLECTION
    decreases MAX_CANDIDATES_PER_COLLECTION - fetched
  {
    match pages(offset)
    case Failed => []
    case Page(refs, pageTotal) =>
      var total' := if pageTotal.Some? then pageTotal else total;
      if refs == [] || Stops(offset + SEARCH_PAGE_SIZE, fetched + |refs|, total', |refs|) then refs
      else refs + CollectFrom(pages, offset + SEARCH_PAGE_SIZE, fetched + |refs|, total')
  }

  /** How many pages of one collection are asked for, from this offset on. */
  function Requests(pages: nat -> Page, offset: nat, fetched: nat, total: Option<int>): (n: nat)
    requires fetched < MAX_CANDIDATES_PER_COLLECTION
    ensures 1 <= n <= MAX_CANDIDATES_PER_COLLECTION - fetched
    decreases MAX_CANDIDATES_PER_COLLECTION - fetched
  {
    match pages(offset)
    case Failed => 1
    case Page(refs, pageTotal) =>
      var total' := if pageTotal.Some? then pageTotal else total;
      if refs == [] || Stops(offset + SEARCH_PAGE_SIZE, fetched + |refs|, total', |refs|) then 1
      else 1 + Requests(pages, offset + SEARCH_PAGE_SIZE, fetched + |refs|, total')
  }

  predicate Stops(nextOffset: nat, fetched: nat, total: Option<int>, pageLength: nat) {
    || (total.Some? && nextOffset >= total.value)
    || fetched >= MAX_CANDIDATES_PER_COLLECTION
    || (total.None? && pageLength < SEARCH_PAGE_SIZE)
  }

  /** Every reference once, where it first appears. */
  function Dedup(refs: seq<string>): seq<string> {
    if |refs| == 0 then []
    else
      var front, last := Dedup(refs[..|refs| - 1]), refs[|refs| - 1];
      if last in front then front else front + [last]
  }

  lemma {:induction false} DedupExact(refs: seq<string>)
    ensures Distinct(Dedup(refs))
    ensures forall r :: r in Dedup(refs) <==> r in refs
  {
    if |refs| == 0 {
    } else {
      var front, last := refs[..|refs| - 1], refs[|refs| - 1];
      DedupExact(front);
      assert refs == front + [last];
    }
  }

  /** The hits of the first `n` collections, one after the other. */
  function CollectAll(server: (nat, nat) -> Page, n: nat): seq<string> {
    if n == 0 then []
    else CollectAll(server, n - 1) + CollectFrom((offset: nat) => server(n - 1, offset), 0, 0, None)
  }

  /** The whole search. On every server behaviour it ends within 600 requests a collection, and it returns every
      admitted reference once. */
  method DiscoverViaSearch(server: (nat, nat) -> Page) returns (all: seq<string>, requests: seq<nat>)
    ensures |requests| == SEARCH_COLLECTIONS
    ensures forall n :: 0 <= n < |requests| ==> 1 <= requests[n] <= 600
    ensures forall n: nat :: n < |requests| ==> requests[n] == Requests((offset: nat) => server(n, offset), 0, 0, None)
    ensures all == Dedup(CollectAll(server, SEARCH_COLLECTIONS))
    ensures Distinct(all)
  {
    all, requests := [], [];
    for slug := 0 to SEARCH_COLLECTIONS
      invariant |requests| == slug && all == Dedup(CollectAll(server, slug))
      invariant forall n: nat :: n < |requests| ==>
                  requests[n] == Requests((offset: nat) => server(n, offset), 0, 0, None)
    {
      var made: nat;
      all, made := SearchCollection((offset: nat) => server(slug, offset), CollectAll(server, slug), all);
      requests := requests + [made];
    }
    DedupExact(CollectAll(server, SEARCH_COLLECTIONS));
  }

  /** The inner loop over one page: only references not seen before are kept. */
  method AppendNew(ghost before: seq<string>, refs: seq<string>, all0: seq<string>) returns (all: seq<string>)
    requires all0 == Dedup(before)
    ensures all == Dedup(before + refs)
  {
    all := all0;
    assert before + refs[..0] == before;
    for i := 0 to |refs|
      invariant all == Dedup(before + refs[..i])
    {
      assert (before + refs[..i + 1])[..|before| + i] == before + refs[..i];
      if refs[i] !in all {
        all := all + [refs[i]];
      }
    }
    assert refs[..|refs|] == refs;
  }

  /** What one page that came back adds to the collection. */
  lemma OnePage(pages: nat -> Page, seen: seq<string>, offset: nat, fetched: nat, total: Option<int>)
    requires fetched < MAX_CANDIDATES_PER_COLLECTION && pages(offset).Page?
    ensures var Page(refs, pageTotal) := pages(offset);
            var total' := if pageTotal.Some? then pageTotal else total;
            seen + CollectFrom(pages, offset, fetched, total)
            == if refs == [] || Stops(offset + SEARCH_PAGE_SIZE, fetched + |refs|, total', |refs|) then seen + refs
               else (seen + refs) + CollectFrom(pages, offset + SEARCH_PAGE_SIZE, fetched + |refs|, total')
  {
  }

  /** One collection: the loop runs until a page fails or is empty or a stopping rule holds. */
  method SearchCollection(pages: nat -> Page, ghost before: seq<string>, all0: seq<string>)
    returns (all: seq<string>, requests: nat)
    requires all0 == Dedup(before)
    ensures all == Dedup(before + CollectFrom(pages, 0, 0, None))
    ensures requests == Requests(pages, 0, 0, None)
  {
    all, requests := all0, 0;
    var offset: nat, fetched: nat, total: Option<int> := 0, 0, None;
    ghost var seen, goal := before, before + CollectFrom(pages, 0, 0, None);
    while true
      invariant fetched < MAX_CANDIDATES_PER_COLLECTION
      invariant requests + Requests(pages, offset, fetched, total) == Requests(pages, 0, 0, None)
      invariant all == Dedup(seen)
      invariant seen + CollectFrom(pages, offset, fetched, total) == goal
      decreases MAX_CANDIDATES_PER_COLLECTION - fetched
    {
      var page := pages(offset);
      requests := requests + 1;
      if page.Failed? {
        assert seen + [] == seen;
        break;
      }
      OnePage(pages, seen, offset, fetched, total);
      if page.total.Some? {
        total := page.total;
      }
      if page.refs == [] {
        assert seen + [] == seen;
        break;
      }
      all := AppendNew(seen, page.refs, all);
      seen := seen + page.refs;
      fetched := fetched + |page.refs|;
      offset := offset + SEARCH_PAGE_SIZE;
      if total.Some? && offset >= total.value {
        break;
      }
      if fetched >= MAX_CANDIDATES_PER_COLLECTION {
        break;
      }
      if total.None? && |page.refs| < SEARCH_PAGE_SIZE {
        break;
      }
    }
  }

  /* ---- An honest server ---- */

  function Slice(catalogue: seq<string>, offset: nat): seq<string> {
    catalogue[Min(offset, |catalogue|)..Min(offset + SEARCH_PAGE_SIZE, |catalogue|)]
  }

  /** Serves the catalogue page by page, with or without reporting its size. */
  function Honest(catalogue: seq<string>, reportsTotal: bool): nat -> Page {
    (offset: nat) => Page(Slice(catalogue, offset), if reportsTotal then Some(|catalogue|) else None)
  }

  /** The last page that the ceiling of 600 lets in ends at hit 624. */
  const LAST_HIT: nat := 624

  lemma {:induction false} HonestFrom(catalogue: seq<string>, reportsTotal: bool, offset: nat, total: Option<int>)
    requires offset <= |catalogue| && offset % SEARCH_PAGE_SIZE == 0 && offset < MAX_CANDIDATES_PER_COLLECTION
    requires total == None || (reportsTotal && total == Some(|catalogue|))
    ensures CollectFrom(Honest(catalogue, reportsTotal), offset, offset, total)
         == catalogue[offset..Min(|catalogue|, LAST_HIT)]
    decreases MAX_CANDIDATES_PER_COLLECTION - offset
  {
    var refs, next := Slice(catalogue, offset), offset + SEARCH_PAGE_SIZE;
    var total' := if reportsTotal then Some(|catalogue|) else None;
    if next < |catalogue| && next < MAX_CANDIDATES_PER_COLLECTION {
      HonestFrom(catalogue, reportsTotal, next, total');
      assert catalogue[offset..next] + catalogue[next..Min(|catalogue|, LAST_HIT)]
          == catalogue[offset..Min(|catalogue|, LAST_HIT)];
    } else if next == |catalogue| && !reportsTotal && next < MAX_CANDIDATES_PER_COLLECTION {
      HonestFrom(catalogue, reportsTotal, next, total');
      assert refs == catalogue[offset..] && catalogue[next..] == [];
    }
  }

  /** Against an honest server each collection contributes exactly its first 624 hits, whether or not the server
      reports a total. */
  lemma HonestServerServed(catalogue: seq<string>, reportsTotal: bool)
    ensures CollectFrom(Honest(catalogue, reportsTotal), 0, 0, None) == catalogue[..Min(|catalogue|, LAST_HIT)]
  {
    HonestFrom(catalogue, reportsTotal, 0, None);
    assert catalogue[0..Min(|catalogue|, LAST_HIT)] == catalogue[..Min(|catalogue|, LAST_HIT)];
  }

  /** The pages that an honest server is asked for when the first `j` of them have been read. */
  function PagesLeft(size: nat, reportsTotal: bool, j: nat): int {
    var all := if reportsTotal then (size + 47) / 48 else size / 48 + 1;
    Max((if all < 13 then all else 13) - j, 1)
  }

  /** Page `j` of an honest listing is the last one asked for. */
  predicate LastAsked(size: nat, reportsTotal: bool, j: nat) {
    48 * j + 48 >= 600 || if reportsTotal then 48 * j + 48 >= size else 48 * j + 48 > size
  }

  lemma OneHonestPage(catalogue: seq<string>, reportsTotal: bool, j: nat, total: Option<int>)
    requires 48 * j <= |catalogue| && j < 12
    requires total == None || (reportsTotal && total == Some(|catalogue|))
    ensures Requests(Honest(catalogue, reportsTotal), 48 * j, 48 * j, total)
         == if LastAsked(|catalogue|, reportsTotal, j) then 1
            else 1 + Requests(Honest(catalogue, reportsTotal), 48 * (j + 1), 48 * (j + 1),
                              if reportsTotal then Some(|catalogue|) else None)
  {
    assert |Slice(catalogue, 48 * j)| == Min(48, |catalogue| - 48 * j);
  }

  lemma LastHonestPage(catalogue: seq<string>, reportsTotal: bool, total: Option<int>)
    requires 576 <= |catalogue| && (total == None || (reportsTotal && total == Some(|catalogue|)))
    ensures Requests(Honest(catalogue, reportsTotal), 576, 576, total) == 1
  {
    assert |Slice(catalogue, 576)| == Min(48, |catalogue| - 576);
  }

  lemma PagesLeftNext(size: nat, reportsTotal: bool, j: nat)
    requires 48 * j <= size && j < 12 && (reportsTotal && j > 0 ==> 48 * j < size)
    ensures PagesLeft(size, reportsTotal, j)
         == if LastAsked(size, reportsTotal, j) then 1 else 1 + PagesLeft(size, reportsTotal, j + 1)
  {
  }

  lemma {:induction false} HonestRequestsFrom(catalogue: seq<string>, reportsTotal: bool, j: nat, total: Option<int>)
    requires 48 * j <= |catalogue| && j <= 12 && (reportsTotal && j > 0 ==> 48 * j < |catalogue|)
    requires total == None || (reportsTotal && total == Some(|catalogue|))
    ensures Requests(Honest(catalogue, reportsTotal), 48 * j, 48 * j, total) == PagesLeft(|catalogue|, reportsTotal, j)
    decreases 12 - j
  {
    hide Requests, Honest;
    if j == 12 {
      LastHonestPage(catalogue, reportsTotal, total);
    } else {
      OneHonestPage(catalogue, reportsTotal, j, total);
      PagesLeftNext(|catalogue|, reportsTotal, j);
      if !LastAsked(|catalogue|, reportsTotal, j) {
        HonestRequestsFrom(catalogue, reportsTotal, j + 1, if reportsTotal then Some(|catalogue|) else None);
      }
    }
  }

  /** An honest server is asked for no page more than it takes: with a reported total exactly the pages that hold hits,
      without one up to the first page that is not full, and thirteen at most. */
  lemma HonestRequests(catalogue: seq<string>, reportsTotal: bool)
    ensures Requests(Honest(catalogue, reportsTotal), 0, 0, None) == PagesLeft(|catalogue|, reportsTotal, 0)
  {
    HonestRequestsFrom(catalogue, reportsTotal, 0, None);
  }

  lemma {:induction false} SameAnswersSameHits(p: nat -> Page, q: nat -> Page, offset: nat, fetched: nat,
                                               total: Option<int>)
    requires fetched < MAX_CANDIDATES_PER_COLLECTION && forall o: nat :: p(o) == q(o)
    ensures CollectFrom(p, offset, fetched, total) == CollectFrom(q, offset, fetched, total)
    decreases MAX_CANDIDATES_PER_COLLECTION - fetched
  {
    if p(offset).Page? {
      var Page(refs, pageTotal) := p(offset);
      var total' := if pageTotal.Some? then pageTotal else total;
      if refs == [] || Stops(offset + SEARCH_PAGE_SIZE, fetched + |refs|, total', |refs|) {
      } else {
        SameAnswersSameHits(p, q, offset + SEARCH_PAGE_SIZE, fetched + |refs|, total');
      }
    }
  }

  /** The whole search against honest listings: the first 624 hits of the one and then of the other, each once. */
  lemma HonestSearch(server: (nat, nat) -> Page, first: seq<string>, second: seq<string>, reportsTotal: bool)
    requires forall offset: nat :: server(0, offset) == Honest(first, reportsTotal)(offset)
    requires forall offset: nat :: server(1, offset) == Honest(second, reportsTotal)(offset)
    ensures CollectAll(server, SEARCH_COLLECTIONS) == first[..Min(|first|, 624)] + second[..Min(|second|, 624)]
  {
    hide CollectFrom, Honest;
    SameAnswersSameHits((offset: nat) => server(0, offset), Honest(first, reportsTotal), 0, 0, None);
    SameAnswersSameHits((offset: nat) => server(1, offset), Honest(second, reportsTotal), 0, 0, None);
    HonestServerServed(first, reportsTotal);
    HonestServerServed(second, reportsTotal);
    var a, b := first[..Min(|first|, 624)], second[..Min(|second|, 624)];
    assert CollectAll(server, 1) == CollectAll(server, 0) + a && [] + a == a;
    assert CollectAll(server, 2) == CollectAll(server, 1) + b;
  }
}

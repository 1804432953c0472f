/** Turning one polled document into candidates. */
module Adapters {
  import opened Common
  import opened Text
  import opened Database

  datatype Product = Product(isObject: bool, productType: string, handle: string, skus: seq<string>, title: string)

  datatype Feed =
    | Unreachable(blocked: bool)
    | Unparseable
    | Products(products: seq<Product>)

  datatype Found = Found(handle: string, reference: string, title: string)

  /** The first stock number that is not blank, or none. */
  function FirstVariantSku(skus: seq<string>): string {
    if |skus| == 0 then ""
    else if Strip(skus[0]) != "" then Strip(skus[0])
    else FirstVariantSku(skus[1..])
  }

  predicate Qualifies(p: Product, typeFilter: string) {
    p.isObject && (typeFilter == "" || p.productType == typeFilter) && p.handle != ""
  }

  function FoundIn(p: Product): Found {
    Found(p.handle, FirstVariantSku(p.skus), p.title)
  }

  function Qualified(products: seq<Product>, typeFilter: string): seq<Found> {
    if |products| == 0 then []
    else
      var last := products[|products| - 1];
      Qualified(products[..|products| - 1], typeFilter) + (if Qualifies(last, typeFilter) then [FoundIn(last)] else [])
  }

  lemma {:induction false} QualifiedPrefix(products: seq<Product>, typeFilter: string, i: nat)
    requires i <= |products|
    ensures Qualified(products[..i], typeFilter) <= Qualified(products, typeFilter)
    decreases |products| - i
  {
    if i == |products| {
      assert products[..i] == products;
    } else {
      QualifiedPrefix(products, typeFilter, i + 1);
      assert products[..i + 1][..i] == products[..i];
    }
  }

  /** The first candidates up to the ceiling; a ceiling below one still lets one through. */
  function UpTo<T>(s: seq<T>, ceiling: int): seq<T> {
    s[..Min(|s|, Max(ceiling, 1))]
  }

  /** The reference stands at the first position whose stock number is not blank; it is empty only if all are. */
  ghost predicate FirstNotBlank(skus: seq<string>, reference: string) {
    if forall i :: 0 <= i < |skus| ==> Strip(skus[i]) == "" then reference == ""
    else exists i :: 0 <= i < |skus| && Strip(skus[i]) != "" && reference == Strip(skus[i])
                     && forall j :: 0 <= j < i ==> Strip(skus[j]) == ""
  }

  lemma {:induction false} FirstVariantSkuExactly(skus: seq<string>)
    ensures FirstNotBlank(skus, FirstVariantSku(skus))
  {
    if |skus| == 0 {
    } else if Strip(skus[0]) != "" {
      assert !forall i :: 0 <= i < |skus| ==> Strip(skus[i]) == "";
    } else {
      var rest := skus[1..];
      FirstVariantSkuExactly(rest);
      assert forall i :: 0 < i < |skus| ==> skus[i] == rest[i - 1];
      if i: nat :| i < |rest| && Strip(rest[i]) != "" && FirstVariantSku(skus) == Strip(rest[i])
                   && forall j :: 0 <= j < i ==> Strip(rest[j]) == "" {
        assert Strip(skus[i + 1]) != "";
      }
    }
  }

  /** The candidate is that of this product of the page: its own handle and title, and its first stock number. */
  ghost predicate ReadOff(found: Found, product: Product) {
    found.handle == product.handle && found.title == product.title && FirstNotBlank(product.skus, found.reference)
  }

  /** A product of the page is taken: an object with a handle, and of the asked type where one is asked. */
  ghost predicate Wanted(product: Product, typeFilter: string) {
    product.isObject && product.handle != "" && (typeFilter != "" ==> product.productType == typeFilter)
  }

  /** These candidates are the wanted products at these positions, in page order, none left out. */
  ghost predicate ReadOffAt(products: seq<Product>, typeFilter: string, found: seq<Found>, positions: seq<nat>) {
    && |positions| == |found|
    && (forall i :: 0 <= i < |found| ==>
          positions[i] < |products| && Wanted(products[positions[i]], typeFilter)
          && ReadOff(found[i], products[positions[i]]))
    && (forall i, j :: 0 <= i < j < |positions| ==> positions[i] < positions[j])
    && (forall k: nat :: k < |products| && Wanted(products[k], typeFilter) ==> k in positions)
  }

  /** The candidates of a page: every wanted product exactly once, in page order, each with its own handle, title and
      first stock number. */
  lemma {:induction false} QualifiedExactly(products: seq<Product>, typeFilter: string) returns (positions: seq<nat>)
    ensures ReadOffAt(products, typeFilter, Qualified(products, typeFilter), positions)
  {
    if |products| == 0 {
      positions := [];
    } else {
      var front, last := products[..|products| - 1], products[|products| - 1];
      var before := QualifiedExactly(front, typeFilter);
      positions := if Wanted(last, typeFilter) then before + [|front|] else before;
      FirstVariantSkuExactly(last.skus);
      OneMoreProduct(products, typeFilter, Qualified(front, typeFilter), before,
                     Qualified(products, typeFilter), positions);
    }
  }

  lemma OneMoreProduct(products: seq<Product>, typeFilter: string, found: seq<Found>, before: seq<nat>,
                       after: seq<Found>, positions: seq<nat>)
    requires |products| > 0 && ReadOffAt(products[..|products| - 1], typeFilter, found, before)
    requires var last := products[|products| - 1];
             if Wanted(last, typeFilter)
             then |after| == |found| + 1 && after[..|found|] == found && ReadOff(after[|found|], last)
                  && positions == before + [|products| - 1]
             else after == found && positions == before
    ensures ReadOffAt(products, typeFilter, after, positions)
  {
    hide FirstNotBlank, Wanted;
    var n := |products| - 1;
    var front := products[..n];
    assert forall k :: 0 <= k < n ==> front[k] == products[k];
    forall i | 0 <= i < |after|
      ensures positions[i] < |products| && Wanted(products[positions[i]], typeFilter)
      ensures ReadOff(after[i], products[positions[i]])
    {
      if i < |found| {
        assert after[i] == after[..|found|][i] == found[i] && positions[i] == before[i];
      }
    }
    forall k: nat | k < |products| && Wanted(products[k], typeFilter) ensures k in positions {
      if k < n {
        assert Wanted(front[k], typeFilter) && k in before;
      } else {
        assert positions[|before|] == n;
      }
    }
  }

  lemma QualifiedNext(products: seq<Product>, typeFilter: string, i: nat)
    requires i < |products|
    ensures Qualified(products[..i + 1], typeFilter)
         == Qualified(products[..i], typeFilter)
            + (if Qualifies(products[i], typeFilter) then [FoundIn(products[i])] else [])
  {
    assert products[..i + 1][..i] == products[..i];
  }

  /** The candidates of one page under a ceiling: each is the product at its position, with its own handle, title and
      first stock number; positions ascend; and a wanted product is missing only behind a full ceiling. */
  lemma PageExactly(products: seq<Product>, typeFilter: string, ceiling: int) returns (positions: seq<nat>)
    ensures var found, most := UpTo(Qualified(products, typeFilter), ceiling), if ceiling >= 1 then ceiling else 1;
            && |positions| == |found| <= most
            && (forall i :: 0 <= i < |found| ==>
                  positions[i] < |products| && Wanted(products[positions[i]], typeFilter)
                  && ReadOff(found[i], products[positions[i]]))
            && (forall i, j :: 0 <= i < j < |positions| ==> positions[i] < positions[j])
            && (forall k: nat :: k < |products| && Wanted(products[k], typeFilter) && k !in positions ==>
                  |found| == most && k > positions[most - 1])
  {
    var all := QualifiedExactly(products, typeFilter);
    hide Qualified, Wanted, ReadOff;
    var found := UpTo(Qualified(products, typeFilter), ceiling);
    positions := all[..|found|];
    forall k: nat | k < |products| && Wanted(products[k], typeFilter) && k !in positions
      ensures |found| == (if ceiling >= 1 then ceiling else 1) && k > positions[|found| - 1]
    {
      assert k in all;
      var i :| 0 <= i < |all| && all[i] == k;
      assert forall n :: 0 <= n < |found| ==> all[n] == positions[n];
      assert i >= |found|;
    }
  }

  /** One storefront page: SUCCESS exactly when something qualified, and then the first qualifying products in
      page order, up to the ceiling. */
  method PollShopify(feed: Feed, typeFilter: string, maxCandidates: int)
    returns (status: PollStatus, candidates: seq<Found>)
    ensures status == PollSuccess <==> candidates != []
    ensures status == PollBlocked <==> feed == Unreachable(true)
    ensures status == PollFailed <==> feed == Unreachable(false) || feed == Unparseable
    ensures candidates == if feed.Products? then UpTo(Qualified(feed.products, typeFilter), maxCandidates) else []
  {
    match feed {
      case Unreachable(blocked) => return if blocked then PollBlocked else PollFailed, [];
      case Unparseable => return PollFailed, [];
      case Products(products) =>
        candidates := [];
        assert Qualified(products[..0], typeFilter) == [];
        hide Qualified;
        for i := 0 to |products|
          invariant candidates == Qualified(products[..i], typeFilter)
          invariant |candidates| < Max(maxCandidates, 1)
        {
          var product := products[i];
          QualifiedNext(products, typeFilter, i);
          if !product.isObject || (typeFilter != "" && product.productType != typeFilter) || product.handle == "" {
            continue;
          }
          candidates := candidates + [FoundIn(product)];
          if |candidates| >= maxCandidates {
            QualifiedPrefix(products, typeFilter, i + 1);
            return PollSuccess, candidates;
          }
        }
        assert products[..|products|] == products;
        status := if candidates != [] then PollSuccess else PollZeroItems;
    }
  }

  /* ---- Sitemap documents ---- */

  datatype UrlBlock = UrlBlock(url: string, lastmod: string)

  datatype Item = Item(url: string, reference: string, lastmod: string)

  /** References are read off the address in upper case; the first address carrying one wins. */
  function FirstOccurrences(blocks: seq<UrlBlock>, referenceIn: string -> Option<string>): seq<Item> {
    if |blocks| == 0 then []
    else
      var before, last := FirstOccurrences(blocks[..|blocks| - 1], referenceIn), blocks[|blocks| - 1];
      match referenceIn(last.url)
      case None => before
      case Some(r) =>
        if Upper(r) in ReferencesOf(before) then before
        else before + [Item(last.url, Upper(r), last.lastmod)]
  }

  function ReferencesOf(items: seq<Item>): set<string> {
    set i | 0 <= i < |items| :: items[i].reference
  }

  lemma {:induction false} FirstOccurrencesPrefix(blocks: seq<UrlBlock>, referenceIn: string -> Option<string>, i: nat)
    requires i <= |blocks|
    ensures FirstOccurrences(blocks[..i], referenceIn) <= FirstOccurrences(blocks, referenceIn)
    decreases |blocks| - i
  {
    if i == |blocks| {
      assert blocks[..i] == blocks;
    } else {
      FirstOccurrencesPrefix(blocks, referenceIn, i + 1);
      assert blocks[..i + 1][..i] == blocks[..i];
    }
  }

  ghost predicate Carries(block: UrlBlock, referenceIn: string -> Option<string>, reference: string) {
    referenceIn(block.url).Some? && Upper(referenceIn(block.url).value) == reference
  }

  /** The item stands in the document at `k`, and no earlier block carries its reference. */
  ghost predicate FirstAt(blocks: seq<UrlBlock>, referenceIn: string -> Option<string>, item: Item, k: nat) {
    && k < |blocks| && item.url == blocks[k].url && item.lastmod == blocks[k].lastmod
    && Carries(blocks[k], referenceIn, item.reference)
    && forall j :: 0 <= j < k ==> !Carries(blocks[j], referenceIn, item.reference)
  }

  /** Items at these positions of the document, in its order. */
  ghost predicate FirstsAt(blocks: seq<UrlBlock>, referenceIn: string -> Option<string>, items: seq<Item>,
                           positions: seq<nat>)
  {
    && |positions| == |items|
    && (forall i :: 0 <= i < |items| ==> FirstAt(blocks, referenceIn, items[i], positions[i]))
    && (forall i, j :: 0 <= i < j < |items| ==> positions[i] < positions[j])
  }

  /** The document's references, each once: every item is the first block that carries its reference, as it stands
      there, the items keep the order of the document, no reference or address occurs twice, and none is missing. */
  lemma FirstOccurrencesExact(blocks: seq<UrlBlock>, referenceIn: string -> Option<string>)
    returns (positions: seq<nat>)
    ensures var items := FirstOccurrences(blocks, referenceIn);
            && FirstsAt(blocks, referenceIn, items, positions)
            && (forall i, j :: 0 <= i < j < |items| ==>
                  items[i].reference != items[j].reference && items[i].url != items[j].url)
            && (forall b, r :: b in blocks && Carries(b, referenceIn, r) ==> r in ReferencesOf(items))
  {
    positions := FirstPositions(blocks, referenceIn);
    NoneMissing(blocks, referenceIn);
    var items := FirstOccurrences(blocks, referenceIn);
    forall i, j | 0 <= i < j < |items|
      ensures items[i].reference != items[j].reference && items[i].url != items[j].url
    {
      assert FirstAt(blocks, referenceIn, items[i], positions[i]);
      assert FirstAt(blocks, referenceIn, items[j], positions[j]);
    }
  }

  lemma {:induction false} FirstPositions(blocks: seq<UrlBlock>, referenceIn: string -> Option<string>)
    returns (positions: seq<nat>)
    ensures FirstsAt(blocks, referenceIn, FirstOccurrences(blocks, referenceIn), positions)
  {
    if |blocks| == 0 {
      positions := [];
    } else {
      var front, last := blocks[..|blocks| - 1], blocks[|blocks| - 1];
      positions := FirstPositions(front, referenceIn);
      NoneMissing(front, referenceIn);
      var before, items := FirstOccurrences(front, referenceIn), FirstOccurrences(blocks, referenceIn);
      forall i | 0 <= i < |before| ensures FirstAt(blocks, referenceIn, before[i], positions[i]) {
        assert FirstAt(front, referenceIn, before[i], positions[i]);
      }
      if |items| > |before| {
        forall j | 0 <= j < |front| ensures !Carries(blocks[j], referenceIn, items[|before|].reference) {
          assert front[j] in front;
        }
        positions := positions + [|front|];
      }
    }
  }

  lemma {:induction false} NoneMissing(blocks: seq<UrlBlock>, referenceIn: string -> Option<string>)
    ensures forall b, r :: b in blocks && Carries(b, referenceIn, r) ==>
              r in ReferencesOf(FirstOccurrences(blocks, referenceIn))
  {
    if |blocks| == 0 {
    } else {
      var front, last := blocks[..|blocks| - 1], blocks[|blocks| - 1];
      NoneMissing(front, referenceIn);
      assert blocks == front + [last];
      var before, items := FirstOccurrences(front, referenceIn), FirstOccurrences(blocks, referenceIn);
      forall r | r in ReferencesOf(before) ensures r in ReferencesOf(items) {
        var i :| 0 <= i < |before| && before[i].reference == r;
        assert items[i].reference == r;
      }
      if |items| > |before| {
        assert items[|before|].reference in ReferencesOf(items);
      }
    }
  }

  /** One pass over the document with a set of references seen and a ceiling. */
  method DiscoverFromSitemap(blocks: seq<UrlBlock>, referenceIn: string -> Option<string>, maxCandidates: int)
    returns (items: seq<Item>)
    ensures items == UpTo(FirstOccurrences(blocks, referenceIn), maxCandidates)
  {
    items := [];
    var seen: set<string> := {};
    for i := 0 to |blocks|
      invariant items == FirstOccurrences(blocks[..i], referenceIn) && seen == ReferencesOf(items)
      invariant |items| < Max(maxCandidates, 1)
    {
      assert blocks[..i + 1][..i] == blocks[..i];
      match referenceIn(blocks[i].url) {
        case None => continue;
        case Some(r) =>
          var reference := Upper(r);
          if reference in seen {
            continue;
          }
          seen := seen + {reference};
          ghost var before := items;
          items := items + [Item(blocks[i].url, reference, blocks[i].lastmod)];
          assert ReferencesOf(items) == seen by {
            assert forall k :: 0 <= k < |before| ==> items[k] == before[k];
            assert items[|before|].reference == reference;
          }
          if |items| >= maxCandidates {
            FirstOccurrencesPrefix(blocks, referenceIn, i + 1);
            return;
          }
      }
    }
    assert blocks[..|blocks|] == blocks;
  }

  /** A fetched document: an index of children, or a list of addresses. */
  datatype Document =
    | Missing(blocked: bool)
    | Index(children: seq<string>, blocks: seq<UrlBlock>)
    | UrlSet(blocks: seq<UrlBlock>)

  function PickChild(children: seq<string>, matches: string -> bool): Option<string> {
    if |children| == 0 then None
    else if matches(children[0]) then Some(children[0])
    else PickChild(children[1..], matches)
  }

  /** The child followed is the first that matches; none is followed only where none does. */
  lemma {:induction false} PickChildExactly(children: seq<string>, matches: string -> bool)
    ensures match PickChild(children, matches)
            case None => forall i :: 0 <= i < |children| ==> !matches(children[i])
            case Some(child) => exists i :: 0 <= i < |children| && children[i] == child && matches(child)
                                            && forall j :: 0 <= j < i ==> !matches(children[j])
  {
    if |children| == 0 {
    } else if matches(children[0]) {
    } else {
      var rest := children[1..];
      PickChildExactly(rest, matches);
      assert forall i :: 0 < i < |children| ==> children[i] == rest[i - 1];
      if PickChild(rest, matches).Some? {
        var i :| 0 <= i < |rest| && rest[i] == PickChild(rest, matches).value
                 && forall j :: 0 <= j < i ==> !matches(rest[j]);
        assert children[i + 1] == rest[i];
      }
    }
  }

  /** One document, or an index and its first matching child: never more than two requests, and SUCCESS exactly
      when candidates came out. A child that is itself an index is read for its addresses and not followed. */
  method PollSitemap(fetch: string -> Document, url: string, matches: string -> bool,
                     referenceIn: string -> Option<string>, maxCandidates: int)
    returns (status: PollStatus, candidates: seq<Item>, requests: nat)
    ensures requests <= 2 && (requests == 2 ==> fetch(url).Index?)
    ensures status == PollSuccess <==> candidates != []
    ensures status == PollFailed || status == PollBlocked ==> candidates == []
    ensures fetch(url).Missing? ==> requests == 1 && status == (if fetch(url).blocked then PollBlocked else PollFailed)
    ensures fetch(url).UrlSet? ==>
              status in {PollSuccess, PollZeroItems}
              && candidates == UpTo(FirstOccurrences(fetch(url).blocks, referenceIn), maxCandidates)
    ensures fetch(url).Index? && PickChild(fetch(url).children, matches).None? ==> status == PollFailed
    ensures fetch(url).Index? && PickChild(fetch(url).children, matches).Some? ==>
              var child := fetch(PickChild(fetch(url).children, matches).value);
              if child.Missing? then status == (if child.blocked then PollBlocked else PollFailed)
              else status in {PollSuccess, PollZeroItems}
                   && candidates == UpTo(FirstOccurrences(child.blocks, referenceIn), maxCandidates)
  {
    var document := fetch(url);
    requests, candidates := 1, [];
    if document.Missing? {
      return if document.blocked then PollBlocked else PollFailed, candidates, requests;
    }
    if document.Index? {
      var child := PickChild(document.children, matches);
      if child.None? {
        return PollFailed, candidates, requests;
      }
      document := fetch(child.value);
      requests := 2;
      if document.Missing? {
        return if document.blocked then PollBlocked else PollFailed, candidates, requests;
      }
    }
    candidates := DiscoverFromSitemap(document.blocks, referenceIn, maxCandidates);
    status := if candidates != [] then PollSuccess else PollZeroItems;
  }
}

/** The global dedup key of one discovered product, and exactly which products share a key. */
module Identity {
  import opened Common
  import opened Text
  import opened References

  /** A product page address after splitting; splitting itself is not part of this model. */
  datatype Url = Url(scheme: string, netloc: string, path: string, query: string, fragment: string)

  datatype IdentityType = Reference | PageUrl

  datatype Identity = Identity(
    key: string,
    kind: IdentityType,
    manufacturer: string,
    referenceRaw: string,
    canonical: string)

  predicate IsUnhyphenatedSku(s: string) {
    s != "" && forall i :: 0 <= i < |s| ==> IsAlnum(s[i])
  }

  function CollapseRegionalSuffix(reference: string): string {
    var raw := Strip(reference);
    if !IsUnhyphenatedSku(raw) || |raw| < 4 then raw
    else if Upper(raw)[|raw| - 2..] == "UK" && IsDigit(raw[|raw| - 3]) then raw[..|raw| - 2]
    else raw
  }

  function StripSlashes(path: string): string {
    if path != "" && path[|path| - 1] == '/' then StripSlashes(path[..|path| - 1]) else path
  }

  function CanonicalizeUrl(url: Url): Url {
    var path := if url.path == "" then "/" else url.path;
    var trimmed := if |path| > 1 && path[|path| - 1] == '/' then StripSlashes(path) else path;
    Url(Lower(url.scheme), Lower(url.netloc), trimmed, "", "")
  }

  /** Canonical form of a non-empty collapsed reference under the manufacturer's rule. */
  function Canonical(manufacturer: string, collapsed: string): Result<string> {
    if manufacturer == "Casio" then NormalizeCasio(collapsed)
    else if manufacturer in {"Citizen", "Seiko", "Timex"} then NormalizePassThrough(collapsed)
    else Ok(Upper(collapsed))
  }

  /** The identity of one candidate; `sha` stands for the digest of the canonical address. */
  function BuildIdentity(sha: Url -> string, manufacturer: string, reference: string, url: Url): Result<Identity> {
    var brand := Strip(manufacturer);
    var cleaned := Strip(reference);
    if cleaned != "" then
      match Canonical(brand, CollapseRegionalSuffix(cleaned)) {
        case Ok(canonical) =>
          Ok(Identity(Lower(brand) + ":" + Lower(canonical), IdentityType.Reference, brand, cleaned, canonical))
        case Err(e) => Err(e)
      }
    else
      Ok(Identity(Lower(brand) + ":url:" + sha(CanonicalizeUrl(url)), PageUrl, brand, "", ""))
  }

  /* ---- What the key depends on ---- */

  /** A store-specific form of an unhyphenated stock number that ends in a digit. */
  predicate RegionalForm(base: string, s: string) {
    s == base + "uk" && |base| >= 2 && IsUnhyphenatedSku(base) && IsDigit(base[|base| - 1])
  }

  /** A Japan-market form of a Casio reference. */
  predicate JapanForm(base: string, s: string) {
    && |base| > 0 && !EndsWithHyphen(base)
    && |s| == |base| + 2 && s[..|base|] == base && s[|base|] == 'j' && IsLower(s[|base| + 1])
  }

  /** The spelling `s`, in lower case, is one of the spellings of `base`. */
  predicate SpellingOf(brand: string, base: string, s: string) {
    || RegionalForm(base, s)
    || (brand == "Casio" && JapanForm(base, s))
    || (s == base && !HasSuffix(brand, s))
  }

  predicate HasSuffix(brand: string, s: string) {
    |s| >= 2 && (RegionalForm(s[..|s| - 2], s) || (brand == "Casio" && JapanForm(s[..|s| - 2], s)))
  }

  /** The lower-case spelling of a reference with cosmetic white space removed. */
  function Spelling(reference: string): string {
    Lower(Strip(reference))
  }

  lemma TrimmedParts(s: string, k: nat)
    requires Trimmed(s) && 0 < k <= |s| && !IsSpace(s[k - 1])
    ensures Trimmed(s[..k]) && Strip(s[..k]) == s[..k]
  {
    StripFixed(s[..k]);
  }

  /** A reference always has an identity, and its key is the brand with the base of its spelling. */
  lemma ReferenceKey(sha: Url -> string, manufacturer: string, reference: string, url: Url) returns (base: string)
    requires Strip(reference) != ""
    ensures SpellingOf(Strip(manufacturer), base, Spelling(reference))
    ensures BuildIdentity(sha, manufacturer, reference, url).Ok?
    ensures BuildIdentity(sha, manufacturer, reference, url).value.kind == IdentityType.Reference
    ensures BuildIdentity(sha, manufacturer, reference, url).value.key == Lower(Strip(manufacturer)) + ":" + base
  {
    var raw := Strip(reference);
    StripTrims(reference);
    StripFixed(raw);
    base := CanonicalIsBase(Strip(manufacturer), raw);
  }

  /** The canonical form of a collapsed reference, in lower case, is the base of its spelling. */
  lemma CanonicalIsBase(brand: string, raw: string) returns (base: string)
    requires Trimmed(raw) && raw != ""
    ensures SpellingOf(brand, base, Lower(raw))
    ensures Canonical(brand, CollapseRegionalSuffix(raw)).Ok?
    ensures Lower(Canonical(brand, CollapseRegionalSuffix(raw)).value) == base
  {
    if CollapseRegionalSuffix(raw) != raw {
      base := RegionalBase(brand, raw);
    } else {
      NotRegional(raw);
      StripFixed(raw);
      if brand == "Casio" {
        CasioBase(raw);
        base := Lower(NormalizeCasio(raw).value);
      } else {
        base := Lower(raw);
        assert Lower(Upper(raw)) == base;
      }
    }
  }

  lemma RegionalBase(brand: string, raw: string) returns (base: string)
    requires Trimmed(raw) && raw != "" && CollapseRegionalSuffix(raw) != raw
    ensures RegionalForm(base, Lower(raw))
    ensures Canonical(brand, CollapseRegionalSuffix(raw)).Ok?
    ensures Lower(Canonical(brand, CollapseRegionalSuffix(raw)).value) == base
  {
    StripFixed(raw);
    var n := |raw| - 2;
    var collapsed := raw[..n];
    assert Upper(raw)[n..][0] == 'U' && Upper(raw)[n..][1] == 'K';
    base := Lower(collapsed);
    assert Lower(raw) == base + "uk";
    TrimmedParts(raw, n);
    assert Lower(Upper(collapsed)) == base;
    assert Upper(collapsed)[n - 1] == collapsed[n - 1];
  }

  lemma NotRegional(raw: string)
    requires Trimmed(raw) && raw != "" && CollapseRegionalSuffix(raw) == raw
    ensures |raw| >= 2 ==> !RegionalForm(Lower(raw)[..|raw| - 2], Lower(raw))
  {
    StripFixed(raw);
    if |raw| >= 2 && RegionalForm(Lower(raw)[..|raw| - 2], Lower(raw)) {
      var n, base := |raw| - 2, Lower(raw)[..|raw| - 2];
      assert Lower(raw)[n] == 'u' && Lower(raw)[n + 1] == 'k';
      assert Upper(raw)[n..] == "UK";
      assert base[n - 1] == LowerChar(raw[n - 1]);
      forall i | 0 <= i < |raw| ensures IsAlnum(raw[i]) {
        if i < n {
          assert base[i] == LowerChar(raw[i]);
        } else {
          assert Lower(raw)[i] == LowerChar(raw[i]);
        }
      }
      assert false;
    }
  }

  lemma CasioBase(raw: string)
    requires Trimmed(raw) && raw != ""
    requires |raw| >= 2 ==> !RegionalForm(Lower(raw)[..|raw| - 2], Lower(raw))
    ensures NormalizeCasio(raw).Ok? && SpellingOf("Casio", Lower(NormalizeCasio(raw).value), Lower(raw))
  {
    StripFixed(raw);
    var s := Lower(raw);
    if |raw| >= 3 {
      var n := |raw| - 2;
      assert Upper(raw)[n..][0] == UpperChar(raw[n]) && Upper(raw)[n..][1] == UpperChar(raw[n + 1]);
      assert s[..n] == Lower(raw[..n]);
      assert EndsWithHyphen(raw[..n]) <==> EndsWithHyphen(s[..n]);
    }
  }

  /** A spelling determines its base. */
  lemma SpellingHasOneBase(brand: string, b1: string, b2: string, s: string)
    requires SpellingOf(brand, b1, s) && SpellingOf(brand, b2, s)
    ensures b1 == b2
  {
    if RegionalForm(b1, s) || (brand == "Casio" && JapanForm(b1, s)) {
      assert s[..|s| - 2] == b1;
    }
    if RegionalForm(b2, s) || (brand == "Casio" && JapanForm(b2, s)) {
      assert s[..|s| - 2] == b2;
    }
  }

  /** Computing an identity never fails: the normalisers only reject what the caller has already ruled out. */
  lemma IdentityAlwaysExists(sha: Url -> string, manufacturer: string, reference: string, url: Url)
    ensures BuildIdentity(sha, manufacturer, reference, url).Ok?
  {
    if Strip(reference) != "" {
      var _ := ReferenceKey(sha, manufacturer, reference, url);
    }
  }

  function Key(sha: Url -> string, manufacturer: string, reference: string, url: Url): string {
    match BuildIdentity(sha, manufacturer, reference, url)
    case Ok(identity) => identity.key
    case Err(_) => ""
  }

  /** Two references of one manufacturer merge exactly when they are spellings of one base. */
  lemma ReferencesMergeExactly(sha: Url -> string, manufacturer: string, r1: string, u1: Url, r2: string, u2: Url)
    requires Strip(r1) != "" && Strip(r2) != ""
    ensures Key(sha, manufacturer, r1, u1) == Key(sha, manufacturer, r2, u2)
       <==> exists base :: SpellingOf(Strip(manufacturer), base, Spelling(r1))
                        && SpellingOf(Strip(manufacturer), base, Spelling(r2))
  {
    var brand := Strip(manufacturer);
    var b1 := ReferenceKey(sha, manufacturer, r1, u1);
    var b2 := ReferenceKey(sha, manufacturer, r2, u2);
    var prefix := Lower(brand) + ":";
    assert (prefix + b1)[|prefix|..] == b1 && (prefix + b2)[|prefix|..] == b2;
    forall base | SpellingOf(brand, base, Spelling(r1)) && SpellingOf(brand, base, Spelling(r2))
      ensures b1 == b2
    {
      SpellingHasOneBase(brand, base, b1, Spelling(r1));
      SpellingHasOneBase(brand, base, b2, Spelling(r2));
    }
  }

  /** What an identity keeps beside its key. With a reference: the stripped brand and reference, and as canonical form
      the beginning of the stripped reference that the key spells, in capitals unless the brand has a rule of its own.
      Without one: no reference at all. */
  lemma IdentityTells(sha: Url -> string, manufacturer: string, reference: string, url: Url)
    ensures BuildIdentity(sha, manufacturer, reference, url).Ok?
    ensures var identity, raw := BuildIdentity(sha, manufacturer, reference, url).value, Strip(reference);
            && identity.manufacturer == Strip(manufacturer) && identity.referenceRaw == raw
            && (identity.kind == IdentityType.Reference <==> raw != "")
            && (raw == "" ==> identity.canonical == "")
            && (raw != "" ==>
                  && identity.key == Lower(identity.manufacturer) + ":" + Lower(identity.canonical)
                  && |identity.canonical| <= |raw|
                  && identity.canonical == if identity.manufacturer in {"Casio", "Citizen", "Seiko", "Timex"}
                                           then raw[..|identity.canonical|] else Upper(raw[..|identity.canonical|]))
  {
    if Strip(reference) != "" {
      var _ := ReferenceKey(sha, manufacturer, reference, url);
      StripTrims(reference);
      StripFixed(Strip(reference));
      CanonicalIsBeginning(Strip(manufacturer), Strip(reference));
    }
  }

  lemma CanonicalIsBeginning(brand: string, raw: string)
    requires Trimmed(raw) && raw != ""
    ensures Canonical(brand, CollapseRegionalSuffix(raw)).Ok?
    ensures var canonical := Canonical(brand, CollapseRegionalSuffix(raw)).value;
            && |canonical| <= |raw|
            && canonical == if brand in {"Casio", "Citizen", "Seiko", "Timex"} then raw[..|canonical|]
                            else Upper(raw[..|canonical|])
  {
    var collapsed := CollapseRegionalSuffix(raw);
    StripFixed(raw);
    if collapsed != raw {
      TrimmedParts(raw, |collapsed|);
    }
    var base := CanonicalIsBase(brand, raw);
    CasioRemovesAtMostOneSuffix(collapsed);
  }

  /** White space around a reference and the case of its letters never change the key. */
  lemma CosmeticsDoNotMatter(sha: Url -> string, manufacturer: string, left: string, r1: string, right: string,
                             r2: string, u1: Url, u2: Url)
    requires forall c :: c in left || c in right ==> IsSpace(c)
    requires Lower(r1) == Lower(r2)
    requires Strip(r1) != ""
    ensures Key(sha, manufacturer, left + r1 + right, u1) == Key(sha, manufacturer, r2, u2)
  {
    StripPadding(left, r1, right);
    StripLower(r1);
    StripLower(r2);
    assert Spelling(left + r1 + right) == Spelling(r2);
    var b1 := ReferenceKey(sha, manufacturer, left + r1 + right, u1);
    var b2 := ReferenceKey(sha, manufacturer, r2, u2);
    SpellingHasOneBase(Strip(manufacturer), b1, b2, Spelling(r2));
  }

  /** Stripping commutes with lower-casing. */
  lemma StripLower(s: string)
    ensures Lower(Strip(s)) == Strip(Lower(s))
  {
    StripLeftLower(s);
    StripRightLower(StripLeft(s));
  }

  lemma {:induction false} StripLeftLower(s: string)
    ensures Lower(StripLeft(s)) == StripLeft(Lower(s))
  {
    if |s| == 0 || !IsSpace(s[0]) {
    } else {
      assert Lower(s)[1..] == Lower(s[1..]);
      StripLeftLower(s[1..]);
    }
  }

  lemma {:induction false} StripRightLower(s: string)
    ensures Lower(StripRight(s)) == StripRight(Lower(s))
  {
    if |s| == 0 || !IsSpace(s[|s| - 1]) {
    } else {
      assert Lower(s)[..|s| - 1] == Lower(s[..|s| - 1]);
      StripRightLower(s[..|s| - 1]);
    }
  }

  /** Appending "UK" to an unhyphenated stock number ending in a digit does not change the key. */
  lemma RegionalSuffixMerges(sha: Url -> string, manufacturer: string, r: string, u1: Url, u2: Url)
    requires |r| >= 2 && IsUnhyphenatedSku(r) && IsDigit(r[|r| - 1])
    ensures Key(sha, manufacturer, r + "UK", u1) == Key(sha, manufacturer, r, u2)
  {
    assert IsAlnum(r[0]);
    StripFixed(r);
    var uk := r + "UK";
    StripFixed(uk);
    LowerConcat(r, "UK");
    var base := Spelling(r);
    assert Lower("UK") == "uk";
    assert RegionalForm(base, Spelling(uk)) by {
      forall i | 0 <= i < |base| ensures IsAlnum(base[i]) {
        assert IsAlnum(r[i]);
      }
    }
    assert !HasSuffix(Strip(manufacturer), base) by {
      assert base[|base| - 1] == r[|r| - 1];
    }
    assert SpellingOf(Strip(manufacturer), base, base);
    ReferencesMergeExactly(sha, manufacturer, uk, u1, r, u2);
  }

  lemma SkuIsNotBlank(r: string)
    requires IsUnhyphenatedSku(r)
    ensures Strip(r) == r != ""
  {
    assert IsAlnum(r[0]) && IsAlnum(r[|r| - 1]);
    StripFixed(r);
  }

  /** The key of a reference depends on neither the address nor its digest. */
  lemma KeyIgnoresAddress(sha1: Url -> string, sha2: Url -> string, manufacturer: string, r: string, u1: Url, u2: Url)
    requires Strip(r) != ""
    ensures Key(sha1, manufacturer, r, u1) == Key(sha2, manufacturer, r, u2)
  {
    var b1 := ReferenceKey(sha1, manufacturer, r, u1);
    var b2 := ReferenceKey(sha2, manufacturer, r, u2);
    SpellingHasOneBase(Strip(manufacturer), b1, b2, Spelling(r));
  }

  /** For the pass-through brands a shared key means equal lower-case collapsed references, and conversely. */
  lemma PassThroughMergesExactly(sha: Url -> string, manufacturer: string, r1: string, u1: Url, r2: string, u2: Url)
    requires Strip(manufacturer) in {"Timex", "Seiko", "Citizen"}
    requires Strip(r1) != "" && Strip(r2) != ""
    ensures Key(sha, manufacturer, r1, u1) == Key(sha, manufacturer, r2, u2)
       <==> Lower(CollapseRegionalSuffix(r1)) == Lower(CollapseRegionalSuffix(r2))
  {
    CollapsedKey(sha, manufacturer, r1, u1);
    CollapsedKey(sha, manufacturer, r2, u2);
    var prefix := Lower(Strip(manufacturer)) + ":";
    var c1, c2 := Lower(CollapseRegionalSuffix(r1)), Lower(CollapseRegionalSuffix(r2));
    assert (prefix + c1)[|prefix|..] == c1 && (prefix + c2)[|prefix|..] == c2;
  }

  lemma CollapsedKey(sha: Url -> string, manufacturer: string, r: string, u: Url)
    requires Strip(manufacturer) in {"Timex", "Seiko", "Citizen"}
    requires Strip(r) != ""
    ensures Key(sha, manufacturer, r, u) == Lower(Strip(manufacturer)) + ":" + Lower(CollapseRegionalSuffix(r))
  {
    StripTrims(r);
    StripFixed(Strip(r));
    var c := CollapseRegionalSuffix(r);
    if c != Strip(r) {
      TrimmedParts(Strip(r), |c|);
    }
  }

  /** One text, split after either brand: the base spelled by the reference against "url:" and the digest. */
  ghost predicate MeetsAt(base: string, brand1: string, spelling: string, brand2: string, tail: string) {
    SpellingOf(brand1, base, spelling) && SplitsAgree(Lower(brand1), base, Lower(brand2), tail)
  }

  /** Exactly when a reference key is an address key, whatever the manufacturers: both split one text at a colon.
      With colon-free brands that means one brand, and a base that itself spells "url:" and the digest. */
  lemma ReferenceMeetsUrlExactly(sha: Url -> string, m1: string, r: string, u1: Url, m2: string, u2: Url)
    requires Strip(r) != ""
    ensures var tail := "url:" + sha(CanonicalizeUrl(u2));
            && (Key(sha, m1, r, u1) == Key(sha, m2, "", u2)
                <==> exists base :: MeetsAt(base, Strip(m1), Spelling(r), Strip(m2), tail))
            && (':' !in Lower(Strip(m1)) && ':' !in Lower(Strip(m2)) ==>
                  (Key(sha, m1, r, u1) == Key(sha, m2, "", u2)
                   <==> Lower(Strip(m1)) == Lower(Strip(m2)) && SpellingOf(Strip(m1), tail, Spelling(r))))
  {
    var base := ReferenceKey(sha, m1, r, u1);
    var tail := "url:" + sha(CanonicalizeUrl(u2));
    AddressKey(sha, m2, u2);
    SplitAtSomeColon(Lower(Strip(m1)), base, Lower(Strip(m2)), tail);
    hide SpellingOf, Spelling, SplitsAgree, Key;
    if SplitsAgree(Lower(Strip(m1)), base, Lower(Strip(m2)), tail) {
      assert MeetsAt(base, Strip(m1), Spelling(r), Strip(m2), tail);
    }
    forall b | SpellingOf(Strip(m1), b, Spelling(r)) ensures b == base {
      SpellingHasOneBase(Strip(m1), base, b, Spelling(r));
    }
    if ':' !in Lower(Strip(m1)) && ':' !in Lower(Strip(m2)) {
      SplitAtFirstColon(Lower(Strip(m1)), base, Lower(Strip(m2)), tail);
    }
  }

  lemma AddressKey(sha: Url -> string, manufacturer: string, u: Url)
    ensures Key(sha, manufacturer, "", u)
         == Lower(Strip(manufacturer)) + ":" + ("url:" + sha(CanonicalizeUrl(u)))
  {
    assert Lower(Strip(manufacturer)) + ":url:" == Lower(Strip(manufacturer)) + ":" + "url:";
  }

  /** The brand of the reference runs past the other brand, so far that what is left of the address key is the base. */
  ghost predicate BrandRunsOn(base: string, x: string, brand1: string, spelling: string, brand2: string, tail: string)
  {
    SpellingOf(brand1, base, spelling) && SplitsLater(Lower(brand1), base, Lower(brand2), tail, x)
  }

  /** References written without a colon collide with an address key exactly where the brand itself runs on, over a
      colon, into the address key; so never for a brand without a colon. */
  lemma ColonFreeReferenceNeverMeetsUrl(sha: Url -> string, m1: string, r: string, u1: Url, m2: string, u2: Url)
    requires Strip(r) != "" && ':' !in r
    ensures ':' !in Lower(Strip(m1)) ==> Key(sha, m1, r, u1) != Key(sha, m2, "", u2)
    ensures Key(sha, m1, r, u1) == Key(sha, m2, "", u2)
       <==> exists base, x ::
              BrandRunsOn(base, x, Strip(m1), Spelling(r), Strip(m2), "url:" + sha(CanonicalizeUrl(u2)))
  {
    var tail := "url:" + sha(CanonicalizeUrl(u2));
    ReferenceMeetsUrlExactly(sha, m1, r, u1, m2, u2);
    hide Key;
    forall base | SpellingOf(Strip(m1), base, Spelling(r)) ensures ':' !in base {
      BaseWithoutColon(Strip(m1), base, r);
    }
    hide SpellingOf, Spelling;
    forall base | MeetsAt(base, Strip(m1), Spelling(r), Strip(m2), tail)
      ensures exists x :: BrandRunsOn(base, x, Strip(m1), Spelling(r), Strip(m2), tail)
    {
      ColonFreeSplitsLater(Lower(Strip(m1)), base, Lower(Strip(m2)), tail);
      var x :| SplitsLater(Lower(Strip(m1)), base, Lower(Strip(m2)), tail, x);
      assert BrandRunsOn(base, x, Strip(m1), Spelling(r), Strip(m2), tail);
    }
    forall base, x | BrandRunsOn(base, x, Strip(m1), Spelling(r), Strip(m2), tail)
      ensures MeetsAt(base, Strip(m1), Spelling(r), Strip(m2), tail) && ':' in Lower(Strip(m1))
    {
      assert Lower(Strip(m1))[|Lower(Strip(m2))|] == ':';
    }
  }

  lemma BaseWithoutColon(brand: string, base: string, r: string)
    requires SpellingOf(brand, base, Spelling(r)) && ':' !in r
    ensures ':' !in base
  {
    if ':' in base {
      var i :| 0 <= i < |base| && base[i] == ':';
      assert Spelling(r)[i] == base[i];
      assert Strip(r)[i] == ':';
      StripMember(r, ':');
    }
  }

  lemma ColonFreeSplitsLater(m1: string, base: string, m2: string, tail: string)
    requires SplitsAgree(m1, base, m2, tail) && ':' in tail
    ensures ':' in base || exists x :: SplitsLater(m1, base, m2, tail, x)
  {
    forall x | SplitsLater(m2, tail, m1, base, x) ensures ':' in base {
      assert base[|x|] == ':';
    }
  }

  /** Products of two brands without colons never share a key, with or without references. */
  lemma BrandsNeverMeet(sha: Url -> string, m1: string, r1: string, u1: Url, m2: string, r2: string, u2: Url)
    requires ':' !in Lower(Strip(m1)) && ':' !in Lower(Strip(m2))
    requires Key(sha, m1, r1, u1) == Key(sha, m2, r2, u2)
    ensures Lower(Strip(m1)) == Lower(Strip(m2))
  {
    var t1 := KeyTail(sha, m1, r1, u1);
    var t2 := KeyTail(sha, m2, r2, u2);
    hide Key;
    SplitAtFirstColon(Lower(Strip(m1)), t1, Lower(Strip(m2)), t2);
  }

  lemma KeyTail(sha: Url -> string, m: string, r: string, u: Url) returns (tail: string)
    ensures Key(sha, m, r, u) == Lower(Strip(m)) + ":" + tail
  {
    if Strip(r) != "" {
      tail := ReferenceKey(sha, m, r, u);
    } else {
      tail := "url:" + sha(CanonicalizeUrl(u));
      AddressKey(sha, m, u);
    }
  }

  lemma StripMember(s: string, c: char)
    requires c in Strip(s)
    ensures c in s
  {
    StripRightTrims(StripLeft(s));
    assert c in StripLeft(s);
    StripLeftMember(s, c);
  }

  lemma {:induction false} StripLeftMember(s: string, c: char)
    requires c in StripLeft(s)
    ensures c in s
  {
    if |s| == 0 || !IsSpace(s[0]) {
    } else {
      StripLeftMember(s[1..], c);
    }
  }

  /** The paths are one up to trailing slashes; where nothing else is left, both are longer than one slash or neither
      is: an empty path counts as one slash, but two slashes are another page. */
  predicate SamePath(p1: string, p2: string) {
    && StripSlashes(p1) == StripSlashes(p2)
    && (StripSlashes(p1) == "" ==> (|p1| >= 2 <==> |p2| >= 2))
  }

  /** With an injective digest, two products without a reference merge exactly when their addresses agree up to
      the case of scheme and host, query, fragment, and slashes at the end of a path that has more to it. */
  lemma UrlsMergeExactly(sha: Url -> string, manufacturer: string, u1: Url, u2: Url)
    requires forall x, y :: sha(x) == sha(y) ==> x == y
    ensures Key(sha, manufacturer, "", u1) == Key(sha, manufacturer, "", u2)
       <==> (Lower(u1.scheme) == Lower(u2.scheme) && Lower(u1.netloc) == Lower(u2.netloc)
             && SamePath(u1.path, u2.path))
  {
    CanonicalPath(u1);
    CanonicalPath(u2);
    StripSlashesStops(u1.path);
    StripSlashesStops(u2.path);
    var prefix := Lower(Strip(manufacturer)) + ":url:";
    var d1, d2 := sha(CanonicalizeUrl(u1)), sha(CanonicalizeUrl(u2));
    assert (prefix + d1)[|prefix|..] == d1 && (prefix + d2)[|prefix|..] == d2;
  }

  predicate AllSlashes(path: string) {
    forall i :: 0 <= i < |path| ==> path[i] == '/'
  }

  lemma {:induction false} StripSlashesStops(path: string)
    ensures StripSlashes(path) == "" <==> AllSlashes(path)
    ensures StripSlashes(path) != "" ==> StripSlashes(path)[|StripSlashes(path)| - 1] != '/'
  {
    if path == "" || path[|path| - 1] != '/' {
    } else {
      StripSlashesStops(path[..|path| - 1]);
    }
  }

  lemma CanonicalPath(url: Url)
    ensures CanonicalizeUrl(url).path
         == if StripSlashes(url.path) == "" && |url.path| < 2 then "/" else StripSlashes(url.path)
    ensures CanonicalizeUrl(url).query == "" && CanonicalizeUrl(url).fragment == ""
  {
    if |url.path| == 1 {
      assert url.path[..0] == "";
    }
  }

  /** Canonicalising an address twice changes it exactly when its path is two or more slashes and nothing else. */
  lemma CanonicalUrlIdempotentExactly(url: Url)
    ensures CanonicalizeUrl(CanonicalizeUrl(url)) == CanonicalizeUrl(url)
       <==> !(|url.path| >= 2 && AllSlashes(url.path))
  {
    StripSlashesStops(url.path);
    assert Lower(Lower(url.scheme)) == Lower(url.scheme);
    assert Lower(Lower(url.netloc)) == Lower(url.netloc);
  }

  /** A path of two slashes loses one slash at each of the two passes. */
  lemma TwoSlashesChangeTwice(scheme: string, netloc: string)
    ensures var once := CanonicalizeUrl(Url(scheme, netloc, "//", "", ""));
            once.path == "" && CanonicalizeUrl(once).path == "/"
  {
    assert "//"[..1] == "/" && "/"[..0] == "";
  }
}

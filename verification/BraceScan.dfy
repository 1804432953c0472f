/** The depth-counting scan that cuts one embedded object out of a page. */
module BraceScan {
  import opened Common

  function Step(c: char): int {
    if c == '{' then 1 else if c == '}' then -1 else 0
  }

  /** Opening minus closing braces. */
  function Depth(s: string): int {
    if |s| == 0 then 0 else Depth(s[..|s| - 1]) + Step(s[|s| - 1])
  }

  /** The scan stands at `i` having counted `depth`; the result is the position after the closing brace. */
  function ScanFrom(s: string, i: nat, depth: int): Option<nat>
    requires i <= |s|
    decreases |s| - i
  {
    if i == |s| then None
    else if s[i] == '{' then ScanFrom(s, i + 1, depth + 1)
    else if s[i] == '}' then if depth - 1 == 0 then Some(i + 1) else ScanFrom(s, i + 1, depth - 1)
    else ScanFrom(s, i + 1, depth)
  }

  function Scan(s: string): Option<nat> {
    ScanFrom(s, 0, 0)
  }

  /** The loop over the page from the first brace at or after the anchor. */
  method ExtractBalanced(html: string, start: nat) returns (cut: Option<string>)
    requires start < |html| && html[start] == '{'
    ensures cut.Some? <==> Scan(html[start..]).Some?
    ensures cut.Some? ==> Scan(html[start..]).value <= |html| - start
                          && cut.value == html[start..start + Scan(html[start..]).value]
  {
    var depth, i := 0, start;
    while i < |html|
      invariant start <= i <= |html|
      invariant Scan(html[start..]) == ScanFrom(html[start..], i - start, depth)
    {
      if html[i] == '{' {
        depth := depth + 1;
      } else if html[i] == '}' {
        depth := depth - 1;
        if depth == 0 {
          return Some(html[start..i + 1]);
        }
      }
      i := i + 1;
    }
    cut := None;
  }

  lemma DepthSnoc(s: string, i: nat)
    requires i < |s|
    ensures Depth(s[..i + 1]) == Depth(s[..i]) + Step(s[i])
  {
    assert s[..i + 1][..i] == s[..i];
  }

  /** The first position after which the braces balance. */
  ghost predicate FirstBalance(s: string, end: nat) {
    && 0 < end <= |s| && Depth(s[..end]) == 0
    && (forall k :: 0 < k < end ==> Depth(s[..k]) > 0)
  }

  lemma {:induction false} ScanFromExact(s: string, i: nat, depth: int)
    requires i <= |s| && depth == Depth(s[..i])
    requires forall k :: 0 < k <= i ==> Depth(s[..k]) > 0
    requires i == 0 ==> |s| > 0 && s[0] == '{'
    ensures match ScanFrom(s, i, depth)
            case Some(end) => FirstBalance(s, end)
            case None => forall k :: 0 < k <= |s| ==> Depth(s[..k]) > 0
    decreases |s| - i
  {
    if i == |s| {
    } else {
      DepthSnoc(s, i);
      if !(s[i] == '}' && depth - 1 == 0) {
        ScanFromExact(s, i + 1, depth + Step(s[i]));
      }
    }
  }

  /** On text that starts with a brace the scan stops exactly at the first balance, so never at the end of an
      inner object, and finds nothing exactly when the braces never balance. */
  lemma ScanExact(s: string)
    requires |s| > 0 && s[0] == '{'
    ensures forall end: nat :: Scan(s) == Some(end) <==> FirstBalance(s, end)
    ensures Scan(s).None? <==> forall k :: 0 < k <= |s| ==> Depth(s[..k]) > 0
  {
    ScanFromExact(s, 0, 0);
    if Scan(s).Some? {
      forall end: nat | FirstBalance(s, end) ensures Scan(s) == Some(end) {
        var found := Scan(s).value;
        assert found == end;
      }
    }
  }

  /** Braces inside balance: no prefix closes more than it opened, and in the end nothing is left open. */
  ghost predicate Balanced(s: string) {
    Depth(s) == 0 && forall k :: 0 <= k <= |s| ==> Depth(s[..k]) >= 0
  }

  lemma {:induction false} DepthConcat(s: string, t: string)
    ensures Depth(s + t) == Depth(s) + Depth(t)
  {
    if |t| == 0 {
      assert s + t == s;
    } else {
      assert (s + t)[..|s + t| - 1] == s + t[..|t| - 1];
      DepthConcat(s, t[..|t| - 1]);
    }
  }

  lemma WrappedDepth(body: string, tail: string, k: nat)
    requires k <= |body|
    ensures Depth(("{" + body + "}" + tail)[..k + 1]) == 1 + Depth(body[..k])
  {
    assert ("{" + body + "}" + tail)[..k + 1] == "{" + body[..k];
    DepthConcat("{", body[..k]);
    assert "{"[..0] == "";
  }

  /** Whatever the body, the scan returns exactly the wrapped object if and only if the braces inside it balance;
      quoted braces count like any other. */
  lemma ExtractsWholeObjectExactly(body: string, tail: string)
    ensures Scan("{" + body + "}" + tail) == Some(|body| + 2) <==> Balanced(body)
  {
    var s := "{" + body + "}" + tail;
    var end := |body| + 2;
    ScanExact(s);
    assert Scan(s) == Some(end) <==> FirstBalance(s, end);
    assert body[..|body|] == body;
    WrappedDepth(body, tail, |body|);
    DepthSnoc(s, |body| + 1);
    assert Depth(s[..end]) == Depth(body);
    if FirstBalance(s, end) {
      forall k | 0 <= k <= |body| ensures Depth(body[..k]) >= 0 {
        WrappedDepth(body, tail, k);
        assert Depth(s[..k + 1]) > 0;
      }
    }
    if Balanced(body) {
      forall k | 0 < k < end ensures Depth(s[..k]) > 0 {
        WrappedDepth(body, tail, k - 1);
        assert Depth(body[..k - 1]) >= 0;
      }
    }
  }

  /* ---- Printed objects ---- */

  /** An object as printed: stretches of text, and nested objects between them. */
  datatype Piece = Text(text: string) | Nested(body: Body)
  datatype Body = End | Then(first: Piece, rest: Body)

  function PrintPiece(p: Piece): string {
    match p
    case Text(text) => text
    case Nested(body) => "{" + PrintBody(body) + "}"
  }

  function PrintBody(b: Body): string {
    match b
    case End => ""
    case Then(first, rest) => PrintPiece(first) + PrintBody(rest)
  }

  /** How long an object is when printed. */
  function Length(b: Body): nat {
    match b
    case End => 0
    case Then(Text(text), rest) => |text| + Length(rest)
    case Then(Nested(body), rest) => 2 + Length(body) + Length(rest)
  }

  /** Printing leaves nothing out. */
  lemma {:induction false} PrintsAll(b: Body)
    ensures |PrintBody(b)| == Length(b)
  {
    match b {
      case End =>
      case Then(first, rest) =>
        PrintsAll(rest);
        if first.Nested? {
          PrintsAll(first.body);
        }
    }
  }

  ghost predicate NoBracesInText(b: Body) {
    match b
    case End => true
    case Then(first, rest) =>
      NoBracesInText(rest) && match first {
        case Text(text) => '{' !in text && '}' !in text
        case Nested(body) => NoBracesInText(body)
      }
  }

  lemma BalancedConcat(s: string, t: string)
    requires Balanced(s) && Balanced(t)
    ensures Balanced(s + t)
  {
    DepthConcat(s, t);
    forall k | 0 <= k <= |s + t| ensures Depth((s + t)[..k]) >= 0 {
      if k <= |s| {
        assert (s + t)[..k] == s[..k];
      } else {
        assert (s + t)[..k] == s + t[..k - |s|];
        DepthConcat(s, t[..k - |s|]);
      }
    }
  }

  lemma {:induction false} PlainTextBalanced(s: string)
    requires '{' !in s && '}' !in s
    ensures Depth(s) == 0 && Balanced(s)
  {
    if |s| == 0 {
    } else {
      var front := s[..|s| - 1];
      PlainTextBalanced(front);
      forall k | 0 <= k <= |s| ensures Depth(s[..k]) >= 0 {
        if k < |s| {
          assert s[..k] == front[..k];
        } else {
          assert s[..k] == s;
        }
      }
    }
  }

  lemma WrappedBalanced(body: string)
    requires Balanced(body)
    ensures Balanced("{" + body + "}")
  {
    var s := "{" + body + "}";
    assert "{" + body + "}" + "" == s;
    WrappedDepth(body, "", |body|);
    assert body[..|body|] == body;
    DepthSnoc(s, |body| + 1);
    assert s[..|body| + 2] == s;
    forall k | 0 <= k <= |s| ensures Depth(s[..k]) >= 0 {
      if 0 < k <= |body| + 1 {
        WrappedDepth(body, "", k - 1);
      }
    }
  }

  lemma {:induction false} PrintedBodyBalanced(b: Body)
    requires NoBracesInText(b)
    ensures Balanced(PrintBody(b))
  {
    match b {
      case End =>
      case Then(first, rest) =>
        PrintedBodyBalanced(rest);
        match first {
          case Text(text) => PlainTextBalanced(text);
          case Nested(body) =>
            PrintedBodyBalanced(body);
            WrappedBalanced(PrintBody(body));
        }
        BalancedConcat(PrintPiece(first), PrintBody(rest));
    }
  }

  /** Print then extract: any nested object without braces in its text, followed by any text, comes back exactly. */
  lemma PrintExtractRoundTrip(b: Body, tail: string)
    requires NoBracesInText(b)
    ensures Scan(PrintPiece(Nested(b)) + tail) == Some(|PrintPiece(Nested(b))|)
    ensures (PrintPiece(Nested(b)) + tail)[..|PrintPiece(Nested(b))|] == PrintPiece(Nested(b))
  {
    PrintedBodyBalanced(b);
    ExtractsWholeObjectExactly(PrintBody(b), tail);
  }

  /** A closing brace inside a text ends the scan there, when only text without braces stands before it. */
  lemma TextBraceEndsScan(before: string, tail: string)
    requires '{' !in before && '}' !in before
    ensures Scan("{" + before + "}" + tail) == Some(|before| + 2)
  {
    PlainTextBalanced(before);
    ExtractsWholeObjectExactly(before, tail);
  }

  /** A product whose name holds a quoted closing brace is cut off inside the name. */
  lemma QuotedBraceCutsShort()
    ensures var cut, lost := "{\"brand\":\"CITIZEN\",\"name\":\"a}", "b\"}";
            Scan(cut + lost) == Some(|cut|)
  {
    var before := "\"brand\":\"CITIZEN\",\"name\":\"a";
    TextBraceEndsScan(before, "b\"}");
    assert "{" + before + "}" == "{\"brand\":\"CITIZEN\",\"name\":\"a}";
  }
}

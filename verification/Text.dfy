/** The Python string operations the identity rules use, over ASCII letters, digits and white space. */
module Text {

  predicate IsUpper(c: char) { 'A' <= c <= 'Z' }

  predicate IsLower(c: char) { 'a' <= c <= 'z' }

  predicate IsDigit(c: char) { '0' <= c <= '9' }

  predicate IsAlnum(c: char) { IsUpper(c) || IsLower(c) || IsDigit(c) }

  predicate IsSpace(c: char) { '\t' <= c <= '\r' || '\U{1c}' <= c <= ' ' }

  function LowerChar(c: char): char {
    if IsUpper(c) then (c as int + 32) as char else c
  }

  function UpperChar(c: char): char {
    if IsLower(c) then (c as int - 32) as char else c
  }

  function Lower(s: string): string {
    seq(|s|, i requires 0 <= i < |s| => LowerChar(s[i]))
  }

  function Upper(s: string): string {
    seq(|s|, i requires 0 <= i < |s| => UpperChar(s[i]))
  }

  function StripLeft(s: string): string {
    if |s| > 0 && IsSpace(s[0]) then StripLeft(s[1..]) else s
  }

  function StripRight(s: string): string {
    if |s| > 0 && IsSpace(s[|s| - 1]) then StripRight(s[..|s| - 1]) else s
  }

  function Strip(s: string): string {
    StripRight(StripLeft(s))
  }

  /** Stripped text carries no white space at either end, and is text of the original. */
  ghost predicate Trimmed(s: string) {
    |s| > 0 ==> !IsSpace(s[0]) && !IsSpace(s[|s| - 1])
  }

  lemma {:induction false} StripRightTrims(s: string)
    ensures |StripRight(s)| <= |s| && StripRight(s) == s[..|StripRight(s)|]
    ensures |StripRight(s)| > 0 ==> !IsSpace(StripRight(s)[|StripRight(s)| - 1])
  {
    if |s| == 0 || !IsSpace(s[|s| - 1]) {
    } else {
      StripRightTrims(s[..|s| - 1]);
    }
  }

  lemma {:induction false} StripLeftTrims(s: string)
    ensures |StripLeft(s)| > 0 ==> !IsSpace(StripLeft(s)[0])
  {
    if |s| == 0 || !IsSpace(s[0]) {
    } else {
      StripLeftTrims(s[1..]);
    }
  }

  lemma StripTrims(s: string)
    ensures Trimmed(Strip(s))
  {
    StripLeftTrims(s);
    StripRightTrims(StripLeft(s));
  }

  lemma StripFixed(s: string)
    requires Trimmed(s)
    ensures Strip(s) == s
  {
  }

  /** White space wrapped around a text is invisible to `Strip`. */
  lemma {:induction false} StripPadding(left: string, s: string, right: string)
    requires forall c :: c in left || c in right ==> IsSpace(c)
    ensures Strip(left + s + right) == Strip(s)
    decreases |left| + |right|
  {
    if |left| > 0 {
      assert left[0] in left;
      assert (left + s + right)[1..] == left[1..] + s + right;
      StripPadding(left[1..], s, right);
    } else if |right| > 0 {
      assert left + s + right == s + right;
      var init, last := right[..|right| - 1], right[|right| - 1];
      assert last in right;
      assert s + right == (s + init) + [last];
      StripSpaceAtEnd(s + init, last);
      assert left + s + init == s + init;
      StripPadding(left, s, init);
    } else {
      assert left + s + right == s;
    }
  }

  lemma {:induction false} StripSpaceAtEnd(s: string, c: char)
    requires IsSpace(c)
    ensures Strip(s + [c]) == Strip(s)
  {
    if |s| == 0 {
      assert s + [c] == [c] && [c][1..] == "";
    } else if IsSpace(s[0]) {
      assert (s + [c])[1..] == s[1..] + [c];
      StripSpaceAtEnd(s[1..], c);
    } else {
      assert (s + [c])[..|s|] == s;
    }
  }

  lemma LowerConcat(s: string, t: string)
    ensures Lower(s + t) == Lower(s) + Lower(t)
  {
  }

  /** A text splits at its first colon in one way only. */
  lemma SplitAtFirstColon(m1: string, t1: string, m2: string, t2: string)
    requires ':' !in m1 && ':' !in m2
    ensures m1 + ":" + t1 == m2 + ":" + t2 <==> m1 == m2 && t1 == t2
  {
    if m1 + ":" + t1 == m2 + ":" + t2 {
      var whole := m1 + ":" + t1;
      assert whole[|m1|] == ':' && forall i :: 0 <= i < |m1| ==> whole[i] == m1[i];
      assert whole == m2 + ":" + t2;
      assert whole[|m2|] == ':' && forall i :: 0 <= i < |m2| ==> whole[i] == m2[i];
      assert |m1| == |m2|;
      assert whole[..|m1|] == m1 && whole[..|m1|] == m2;
      assert whole[|m1| + 1..] == t1 && whole[|m1| + 1..] == t2;
    }
  }

  /** Two ways to split one text at a colon: the same colon, or one of two different ones. */
  ghost predicate SplitsAgree(m1: string, t1: string, m2: string, t2: string) {
    || (m1 == m2 && t1 == t2)
    || (exists x :: SplitsLater(m1, t1, m2, t2, x))
    || (exists x :: SplitsLater(m2, t2, m1, t1, x))
  }

  /** The first split is at a later colon, with `x` between the two. */
  predicate SplitsLater(m1: string, t1: string, m2: string, t2: string, x: string) {
    m1 == m2 + ":" + x && t2 == x + ":" + t1
  }

  lemma SplitAtSomeColon(m1: string, t1: string, m2: string, t2: string)
    ensures m1 + ":" + t1 == m2 + ":" + t2 <==> SplitsAgree(m1, t1, m2, t2)
  {
    if m1 + ":" + t1 == m2 + ":" + t2 {
      if |m1| == |m2| {
        SplitAtOneColon(m1, t1, m2, t2);
      } else if |m1| > |m2| {
        var x := LaterSplit(m1, t1, m2, t2);
      } else {
        var x := LaterSplit(m2, t2, m1, t1);
      }
    }
    forall x | SplitsLater(m1, t1, m2, t2, x) ensures m1 + ":" + t1 == m2 + ":" + t2 {
      assert m1 + ":" + t1 == m2 + ":" + (x + ":" + t1);
    }
    forall x | SplitsLater(m2, t2, m1, t1, x) ensures m1 + ":" + t1 == m2 + ":" + t2 {
      assert m2 + ":" + t2 == m1 + ":" + (x + ":" + t2);
    }
  }

  lemma SplitAtOneColon(m1: string, t1: string, m2: string, t2: string)
    requires m1 + ":" + t1 == m2 + ":" + t2 && |m1| == |m2|
    ensures m1 == m2 && t1 == t2
  {
    var whole := m1 + ":" + t1;
    assert whole[..|m1|] == m1 && (m2 + ":" + t2)[..|m1|] == m2;
    assert whole[|m1| + 1..] == t1 && (m2 + ":" + t2)[|m1| + 1..] == t2;
  }

  lemma LaterSplit(m1: string, t1: string, m2: string, t2: string) returns (x: string)
    requires m1 + ":" + t1 == m2 + ":" + t2 && |m1| > |m2|
    ensures SplitsLater(m1, t1, m2, t2, x)
  {
    x := m1[|m2| + 1..];
    var whole := m1 + ":" + t1;
    assert whole[..|m1|] == m1 && whole[..|m2|] == (m2 + ":" + t2)[..|m2|] == m2;
    assert m1[|m2|] == whole[|m2|] == (m2 + ":" + t2)[|m2|] == ':';
    assert m1 == m1[..|m2|] + [m1[|m2|]] + x && m1[..|m2|] == m2;
    assert whole == m2 + ":" + (x + ":" + t1);
    SplitAtOneColon(m2, x + ":" + t1, m2, t2);
  }

  /** A text splits at its last colon in one way only. */
  lemma SplitAtLastColon(m1: string, t1: string, m2: string, t2: string)
    requires ':' !in t1 && ':' !in t2
    ensures m1 + ":" + t1 == m2 + ":" + t2 <==> m1 == m2 && t1 == t2
  {
    if m1 + ":" + t1 == m2 + ":" + t2 {
      var whole := m1 + ":" + t1;
      assert whole[|m1|] == ':' && forall i :: |m1| < i < |whole| ==> whole[i] == t1[i - |m1| - 1];
      assert whole == m2 + ":" + t2;
      assert whole[|m2|] == ':' && forall i :: |m2| < i < |whole| ==> whole[i] == t2[i - |m2| - 1];
      assert |m1| == |m2|;
      assert whole[..|m1|] == m1 && whole[..|m1|] == m2;
      assert whole[|m1| + 1..] == t1 && whole[|m1| + 1..] == t2;
    }
  }

  function DigitChar(d: nat): char
    requires d < 10
  {
    ('0' as int + d) as char
  }

  /** The decimal numeral of a row id. */
  function Decimal(n: nat): string {
    if n < 10 then [DigitChar(n)] else Decimal(n / 10) + [DigitChar(n % 10)]
  }

  function NumeralValue(s: string): int {
    if |s| == 0 then 0 else 10 * NumeralValue(s[..|s| - 1]) + (s[|s| - 1] as int - '0' as int)
  }

  lemma {:induction false} DecimalRoundTrip(n: nat)
    ensures NumeralValue(Decimal(n)) == n
  {
    if n < 10 {
      assert Decimal(n)[..0] == "";
    } else {
      DecimalRoundTrip(n / 10);
      assert Decimal(n)[..|Decimal(n)| - 1] == Decimal(n / 10);
    }
  }

  lemma DecimalInjective(m: nat, n: nat)
    ensures Decimal(m) == Decimal(n) <==> m == n
  {
    DecimalRoundTrip(m);
    DecimalRoundTrip(n);
  }
}

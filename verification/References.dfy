/** Canonical references: the Casio suffix allowlist and the pass-throughs of the other brands. */
module References {
  import opened Common
  import opened Text

  /** The Japan-market allowlist lists "J" followed by each of the twenty-six letters. */
  predicate IsJdmSuffix(suffix: string) {
    |suffix| == 2 && suffix[0] == 'J' && IsUpper(suffix[1])
  }

  predicate EndsWithHyphen(s: string) {
    |s| > 0 && s[|s| - 1] == '-'
  }

  /** The canonical part of the Casio normaliser; an empty reference is an error. */
  function NormalizeCasio(reference: string): Result<string> {
    var raw := Strip(reference);
    if raw == "" then Err("reference_raw must not be empty")
    else if |raw| >= 3 && IsJdmSuffix(Upper(raw)[|raw| - 2..]) then
      var candidate := raw[..|raw| - 2];
      if candidate != "" && !EndsWithHyphen(candidate) then Ok(candidate) else Ok(raw)
    else Ok(raw)
  }

  /** Citizen, Seiko and Timex: the canonical reference is the stripped one. */
  function NormalizePassThrough(reference: string): Result<string> {
    var raw := Strip(reference);
    if raw == "" then Err("reference_raw must not be empty") else Ok(raw)
  }

  /** The Casio normaliser removes nothing, or exactly one allowlisted two-letter suffix; a removal leaves
      neither an empty nor a hyphen-terminated reference, and a hyphen at the end is always the source's own. */
  lemma CasioRemovesAtMostOneSuffix(reference: string)
    ensures NormalizeCasio(reference).Ok? <==> Strip(reference) != ""
    ensures Strip(reference) != "" ==>
              var raw, canonical := Strip(reference), NormalizeCasio(reference).value;
              && canonical != ""
              && (canonical == raw
                  || (raw == canonical + raw[|canonical|..] && IsJdmSuffix(Upper(raw[|canonical|..]))))
              && (EndsWithHyphen(canonical) <==> canonical == raw && EndsWithHyphen(raw))
  {
    var raw := Strip(reference);
    if |raw| >= 3 {
      assert Upper(raw)[|raw| - 2..] == Upper(raw[|raw| - 2..]);
    }
  }

  /** Whether a further application would strip again. */
  predicate HasRemovableSuffix(s: string) {
    && |s| >= 3
    && IsJdmSuffix(Upper(s[|s| - 2..]))
    && !EndsWithHyphen(s[..|s| - 2])
  }

  lemma NormalizeTrimmed(s: string)
    requires Trimmed(s) && s != ""
    ensures NormalizeCasio(s) == Ok(if HasRemovableSuffix(s) then s[..|s| - 2] else s)
  {
    StripFixed(s);
    if |s| >= 3 {
      assert Upper(s)[|s| - 2..] == Upper(s[|s| - 2..]);
    }
  }

  /** Normalising twice equals normalising once exactly when no second suffix, and no white space, hides
      behind the suffix that the first pass removes. */
  lemma CasioIdempotentExactly(reference: string)
    requires Strip(reference) != ""
    ensures var s := Strip(reference);
            var base := s[..Max(|s| - 2, 0)];
            (NormalizeCasio(NormalizeCasio(reference).value) == NormalizeCasio(reference)
             <==> !(HasRemovableSuffix(s) && (!Trimmed(base) || HasRemovableSuffix(base))))
  {
    var s := Strip(reference);
    StripTrims(reference);
    StripFixed(s);
    NormalizeTrimmed(s);
    assert NormalizeCasio(reference) == NormalizeCasio(s);
    if HasRemovableSuffix(s) {
      var base := s[..|s| - 2];
      assert base[0] == s[0];
      var again := Strip(base);
      StripTrims(base);
      StripRightTrims(base);
      assert again == StripRight(base) && again != "" by {
        StripKeepsFirst(base);
      }
      StripFixed(again);
      NormalizeTrimmed(again);
      assert NormalizeCasio(base) == NormalizeCasio(again);
      if Trimmed(base) {
        StripFixed(base);
      } else {
        assert |again| < |base|;
      }
    }
  }

  lemma {:induction false} StripKeepsFirst(s: string)
    requires |s| > 0 && !IsSpace(s[0])
    ensures StripLeft(s) == s && |StripRight(s)| > 0
  {
    if |s| == 1 {
    } else {
      assert s[..|s| - 1][0] == s[0];
      StripKeepsFirst(s[..|s| - 1]);
    }
  }

  /** A doubled suffix is stripped again by a second application. */
  lemma CasioNotIdempotent()
    ensures NormalizeCasio("GA-2100JFJR") == Ok("GA-2100JF")
    ensures NormalizeCasio("GA-2100JF") == Ok("GA-2100")
  {
    var s, t := "GA-2100JFJR", "GA-2100JF";
    StripFixed(s);
    StripFixed(t);
    assert Upper(s)[|s| - 2..] == "JR" && s[..|s| - 2] == t;
    assert Upper(t)[|t| - 2..] == "JF" && t[..|t| - 2] == "GA-2100";
  }
}

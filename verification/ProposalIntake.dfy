/** The validation pass over one export file: which lines are proposals, and what they add up to. */
module ProposalIntake {
  import opened Common
  import opened Proposals
  import opened ProposalHistory

  const RECORD_LIMIT: nat := 10000
  const BYTE_BUDGET: nat := 128 * 1024 * 1024

  /** What opening an evidence file gave, with the digest that the proposal claims for it. */
  datatype Reading = Missing | Refused(problem: string) | Loaded(data: Bytes, claimed: Digest)

  /** One line of an export. The checks that look at this line alone are given by their outcomes, in the order in
      which they run: before the lead id is looked up, after it, and after the evidence is read. */
  datatype Line =
    | Blank
    | Record(first: Option<string>, lead: string, second: Option<string>, text: Reading, capture: Reading,
             third: Option<string>, exclusion: Option<string>, payload: string)

  /** `excluded` counts by reason. */
  datatype Prepared = Prepared(items: seq<Item>, leads: set<string>, excluded: multiset<string>, bytes: nat)

  const NOTHING := Prepared([], {}, multiset{}, 0)

  function Charge(bytes: nat, reading: Reading): (r: Result<nat>) {
    match reading
    case Missing => Ok(bytes)
    case Refused(problem) => Err(problem)
    case Loaded(data, claimed) =>
      if bytes + |data| > BYTE_BUDGET then Err("Export evidence byte budget exceeded")
      else if Digest(data) != claimed then Err("Evidence SHA256 mismatch")
      else Ok(bytes + |data|)
  }

  function Owned(reading: Reading): Option<Bytes> {
    if reading.Loaded? then Some(reading.data) else None
  }

  function ItemOf(line: Line): Item
    requires line.Record?
  {
    Item(line.lead, line.payload, Owned(line.text), Owned(line.capture))
  }

  function PrepareLine(p: Prepared, line: Line): Result<Prepared> {
    if line.Blank? then Ok(p)
    else if line.first.Some? then Err(line.first.value)
    else if line.lead in p.leads then Err("Duplicate lead ID")
    else if line.second.Some? then Err(line.second.value)
    else match Charge(p.bytes, line.text) {
      case Err(problem) => Err(problem)
      case Ok(half) =>
        match Charge(half, line.capture)
        case Err(problem) => Err(problem)
        case Ok(bytes) =>
          if line.third.Some? then Err(line.third.value)
          else if line.exclusion.Some?
          then Ok(Prepared(p.items, p.leads + {line.lead}, p.excluded + multiset{line.exclusion.value}, bytes))
          else Ok(Prepared(p.items + [ItemOf(line)], p.leads + {line.lead}, p.excluded, bytes))
    }
  }

  /** All lines in order; the first problem ends it. */
  function PrepareAll(lines: seq<Line>): Result<Prepared> {
    if |lines| == 0 then Ok(NOTHING)
    else match PrepareAll(lines[..|lines| - 1]) {
      case Err(problem) => Err(problem)
      case Ok(p) => PrepareLine(p, lines[|lines| - 1])
    }
  }

  lemma {:induction false} ProblemsStay(lines: seq<Line>, n: nat)
    requires n <= |lines| && PrepareAll(lines[..n]).Err?
    ensures PrepareAll(lines) == PrepareAll(lines[..n])
    decreases |lines|
  {
    if n == |lines| {
      assert lines[..n] == lines;
    } else {
      var front := lines[..|lines| - 1];
      assert front[..n] == lines[..n];
      ProblemsStay(front, n);
    }
  }

  /** The loop over the lines of the file. */
  method Prepare(lines: seq<Line>) returns (r: Result<Prepared>)
    ensures r == if |lines| > 10000 then Err("Record limit exceeded") else PrepareAll(lines)
  {
    if |lines| > RECORD_LIMIT {
      return Err("Record limit exceeded");
    }
    var items: seq<Item>, seen: set<string>, excluded: multiset<string>, bytes: nat := [], {}, multiset{}, 0;
    for n := 0 to |lines|
      invariant PrepareAll(lines[..n]) == Ok(Prepared(items, seen, excluded, bytes))
    {
      var line := lines[n];
      ghost var before := Prepared(items, seen, excluded, bytes);
      assert lines[..n + 1][..n] == lines[..n];
      assert PrepareAll(lines[..n + 1]) == PrepareLine(before, line);
      if line.Blank? {
        continue;
      }
      if PrepareLine(before, line).Err? {
        ProblemsStay(lines, n + 1);
      }
      if line.first.Some? {
        return Err(line.first.value);
      }
      if line.lead in seen {
        return Err("Duplicate lead ID");
      }
      seen := seen + {line.lead};
      if line.second.Some? {
        return Err(line.second.value);
      }
      var charged := Charge(bytes, line.text);
      if charged.Err? {
        return Err(charged.error);
      }
      charged := Charge(charged.value, line.capture);
      if charged.Err? {
        return Err(charged.error);
      }
      bytes := charged.value;
      if line.third.Some? {
        return Err(line.third.value);
      }
      if line.exclusion.Some? {
        excluded := excluded + multiset{line.exclusion.value};
      } else {
        items := items + [ItemOf(line)];
      }
    }
    assert lines[..|lines|] == lines;
    r := Ok(Prepared(items, seen, excluded, bytes));
  }

  /* ---- What the accepted lines become ---- */

  /** The line is a proposal and not excluded. */
  predicate Admits(line: Line) {
    line.Record? && line.exclusion.None?
  }

  /** The item is this line's: lead, payload, and the bytes, with the claimed digest, of each file that was there. */
  ghost predicate Becomes(line: Line, item: Item) {
    && line.Record? && item.lead == line.lead && item.payload == line.payload
    && OwnsFile(line.text, item.text) && OwnsFile(line.capture, item.capture)
  }

  ghost predicate OwnsFile(reading: Reading, data: Option<Bytes>) {
    match reading
    case Missing => data.None?
    case Refused(_) => false
    case Loaded(bytes, claimed) => data == Some(bytes) && Digest(bytes) == claimed
  }

  lemma LineBecomes(p: Prepared, line: Line)
    requires PrepareLine(p, line).Ok?
    ensures var after := PrepareLine(p, line).value;
            && (!Admits(line) ==> after.items == p.items)
            && (Admits(line) ==> |after.items| == |p.items| + 1 && after.items[..|p.items|] == p.items
                                 && Becomes(line, after.items[|p.items|]))
  {
  }

  /** An accepted export's items are its admitted lines, one for one and in their order. */
  lemma {:induction false} ItemsAreLines(lines: seq<Line>)
    requires PrepareAll(lines).Ok?
    ensures var items, admitted := PrepareAll(lines).value.items, Filter(Admits, lines);
            |items| == |admitted| && forall i :: 0 <= i < |items| ==> Becomes(admitted[i], items[i])
  {
    hide PrepareLine, Becomes;
    if |lines| == 0 {
    } else {
      var front, last := lines[..|lines| - 1], lines[|lines| - 1];
      ItemsAreLines(front);
      LineBecomes(PrepareAll(front).value, last);
      var items, before := PrepareAll(lines).value.items, PrepareAll(front).value.items;
      assert Filter(Admits, lines) == Filter(Admits, front) + (if Admits(last) then [last] else []);
      forall i | 0 <= i < |items| ensures Becomes(Filter(Admits, lines)[i], items[i]) {
        if i < |before| {
          assert items[i] == items[..|before|][i];
        }
      }
    }
  }

  /* ---- What the pass amounts to, independently of the order of the lines ---- */

  /** What a set of lines adds up to, with repetitions. */
  datatype Sum = Sum(fine: bool, leads: multiset<string>, items: multiset<Item>, excluded: multiset<string>, bytes: nat)

  const ZERO := Sum(true, multiset{}, multiset{}, multiset{}, 0)

  predicate Genuine(reading: Reading) {
    match reading
    case Missing => true
    case Refused(_) => false
    case Loaded(data, claimed) => Digest(data) == claimed
  }

  function Size(reading: Reading): nat {
    if reading.Loaded? then |reading.data| else 0
  }

  function SumOf(line: Line): Sum {
    if line.Blank? then ZERO
    else
      Sum(line.first.None? && line.second.None? && line.third.None? && Genuine(line.text) && Genuine(line.capture),
          multiset{line.lead},
          if line.exclusion.None? then multiset{ItemOf(line)} else multiset{},
          if line.exclusion.Some? then multiset{line.exclusion.value} else multiset{},
          Size(line.text) + Size(line.capture))
  }

  function Plus(a: Sum, b: Sum): Sum {
    Sum(a.fine && b.fine, a.leads + b.leads, a.items + b.items, a.excluded + b.excluded, a.bytes + b.bytes)
  }

  function SumAll(lines: seq<Line>): Sum {
    if |lines| == 0 then ZERO else Plus(SumAll(lines[..|lines| - 1]), SumOf(lines[|lines| - 1]))
  }

  ghost predicate NoneTwice(leads: multiset<string>) {
    forall lead :: leads[lead] <= 1
  }

  /** No line has a problem of its own, no lead occurs twice, and the evidence fits the budget. */
  ghost predicate Acceptable(sum: Sum) {
    sum.fine && NoneTwice(sum.leads) && sum.bytes <= BYTE_BUDGET
  }

  /** What one prepared export holds of its sum. */
  ghost predicate Matches(p: Prepared, sum: Sum) {
    && multiset(p.leads) == sum.leads
    && multiset(p.items) == sum.items
    && p.excluded == sum.excluded
    && p.bytes == sum.bytes
    && |p.leads| == |p.items| + |p.excluded|
    && DistinctLeads(p.items)
    && (forall i :: 0 <= i < |p.items| ==> p.items[i].lead in p.leads)
  }

  lemma OneMoreLead(leads: set<string>, counted: multiset<string>, lead: string)
    requires multiset(leads) == counted
    ensures NoneTwice(counted + multiset{lead}) <==> lead !in leads
    ensures lead !in leads ==>
              multiset(leads + {lead}) == counted + multiset{lead} && |leads + {lead}| == |leads| + 1
  {
    if lead in leads {
      assert (counted + multiset{lead})[lead] == 2;
    }
  }

  lemma ChargeExactly(bytes: nat, reading: Reading)
    requires bytes <= BYTE_BUDGET
    ensures Charge(bytes, reading).Ok? <==> Genuine(reading) && bytes + Size(reading) <= BYTE_BUDGET
    ensures Charge(bytes, reading).Ok? ==> Charge(bytes, reading).value == bytes + Size(reading)
  {
  }

  /* ---- Which problem is reported ---- */

  /** What is checked of one file, in order: it could be read, the budget holds, and it is the one claimed. */
  function FileChecks(bytes: nat, reading: Reading): seq<Option<string>> {
    [ if reading.Refused? then Some(reading.problem) else None,
      if bytes + Size(reading) > 134217728 then Some("Export evidence byte budget exceeded") else None,
      if reading.Loaded? && Digest(reading.data) != reading.claimed then Some("Evidence SHA256 mismatch") else None ]
  }

  /** Everything that is checked of a line, in order, each with the problem that it would report. */
  function Checks(leads: set<string>, bytes: nat, line: Line): seq<Option<string>>
    requires line.Record?
  {
    [line.first, if line.lead in leads then Some("Duplicate lead ID") else None, line.second]
    + FileChecks(bytes, line.text) + FileChecks(bytes + Size(line.text), line.capture) + [line.third]
  }

  /** The first check that fails. */
  function Failure(checks: seq<Option<string>>): Option<string> {
    if |checks| == 0 then None else if checks[0].Some? then checks[0] else Failure(checks[1..])
  }

  lemma {:induction false} FailureConcat(a: seq<Option<string>>, b: seq<Option<string>>)
    ensures Failure(a + b) == if Failure(a).Some? then Failure(a) else Failure(b)
  {
    if |a| == 0 {
      assert a + b == b;
    } else {
      assert (a + b)[1..] == a[1..] + b;
      FailureConcat(a[1..], b);
    }
  }

  lemma FailureOfThree(x: Option<string>, y: Option<string>, z: Option<string>)
    ensures Failure([x, y, z]) == if x.Some? then x else if y.Some? then y else z
    ensures Failure([z]) == z
  {
    assert [z][1..] == [] && Failure([z]) == z;
    assert [y, z][1..] == [z] && Failure([y, z]) == if y.Some? then y else z;
    assert [x, y, z][1..] == [y, z];
  }

  lemma FileFailure(bytes: nat, reading: Reading)
    requires bytes <= BYTE_BUDGET
    ensures Failure(FileChecks(bytes, reading))
         == if Charge(bytes, reading).Err? then Some(Charge(bytes, reading).error) else None
  {
    var checks := FileChecks(bytes, reading);
    FailureOfThree(checks[0], checks[1], checks[2]);
    assert checks == [checks[0], checks[1], checks[2]];
  }

  lemma LineProblem(p: Prepared, line: Line)
    requires p.bytes <= BYTE_BUDGET && line.Record?
    ensures Failure(Checks(p.leads, p.bytes, line))
         == if PrepareLine(p, line).Err? then Some(PrepareLine(p, line).error) else None
  {
    var duplicate := if line.lead in p.leads then Some("Duplicate lead ID") else None;
    var head := [line.first, duplicate, line.second];
    var half := p.bytes + Size(line.text);
    FailureOfThree(line.first, duplicate, line.second);
    FailureOfThree(None, None, line.third);
    FileFailure(p.bytes, line.text);
    ChargeExactly(p.bytes, line.text);
    if Charge(p.bytes, line.text).Ok? {
      FileFailure(half, line.capture);
    }
    var text, capture := FileChecks(p.bytes, line.text), FileChecks(half, line.capture);
    hide Failure, FileChecks, Charge, Genuine;
    FailureConcat(head, text);
    FailureConcat(head + text, capture);
    FailureConcat(head + text + capture, [line.third]);
    assert Checks(p.leads, p.bytes, line) == head + text + capture + [line.third];
    if line.first.None? && duplicate.None? && line.second.None? {
      assert Failure(head) == None;
      assert Failure(head + text) == Failure(text);
      if Charge(p.bytes, line.text).Ok? {
        assert Failure(head + text + capture) == Failure(capture);
      }
    }
  }

  lemma BlankIsFine(p: Prepared, line: Line)
    requires PrepareLine(p, line).Err?
    ensures line.Record?
  {
  }

  /** A refused export reports the first check that fails, of the first line that fails one. */
  lemma {:induction false} FirstProblemDecides(lines: seq<Line>) returns (n: nat)
    requires PrepareAll(lines).Err?
    ensures n < |lines| && PrepareAll(lines[..n]).Ok? && lines[n].Record?
    ensures var p := PrepareAll(lines[..n]).value;
            Failure(Checks(p.leads, p.bytes, lines[n])) == Some(PrepareAll(lines).error)
  {
    hide PrepareLine, Checks, Failure;
    var front := lines[..|lines| - 1];
    if PrepareAll(front).Ok? {
      n := |front|;
      PrepareExactly(front);
      BlankIsFine(PrepareAll(front).value, lines[n]);
      LineProblem(PrepareAll(front).value, lines[n]);
    } else {
      n := FirstProblemDecides(front);
      assert front[..n] == lines[..n];
    }
  }

  lemma LineAccepted(p: Prepared, sum: Sum, line: Line)
    requires multiset(p.leads) == sum.leads && p.bytes == sum.bytes && Acceptable(sum)
    ensures PrepareLine(p, line).Ok? <==> Acceptable(Plus(sum, SumOf(line)))
    ensures PrepareLine(p, line).Ok? && line.Record? ==>
              line.lead !in p.leads && PrepareLine(p, line).value.bytes == sum.bytes + SumOf(line).bytes
  {
    hide Charge, Genuine, Size, NoneTwice;
    if line.Record? {
      OneMoreLead(p.leads, sum.leads, line.lead);
      ChargeExactly(p.bytes, line.text);
      if Charge(p.bytes, line.text).Ok? {
        ChargeExactly(Charge(p.bytes, line.text).value, line.capture);
      }
    } else {
      PlusLaws(sum, ZERO, ZERO);
    }
  }

  lemma LineMatches(p: Prepared, sum: Sum, line: Line)
    requires Matches(p, sum) && Acceptable(sum) && PrepareLine(p, line).Ok?
    ensures Matches(PrepareLine(p, line).value, Plus(sum, SumOf(line)))
  {
    LineAccepted(p, sum, line);
    if line.Record? {
      OneMoreLead(p.leads, sum.leads, line.lead);
      var after := PrepareLine(p, line).value;
      assert line.exclusion.None? ==> after.items == p.items + [ItemOf(line)];
      assert line.exclusion.Some? ==> after.items == p.items;
    } else {
      PlusLaws(sum, ZERO, ZERO);
    }
  }

  /** The pass succeeds exactly when the sum of the lines is acceptable, and then holds exactly what was summed.
      In particular parsed lines are the accepted and the excluded ones together. */
  lemma {:induction false} PrepareExactly(lines: seq<Line>)
    ensures PrepareAll(lines).Ok? <==> Acceptable(SumAll(lines))
    ensures PrepareAll(lines).Ok? ==> Matches(PrepareAll(lines).value, SumAll(lines))
  {
    if |lines| == 0 {
      assert forall lead: string :: ZERO.leads[lead] == 0;
    } else {
      var front, line := lines[..|lines| - 1], lines[|lines| - 1];
      PrepareExactly(front);
      if PrepareAll(front).Ok? {
        LineAccepted(PrepareAll(front).value, SumAll(front), line);
        if PrepareAll(lines).Ok? {
          LineMatches(PrepareAll(front).value, SumAll(front), line);
        }
      } else {
        UnacceptableStays(SumAll(front), SumOf(line));
      }
    }
  }

  lemma UnacceptableStays(sum: Sum, more: Sum)
    requires !Acceptable(sum)
    ensures !Acceptable(Plus(sum, more))
  {
    if !NoneTwice(sum.leads) {
      var lead :| sum.leads[lead] > 1;
      assert Plus(sum, more).leads[lead] >= sum.leads[lead];
    }
  }

  lemma PlusLaws(a: Sum, b: Sum, c: Sum)
    ensures Plus(Plus(a, b), c) == Plus(Plus(a, c), b) == Plus(a, Plus(b, c))
    ensures Plus(a, ZERO) == a
  {
  }

  lemma {:induction false} SumConcat(s: seq<Line>, t: seq<Line>)
    ensures SumAll(s + t) == Plus(SumAll(s), SumAll(t))
  {
    if |t| == 0 {
      assert s + t == s;
      PlusLaws(SumAll(s), ZERO, ZERO);
    } else {
      var front, last := t[..|t| - 1], t[|t| - 1];
      assert (s + t)[..|s + t| - 1] == s + front;
      SumConcat(s, front);
      PlusLaws(SumAll(s), SumAll(front), SumOf(last));
    }
  }

  lemma SumMiddle(a: seq<Line>, x: Line, b: seq<Line>)
    ensures SumAll(a + [x] + b) == Plus(SumAll(a + b), SumOf(x))
  {
    hide SumOf, Plus;
    assert (a + [x])[..|a|] == a;
    SumConcat(a + [x], b);
    SumConcat(a, b);
    PlusLaws(SumAll(a), SumOf(x), SumAll(b));
  }

  lemma SumWithout(s: seq<Line>, i: nat)
    requires i < |s|
    ensures SumAll(s) == Plus(SumAll(s[..i] + s[i + 1..]), SumOf(s[i]))
  {
    hide SumAll, SumOf, Plus;
    var a, b := s[..i], s[i + 1..];
    SumMiddle(a, s[i], b);
    assert a + [s[i]] + b == s;
  }

  lemma {:induction false} SumPermuted(s: seq<Line>, t: seq<Line>)
    requires multiset(s) == multiset(t)
    ensures SumAll(s) == SumAll(t)
  {
    if s == [] {
      assert |t| == |multiset(t)|;
    } else {
      var last := |s| - 1;
      assert s[last] in multiset(t);
      var i: nat :| i < |t| && t[i] == s[last];
      MultisetWithout(s, last);
      MultisetWithout(t, i);
      SumPermuted(s[..last] + s[last + 1..], t[..i] + t[i + 1..]);
      SumWithout(s, last);
      SumWithout(t, i);
    }
  }

  /** Permuting the lines of an export changes neither whether it is accepted nor what it is counted as, and the
      import of either order reports the same counts and gives the same inbox. */
  lemma LinesPermuted(s: seq<Line>, t: seq<Line>, db: Db, clock: string -> int)
    requires multiset(s) == multiset(t) && Sound(db)
    ensures PrepareAll(s).Ok? <==> PrepareAll(t).Ok?
    ensures PrepareAll(s).Ok? ==>
              var p, q := PrepareAll(s).value, PrepareAll(t).value;
              && p.leads == q.leads && p.excluded == q.excluded && |p.items| == |q.items|
              && Tallied(db, p.items, clock) == Tallied(db, q.items, clock)
              && Abstract(ImportAll(db, p.items, clock)) == Abstract(ImportAll(db, q.items, clock))
  {
    SumPermuted(s, t);
    PrepareExactly(s);
    PrepareExactly(t);
    if PrepareAll(s).Ok? {
      var p, q := PrepareAll(s).value, PrepareAll(t).value;
      ImportPermuted(db, p.items, q.items, clock);
      SameLeads(p.leads, q.leads);
      assert |p.items| == |multiset(p.items)| == |multiset(q.items)| == |q.items|;
    }
  }

  lemma SameLeads(a: set<string>, b: set<string>)
    requires multiset(a) == multiset(b)
    ensures a == b
  {
    forall lead ensures lead in a <==> lead in b {
      assert lead in multiset(a) <==> lead in multiset(b);
    }
  }
}

/** The `summary` record of main.go: eight counters that only ever grow,
    `parseTestSummary`, which adds what one summary line reports, and
    `String`, which renders the counters. */
module SuiteSummary {
  import opened Bytes
  import opened Colors
  import opened SuiteInfo
  import opened LineShape

  datatype Counters = Counters(
    scenarios: nat, scenariosPassed: nat, scenariosFailed: nat, scenariosSkipped: nat,
    steps: nat, stepsPassed: nat, stepsFailed: nat, stepsSkipped: nat)

  const Zero: Counters := Counters(0, 0, 0, 0, 0, 0, 0, 0)

  function Add(a: Counters, b: Counters): Counters {
    Counters(
      a.scenarios + b.scenarios, a.scenariosPassed + b.scenariosPassed,
      a.scenariosFailed + b.scenariosFailed, a.scenariosSkipped + b.scenariosSkipped,
      a.steps + b.steps, a.stepsPassed + b.stepsPassed,
      a.stepsFailed + b.stepsFailed, a.stepsSkipped + b.stepsSkipped)
  }

  /** No counter of `b` is below the same counter of `a`. */
  predicate NoLess(a: Counters, b: Counters) {
    && a.scenarios <= b.scenarios && a.scenariosPassed <= b.scenariosPassed
    && a.scenariosFailed <= b.scenariosFailed && a.scenariosSkipped <= b.scenariosSkipped
    && a.steps <= b.steps && a.stepsPassed <= b.stepsPassed
    && a.stepsFailed <= b.stepsFailed && a.stepsSkipped <= b.stepsSkipped
  }

  const ScenarioKw: Bytes := [115, 99, 101, 110, 97, 114, 105, 111]   // "scenario"
  const StepKw: Bytes := [115, 116, 101, 112]   // "step"
  const PassedKw: Bytes := [112, 97, 115, 115, 101, 100]   // "passed"
  const FailedKw: Bytes := [102, 97, 105, 108, 101, 100]   // "failed"
  const SkippedKw: Bytes := [115, 107, 105, 112, 112, 101, 100]   // "skipped"

  /** The nouns of the two rendered lines and the punctuation around the clauses. */
  const ScenariosWord: Bytes := ScenarioKw + [115]   // "scenarios"
  const StepsWord: Bytes := StepKw + [115]           // "steps"
  const Open: Bytes := [32, 40]     // " ("
  const Comma: Bytes := [44, 32]    // ", "
  const Close: Bytes := [41, NL]    // ")\n"

  /** What one summary line adds to the counters (parseTestSummary). */
  function LineDelta(line: Bytes): (d: Counters) {
    var scenario, step := ParseSuiteInfo(ScenarioKw, line), ParseSuiteInfo(StepKw, line);
    var passed := ParseSuiteInfo(PassedKw, line).0;
    var failed := ParseSuiteInfo(FailedKw, line).0;
    var skipped := ParseSuiteInfo(SkippedKw, line).0;
    Counters(
      scenario.0,
      if scenario.1 then passed else 0, if scenario.1 then failed else 0, if scenario.1 then skipped else 0,
      step.0,
      if step.1 then passed else 0, if step.1 then failed else 0, if step.1 then skipped else 0)
  }

  /** The scenario counters move only on a line that matches "scenario", the
      step counters only on one that matches "step", and each sub-counter
      takes its number from the same line, so on a line that matches both
      nouns the two sets of sub-counters agree; a clause the line lacks adds
      nothing. */
  lemma LineDeltaSpec(line: Bytes)
    ensures var d := LineDelta(line);
            && (!HasMatch(line, ScenarioKw) ==>
                  d.scenarios == 0 && d.scenariosPassed == 0 && d.scenariosFailed == 0 && d.scenariosSkipped == 0)
            && (!HasMatch(line, StepKw) ==>
                  d.steps == 0 && d.stepsPassed == 0 && d.stepsFailed == 0 && d.stepsSkipped == 0)
            && (!HasMatch(line, PassedKw) ==> d.scenariosPassed == 0 && d.stepsPassed == 0)
            && (!HasMatch(line, FailedKw) ==> d.scenariosFailed == 0 && d.stepsFailed == 0)
            && (!HasMatch(line, SkippedKw) ==> d.scenariosSkipped == 0 && d.stepsSkipped == 0)
            && (HasMatch(line, ScenarioKw) && HasMatch(line, StepKw) ==>
                  d.scenariosPassed == d.stepsPassed && d.scenariosFailed == d.stepsFailed
                  && d.scenariosSkipped == d.stepsSkipped)
  {
    ParseSuiteInfoSpec(ScenarioKw, line);
    ParseSuiteInfoSpec(StepKw, line);
    ParseSuiteInfoSpec(PassedKw, line);
    ParseSuiteInfoSpec(FailedKw, line);
    ParseSuiteInfoSpec(SkippedKw, line);
  }

  /** A line matching neither "scenario" nor "step" changes nothing. */
  lemma OtherLinesIgnored(line: Bytes)
    requires !HasMatch(line, ScenarioKw) && !HasMatch(line, StepKw)
    ensures LineDelta(line) == Zero
  {
    LineDeltaSpec(line);
  }

  /** What a sequence of summary lines adds, line by line. */
  function Total(lines: seq<Bytes>): Counters {
    if lines == [] then Zero else Add(LineDelta(lines[0]), Total(lines[1..]))
  }

  lemma AddAssoc(x: Counters, y: Counters, z: Counters)
    ensures Add(x, Add(y, z)) == Add(Add(x, y), z)
  {
  }

  lemma AddZero(x: Counters)
    ensures Add(x, Zero) == x
  {
  }

  lemma AddZeroLeft(x: Counters)
    ensures Add(Zero, x) == x
  {
  }

  lemma AddSwap(x: Counters, y: Counters, z: Counters)
    ensures Add(Add(y, x), z) == Add(x, Add(y, z))
  {
  }

  /** The totals of two runs of lines, one after the other, add up. */
  lemma {:induction false} TotalAppend(a: seq<Bytes>, b: seq<Bytes>)
    ensures Total(a + b) == Add(Total(a), Total(b))
  {
    if a == [] {
      assert a + b == b;
      assert Total(a) == Zero;
    } else {
      var ab := a + b;
      assert ab[0] == a[0] && ab[1..] == a[1..] + b;
      TotalAppend(a[1..], b);
      AddAssoc(LineDelta(a[0]), Total(a[1..]), Total(b));
    }
  }

  /** Taking one line out of the middle and counting it first changes nothing. */
  lemma TotalRemove(b: seq<Bytes>, k: nat)
    requires k < |b|
    ensures Total(b) == Add(LineDelta(b[k]), Total(b[..k] + b[k + 1..]))
  {
    TotalAround(b, k);
    TotalAppend(b[..k], b[k + 1..]);
    AddAssoc(Total(b[..k]), LineDelta(b[k]), Total(b[k + 1..]));
    AddSwap(LineDelta(b[k]), Total(b[..k]), Total(b[k + 1..]));
  }

  /** The total of the lines before a line, that line, and the lines after it. */
  lemma TotalAround(b: seq<Bytes>, k: nat)
    requires k < |b|
    ensures Total(b) == Add(Total(b[..k]), Add(LineDelta(b[k]), Total(b[k + 1..])))
  {
    var tail := b[k..];
    assert b == b[..k] + tail;
    TotalAppend(b[..k], tail);
    assert tail[0] == b[k] && tail[1..] == b[k + 1..];
  }

  /** The totals do not depend on the order of the lines. */
  lemma {:induction false} TotalPermutation(a: seq<Bytes>, b: seq<Bytes>)
    requires multiset(a) == multiset(b)
    ensures Total(a) == Total(b)
    decreases |a|
  {
    if a != [] {
      var x := a[0];
      assert x in multiset(b);
      var k :| 0 <= k < |b| && b[k] == x;
      var rest := b[..k] + b[k + 1..];
      assert multiset(a[1..]) == multiset(rest) by {
        assert b == b[..k] + [x] + b[k + 1..];
        assert a == [x] + a[1..];
        assert multiset(b) == multiset(b[..k]) + multiset([x]) + multiset(b[k + 1..]);
        assert multiset(rest) == multiset(b[..k]) + multiset(b[k + 1..]);
        assert multiset(a) == multiset([x]) + multiset(a[1..]);
        assert multiset(a[1..]) == multiset(a) - multiset{x};
        assert multiset(rest) == multiset(b) - multiset{x};
      }
      TotalPermutation(a[1..], rest);
      TotalRemove(b, k);
    }
  }

  /** One summary line: "<total> <noun> (<passed> passed[, <failed> failed][, <skipped> skipped])\n",
      with the passed clause in green, the failed clause in red and the
      skipped clause in cyan; the failed and skipped clauses appear only
      when their number is positive. */
  function SummaryLine(total: nat, noun: Bytes, passed: nat, failed: nat, skipped: nat): Bytes {
    Decimal(total) + [Space] + noun + Open + Green(Decimal(passed) + [Space] + PassedKw)
    + (if failed > 0 then Comma + Red(Decimal(failed) + [Space] + FailedKw) else [])
    + (if skipped > 0 then Comma + Cyan(Decimal(skipped) + [Space] + SkippedKw) else [])
    + Close
  }

  /** `summary.String`: the scenario line, then the step line. Read back
      line by line with the summary parser, it gives the counters again. */
  function Render(c: Counters): (r: Bytes)
    ensures Total(Lines(r)) == c
  {
    RenderRoundTrip(c);
    SummaryLine(c.scenarios, ScenariosWord, c.scenariosPassed, c.scenariosFailed, c.scenariosSkipped)
    + SummaryLine(c.steps, StepsWord, c.stepsPassed, c.stepsFailed, c.stepsSkipped)
  }

  class Summary {
    var scenarios: nat
    var scenariosPassed: nat
    var scenariosFailed: nat
    var scenariosSkipped: nat
    var steps: nat
    var stepsPassed: nat
    var stepsFailed: nat
    var stepsSkipped: nat

    function Counts(): Counters
      reads this
    {
      Counters(scenarios, scenariosPassed, scenariosFailed, scenariosSkipped,
               steps, stepsPassed, stepsFailed, stepsSkipped)
    }

    constructor ()
      ensures Counts() == Zero
    {
      scenarios, scenariosPassed, scenariosFailed, scenariosSkipped := 0, 0, 0, 0;
      steps, stepsPassed, stepsFailed, stepsSkipped := 0, 0, 0, 0;
    }

    /** parseTestSummary: adds what `line` reports; every counter grows by
        a non-negative amount. */
    method ParseTestSummary(line: Bytes)
      modifies this
      ensures Counts() == Add(old(Counts()), LineDelta(line))
      ensures NoLess(old(Counts()), Counts())
    {
      AddScenarioInfo(line);
      AddStepInfo(line);
    }

    /** The first half of parseTestSummary: the scenario counters. */
    method AddScenarioInfo(line: Bytes)
      modifies this
      ensures scenarios == old(scenarios) + LineDelta(line).scenarios
      ensures scenariosPassed == old(scenariosPassed) + LineDelta(line).scenariosPassed
      ensures scenariosFailed == old(scenariosFailed) + LineDelta(line).scenariosFailed
      ensures scenariosSkipped == old(scenariosSkipped) + LineDelta(line).scenariosSkipped
      ensures steps == old(steps) && stepsPassed == old(stepsPassed)
      ensures stepsFailed == old(stepsFailed) && stepsSkipped == old(stepsSkipped)
    {
      var r := ParseSuiteInfo(ScenarioKw, line);
      if r.1 {
        scenarios := scenarios + r.0;
        r := ParseSuiteInfo(PassedKw, line);
        if r.1 {
          scenariosPassed := scenariosPassed + r.0;
        }
        r := ParseSuiteInfo(FailedKw, line);
        if r.1 {
          scenariosFailed := scenariosFailed + r.0;
        }
        r := ParseSuiteInfo(SkippedKw, line);
        if r.1 {
          scenariosSkipped := scenariosSkipped + r.0;
        }
      }
    }

    /** The second half of parseTestSummary: the step counters. */
    method AddStepInfo(line: Bytes)
      modifies this
      ensures steps == old(steps) + LineDelta(line).steps
      ensures stepsPassed == old(stepsPassed) + LineDelta(line).stepsPassed
      ensures stepsFailed == old(stepsFailed) + LineDelta(line).stepsFailed
      ensures stepsSkipped == old(stepsSkipped) + LineDelta(line).stepsSkipped
      ensures scenarios == old(scenarios) && scenariosPassed == old(scenariosPassed)
      ensures scenariosFailed == old(scenariosFailed) && scenariosSkipped == old(scenariosSkipped)
    {
      var r := ParseSuiteInfo(StepKw, line);
      if r.1 {
        steps := steps + r.0;
        r := ParseSuiteInfo(PassedKw, line);
        if r.1 {
          stepsPassed := stepsPassed + r.0;
        }
        r := ParseSuiteInfo(FailedKw, line);
        if r.1 {
          stepsFailed := stepsFailed + r.0;
        }
        r := ParseSuiteInfo(SkippedKw, line);
        if r.1 {
          stepsSkipped := stepsSkipped + r.0;
        }
      }
    }

    /** summary.String: read back line by line with the summary parser, it
        gives this summary's counters again. */
    function String(): (r: Bytes)
      reads this
      ensures Total(Lines(r)) == Counts()
    {
      Render(Counts())
    }
  }

  // ---- The rendered summary read back --------------------------------------

  lemma RenderRoundTrip(c: Counters)
    ensures Total(Lines(
      SummaryLine(c.scenarios, ScenariosWord, c.scenariosPassed, c.scenariosFailed, c.scenariosSkipped)
      + SummaryLine(c.steps, StepsWord, c.stepsPassed, c.stepsFailed, c.stepsSkipped))) == c
  {
    var scenarioLine := SummaryLine(c.scenarios, ScenariosWord, c.scenariosPassed, c.scenariosFailed, c.scenariosSkipped);
    var stepLine := SummaryLine(c.steps, StepsWord, c.stepsPassed, c.stepsFailed, c.stepsSkipped);
    WordsPlain();
    SummaryLineIsLine(c.scenarios, ScenariosWord, c.scenariosPassed, c.scenariosFailed, c.scenariosSkipped);
    SummaryLineIsLine(c.steps, StepsWord, c.stepsPassed, c.stepsFailed, c.stepsSkipped);
    LinesCons(scenarioLine, stepLine);
    LinesCons(stepLine, []);
    assert stepLine + [] == stepLine;
    assert Lines(scenarioLine + stepLine) == [scenarioLine, stepLine];
    TotalPair(scenarioLine, stepLine);
    ScenarioLineRead(c.scenarios, c.scenariosPassed, c.scenariosFailed, c.scenariosSkipped);
    StepLineRead(c.steps, c.stepsPassed, c.stepsFailed, c.stepsSkipped);
  }

  lemma TotalPair(a: Bytes, b: Bytes)
    ensures Total([a, b]) == Add(LineDelta(a), LineDelta(b))
  {
    assert [a, b][1..] == [b];
    assert [b][1..] == [];
    assert Total([b]) == Add(LineDelta(b), Total([]));
    AddZero(LineDelta(b));
    assert Total([a, b]) == Add(LineDelta(a), Total([b]));
  }

  /** The pieces of a summary line: each number with the text up to the next number. */
  function LinePieces(total: nat, noun: Bytes, passed: nat, failed: nat, skipped: nat): seq<Piece> {
    Head(total, noun, passed) + Clause(failed, FailedKw, RedFg) + Clause(skipped, SkippedKw, CyanFg) + [Lit(Close)]
  }

  function Head(total: nat, noun: Bytes, passed: nat): seq<Piece> {
    [Num(total, noun + Open + Prefix(GreenFg)), Num(passed, PassedKw + Reset)]
  }

  /** An optional clause: present only for a positive number. */
  function Clause(n: nat, word: Bytes, c: Color): seq<Piece> {
    if n > 0 then [Lit(Comma + Prefix(c)), Num(n, word + Reset)] else []
  }

  lemma FlattenPair(p: Piece, q: Piece)
    ensures Flatten([p, q]) == Show(p) + Show(q)
  {
    assert [p, q][1..] == [q];
    assert [q][1..] == [];
    assert Flatten([q]) == Show(q) + Flatten([]);
    assert Show(q) + [] == Show(q);
  }

  lemma FlattenHead(total: nat, noun: Bytes, passed: nat)
    ensures Flatten(Head(total, noun, passed))
            == Decimal(total) + [Space] + noun + Open + Green(Decimal(passed) + [Space] + PassedKw)
  {
    var h := Head(total, noun, passed);
    FlattenPair(h[0], h[1]);
  }

  lemma FlattenClause(n: nat, word: Bytes, c: Color)
    ensures Flatten(Clause(n, word, c)) == if n > 0 then Comma + Paint(c, Decimal(n) + [Space] + word) else []
  {
    if n > 0 {
      var cl := Clause(n, word, c);
      FlattenPair(cl[0], cl[1]);
    }
  }

  lemma PiecesFlatten(total: nat, noun: Bytes, passed: nat, failed: nat, skipped: nat)
    ensures Flatten(LinePieces(total, noun, passed, failed, skipped)) == SummaryLine(total, noun, passed, failed, skipped)
  {
    var head, fail, skip, close := Head(total, noun, passed), Clause(failed, FailedKw, RedFg),
      Clause(skipped, SkippedKw, CyanFg), [Lit(Close)];
    FlattenAppend(head + fail + skip, close);
    FlattenAppend(head + fail, skip);
    FlattenAppend(head, fail);
    FlattenHead(total, noun, passed);
    FlattenClause(failed, FailedKw, RedFg);
    FlattenClause(skipped, SkippedKw, CyanFg);
    assert close[1..] == [];
    assert Flatten(close) == Close + Flatten([]);
    assert Close + [] == Close;
  }

  /** The first number of a summary line whose text starts with the keyword. */
  lemma PiecesFirstMatch(total: nat, noun: Bytes, passed: nat, failed: nat, skipped: nat, kw: Bytes)
    ensures FirstMatch(LinePieces(total, noun, passed, failed, skipped), kw) ==
      if StartsWith(noun + Open + Prefix(GreenFg), kw) then (total, true)
      else if StartsWith(PassedKw + Reset, kw) then (passed, true)
      else if failed > 0 && StartsWith(FailedKw + Reset, kw) then (failed, true)
      else if skipped > 0 && StartsWith(SkippedKw + Reset, kw) then (skipped, true)
      else (0, false)
  {
    var head, fail, skip, close := Head(total, noun, passed), Clause(failed, FailedKw, RedFg),
      Clause(skipped, SkippedKw, CyanFg), [Lit(Close)];
    FirstMatchAppend(head + fail + skip, close, kw);
    FirstMatchAppend(head + fail, skip, kw);
    FirstMatchAppend(head, fail, kw);
    FirstMatchPair(head[0], head[1], kw);
    if failed > 0 {
      FirstMatchPair(fail[0], fail[1], kw);
    }
    if skipped > 0 {
      FirstMatchPair(skip[0], skip[1], kw);
    }
    assert close[1..] == [];
  }

  lemma FirstMatchPair(p: Piece, q: Piece, kw: Bytes)
    ensures FirstMatch([p, q], kw) ==
      if p.Num? && StartsWith(p.text, kw) then (p.n, true)
      else if q.Num? && StartsWith(q.text, kw) then (q.n, true)
      else (0, false)
  {
    assert [p, q][1..] == [q];
    assert [q][1..] == [];
    assert FirstMatch([q], kw) == if q.Num? && StartsWith(q.text, kw) then (q.n, true) else FirstMatch([], kw);
  }

  lemma PrefixClean(c: Color)
    ensures Clean(Prefix(c)) && NL !in Prefix(c)
  {
    var p := Prefix(c);
    assert p[3] == Code(c)[1] by {
      assert p[2..4][1] == p[3];
    }
    forall k | 0 <= k < |p| - 1 ensures !(IsDigit(p[k]) && p[k + 1] == Space) {
      if k == 2 {
        assert p[3] != Space;
      }
    }
    assert p[2] == Code(c)[0] by {
      assert p[2..4][0] == p[2];
    }
    forall k | 0 <= k < |p| ensures p[k] != NL {
      if k == 2 {
        assert p[2] != NL;
      } else if k == 3 {
        assert p[3] != NL;
      }
    }
  }

  lemma ResetClean()
    ensures Clean(Reset) && NL !in Reset
  {
    assert Reset[1] as int == '[' as int && Reset[2] as int == '0' as int && Reset[3] as int == 'm' as int;
    forall k | 0 <= k < |Reset| - 1 ensures !(IsDigit(Reset[k]) && Reset[k + 1] == Space) {
      if k == 2 {
        assert Reset[3] != Space;
      }
    }
  }

  /** The literal parts of the summary are free of digits and, but for the
      final newline, of newlines. */
  lemma WordsPlain()
    ensures NoDigits(ScenariosWord) && NoDigits(StepsWord) && NoDigits(PassedKw) && NoDigits(FailedKw)
    ensures NoDigits(SkippedKw) && NoDigits(Open) && NoDigits(Comma) && NoDigits(Close)
    ensures NL !in ScenariosWord && NL !in StepsWord && NL !in PassedKw && NL !in FailedKw
    ensures NL !in SkippedKw && NL !in Open && NL !in Comma && NL !in [41]
  {
    NoDigitsAppend(ScenarioKw, [115]);
    NoDigitsAppend(StepKw, [115]);
  }

  lemma NoDigitsAppend(x: Bytes, y: Bytes)
    requires NoDigits(x) && NoDigits(y)
    ensures NoDigits(x + y)
  {
    var s := x + y;
    forall k | 0 <= k < |s| ensures !IsDigit(s[k]) {
      if k < |x| {
        assert s[k] == x[k];
      } else {
        assert s[k] == y[k - |x|];
      }
    }
  }

  lemma WellFormedAppend(a: seq<Piece>, b: seq<Piece>, kw: Bytes)
    requires WellFormed(a, kw) && WellFormed(b, kw)
    ensures WellFormed(a + b, kw)
  {
    forall k | 0 <= k < |a + b| ensures (a + b)[k] == if k < |a| then a[k] else b[k - |a|] { }
  }

  lemma HeadWellFormed(total: nat, noun: Bytes, passed: nat, kw: Bytes)
    requires NoDigits(noun) && |noun| > 0 && |kw| <= 8
    ensures WellFormed(Head(total, noun, passed), kw)
  {
    WordsPlain();
    ResetClean();
    PrefixClean(GreenFg);
    NoDigitsAppend(noun, Open);
    NoDigitsClean(noun + Open);
    CleanConcat(noun + Open, Prefix(GreenFg));
    NoDigitsClean(PassedKw);
    CleanConcat(PassedKw, Reset);
  }

  lemma ClauseWellFormed(n: nat, word: Bytes, c: Color, kw: Bytes)
    requires NoDigits(word) && |word| >= 4 && |kw| <= 8
    ensures WellFormed(Clause(n, word, c), kw)
  {
    WordsPlain();
    ResetClean();
    PrefixClean(c);
    NoDigitsClean(Comma);
    CleanConcat(Comma, Prefix(c));
    NoDigitsClean(word);
    CleanConcat(word, Reset);
  }

  /** Every piece of a summary line is clean and every text is long enough to decide a keyword of up to eight bytes. */
  lemma PiecesWellFormed(total: nat, noun: Bytes, passed: nat, failed: nat, skipped: nat, kw: Bytes)
    requires NoDigits(noun) && |noun| > 0 && |kw| <= 8
    ensures WellFormed(LinePieces(total, noun, passed, failed, skipped), kw)
  {
    WordsPlain();
    var head, fail, skip, close := Head(total, noun, passed), Clause(failed, FailedKw, RedFg),
      Clause(skipped, SkippedKw, CyanFg), [Lit(Close)];
    HeadWellFormed(total, noun, passed, kw);
    ClauseWellFormed(failed, FailedKw, RedFg, kw);
    ClauseWellFormed(skipped, SkippedKw, CyanFg, kw);
    assert WellFormed(close, kw) by {
      NoDigitsClean(Close);
    }
    WellFormedAppend(head, fail, kw);
    WellFormedAppend(head + fail, skip, kw);
    WellFormedAppend(head + fail + skip, close, kw);
  }

  /** How the summary parser reads one keyword on a rendered summary line. */
  lemma ReadSummaryLine(total: nat, noun: Bytes, passed: nat, failed: nat, skipped: nat, kw: Bytes)
    requires NoDigits(noun) && |noun| > 0 && |kw| <= 8
    ensures ParseSuiteInfo(kw, SummaryLine(total, noun, passed, failed, skipped)) ==
      if StartsWith(noun + Open + Prefix(GreenFg), kw) then (total, true)
      else if StartsWith(PassedKw + Reset, kw) then (passed, true)
      else if failed > 0 && StartsWith(FailedKw + Reset, kw) then (failed, true)
      else if skipped > 0 && StartsWith(SkippedKw + Reset, kw) then (skipped, true)
      else (0, false)
  {
    PiecesWellFormed(total, noun, passed, failed, skipped, kw);
    ParsePieces(LinePieces(total, noun, passed, failed, skipped), kw);
    PiecesFlatten(total, noun, passed, failed, skipped);
    PiecesFirstMatch(total, noun, passed, failed, skipped, kw);
  }

  /** A rendered summary line is one line: it ends in its only newline. */
  lemma SummaryLineIsLine(total: nat, noun: Bytes, passed: nat, failed: nat, skipped: nat)
    requires NL !in noun
    ensures var l := SummaryLine(total, noun, passed, failed, skipped);
            |l| > 0 && l[|l| - 1] == NL && NL !in l[..|l| - 1]
  {
    WordsPlain();
    ResetClean();
    PrefixClean(GreenFg); PrefixClean(RedFg); PrefixClean(CyanFg);
    DigitsNoNewline(Decimal(total));
    DigitsNoNewline(Decimal(passed));
    DigitsNoNewline(Decimal(failed));
    DigitsNoNewline(Decimal(skipped));
    var fail := if failed > 0 then Comma + Red(Decimal(failed) + [Space] + FailedKw) else [];
    var skip := if skipped > 0 then Comma + Cyan(Decimal(skipped) + [Space] + SkippedKw) else [];
    var front := Decimal(total) + [Space] + noun + Open + Green(Decimal(passed) + [Space] + PassedKw);
    assert NL !in front;
    assert NL !in fail;
    assert NL !in skip;
    var body := front + fail + skip + [41];
    var l := SummaryLine(total, noun, passed, failed, skipped);
    assert l == body + [NL];
    assert l[..|l| - 1] == body;
  }

  lemma DigitsNoNewline(d: Bytes)
    requires AllDigits(d)
    ensures NL !in d
  {
  }

  /** The scenario line is read as its own four numbers and nothing else. */
  lemma ScenarioLineRead(total: nat, passed: nat, failed: nat, skipped: nat)
    ensures LineDelta(SummaryLine(total, ScenariosWord, passed, failed, skipped))
            == Counters(total, passed, failed, skipped, 0, 0, 0, 0)
  {
    WordsPlain();
    var t0 := ScenariosWord + Open + Prefix(GreenFg);
    assert t0 == ScenarioKw + ([115] + Open + Prefix(GreenFg));
    StartsWithLong(ScenarioKw, [115] + Open + Prefix(GreenFg), ScenarioKw);
    assert t0[..2] == ScenarioKw[..2];
    KeywordFacts(t0);
    var line := SummaryLine(total, ScenariosWord, passed, failed, skipped);
    ReadSummaryLine(total, ScenariosWord, passed, failed, skipped, ScenarioKw);
    ReadSummaryLine(total, ScenariosWord, passed, failed, skipped, StepKw);
    ReadSummaryLine(total, ScenariosWord, passed, failed, skipped, PassedKw);
    ReadSummaryLine(total, ScenariosWord, passed, failed, skipped, FailedKw);
    ReadSummaryLine(total, ScenariosWord, passed, failed, skipped, SkippedKw);
  }

  /** The step line is read as its own four numbers and nothing else. */
  lemma StepLineRead(total: nat, passed: nat, failed: nat, skipped: nat)
    ensures LineDelta(SummaryLine(total, StepsWord, passed, failed, skipped))
            == Counters(0, 0, 0, 0, total, passed, failed, skipped)
  {
    WordsPlain();
    var t0 := StepsWord + Open + Prefix(GreenFg);
    assert t0 == StepKw + ([115] + Open + Prefix(GreenFg));
    StartsWithLong(StepKw, [115] + Open + Prefix(GreenFg), StepKw);
    assert t0[..2] == StepKw[..2];
    KeywordFacts(t0);
    ReadSummaryLine(total, StepsWord, passed, failed, skipped, ScenarioKw);
    ReadSummaryLine(total, StepsWord, passed, failed, skipped, StepKw);
    ReadSummaryLine(total, StepsWord, passed, failed, skipped, PassedKw);
    ReadSummaryLine(total, StepsWord, passed, failed, skipped, FailedKw);
    ReadSummaryLine(total, StepsWord, passed, failed, skipped, SkippedKw);
  }

  /** Which clause text starts with which keyword: each keyword starts only
      its own clause, and the two nouns differ from every other keyword in
      their first two bytes. */
  lemma KeywordFacts(t0: Bytes)
    requires |t0| >= 2 && (t0[..2] == ScenarioKw[..2] || t0[..2] == StepKw[..2])
    ensures t0[..2] == ScenarioKw[..2] ==> !StartsWith(t0, StepKw)
    ensures t0[..2] == StepKw[..2] ==> !StartsWith(t0, ScenarioKw)
    ensures !StartsWith(t0, PassedKw) && !StartsWith(t0, FailedKw) && !StartsWith(t0, SkippedKw)
    ensures StartsWith(PassedKw + Reset, PassedKw)
    ensures !StartsWith(PassedKw + Reset, ScenarioKw) && !StartsWith(PassedKw + Reset, StepKw)
    ensures !StartsWith(PassedKw + Reset, FailedKw) && !StartsWith(PassedKw + Reset, SkippedKw)
    ensures StartsWith(FailedKw + Reset, FailedKw)
    ensures !StartsWith(FailedKw + Reset, ScenarioKw) && !StartsWith(FailedKw + Reset, StepKw)
    ensures !StartsWith(FailedKw + Reset, PassedKw) && !StartsWith(FailedKw + Reset, SkippedKw)
    ensures StartsWith(SkippedKw + Reset, SkippedKw)
    ensures !StartsWith(SkippedKw + Reset, ScenarioKw) && !StartsWith(SkippedKw + Reset, StepKw)
    ensures !StartsWith(SkippedKw + Reset, PassedKw) && !StartsWith(SkippedKw + Reset, FailedKw)
  {
    assert t0[0] == t0[..2][0] && t0[1] == t0[..2][1];
    assert ScenarioKw[..2][0] == ScenarioKw[0] && ScenarioKw[..2][1] == ScenarioKw[1];
    assert StepKw[..2][0] == StepKw[0] && StepKw[..2][1] == StepKw[1];
    DifferAt(t0, StepKw, 1); DifferAt(t0, ScenarioKw, 1);
    DifferAt(t0, PassedKw, 0); DifferAt(t0, FailedKw, 0); DifferAt(t0, SkippedKw, 1);
    ClauseFacts(Reset);
  }

  /** A clause word followed by any text starts with its own keyword and
      with no other. */
  lemma ClauseFacts(t: Bytes)
    ensures StartsWith(PassedKw + t, PassedKw)
    ensures !StartsWith(PassedKw + t, ScenarioKw) && !StartsWith(PassedKw + t, StepKw)
    ensures !StartsWith(PassedKw + t, FailedKw) && !StartsWith(PassedKw + t, SkippedKw)
    ensures StartsWith(FailedKw + t, FailedKw)
    ensures !StartsWith(FailedKw + t, ScenarioKw) && !StartsWith(FailedKw + t, StepKw)
    ensures !StartsWith(FailedKw + t, PassedKw) && !StartsWith(FailedKw + t, SkippedKw)
    ensures StartsWith(SkippedKw + t, SkippedKw)
    ensures !StartsWith(SkippedKw + t, ScenarioKw) && !StartsWith(SkippedKw + t, StepKw)
    ensures !StartsWith(SkippedKw + t, PassedKw) && !StartsWith(SkippedKw + t, FailedKw)
  {
    var p, f, s := PassedKw + t, FailedKw + t, SkippedKw + t;
    assert p[0] == PassedKw[0] && f[0] == FailedKw[0] && s[0] == SkippedKw[0] && s[1] == SkippedKw[1];
    assert p[..|PassedKw|] == PassedKw && f[..|FailedKw|] == FailedKw && s[..|SkippedKw|] == SkippedKw;
    DifferAt(p, ScenarioKw, 0); DifferAt(p, StepKw, 0); DifferAt(p, FailedKw, 0); DifferAt(p, SkippedKw, 0);
    DifferAt(f, ScenarioKw, 0); DifferAt(f, StepKw, 0); DifferAt(f, PassedKw, 0); DifferAt(f, SkippedKw, 0);
    DifferAt(s, ScenarioKw, 1); DifferAt(s, StepKw, 1); DifferAt(s, PassedKw, 0); DifferAt(s, FailedKw, 0);
  }
}

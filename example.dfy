/** One behat process's output read end to end: seven progress glyphs, a
    blank line, and the two summary lines of behat's progress format, which
    carry no colour codes:
      "....F..\n\n5 scenarios (3 passed, 2 failed)\n7 steps (5 passed, 1 failed, 1 skipped)\n"
    `TestRunner.ProcessOutput` adds `GlyphCount(GlyphPart(s))` to
    `stepsInLine` and `Total(Lines(SummaryPart(s)))` to the counters, so the
    lemmas here give what the runner ends with on that output. */
module Example {
  import opened Bytes
  import opened SuiteInfo
  import opened LineShape
  import opened SuiteSummary
  import opened Runner

  /** "....F..": six passed steps and a failed one. */
  const Glyphs: Bytes := [Dot, Dot, Dot, Dot, Fail, Dot, Dot]

  /** The scenario line as numbers, each with the text up to the next number:
      "5 scenarios (3 passed, 2 failed)\n". */
  function ScenarioPieces(): seq<Piece> {
    [Num(5, ScenariosWord + Open), Num(3, PassedKw + Comma), Num(2, FailedKw + Close)]
  }

  /** "7 steps (5 passed, 1 failed, 1 skipped)\n" */
  function StepPieces(): seq<Piece> {
    [Num(7, StepsWord + Open), Num(5, PassedKw + Comma), Num(1, FailedKw + Comma), Num(1, SkippedKw + Close)]
  }

  /** The whole output: glyphs, the blank line, then the two summary lines. */
  function Stream(): Bytes {
    Glyphs + [NL, NL] + (Flatten(ScenarioPieces()) + Flatten(StepPieces()))
  }

  // ---- Reading the two summary lines ---------------------------------------

  lemma ScenarioWellFormed(kw: Bytes)
    requires |kw| <= 8
    ensures WellFormed(ScenarioPieces(), kw)
  {
    WordsPlain();
    NoDigitsAppend(ScenariosWord, Open);
    NoDigitsClean(ScenariosWord + Open);
    NoDigitsAppend(PassedKw, Comma);
    NoDigitsClean(PassedKw + Comma);
    NoDigitsAppend(FailedKw, Close);
    NoDigitsClean(FailedKw + Close);
  }

  /** "steps (" is seven bytes long: it decides every keyword but "scenario",
      which differs from it in its second byte. */
  lemma StepWellFormed(kw: Bytes)
    requires |kw| <= 7 || kw == ScenarioKw
    ensures WellFormed(StepPieces(), kw)
  {
    WordsPlain();
    NoDigitsAppend(StepsWord, Open);
    NoDigitsClean(StepsWord + Open);
    NoDigitsAppend(PassedKw, Comma);
    NoDigitsClean(PassedKw + Comma);
    NoDigitsAppend(FailedKw, Comma);
    NoDigitsClean(FailedKw + Comma);
    NoDigitsAppend(SkippedKw, Close);
    NoDigitsClean(SkippedKw + Close);
    if kw == ScenarioKw {
      DifferAt(kw, StepsWord + Open, 1);
    }
  }

  /** Which number of the scenario line each keyword picks. */
  lemma ScenarioMatches()
    ensures FirstMatch(ScenarioPieces(), ScenarioKw) == (5, true)
    ensures FirstMatch(ScenarioPieces(), StepKw) == (0, false)
    ensures FirstMatch(ScenarioPieces(), PassedKw) == (3, true)
    ensures FirstMatch(ScenarioPieces(), FailedKw) == (2, true)
    ensures FirstMatch(ScenarioPieces(), SkippedKw) == (0, false)
  {
    var t0 := ScenariosWord + Open;
    assert t0 == ScenarioKw + ([115] + Open);
    StartsWithLong(ScenarioKw, [115] + Open, ScenarioKw);
    assert t0[..2] == ScenarioKw[..2];
    KeywordFacts(t0);
    ClauseFacts(Comma);
    ClauseFacts(Close);
    var ps := ScenarioPieces();
    assert ps[1..] == [ps[1], ps[2]] && ps[1..][1..] == [ps[2]] && ps[1..][1..][1..] == [];
  }

  /** Which number of the step line each keyword picks. */
  lemma StepMatches()
    ensures FirstMatch(StepPieces(), ScenarioKw) == (0, false)
    ensures FirstMatch(StepPieces(), StepKw) == (7, true)
    ensures FirstMatch(StepPieces(), PassedKw) == (5, true)
    ensures FirstMatch(StepPieces(), FailedKw) == (1, true)
    ensures FirstMatch(StepPieces(), SkippedKw) == (1, true)
  {
    var t0 := StepsWord + Open;
    assert t0 == StepKw + ([115] + Open);
    StartsWithLong(StepKw, [115] + Open, StepKw);
    assert t0[..2] == StepKw[..2];
    KeywordFacts(t0);
    ClauseFacts(Comma);
    ClauseFacts(Close);
    var ps := StepPieces();
    assert ps[1..] == [ps[1], ps[2], ps[3]] && ps[1..][1..] == [ps[2], ps[3]];
    assert ps[1..][1..][1..] == [ps[3]] && ps[1..][1..][1..][1..] == [];
  }

  /** The scenario line adds five scenarios, three passed and two failed. */
  lemma ScenarioLineCounts()
    ensures LineDelta(Flatten(ScenarioPieces())) == Counters(5, 3, 2, 0, 0, 0, 0, 0)
  {
    ScenarioMatches();
    var ps := ScenarioPieces();
    ScenarioWellFormed(ScenarioKw);
    ParsePieces(ps, ScenarioKw);
    ScenarioWellFormed(StepKw);
    ParsePieces(ps, StepKw);
    ScenarioWellFormed(PassedKw);
    ParsePieces(ps, PassedKw);
    ScenarioWellFormed(FailedKw);
    ParsePieces(ps, FailedKw);
    ScenarioWellFormed(SkippedKw);
    ParsePieces(ps, SkippedKw);
  }

  /** The step line adds seven steps, five passed, one failed and one skipped. */
  lemma StepLineCounts()
    ensures LineDelta(Flatten(StepPieces())) == Counters(0, 0, 0, 0, 7, 5, 1, 1)
  {
    StepMatches();
    var ps := StepPieces();
    StepWellFormed(ScenarioKw);
    ParsePieces(ps, ScenarioKw);
    StepWellFormed(StepKw);
    ParsePieces(ps, StepKw);
    StepWellFormed(PassedKw);
    ParsePieces(ps, PassedKw);
    StepWellFormed(FailedKw);
    ParsePieces(ps, FailedKw);
    StepWellFormed(SkippedKw);
    ParsePieces(ps, SkippedKw);
  }

  // ---- Lines -------------------------------------------------------------------

  /** `l` ends in its only newline. */
  predicate IsLine(l: Bytes) {
    |l| > 0 && l[|l| - 1] == NL && NL !in l[..|l| - 1]
  }

  /** Text without a newline in front of a line leaves it one line. */
  lemma PrependPlain(x: Bytes, l: Bytes)
    requires NL !in x && IsLine(l)
    ensures IsLine(x + l)
  {
    assert (x + l)[..|x + l| - 1] == x + l[..|l| - 1];
  }

  /** Pieces whose texts hold no newline but for the last text, a line, make one line. */
  lemma {:induction false} FlattenLine(ps: seq<Piece>)
    requires |ps| > 0 && IsLine(ps[|ps| - 1].text)
    requires forall k :: 0 <= k < |ps| - 1 ==> NL !in ps[k].text
    ensures IsLine(Flatten(ps))
    decreases |ps|
  {
    var p := ps[0];
    var head := if p.Num? then Decimal(p.n) + [Space] else [];
    DigitsNoNewline(if p.Num? then Decimal(p.n) else []);
    assert Show(p) == head + p.text;
    if |ps| == 1 {
      PrependPlain(head, p.text);
      assert Flatten(ps) == Show(p) + [];
    } else {
      forall k | 0 <= k < |ps[1..]| - 1 ensures NL !in ps[1..][k].text {
        assert ps[1..][k] == ps[k + 1];
      }
      FlattenLine(ps[1..]);
      assert NL !in Show(p);
      PrependPlain(Show(p), Flatten(ps[1..]));
    }
  }

  lemma ScenarioTextLine()
    ensures IsLine(Flatten(ScenarioPieces()))
  {
    WordsPlain();
    var ps := ScenarioPieces();
    PrependPlain(FailedKw, Close);
    assert NL !in ps[0].text && NL !in ps[1].text;
    FlattenLine(ps);
  }

  lemma StepTextLine()
    ensures IsLine(Flatten(StepPieces()))
  {
    WordsPlain();
    var ps := StepPieces();
    PrependPlain(SkippedKw, Close);
    assert NL !in ps[0].text && NL !in ps[1].text && NL !in ps[2].text;
    FlattenLine(ps);
  }

  // ---- The whole stream ------------------------------------------------------

  /** Two lines one after the other are read as those two lines. */
  lemma TwoLines(a: Bytes, b: Bytes)
    requires IsLine(a) && IsLine(b)
    ensures Lines(a + b) == [a, b]
  {
    LinesCons(a, b);
    LinesCons(b, []);
    assert b + [] == b;
  }

  /** Glyphs without a newline, a blank line and two summary lines: the
      glyphs are what the scanner reads, and the two lines are all that the
      summary adds. */
  lemma StreamGen(g: Bytes, a: Bytes, b: Bytes)
    requires NL !in g && IsLine(a) && IsLine(b)
    ensures GlyphPart(g + [NL, NL] + (a + b)) == g
    ensures Total(Lines(SummaryPart(g + [NL, NL] + (a + b)))) == Add(LineDelta(a), LineDelta(b))
  {
    NoNewlineNoBlank(g);
    assert g == [] || g[|g| - 1] in g;
    SplitAtBlank(g, a + b);
    TwoLines(a, b);
    TotalPair(a, b);
  }

  /** The seven glyphs hold no newline and count as seven steps. */
  lemma GlyphsCounted()
    ensures NL !in Glyphs && GlyphCount(Glyphs) == 7
  {
    forall k | 0 <= k < |Glyphs| ensures IsGlyph(Glyphs[k]) && Glyphs[k] != NL {
      assert Glyphs[k] == Dot || Glyphs[k] == Fail;
    }
    AllGlyphs(Glyphs);
  }

  /** The example output: seven glyphs counted, and the counters the two
      summary lines state, scenarios 5/3/2/0 and steps 7/5/1/1. */
  lemma ExampleStream()
    ensures GlyphCount(GlyphPart(Stream())) == 7
    ensures Total(Lines(SummaryPart(Stream()))) == Counters(5, 3, 2, 0, 7, 5, 1, 1)
  {
    ScenarioTextLine();
    StepTextLine();
    GlyphsCounted();
    StreamGen(Glyphs, Flatten(ScenarioPieces()), Flatten(StepPieces()));
    ScenarioLineCounts();
    StepLineCounts();
  }

  /** Seven glyphs from a fresh count print no marker. */
  lemma ExampleNoMarker()
    ensures Count(Progress(0, GlyphPart(Stream())), Space) == 0
  {
    ScenarioTextLine();
    StepTextLine();
    GlyphsCounted();
    StreamGen(Glyphs, Flatten(ScenarioPieces()), Flatten(StepPieces()));
    MarkersFromZero(Glyphs);
  }
}

/** The test runner of main.go as far as one behat process's output goes:
    `proccessOutput` reads the progress glyphs, echoes each in its colour,
    writes a count marker every seventy glyphs, and, once two newlines in a
    row end the glyphs, hands every complete summary line to the summary. */
module Runner {
  import opened Bytes
  import opened Colors
  import opened LineShape
  import opened SuiteSummary

  // ---- Where the glyphs end ------------------------------------------------

  /** Two newlines in a row at `k`. */
  predicate BlankAt(s: Bytes, k: nat) {
    k + 1 < |s| && s[k] == NL && s[k + 1] == NL
  }

  /** The first position of two newlines in a row, or `|s|` when there is none. */
  function FirstBlank(s: Bytes): (k: nat)
    ensures k <= |s|
  {
    if |s| < 2 then |s|
    else if s[0] == NL && s[1] == NL then 0
    else 1 + FirstBlank(s[1..])
  }

  /** FirstBlank finds two newlines in a row, and none comes earlier. */
  lemma {:induction false} FirstBlankSpec(s: Bytes)
    ensures FirstBlank(s) < |s| ==> BlankAt(s, FirstBlank(s))
    ensures forall m: nat :: m < FirstBlank(s) ==> !BlankAt(s, m)
    decreases |s|
  {
    if |s| >= 2 && !(s[0] == NL && s[1] == NL) {
      FirstBlankSpec(s[1..]);
      forall m: nat | 1 <= m < |s| ensures BlankAt(s, m) == BlankAt(s[1..], m - 1) {
        assert s[1..][m - 1] == s[m];
        if m + 1 < |s| {
          assert s[1..][m] == s[m + 1];
        }
      }
    }
  }

  /** The bytes read while the scanner still looks for glyphs. */
  function GlyphPart(s: Bytes): Bytes {
    s[..FirstBlank(s)]
  }

  /** The bytes after the two newlines: the summary lines. */
  function SummaryPart(s: Bytes): Bytes {
    FirstBlankSpec(s);
    var k := FirstBlank(s);
    if k < |s| then s[k + 2..] else []
  }

  /** Two newlines in a row with none before them are the first. */
  lemma BlankIsFirst(s: Bytes, k: nat)
    requires k <= FirstBlank(s) && BlankAt(s, k)
    ensures FirstBlank(s) == k
  {
    FirstBlankSpec(s);
  }

  /** The first two newlines in a row split the stream. */
  lemma BlankSplit(s: Bytes)
    requires FirstBlank(s) < |s|
    ensures FirstBlank(s) + 2 <= |s|
    ensures GlyphPart(s) == s[..FirstBlank(s)] && SummaryPart(s) == s[FirstBlank(s) + 2..]
  {
    FirstBlankSpec(s);
  }

  /** A newline that is not followed by another does not end the glyphs. */
  lemma NoBlankYet(s: Bytes, k: nat)
    requires k <= FirstBlank(s) && k < |s| && !BlankAt(s, k)
    ensures k + 1 <= FirstBlank(s)
  {
    FirstBlankSpec(s);
  }

  /** A stream without two newlines in a row is glyphs to its end. */
  lemma NoBlank(s: Bytes)
    requires FirstBlank(s) == |s|
    ensures GlyphPart(s) == s && Total(Lines(SummaryPart(s))) == Zero
  {
    assert Lines([]) == [];
  }

  /** The first blank line splits the stream into the glyphs before it and
      the summary lines after it, whatever the lines say; newlines on their
      own among the glyphs do not end them. */
  lemma SplitAtBlank(x: Bytes, t: Bytes)
    requires FirstBlank(x) == |x| && (x == [] || x[|x| - 1] != NL)
    ensures GlyphPart(x + [NL, NL] + t) == x && SummaryPart(x + [NL, NL] + t) == t
  {
    var s := x + [NL, NL] + t;
    FirstBlankSpec(x);
    FirstBlankSpec(s);
    assert BlankAt(s, |x|);
    forall m: nat | m < |x| ensures !BlankAt(s, m) {
      if m + 1 < |x| {
        assert BlankAt(s, m) == BlankAt(x, m);
      } else {
        assert s[m] == x[|x| - 1];
      }
    }
    assert s[..|x|] == x && s[|x| + 2..] == t;
  }

  /** Glyphs without any newline never reach a blank line. */
  lemma NoNewlineNoBlank(x: Bytes)
    requires NL !in x
    ensures FirstBlank(x) == |x|
  {
    FirstBlankSpec(x);
  }

  // ---- What one byte prints --------------------------------------------------

  const Dot: byte := 46     // '.', a passed step
  const Dash: byte := 45    // '-', a skipped step
  const Fail: byte := 70    // 'F', a failed step
  const Undef: byte := 85   // 'U', an undefined step

  /** colorMap: the colour each progress glyph is echoed in. */
  function GlyphColor(b: byte): Option<Color> {
    if b == Dot then Some(GreenFg)
    else if b == Dash then Some(CyanFg)
    else if b == Fail then Some(RedFg)
    else if b == Undef then Some(YellowFg)
    else None
  }

  predicate IsGlyph(b: byte) {
    GlyphColor(b).Some?
  }

  /** The count marker: a space, the number of glyphs so far, a newline. */
  function Marker(n: nat): (m: Bytes)
    ensures |m| >= 3
  {
    [Space] + Decimal(n) + [NL]
  }

  /** `n` is a multiple of seventy, counted down seventy at a time. */
  predicate Multiple70(n: nat) {
    if n < 70 then n == 0 else Multiple70(n - 70)
  }

  lemma {:induction false} Multiple70Mod(n: nat)
    ensures Multiple70(n) <==> n % 70 == 0
  {
    if n >= 70 {
      Multiple70Mod(n - 70);
    }
  }

  /** The marker that is due before the glyph that follows `n` glyphs. */
  function Due(n: nat): Bytes {
    if n > 0 && Multiple70(n) then Marker(n) else []
  }

  /** What reading byte `b` prints after `n` glyphs: only the four glyphs
      print anything, each in its colour and after the marker due. */
  function Echo(n: nat, b: byte): Bytes {
    if IsGlyph(b) then Due(n) + Paint(GlyphColor(b).value, [b]) else []
  }

  /** A byte prints something exactly when it is a glyph; the marker comes
      first exactly when the glyphs so far are a positive multiple of
      seventy; and the output ends with the glyph in its colour. */
  lemma EchoSpec(n: nat, b: byte)
    ensures Echo(n, b) == [] <==> !IsGlyph(b)
    ensures StartsWith(Echo(n, b), Marker(n)) <==> IsGlyph(b) && n > 0 && n % 70 == 0
    ensures IsGlyph(b) ==>
              |Echo(n, b)| >= 10 && Unpaint(Echo(n, b)[|Echo(n, b)| - 10..]) == Some((GlyphColor(b).value, [b]))
  {
    Multiple70Mod(n);
    if IsGlyph(b) {
      var due, glyph := Due(n), Paint(GlyphColor(b).value, [b]);
      var r := due + glyph;
      assert r[|r| - 10..] == glyph;
      UnpaintPaint(GlyphColor(b).value, [b]);
      if due == [] {
        DifferAt(r, Marker(n), 0);
      } else {
        assert r[..|due|] == due;
      }
    }
  }

  /** One for a glyph, zero for any other byte. */
  function Tick(b: byte): nat {
    if IsGlyph(b) then 1 else 0
  }

  /** The number of glyphs in `s`. */
  function GlyphCount(s: Bytes): (c: nat)
    ensures c <= |s|
  {
    if |s| == 0 then 0 else GlyphCount(s[..|s| - 1]) + Tick(s[|s| - 1])
  }

  /** What reading `s`, with `n` glyphs already counted, prints: each byte's echo in turn. */
  function Progress(n: nat, s: Bytes): Bytes {
    if |s| == 0 then [] else Progress(n, s[..|s| - 1]) + Echo(n + GlyphCount(s[..|s| - 1]), s[|s| - 1])
  }

  /** Reading one more byte of `s`. */
  lemma ReadStep(n: nat, s: Bytes, i: nat)
    requires i < |s|
    ensures GlyphCount(s[..i + 1]) == GlyphCount(s[..i]) + Tick(s[i])
    ensures Progress(n, s[..i + 1]) == Progress(n, s[..i]) + Echo(n + GlyphCount(s[..i]), s[i])
  {
    assert s[..i + 1][..i] == s[..i];
  }

  /** What reading a prefix prints is a prefix of what reading the whole prints. */
  lemma {:induction false} ProgressPrefix(n: nat, s: Bytes, k: nat)
    requires k <= |s|
    ensures Progress(n, s[..k]) <= Progress(n, s)
    decreases |s|
  {
    if k < |s| {
      var s' := s[..|s| - 1];
      assert s'[..k] == s[..k];
      ProgressPrefix(n, s', k);
      PrefixExtend(Progress(n, s[..k]), Progress(n, s'), Echo(n + GlyphCount(s'), s[|s| - 1]));
    } else {
      assert s[..k] == s;
    }
  }

  lemma PrefixExtend(a: Bytes, b: Bytes, c: Bytes)
    requires a <= b
    ensures a <= b + c
  {
    assert (b + c)[..|a|] == b[..|a|];
  }

  /** Bytes that are not glyphs print nothing and count nothing. */
  lemma {:induction false} NonGlyphsSilent(n: nat, s: Bytes)
    requires forall k :: 0 <= k < |s| ==> !IsGlyph(s[k])
    ensures GlyphCount(s) == 0 && Progress(n, s) == []
    decreases |s|
  {
    if |s| > 0 {
      NonGlyphsSilent(n, s[..|s| - 1]);
    }
  }

  /** A stream of glyphs only counts every byte. */
  lemma {:induction false} AllGlyphs(s: Bytes)
    requires forall k :: 0 <= k < |s| ==> IsGlyph(s[k])
    ensures GlyphCount(s) == |s|
    decreases |s|
  {
    if |s| > 0 {
      AllGlyphs(s[..|s| - 1]);
    }
  }

  // ---- Markers -----------------------------------------------------------------

  /** How many times `x` occurs in `s`. */
  function Count(s: Bytes, x: byte): nat {
    if |s| == 0 then 0 else Count(s[..|s| - 1], x) + (if s[|s| - 1] == x then 1 else 0)
  }

  lemma {:induction false} CountAppend(a: Bytes, b: Bytes, x: byte)
    ensures Count(a + b, x) == Count(a, x) + Count(b, x)
    decreases |b|
  {
    if |b| == 0 {
      assert a + b == a;
    } else {
      assert (a + b)[..|a + b| - 1] == a + b[..|b| - 1];
      assert (a + b)[|a + b| - 1] == b[|b| - 1];
      CountAppend(a, b[..|b| - 1], x);
    }
  }

  lemma {:induction false} CountAbsent(s: Bytes, x: byte)
    requires x !in s
    ensures Count(s, x) == 0
    decreases |s|
  {
    if |s| > 0 {
      assert s[|s| - 1] in s;
      assert forall y :: y in s[..|s| - 1] ==> y in s;
      CountAbsent(s[..|s| - 1], x);
    }
  }

  /** The marker holds exactly one space. */
  lemma MarkerSpaces(n: nat)
    ensures Count(Marker(n), Space) == 1
  {
    var d := Decimal(n);
    assert Space !in d;
    CountAbsent(d, Space);
    CountAppend([Space], d, Space);
    CountAppend([Space] + d, [NL], Space);
    assert Count([Space], Space) == 1 by {
      assert [Space][..0] == [];
    }
    assert Count([NL], Space) == 0 by {
      assert [NL][..0] == [];
    }
  }

  /** A painted glyph holds no space. */
  lemma PaintSpaces(c: Color, b: byte)
    requires b != Space
    ensures Count(Paint(c, [b]), Space) == 0
  {
    var r := Paint(c, [b]);
    var p := Prefix(c);
    PaintParts(c, [b]);
    assert Space !in r by {
      forall k | 0 <= k < |r| ensures r[k] != Space {
        if k < 5 {
          assert r[k] == r[..5][k] == p[k];
          if k == 2 {
            assert p[2] == p[2..4][0];
          } else if k == 3 {
            assert p[3] == p[2..4][1];
          }
        } else if k == 5 {
          assert r[k] == r[5..6][0];
        } else {
          assert r[k] == r[6..][k - 6] == Reset[k - 6];
        }
      }
    }
    CountAbsent(r, Space);
  }

  /** A glyph's echo holds one space when it carries the marker, none otherwise. */
  lemma EchoSpaces(n: nat, b: byte)
    ensures Count(Echo(n, b), Space) == if IsGlyph(b) && n > 0 && n % 70 == 0 then 1 else 0
  {
    Multiple70Mod(n);
    if IsGlyph(b) {
      var glyph := Paint(GlyphColor(b).value, [b]);
      PaintSpaces(GlyphColor(b).value, b);
      if n > 0 && n % 70 == 0 {
        MarkerSpaces(n);
        CountAppend(Marker(n), glyph, Space);
      } else {
        assert Echo(n, b) == [] + glyph;
        assert [] + glyph == glyph;
      }
    }
  }

  /** The markers due while reading `s` after `n` glyphs: one before every
      glyph that finds a positive multiple of seventy glyphs before it. */
  function MarkersDue(n: nat, s: Bytes): nat {
    if |s| == 0 then 0
    else
      var m := n + GlyphCount(s[..|s| - 1]);
      MarkersDue(n, s[..|s| - 1]) + (if IsGlyph(s[|s| - 1]) && m > 0 && m % 70 == 0 then 1 else 0)
  }

  /** Every space printed is a marker's. */
  lemma {:induction false} SpacesAreMarkers(n: nat, s: Bytes)
    ensures Count(Progress(n, s), Space) == MarkersDue(n, s)
    decreases |s|
  {
    if |s| > 0 {
      var s', b := s[..|s| - 1], s[|s| - 1];
      var m := n + GlyphCount(s');
      SpacesAreMarkers(n, s');
      CountAppend(Progress(n, s'), Echo(m, b), Space);
      EchoSpaces(m, b);
    }
  }

  /** The number of positive multiples of seventy below `x`. */
  function MultiplesBelow(x: nat): nat {
    if x <= 70 then 0 else MultiplesBelow(x - 70) + 1
  }

  /** Counted down seventy at a time, it is the quotient it should be. */
  lemma {:induction false} MultiplesBelowDiv(x: nat)
    requires x > 0
    ensures MultiplesBelow(x) == (x - 1) / 70
  {
    if x > 70 {
      MultiplesBelowDiv(x - 70);
    }
  }

  /** One glyph further on passes a multiple of seventy exactly when the
      count so far is one. */
  lemma {:induction false} MultiplesStep(n: nat)
    ensures MultiplesBelow(n + 1) == MultiplesBelow(n) + (if n > 0 && Multiple70(n) then 1 else 0)
  {
    if n > 70 {
      MultiplesStep(n - 70);
    }
  }

  lemma MultiplesTick(n: nat, b: byte)
    ensures MultiplesBelow(n + Tick(b)) == MultiplesBelow(n) + (if IsGlyph(b) && n > 0 && n % 70 == 0 then 1 else 0)
  {
    Multiple70Mod(n);
    MultiplesStep(n);
  }

  /** Equal counts pass equal multiples. A separate step, because rewriting
      the count inside MarkersPassed lets the solver unfold far more. */
  lemma MultiplesSame(x: nat, y: nat)
    requires x == y
    ensures MultiplesBelow(x) == MultiplesBelow(y)
  {
  }

  /** The markers due are the multiples of seventy the count passes. */
  lemma {:induction false} MarkersPassed(n: nat, s: Bytes)
    ensures MarkersDue(n, s) + MultiplesBelow(n) == MultiplesBelow(n + GlyphCount(s))
    decreases |s|
  {
    if |s| > 0 {
      var s', b := s[..|s| - 1], s[|s| - 1];
      var m := n + GlyphCount(s');
      MarkersPassed(n, s');
      MultiplesTick(m, b);
      MultiplesSame(n + GlyphCount(s), m + Tick(b));
    }
  }

  /** Markers: exactly one for every positive multiple of seventy that the
      glyph count passes on its way from `n` to `n` plus the glyphs of `s`
      (markers are the only output with a space in it). */
  lemma MarkerCount(n: nat, s: Bytes)
    ensures Count(Progress(n, s), Space) + MultiplesBelow(n) == MultiplesBelow(n + GlyphCount(s))
  {
    SpacesAreMarkers(n, s);
    MarkersPassed(n, s);
  }

  /** From a fresh count, the glyphs of `s` print one marker for every
      seventy glyphs that have a glyph after them: `(N - 1) / 70` for `N`
      glyphs. */
  lemma MarkersFromZero(s: Bytes)
    ensures Count(Progress(0, s), Space) == if GlyphCount(s) == 0 then 0 else (GlyphCount(s) - 1) / 70
  {
    MarkersFromNone(0, s);
    var n := GlyphCount(s);
    if n > 0 {
      MultiplesBelowDiv(n);
    }
  }

  /** MarkerCount for a count that starts at zero. The zero comes in as a
      parameter: with a literal `0` the solver unfolds `Progress` on it and
      the proof becomes far more costly. */
  lemma MarkersFromNone(n: nat, s: Bytes)
    requires n == 0
    ensures Count(Progress(n, s), Space) == MultiplesBelow(GlyphCount(s))
  {
    MarkerCount(n, s);
  }

  /** The glyph at `k` follows its marker when the glyphs before it are a
      positive multiple of seventy. */
  lemma MarkerBefore(n: nat, s: Bytes, k: nat)
    requires k < |s| && IsGlyph(s[k])
    requires n + GlyphCount(s[..k]) > 0 && (n + GlyphCount(s[..k])) % 70 == 0
    ensures Progress(n, s[..k + 1]) ==
              Progress(n, s[..k]) + Marker(n + GlyphCount(s[..k])) + Paint(GlyphColor(s[k]).value, [s[k]])
  {
    var m := n + GlyphCount(s[..k]);
    ReadStep(n, s, k);
    Multiple70Mod(m);
    var mk, g := Marker(m), Paint(GlyphColor(s[k]).value, [s[k]]);
    assert Echo(m, s[k]) == mk + g;
    BytesAssoc(Progress(n, s[..k]), mk, g);
  }

  /** In a run of dots, the marker for `n` dots comes between dot `n` and
      dot `n + 1`. */
  lemma MarkerInDots(s: Bytes, n: nat)
    requires 0 < n < |s| && n % 70 == 0 && forall k :: 0 <= k < |s| ==> s[k] == Dot
    ensures Progress(0, s[..n + 1]) == Progress(0, s[..n]) + Marker(n) + Green([Dot])
  {
    AllGlyphs(s[..n]);
    assert s[n] == Dot;
    MarkerBefore(0, s, n);
  }

  /** The marker after seventy glyphs reads " 70\n". */
  lemma MarkerSeventy()
    ensures Marker(70) == [Space, 55, 48, NL]   // " 70\n"
  {
    assert Decimal(70) == Decimal(7) + [48];
  }

  /** One hundred and forty dots print exactly one marker. */
  lemma HundredFortyDots(s: Bytes)
    requires |s| == 140 && forall k :: 0 <= k < |s| ==> s[k] == Dot
    ensures Count(Progress(0, s), Space) == 1
  {
    AllGlyphs(s);
    MarkerCount(0, s);
    assert MultiplesBelow(140) == 1;
  }

  /** That marker, " 70\n", comes between the seventieth and the
      seventy-first dot. */
  lemma HundredFortyDotsMarker(s: Bytes)
    requires |s| == 140 && forall k :: 0 <= k < |s| ==> s[k] == Dot
    ensures Progress(0, s[..70]) + [Space, 55, 48, NL] + Green([Dot]) <= Progress(0, s)
  {
    MarkerInDots(s, 70);
    MarkerSeventy();
    ProgressPrefix(0, s, 71);
  }

  // ---- The runner ----------------------------------------------------------

  /** The summary totals of a sequence of streams, one after the other. */
  function StreamsTotal(streams: seq<Bytes>): Counters {
    if |streams| == 0 then Zero
    else Add(StreamsTotal(streams[..|streams| - 1]), Total(Lines(SummaryPart(streams[|streams| - 1]))))
  }

  /** The glyph count of a sequence of streams. */
  function StreamsGlyphs(streams: seq<Bytes>): nat {
    if |streams| == 0 then 0
    else StreamsGlyphs(streams[..|streams| - 1]) + GlyphCount(GlyphPart(streams[|streams| - 1]))
  }

  class TestRunner {
    var stepsInLine: nat
    /** What the runner has written to its standard output. */
    var console: Bytes
    const summaryInfo: Summary

    /** NewTestRunner: no glyphs yet, nothing written, all counters zero. */
    constructor ()
      ensures stepsInLine == 0 && console == []
      ensures fresh(summaryInfo) && summaryInfo.Counts() == Zero
    {
      stepsInLine := 0;
      console := [];
      summaryInfo := new Summary();
    }

    /** proccessOutput: reads the output of one behat process to its end. */
    method ProcessOutput(out: Bytes)
      modifies this, summaryInfo
      ensures stepsInLine == old(stepsInLine) + GlyphCount(GlyphPart(out))
      ensures console == old(console) + Progress(old(stepsInLine), GlyphPart(out))
      ensures summaryInfo.Counts() == Add(old(summaryInfo.Counts()), Total(Lines(SummaryPart(out))))
    {
      var k := ScanGlyphs(out);
      if k < |out| {
        // the second newline has been read; the summary lines are read to
        // the end of the input, where the next ReadByte stops the loop
        BlankSplit(out);
        ReadSummaryLines(out, k + 2);
      } else {
        NoBlank(out);
        AddZero(old(summaryInfo.Counts()));
      }
    }

    /** The loop of proccessOutput up to the first two newlines in a row:
        every byte before them is echoed, and the position of the first of
        them, or the end of the input, is returned. */
    method ScanGlyphs(out: Bytes) returns (k: nat)
      modifies this
      ensures k == FirstBlank(out)
      ensures stepsInLine == old(stepsInLine) + GlyphCount(out[..k])
      ensures console == old(console) + Progress(old(stepsInLine), out[..k])
    {
      var i := 0;
      while i < |out|
        invariant i <= FirstBlank(out)
        invariant stepsInLine == old(stepsInLine) + GlyphCount(out[..i])
        invariant console == old(console) + Progress(old(stepsInLine), out[..i])
      {
        var c := out[i];
        if c == NL && i + 1 < |out| && out[i + 1] == NL {
          // Peek(1) sees the second newline
          BlankIsFirst(out, i);
          return i;
        }
        ScanStep(old(console), old(stepsInLine), out, i);
        if c != NL {
          EchoByte(c);
        }
        NoBlankYet(out, i);
        i := i + 1;
      }
      return i;
    }

    /** One byte that is not a newline: a glyph is echoed in its colour,
        after the count marker when seventy more glyphs have gone by, and
        counted; any other byte is ignored. */
    method EchoByte(c: byte)
      modifies this
      ensures console == old(console) + Echo(old(stepsInLine), c)
      ensures stepsInLine == old(stepsInLine) + Tick(c)
    {
      if IsGlyph(c) {
        ghost var due := Due(stepsInLine);
        ghost var glyph := Paint(GlyphColor(c).value, [c]);
        Multiple70Mod(stepsInLine);
        if stepsInLine > 0 && stepsInLine % 70 == 0 {
          console := console + Marker(stepsInLine);
        }
        assert console == old(console) + due;
        console := console + Paint(GlyphColor(c).value, [c]);
        BytesAssoc(old(console), due, glyph);
        stepsInLine := stepsInLine + 1;
      }
    }

    /** The inner loop of proccessOutput: `ReadBytes('\n')` until it meets
        the end of the input; every complete line goes to the summary, the
        bytes after the last newline do not. */
    method ReadSummaryLines(out: Bytes, start: nat)
      requires start <= |out|
      modifies summaryInfo
      ensures summaryInfo.Counts() == Add(old(summaryInfo.Counts()), Total(Lines(out[start..])))
    {
      var i := start;
      while true
        invariant start <= i <= |out|
        invariant Add(summaryInfo.Counts(), Total(Lines(out[i..]))) ==
                  Add(old(summaryInfo.Counts()), Total(Lines(out[start..])))
        decreases |out| - i
      {
        var rest := out[i..];
        var e := IndexOf(rest, NL);
        if e == |rest| {
          NoLineLeft(out, i);
          break;
        }
        var line := out[i..i + e + 1];
        NextLineTotal(out, i, e);
        AddAssoc(summaryInfo.Counts(), LineDelta(line), Total(Lines(out[i + e + 1..])));
        summaryInfo.ParseTestSummary(line);
        i := i + e + 1;
      }
      AddZero(summaryInfo.Counts());
    }

    /** run, one feature after another: every stream's output in turn. */
    method Run(streams: seq<Bytes>)
      modifies this, summaryInfo
      ensures stepsInLine == old(stepsInLine) + StreamsGlyphs(streams)
      ensures summaryInfo.Counts() == Add(old(summaryInfo.Counts()), StreamsTotal(streams))
    {
      AddZero(old(summaryInfo.Counts()));
      var i := 0;
      while i < |streams|
        invariant i <= |streams|
        invariant stepsInLine == old(stepsInLine) + StreamsGlyphs(streams[..i])
        invariant summaryInfo.Counts() == Add(old(summaryInfo.Counts()), StreamsTotal(streams[..i]))
      {
        StreamsStep(streams, i);
        AddAssoc(old(summaryInfo.Counts()), StreamsTotal(streams[..i]), Total(Lines(SummaryPart(streams[i]))));
        ProcessOutput(streams[i]);
        i := i + 1;
      }
      assert streams[..i] == streams;
    }
  }

  /** Reading one more stream. */
  lemma StreamsStep(streams: seq<Bytes>, i: nat)
    requires i < |streams|
    ensures StreamsGlyphs(streams[..i + 1]) == StreamsGlyphs(streams[..i]) + GlyphCount(GlyphPart(streams[i]))
    ensures StreamsTotal(streams[..i + 1]) == Add(StreamsTotal(streams[..i]), Total(Lines(SummaryPart(streams[i]))))
  {
    assert streams[..i + 1][..i] == streams[..i];
  }

  /** The summary lines of several streams, one stream after another. */
  function StreamsLines(streams: seq<Bytes>): seq<Bytes> {
    if |streams| == 0 then []
    else StreamsLines(streams[..|streams| - 1]) + Lines(SummaryPart(streams[|streams| - 1]))
  }

  /** The totals over several streams are the totals of all their summary
      lines taken together, so TotalPermutation applies to them. */
  lemma {:induction false} StreamsTotalLines(streams: seq<Bytes>)
    ensures StreamsTotal(streams) == Total(StreamsLines(streams))
    decreases |streams|
  {
    if |streams| > 0 {
      var init := streams[..|streams| - 1];
      StreamsTotalLines(init);
      TotalAppend(StreamsLines(init), Lines(SummaryPart(streams[|streams| - 1])));
    }
  }

  /** The totals of two runs of streams, one after the other, add up. */
  lemma {:induction false} StreamsTotalAppend(a: seq<Bytes>, b: seq<Bytes>)
    ensures StreamsTotal(a + b) == Add(StreamsTotal(a), StreamsTotal(b))
    decreases |b|
  {
    if |b| == 0 {
      assert a + b == a;
      AddZero(StreamsTotal(a));
    } else {
      var init := b[..|b| - 1];
      assert (a + b)[..|a + b| - 1] == a + init;
      assert (a + b)[|a + b| - 1] == b[|b| - 1];
      StreamsTotalAppend(a, init);
      AddAssoc(StreamsTotal(a), StreamsTotal(init), Total(Lines(SummaryPart(b[|b| - 1]))));
    }
  }

  /** `b` is what comes before its element `k`, that element, and what comes after. */
  lemma SplitAround<T>(b: seq<T>, k: nat)
    requires k < |b|
    ensures b == (b[..k] + [b[k]]) + b[k + 1..]
  {
  }

  /** Taking stream `k` out of `b` takes its totals out of the sum. */
  lemma StreamsTotalRemove(b: seq<Bytes>, k: nat)
    requires k < |b|
    ensures StreamsTotal(b) == Add(StreamsTotal(b[..k] + b[k + 1..]), Total(Lines(SummaryPart(b[k]))))
  {
    var x, pre, post := b[k], b[..k], b[k + 1..];
    var p, c, q := StreamsTotal(pre), Total(Lines(SummaryPart(x))), StreamsTotal(post);
    assert StreamsTotal(b) == Add(Add(p, c), q) by {
      SplitAround(b, k);
      StreamsTotalAppend(pre + [x], post);
      StreamsTotalAppend(pre, [x]);
      assert [x][..0] == [];
      AddZeroLeft(c);
    }
    assert StreamsTotal(pre + post) == Add(p, q) by {
      StreamsTotalAppend(pre, post);
    }
    AddAssoc(p, c, q);
    AddSwap(c, p, q);
    AddAssoc(p, q, c);
  }

  /** The totals do not depend on the order the streams are read in. */
  lemma {:induction false} StreamsTotalPermutation(a: seq<Bytes>, b: seq<Bytes>)
    requires multiset(a) == multiset(b)
    ensures StreamsTotal(a) == StreamsTotal(b)
    decreases |a|
  {
    if |a| > 0 {
      var init, x := a[..|a| - 1], a[|a| - 1];
      assert x in multiset(b) by {
        assert a == init + [x];
        assert x in multiset(a);
      }
      var k :| 0 <= k < |b| && b[k] == x;
      var rest := b[..k] + b[k + 1..];
      assert multiset(init) == multiset(rest) by {
        assert b == b[..k] + [x] + b[k + 1..];
        assert a == init + [x];
        assert multiset(b) == multiset(b[..k]) + multiset([x]) + multiset(b[k + 1..]);
        assert multiset(rest) == multiset(b[..k]) + multiset(b[k + 1..]);
        assert multiset(a) == multiset(init) + multiset([x]);
        assert multiset(init) == multiset(a) - multiset{x};
        assert multiset(rest) == multiset(b) - multiset{x};
      }
      StreamsTotalPermutation(init, rest);
      StreamsTotalRemove(b, k);
    }
  }

  /** Reading one more byte of `s` after the bytes `pre` already printed. */
  lemma ScanStep(pre: Bytes, n: nat, s: Bytes, i: nat)
    requires i < |s|
    ensures GlyphCount(s[..i + 1]) == GlyphCount(s[..i]) + Tick(s[i])
    ensures pre + Progress(n, s[..i + 1]) == (pre + Progress(n, s[..i])) + Echo(n + GlyphCount(s[..i]), s[i])
    ensures !IsGlyph(s[i]) ==> pre + Progress(n, s[..i + 1]) == pre + Progress(n, s[..i])
  {
    ReadStep(n, s, i);
    BytesAssoc(pre, Progress(n, s[..i]), Echo(n + GlyphCount(s[..i]), s[i]));
    if !IsGlyph(s[i]) {
      assert Progress(n, s[..i + 1]) == Progress(n, s[..i]) + [];
    }
  }

  /** Bytes with no newline left hold no complete line. */
  lemma NoLineLeft(out: Bytes, i: nat)
    requires i <= |out| && IndexOf(out[i..], NL) == |out| - i
    ensures Total(Lines(out[i..])) == Zero
  {
  }

  /** The complete line that starts at `i` is the next one read. */
  lemma NextLineTotal(out: Bytes, i: nat, e: nat)
    requires i <= |out| && e == IndexOf(out[i..], NL) && e < |out| - i
    ensures Total(Lines(out[i..])) == Add(LineDelta(out[i..i + e + 1]), Total(Lines(out[i + e + 1..])))
  {
    var rest := out[i..];
    var line, tail := out[i..i + e + 1], Lines(out[i + e + 1..]);
    assert rest[..e + 1] == line;
    assert rest[e + 1..] == out[i + e + 1..];
    assert Lines(rest) == [line] + tail;
    assert ([line] + tail)[0] == line && ([line] + tail)[1..] == tail;
  }

  lemma BytesAssoc(a: Bytes, b: Bytes, c: Bytes)
    ensures (a + b) + c == a + (b + c)
  {
  }
}

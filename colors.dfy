/** The ANSI colour wrappers of colors.go: each one puts its text between a
    "select graphic rendition" sequence ESC [ <code> m and the reset ESC [ 0 m. */
module Colors {
  import opened Bytes

  /** The four foreground colours the program uses. */
  datatype Color = GreenFg | RedFg | CyanFg | YellowFg

  const Esc: byte := 27

  /** ESC [ 0 m: back to the terminal's default rendition. */
  const Reset: Bytes := [Esc, 91, 48, 109]   // ESC "[0m"

  /** The two-digit code of each colour, as the bytes '3' and a second digit. */
  function Code(c: Color): (d: Bytes)
    ensures |d| == 2
  {
    match c
    case GreenFg => [51, 50]   // "32"
    case RedFg => [51, 49]     // "31"
    case CyanFg => [51, 54]    // "36"
    case YellowFg => [51, 51]  // "33"
  }

  /** The colour a two-digit code selects, if it is one of the four. */
  function ColorOfCode(d: Bytes): (r: Option<Color>)
    ensures forall c: Color :: r == Some(c) <==> d == Code(c)
  {
    if d == Code(GreenFg) then Some(GreenFg)
    else if d == Code(RedFg) then Some(RedFg)
    else if d == Code(CyanFg) then Some(CyanFg)
    else if d == Code(YellowFg) then Some(YellowFg)
    else None
  }

  /** The escape sequence that switches to colour `c`. */
  function Prefix(c: Color): (p: Bytes)
    ensures |p| == 5
  {
    [Esc, 91] + Code(c) + [109]   // ESC "[" code "m"
  }

  /** `s` rendered in colour `c`: the shape shared by the four wrappers. */
  function Paint(c: Color, s: Bytes): (r: Bytes)
    ensures |r| == |s| + 9
  {
    Prefix(c) + s + Reset
  }

  /** The three parts of a coloured text: the escape sequence that selects
      the colour ('ESC', '[', the two-digit code, 'm'), the text, the reset. */
  lemma PaintParts(c: Color, s: Bytes)
    ensures var r := Paint(c, s);
            && r[..5] == Prefix(c) && r[5..|s| + 5] == s && r[|s| + 5..] == Reset
            && r[0] == Esc && r[1] as int == '[' as int && r[2..4] == Code(c) && r[4] as int == 'm' as int
  {
    var r := Paint(c, s);
    assert r == Prefix(c) + s + Reset;
    assert r[..5] == Prefix(c);
    assert r[2..4] == Prefix(c)[2..4];
  }

  /** Splits a coloured text back into its colour and its text. */
  function Unpaint(w: Bytes): Option<(Color, Bytes)> {
    if |w| >= 9 && w[..2] == Prefix(GreenFg)[..2] && w[4] == Prefix(GreenFg)[4]
       && w[|w| - 4..] == Reset && ColorOfCode(w[2..4]).Some?
    then Some((ColorOfCode(w[2..4]).value, w[5..|w| - 4]))
    else None
  }

  /** Unpaint inverts Paint. */
  lemma UnpaintPaint(c: Color, s: Bytes)
    ensures Unpaint(Paint(c, s)) == Some((c, s))
  {
    var w := Paint(c, s);
    assert w[..5][..2] == w[..2] && w[..5][2..4] == w[2..4];
    assert w[2..4] == Code(c);
  }

  function Green(s: Bytes): (r: Bytes)
    ensures Unpaint(r) == Some((GreenFg, s))
  {
    UnpaintPaint(GreenFg, s);
    Paint(GreenFg, s)
  }

  function Red(s: Bytes): (r: Bytes)
    ensures Unpaint(r) == Some((RedFg, s))
  {
    UnpaintPaint(RedFg, s);
    Paint(RedFg, s)
  }

  function Cyan(s: Bytes): (r: Bytes)
    ensures Unpaint(r) == Some((CyanFg, s))
  {
    UnpaintPaint(CyanFg, s);
    Paint(CyanFg, s)
  }

  function Yellow(s: Bytes): (r: Bytes)
    ensures Unpaint(r) == Some((YellowFg, s))
  {
    UnpaintPaint(YellowFg, s);
    Paint(YellowFg, s)
  }

  /** The bytes of each wrapper: ESC "[32m", ESC "[31m", ESC "[36m" or
      ESC "[33m", the text, then ESC "[0m". */
  lemma WrapperBytes(s: Bytes)
    ensures Green(s) == [27, 91, 51, 50, 109] + s + [27, 91, 48, 109]
    ensures Red(s) == [27, 91, 51, 49, 109] + s + [27, 91, 48, 109]
    ensures Cyan(s) == [27, 91, 51, 54, 109] + s + [27, 91, 48, 109]
    ensures Yellow(s) == [27, 91, 51, 51, 109] + s + [27, 91, 48, 109]
  {
    assert Prefix(GreenFg) == [27, 91, 51, 50, 109];
    assert Prefix(RedFg) == [27, 91, 51, 49, 109];
    assert Prefix(CyanFg) == [27, 91, 51, 54, 109];
    assert Prefix(YellowFg) == [27, 91, 51, 51, 109];
  }

  /** Two coloured texts are equal only when colour and text both are. */
  lemma PaintInjective(c: Color, s: Bytes, d: Color, t: Bytes)
    requires Paint(c, s) == Paint(d, t)
    ensures c == d && s == t
  {
    UnpaintPaint(c, s);
    UnpaintPaint(d, t);
  }

  /** The four wrappers give pairwise different results for the same text. */
  lemma WrappersDistinct(s: Bytes)
    ensures Green(s) != Red(s) && Green(s) != Cyan(s) && Green(s) != Yellow(s)
    ensures Red(s) != Cyan(s) && Red(s) != Yellow(s) && Cyan(s) != Yellow(s)
  {
  }
}

/** How `parseSuiteInfo` reads a line made of numbers, each followed by a
    space and some text: it reports the first number whose following text
    starts with the keyword. Used to show that the rendered summary and the
    summary lines of the progress format are read back as intended. */
module LineShape {
  import opened Bytes
  import opened SuiteInfo

  predicate StartsWith(s: Bytes, p: Bytes) {
    |p| <= |s| && s[..|p|] == p
  }

  /** No digit stands right before a space, and the text does not end in a
      digit: no match of `[0-9]+ <keyword>` can start inside it. */
  predicate Clean(x: Bytes) {
    && (forall k :: 0 <= k < |x| - 1 ==> !(IsDigit(x[k]) && x[k + 1] == Space))
    && (|x| > 0 ==> !IsDigit(x[|x| - 1]))
  }

  /** No byte of `x` is a decimal digit. */
  predicate NoDigits(x: Bytes) {
    forall k :: 0 <= k < |x| ==> !IsDigit(x[k])
  }

  lemma NoDigitsClean(x: Bytes)
    requires NoDigits(x)
    ensures Clean(x)
  {
  }

  /** A piece of a line: the numeral of `n`, a space and `text`; or literal `text`. */
  datatype Piece = Num(n: nat, text: Bytes) | Lit(text: Bytes)

  function Show(p: Piece): Bytes {
    match p
    case Num(n, t) => Decimal(n) + [Space] + t
    case Lit(t) => t
  }

  function Flatten(ps: seq<Piece>): Bytes {
    if ps == [] then [] else Show(ps[0]) + Flatten(ps[1..])
  }

  /** Whether `text` starts with `kw` does not depend on what follows `text`. */
  predicate Decisive(text: Bytes, kw: Bytes) {
    |kw| <= |text| || !StartsWith(kw, text)
  }

  /** Every piece is clean, and every number's text decides the keyword by itself. */
  predicate WellFormed(ps: seq<Piece>, kw: Bytes) {
    forall k :: 0 <= k < |ps| ==> Clean(ps[k].text) && (ps[k].Num? ==> Decisive(ps[k].text, kw))
  }

  /** The first number whose text starts with the keyword. */
  function FirstMatch(ps: seq<Piece>, kw: Bytes): (nat, bool) {
    if ps == [] then (0, false)
    else if ps[0].Num? && StartsWith(ps[0].text, kw) then (ps[0].n, true)
    else FirstMatch(ps[1..], kw)
  }

  /** Indexing a slice; stated without a precondition so that it can be used anywhere. */
  lemma SliceAt(s: Bytes, i: int, j: int, k: int)
    ensures 0 <= i <= k < j <= |s| ==> s[i..j][k - i] == s[k]
  {
  }

  /** No match starts inside a clean stretch `s[a..b]`. */
  lemma CleanSegment(s: Bytes, kw: Bytes, a: nat, b: nat)
    requires a <= b <= |s| && Clean(s[a..b])
    ensures forall i: nat, j: nat :: a <= i < b ==> !MatchesAt(s, kw, i, j)
  {
    forall i: nat, j: nat | a <= i < b && MatchesAt(s, kw, i, j) ensures false {
      if j < b {
        SliceAt(s, i, j, j - 1);
        SliceAt(s, a, b, j - 1);
        SliceAt(s, a, b, j);
      } else {
        SliceAt(s, i, j, b - 1);
        SliceAt(s, a, b, b - 1);
      }
    }
  }

  /** A match in `y` is a match in `x + y`, moved by `|x|`, and back. */
  lemma Shift(x: Bytes, y: Bytes, kw: Bytes, i: nat, j: nat)
    ensures MatchesAt(x + y, kw, |x| + i, |x| + j) <==> MatchesAt(y, kw, i, j)
  {
    var s := x + y;
    if i < j && |x| + j + 1 + |kw| <= |s| {
      assert s[|x| + i..|x| + j] == y[i..j];
      assert s[|x| + j + 1..|x| + j + 1 + |kw|] == y[j + 1..j + 1 + |kw|];
    }
  }

  /** Every match in `y` reappears in `x + y`, moved by `|x|`. */
  lemma ShiftAll(x: Bytes, y: Bytes, kw: Bytes)
    ensures forall i: nat, j: nat :: MatchesAt(y, kw, i, j) ==> MatchesAt(x + y, kw, |x| + i, |x| + j)
  {
    forall i: nat, j: nat | MatchesAt(y, kw, i, j) ensures MatchesAt(x + y, kw, |x| + i, |x| + j) {
      Shift(x, y, kw, i, j);
    }
  }

  /** When no match starts in `x`, the search reads `x + y` as it reads `y`. */
  lemma SkipPrefix(x: Bytes, y: Bytes, kw: Bytes)
    requires forall i: nat, j: nat :: i < |x| ==> !MatchesAt(x + y, kw, i, j)
    ensures ParseSuiteInfo(kw, x + y) == ParseSuiteInfo(kw, y)
  {
    var s := x + y;
    FindSpec(s, kw, 0);
    FindSpec(y, kw, 0);
    var r, q := Find(s, kw, 0), Find(y, kw, 0);
    if r.Some? {
      var a, b := r.value.0, r.value.1;
      LeftmostShifted(x, y, kw, a, b);
      var c, d := q.value.0, q.value.1;
      LeftmostUnique(y, kw, c, d, a - |x|, b - |x|);
      assert s[a..b] == y[c..d];
    } else {
      ShiftAll(x, y, kw);
    }
  }

  /** The leftmost match in `x + y`, when none starts in `x`, is the leftmost
      match in `y`, moved by `|x|`. */
  lemma LeftmostShifted(x: Bytes, y: Bytes, kw: Bytes, a: nat, b: nat)
    requires forall i: nat, j: nat :: i < |x| ==> !MatchesAt(x + y, kw, i, j)
    requires Leftmost(x + y, kw, a, b)
    ensures |x| <= a && |x| <= b && Leftmost(y, kw, a - |x|, b - |x|)
  {
    Shift(x, y, kw, a - |x|, b - |x|);
    forall i: nat, j: nat | MatchesAt(y, kw, i, j) ensures a - |x| <= i {
      Shift(x, y, kw, i, j);
    }
  }

  /** A match that starts in or right after a leading numeral is the
      numeral followed by the keyword. */
  lemma InNumeral(n: nat, rest: Bytes, kw: Bytes, i: nat, j: nat)
    requires i <= |Decimal(n)| && MatchesAt(Decimal(n) + [Space] + rest, kw, i, j)
    ensures i < |Decimal(n)| && j == |Decimal(n)| && StartsWith(rest, kw)
  {
    var d := Decimal(n);
    var s := d + [Space] + rest;
    assert s[|d|] == Space;
    SliceAt(s, i, j, |d|);
    SliceAt(s, 0, |d|, j);
    assert s[..|d|] == d;
    assert s[|d| + 1..] == rest;
    PrefixOfSlice(s, |d| + 1, kw);
  }

  /** The numeral followed by the keyword is the leftmost match. */
  lemma NumeralFirst(n: nat, rest: Bytes, kw: Bytes)
    requires StartsWith(rest, kw)
    ensures ParseSuiteInfo(kw, Decimal(n) + [Space] + rest) == (n, true)
  {
    var d := Decimal(n);
    var s := d + [Space] + rest;
    assert s[..|d|] == d && s[|d|] == Space && s[|d| + 1..] == rest;
    assert s[|d| + 1..|d| + 1 + |kw|] == rest[..|kw|];
    assert MatchesAt(s, kw, 0, |d|);
    var r := Find(s, kw, 0);
    EndOfRun(s, kw, 0, |d|);
    EndOfRun(s, kw, 0, r.value.1);
    DecimalRoundTrip(n);
  }

  /** The first token decides the search, or is skipped over. */
  lemma HeadToken(n: nat, text: Bytes, y: Bytes, kw: Bytes)
    requires Clean(text)
    ensures StartsWith(text + y, kw) ==>
              ParseSuiteInfo(kw, Decimal(n) + [Space] + text + y) == (n, true)
    ensures !StartsWith(text + y, kw) ==>
              ParseSuiteInfo(kw, Decimal(n) + [Space] + text + y) == ParseSuiteInfo(kw, y)
  {
    var d := Decimal(n);
    var x := d + [Space] + text;
    var s := x + y;
    assert s == d + [Space] + (text + y);
    if StartsWith(text + y, kw) {
      NumeralFirst(n, text + y, kw);
    } else {
      forall i: nat, j: nat | i <= |d| ensures !MatchesAt(s, kw, i, j) {
        if MatchesAt(s, kw, i, j) {
          InNumeral(n, text + y, kw, i, j);
        }
      }
      assert s[|d| + 1..|x|] == text;
      CleanSegment(s, kw, |d| + 1, |x|);
      SkipPrefix(x, y, kw);
    }
  }

  /** The keyword right after position `a` means the rest starts with it. */
  lemma PrefixOfSlice(s: Bytes, a: int, kw: Bytes)
    ensures 0 <= a && a + |kw| <= |s| && s[a..a + |kw|] == kw ==> StartsWith(s[a..], kw)
  {
    if 0 <= a && a + |kw| <= |s| {
      assert s[a..][..|kw|] == s[a..a + |kw|];
    }
  }

  /** A decisive text starts the rest of the line with the keyword exactly when it starts with it itself. */
  lemma Decide(text: Bytes, y: Bytes, kw: Bytes)
    requires Decisive(text, kw)
    ensures StartsWith(text + y, kw) <==> StartsWith(text, kw)
  {
    if |kw| <= |text| {
      assert (text + y)[..|kw|] == text[..|kw|];
    }
  }

  /** On a line of well-formed pieces the search reports the first number
      whose text starts with the keyword. */
  lemma {:induction false} ParsePieces(ps: seq<Piece>, kw: Bytes)
    requires WellFormed(ps, kw)
    ensures ParseSuiteInfo(kw, Flatten(ps)) == FirstMatch(ps, kw)
  {
    if ps != [] {
      var y := Flatten(ps[1..]);
      assert WellFormed(ps[1..], kw) by {
        forall k | 0 <= k < |ps| - 1 ensures ps[1..][k] == ps[k + 1] { }
      }
      assert Clean(ps[0].text);
      match ps[0]
      case Num(n, t) =>
        Decide(t, y, kw);
        HeadToken(n, t, y, kw);
        assert Flatten(ps) == Decimal(n) + [Space] + t + y;
        ParsePieces(ps[1..], kw);
      case Lit(t) =>
        var s := t + y;
        assert s[0..|t|] == t;
        CleanSegment(s, kw, 0, |t|);
        SkipPrefix(t, y, kw);
        ParsePieces(ps[1..], kw);
    }
  }

  lemma {:induction false} FlattenAppend(a: seq<Piece>, b: seq<Piece>)
    ensures Flatten(a + b) == Flatten(a) + Flatten(b)
  {
    if a != [] {
      assert (a + b)[1..] == a[1..] + b;
      FlattenAppend(a[1..], b);
    } else {
      assert a + b == b;
    }
  }

  lemma {:induction false} FirstMatchAppend(a: seq<Piece>, b: seq<Piece>, kw: Bytes)
    ensures FirstMatch(a + b, kw) == if FirstMatch(a, kw).1 then FirstMatch(a, kw) else FirstMatch(b, kw)
  {
    if a != [] {
      assert (a + b)[1..] == a[1..] + b;
      FirstMatchAppend(a[1..], b, kw);
    } else {
      assert a + b == b;
    }
  }

  /** Distinct bytes at some position rule out a prefix; stated without a precondition. */
  lemma DifferAt(s: Bytes, kw: Bytes, k: int)
    ensures 0 <= k < |s| && k < |kw| && s[k] != kw[k] ==> !StartsWith(s, kw)
  {
    if 0 <= k < |s| && k < |kw| && StartsWith(s, kw) {
      assert s[..|kw|][k] == s[k];
    }
  }

  /** Clean pieces make a clean whole. */
  lemma CleanConcat(x: Bytes, y: Bytes)
    requires Clean(x) && Clean(y)
    ensures Clean(x + y)
  {
    var s := x + y;
    forall k | 0 <= k < |s| - 1 && IsDigit(s[k]) ensures s[k + 1] != Space {
      if k < |x| - 1 {
        assert s[k] == x[k] && s[k + 1] == x[k + 1];
      } else if k >= |x| {
        assert s[k] == y[k - |x|] && s[k + 1] == y[k + 1 - |x|];
      }
    }
  }

  /** When the text is at least as long as the keyword, what follows it does not matter. */
  lemma StartsWithLong(x: Bytes, y: Bytes, kw: Bytes)
    requires |kw| <= |x|
    ensures StartsWith(x + y, kw) <==> StartsWith(x, kw)
  {
    assert (x + y)[..|kw|] == x[..|kw|];
  }
}

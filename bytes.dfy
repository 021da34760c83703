/** Bytes and decimal numerals.
    Go strings and the child's standard output are byte strings; the model
    writes both as sequences of `byte`. */
module Bytes {

  newtype byte = x: int | 0 <= x < 256

  type Bytes = seq<byte>

  datatype Option<T> = None | Some(value: T)

  const NL: byte := 10
  const Space: byte := 32

  predicate IsDigit(b: byte) {
    48 <= b <= 57
  }

  predicate AllDigits(d: Bytes) {
    forall k :: 0 <= k < |d| ==> IsDigit(d[k])
  }

  /** The value of a run of decimal digits, most significant first
      (what `strconv.Atoi` returns for such a run). */
  function DigitsValue(d: Bytes): nat
    requires AllDigits(d)
  {
    if d == [] then 0 else DigitsValue(d[..|d| - 1]) * 10 + (d[|d| - 1] as int - 48)
  }

  /** The decimal numeral of `n` without sign or leading zeros (Go's `%d`). */
  function Decimal(n: nat): (d: Bytes)
    ensures |d| > 0 && AllDigits(d)
  {
    if n < 10 then [(48 + n) as byte] else Decimal(n / 10) + [(48 + n % 10) as byte]
  }

  /** Reading a numeral back gives the number that was written. */
  lemma {:induction false} DecimalRoundTrip(n: nat)
    ensures DigitsValue(Decimal(n)) == n
  {
    if n >= 10 {
      var d := Decimal(n);
      assert d[..|d| - 1] == Decimal(n / 10);
      DecimalRoundTrip(n / 10);
    }
  }

  /** The position of the first `b` in `s`, or `|s|` when there is none. */
  function IndexOf(s: Bytes, b: byte): (k: nat)
    ensures k <= |s| && (k < |s| ==> s[k] == b)
  {
    if s == [] then 0 else if s[0] == b then 0 else 1 + IndexOf(s[1..], b)
  }

  /** No `b` comes before the position IndexOf reports. */
  lemma {:induction false} IndexOfBefore(s: Bytes, b: byte)
    ensures forall m :: 0 <= m < IndexOf(s, b) ==> s[m] != b
    decreases |s|
  {
    if s != [] && s[0] != b {
      IndexOfBefore(s[1..], b);
      forall m | 0 <= m < IndexOf(s, b) ensures s[m] != b {
        if m > 0 {
          assert s[m] == s[1..][m - 1];
        }
      }
    }
  }

  /** The complete lines of `s`, each with its terminating newline, in order;
      a last line with no newline is not among them. These are what repeated
      `ReadBytes('\n')` calls return before the first one that fails at the end
      of the input. */
  function Lines(s: Bytes): seq<Bytes>
    decreases |s|
  {
    var k := IndexOf(s, NL);
    if k == |s| then [] else [s[..k + 1]] + Lines(s[k + 1..])
  }

  /** A line followed by more bytes: the line comes first. */
  lemma LinesCons(line: Bytes, rest: Bytes)
    requires |line| > 0 && line[|line| - 1] == NL && NL !in line[..|line| - 1]
    ensures Lines(line + rest) == [line] + Lines(rest)
  {
    var s := line + rest;
    forall m | 0 <= m < |line| - 1 ensures s[m] != NL {
      assert s[m] == line[..|line| - 1][m];
    }
    IndexOfFirst(s, NL, |line| - 1);
    assert s[..|line|] == line && s[|line|..] == rest;
  }

  /** Bytes after the last newline never form a line. */
  lemma LinesNoNewline(s: Bytes)
    requires NL !in s
    ensures Lines(s) == []
  {
  }

  /** Bytes after the last complete line are not read as a line. */
  lemma {:induction false} LinesPartialTail(x: Bytes, p: Bytes)
    requires (x == [] || x[|x| - 1] == NL) && NL !in p
    ensures Lines(x + p) == Lines(x)
    decreases |x|
  {
    if x == [] {
      assert x + p == p;
      LinesNoNewline(p);
    } else {
      var k := IndexOf(x, NL);
      IndexOfBefore(x, NL);
      assert x[|x| - 1] == NL;
      assert k < |x|;
      var s := x + p;
      forall m | 0 <= m < k ensures s[m] != NL {
        assert s[m] == x[m];
      }
      assert s[k] == NL;
      IndexOfFirst(s, NL, k);
      var rest := x[k + 1..];
      assert s[..k + 1] == x[..k + 1];
      assert s[k + 1..] == rest + p;
      assert Lines(s) == [x[..k + 1]] + Lines(rest + p);
      assert rest == [] || rest[|rest| - 1] == NL;
      LinesPartialTail(rest, p);
    }
  }

  /** A position holding `b` with no `b` before it is where IndexOf stops. */
  lemma {:induction false} IndexOfFirst(s: Bytes, b: byte, k: nat)
    requires k < |s| && s[k] == b && forall m :: 0 <= m < k ==> s[m] != b
    ensures IndexOf(s, b) == k
    decreases k
  {
    if k > 0 {
      assert s[1..][k - 1] == s[k];
      forall m | 0 <= m < k - 1 ensures s[1..][m] != b {
        assert s[1..][m] == s[m + 1];
      }
      IndexOfFirst(s[1..], b, k - 1);
    }
  }
}

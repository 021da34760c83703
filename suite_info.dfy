/** `parseSuiteInfo` (main.go): the value of the leftmost match of the
    pattern `([0-9]+) <keyword>` in a summary line. The keywords the program
    uses hold no pattern metacharacters, so the keyword matches literally;
    nothing needs to follow it, so "scenario" also matches "scenarios". */
module SuiteInfo {
  import opened Bytes

  /** `s[i..j]` is a non-empty run of digits, `s[j]` a space and the keyword
      follows: the pattern matches `s[i..j + 1 + |kw|]`. */
  predicate MatchesAt(s: Bytes, kw: Bytes, i: nat, j: nat) {
    i < j && j + 1 + |kw| <= |s| && AllDigits(s[i..j]) && s[j] == Space && s[j + 1..j + 1 + |kw|] == kw
  }

  ghost predicate HasMatch(s: Bytes, kw: Bytes) {
    exists i, j :: MatchesAt(s, kw, i, j)
  }

  /** The match that starts leftmost: the one a regular-expression search reports. */
  ghost predicate Leftmost(s: Bytes, kw: Bytes, i: nat, j: nat) {
    MatchesAt(s, kw, i, j) && forall i', j' :: MatchesAt(s, kw, i', j') ==> i <= i'
  }

  /** The end of the digit run that starts at `i`. */
  function RunEnd(s: Bytes, i: nat): (j: nat)
    requires i <= |s|
    ensures i <= j <= |s| && AllDigits(s[i..j]) && (j == |s| || !IsDigit(s[j]))
    decreases |s| - i
  {
    if i < |s| && IsDigit(s[i]) then
      var j := RunEnd(s, i + 1);
      assert s[i..j] == [s[i]] + s[i + 1..j];
      j
    else i
  }

  /** A digit run that starts at `i` can only be followed by its space at its end. */
  lemma EndOfRun(s: Bytes, kw: Bytes, i: nat, j: nat)
    requires i <= |s| && MatchesAt(s, kw, i, j)
    ensures j == RunEnd(s, i)
  {
    var e := RunEnd(s, i);
    forall k | i <= k < j ensures IsDigit(s[k]) {
      assert s[i..j][k - i] == s[k];
    }
    forall k | i <= k < e ensures IsDigit(s[k]) {
      assert s[i..e][k - i] == s[k];
    }
  }

  /** A search from `from` onwards, skipping a whole digit run when no match starts at its head. */
  function Find(s: Bytes, kw: Bytes, from: nat): (r: Option<(nat, nat)>)
    requires from <= |s|
    decreases |s| - from
  {
    if from == |s| then
      None
    else if !IsDigit(s[from]) then
      Find(s, kw, from + 1)
    else
      var e := RunEnd(s, from);
      if e + 1 + |kw| <= |s| && s[e] == Space && s[e + 1..e + 1 + |kw|] == kw then
        Some((from, e))
      else
        Find(s, kw, e)
  }

  /** The search reports a match at or after `from` with none before it, or
      reports nothing when no match starts at or after `from`. */
  lemma FindSpec(s: Bytes, kw: Bytes, from: nat)
    requires from <= |s|
    ensures var r := Find(s, kw, from);
            && (r.Some? ==> from <= r.value.0 && MatchesAt(s, kw, r.value.0, r.value.1))
            && (r.Some? ==> forall i, j :: from <= i < r.value.0 ==> !MatchesAt(s, kw, i, j))
            && (r.None? ==> forall i, j :: from <= i ==> !MatchesAt(s, kw, i, j))
  {
    FindFound(s, kw, from);
    FindMissing(s, kw, from);
  }

  /** A reported match is a match, and none starts between `from` and it. */
  lemma {:induction false} FindFound(s: Bytes, kw: Bytes, from: nat)
    requires from <= |s|
    ensures var r := Find(s, kw, from);
            r.Some? ==> from <= r.value.0 && MatchesAt(s, kw, r.value.0, r.value.1) &&
                        forall i, j :: from <= i < r.value.0 ==> !MatchesAt(s, kw, i, j)
    decreases |s| - from
  {
    if from == |s| {
    } else if !IsDigit(s[from]) {
      NoMatchAtNonDigit(s, kw, from);
      FindFound(s, kw, from + 1);
    } else {
      var e := RunEnd(s, from);
      if !(e + 1 + |kw| <= |s| && s[e] == Space && s[e + 1..e + 1 + |kw|] == kw) {
        NoMatchInRun(s, kw, from);
        FindFound(s, kw, e);
      }
    }
  }

  /** When nothing is reported, no match starts at or after `from`. */
  lemma {:induction false} FindMissing(s: Bytes, kw: Bytes, from: nat)
    requires from <= |s|
    ensures Find(s, kw, from).None? ==> forall i, j :: from <= i ==> !MatchesAt(s, kw, i, j)
    decreases |s| - from
  {
    if from == |s| {
    } else if !IsDigit(s[from]) {
      NoMatchAtNonDigit(s, kw, from);
      FindMissing(s, kw, from + 1);
    } else {
      var e := RunEnd(s, from);
      if !(e + 1 + |kw| <= |s| && s[e] == Space && s[e + 1..e + 1 + |kw|] == kw) {
        NoMatchInRun(s, kw, from);
        FindMissing(s, kw, e);
      }
    }
  }

  /** No match starts at a byte that is not a digit. */
  lemma NoMatchAtNonDigit(s: Bytes, kw: Bytes, from: nat)
    requires from < |s| && !IsDigit(s[from])
    ensures forall j :: !MatchesAt(s, kw, from, j)
  {
    forall j | from < j <= |s| ensures s[from..j][0] == s[from] { }
  }

  /** When the keyword does not follow a digit run, no match starts inside it. */
  lemma NoMatchInRun(s: Bytes, kw: Bytes, from: nat)
    requires from <= |s|
    requires var e := RunEnd(s, from);
             !(e + 1 + |kw| <= |s| && s[e] == Space && s[e + 1..e + 1 + |kw|] == kw)
    ensures forall i, j :: from <= i < RunEnd(s, from) ==> !MatchesAt(s, kw, i, j)
  {
    var e := RunEnd(s, from);
    forall i, j | from <= i < e && MatchesAt(s, kw, i, j) ensures false {
      SameRunEnd(s, from, i);
      EndOfRun(s, kw, i, j);
    }
  }

  /** Every position inside a digit run shares the run's end. */
  lemma {:induction false} SameRunEnd(s: Bytes, from: nat, i: nat)
    requires from <= |s| && from <= i <= RunEnd(s, from)
    ensures RunEnd(s, i) == RunEnd(s, from)
    decreases i - from
  {
    if from < i {
      assert s[from..RunEnd(s, from)][0] == s[from];
      SameRunEnd(s, from + 1, i);
    }
  }

  /** parseSuiteInfo: `(n, true)` with `n` the value of the digit run of the
      leftmost match, or `(0, false)` when nothing matches. */
  function ParseSuiteInfo(kw: Bytes, line: Bytes): (r: (nat, bool)) {
    FindSpec(line, kw, 0);
    match Find(line, kw, 0)
    case Some((i, j)) => (DigitsValue(line[i..j]), true)
    case None => (0, false)
  }

  /** parseSuiteInfo reports a number exactly when the pattern matches, and
      then the value of the digits of the leftmost match; otherwise zero. */
  lemma ParseSuiteInfoSpec(kw: Bytes, line: Bytes)
    ensures var r := ParseSuiteInfo(kw, line);
            && (r.1 <==> HasMatch(line, kw))
            && (r.1 ==> exists i: nat, j: nat :: Leftmost(line, kw, i, j) && AllDigits(line[i..j]) && r.0 == DigitsValue(line[i..j]))
            && (!r.1 ==> r.0 == 0)
  {
    FindSpec(line, kw, 0);
  }

  /** The leftmost match is unique. */
  lemma LeftmostUnique(s: Bytes, kw: Bytes, i: nat, j: nat, i': nat, j': nat)
    requires Leftmost(s, kw, i, j) && Leftmost(s, kw, i', j')
    ensures i == i' && j == j'
  {
    EndOfRun(s, kw, i, j);
    EndOfRun(s, kw, i', j');
  }

  /** The leftmost match starts where its digit run starts: the reported
      number is the whole run, not a tail of it. */
  lemma LeftmostIsWholeRun(s: Bytes, kw: Bytes, i: nat, j: nat)
    requires Leftmost(s, kw, i, j)
    ensures i == 0 || !IsDigit(s[i - 1])
  {
    if i > 0 && IsDigit(s[i - 1]) {
      assert s[i - 1..j] == [s[i - 1]] + s[i..j];
      assert MatchesAt(s, kw, i - 1, j);
    }
  }
}

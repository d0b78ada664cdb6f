/** The string primitives the form builder calls: `trim`, `toLowerCase`,
    `replace(/\s+/g, …)`, `startsWith` and number-to-decimal conversion.
    Whitespace and case are restricted to ASCII: tab, line feed, vertical tab,
    form feed, carriage return and space, and the letters A-Z. */
module JsStrings {
  import opened Seqs

  predicate IsSpace(c: char) {
    c == ' ' || c == '\t' || c == '\n' || c == '\r' || c as int == 11 || c as int == 12
  }

  predicate IsUpper(c: char) {
    'A' <= c <= 'Z'
  }

  predicate IsDigit(c: char) {
    '0' <= c <= '9'
  }

  predicate NoSpace(s: string) {
    forall i :: 0 <= i < |s| ==> !IsSpace(s[i])
  }

  predicate NoUpper(s: string) {
    forall i :: 0 <= i < |s| ==> !IsUpper(s[i])
  }

  predicate AllSpace(s: string) {
    forall i :: 0 <= i < |s| ==> IsSpace(s[i])
  }

  predicate AllDigits(s: string) {
    forall i :: 0 <= i < |s| ==> IsDigit(s[i])
  }

  /** Neither end of `s` is whitespace. */
  predicate Trimmed(s: string) {
    s == [] || (!IsSpace(s[0]) && !IsSpace(s[|s| - 1]))
  }

  function LowerChar(c: char): (r: char)
    ensures !IsUpper(r)
    ensures IsSpace(r) <==> IsSpace(c)
    ensures !IsUpper(c) ==> r == c
    ensures IsUpper(c) ==> r as int == c as int + 32
  {
    if IsUpper(c) then (c as int + 32) as char else c
  }

  /** `String.prototype.toLowerCase` on ASCII letters. */
  function ToLower(s: string): (r: string)
    ensures |r| == |s| && NoUpper(r)
    ensures forall i :: 0 <= i < |s| ==> r[i] == LowerChar(s[i])
  {
    seq(|s|, i requires 0 <= i < |s| => LowerChar(s[i]))
  }

  lemma ToLowerKeepsSpaces(s: string)
    ensures NoSpace(s) ==> NoSpace(ToLower(s))
  {
  }

  /** Lower-casing works character by character, so it distributes over
      concatenation. */
  lemma ToLowerAppend(a: string, b: string)
    ensures ToLower(a + b) == ToLower(a) + ToLower(b)
  {
    assert forall i :: 0 <= i < |a + b| ==> ToLower(a + b)[i] == (ToLower(a) + ToLower(b))[i];
  }

  lemma ToLowerOfLower(s: string)
    requires NoUpper(s)
    ensures ToLower(s) == s
  {
  }

  function TrimStart(s: string): (r: string)
    ensures |r| <= |s| && r == s[|s| - |r|..]
    ensures AllSpace(s[..|s| - |r|])
    ensures r == [] || !IsSpace(r[0])
  {
    if s != [] && IsSpace(s[0]) then TrimStart(s[1..]) else s
  }

  function TrimEnd(s: string): (r: string)
    ensures |r| <= |s| && r == s[..|r|]
    ensures AllSpace(s[|r|..])
    ensures r == [] || !IsSpace(r[|r| - 1])
  {
    if s != [] && IsSpace(s[|s| - 1]) then TrimEnd(s[..|s| - 1]) else s
  }

  /** `String.prototype.trim`. */
  function Trim(s: string): (r: string)
  {
    TrimEnd(TrimStart(s))
  }

  /** The bounds of the slice of `s` that `trim` keeps. */
  lemma TrimBounds(s: string) returns (a: nat, b: nat)
    ensures a <= b <= |s| && Trim(s) == s[a..b]
    ensures AllSpace(s[..a]) && AllSpace(s[b..])
  {
    var t := TrimStart(s);
    a := |s| - |t|;
    assert t == s[a..];
    b := TrimEndOfSuffix(s, a);
  }

  /** `TrimEnd` of the suffix of `s` from `a` is the slice of `s` from `a`
      to `b`, and everything of `s` after `b` is whitespace. */
  lemma TrimEndOfSuffix(s: string, a: nat) returns (b: nat)
    requires a <= |s|
    ensures a <= b <= |s| && TrimEnd(s[a..]) == s[a..b] && AllSpace(s[b..])
  {
    var t := s[a..];
    var r := TrimEnd(t);
    b := a + |r|;
    assert r == t[..|r|];
    assert t[..|r|] == s[a..b];
    assert t[|r|..] == s[b..];
  }

  /** `trim` removes only whitespace, and only from the two ends: the result
      is a slice of `s` whose neighbours in `s` are all whitespace. */
  lemma TrimSpec(s: string)
    ensures Trimmed(Trim(s))
    ensures exists a, b :: 0 <= a <= b <= |s| && Trim(s) == s[a..b] && AllSpace(s[..a]) && AllSpace(s[b..])
  {
    var t := TrimStart(s);
    var r := TrimEnd(t);
    if r != [] {
      assert r[0] == t[0];
    }
    var a, b := TrimBounds(s);
  }

  /** Trimming a string with no whitespace at either end changes nothing. */
  lemma {:induction false} TrimOfTrimmed(s: string)
    requires Trimmed(s)
    ensures Trim(s) == s
  {
  }

  lemma TrimIdempotent(s: string)
    ensures Trim(Trim(s)) == Trim(s)
  {
    TrimSpec(s);
    TrimOfTrimmed(Trim(s));
  }

  predicate NotSpace(c: char) {
    !IsSpace(c)
  }

  /** `s.replace(/\s+/g, "")`: every whitespace character removed, the
      others kept in order. */
  function RemoveSpaces(s: string): (r: string)
    ensures NoSpace(r) && |r| <= |s|
    ensures r == Filter(s, NotSpace)
  {
    if s == [] then []
    else (if IsSpace(s[0]) then [] else [s[0]]) + RemoveSpaces(s[1..])
  }

  lemma {:induction false} RemoveSpacesKeepsNoUpper(s: string)
    requires NoUpper(s)
    ensures NoUpper(RemoveSpaces(s))
  {
    if s != [] {
      RemoveSpacesKeepsNoUpper(s[1..]);
    }
  }

  lemma {:induction false} RemoveSpacesOfNoSpace(s: string)
    requires NoSpace(s)
    ensures RemoveSpaces(s) == s
  {
    if s != [] {
      RemoveSpacesOfNoSpace(s[1..]);
    }
  }

  function DropSpaces(s: string): (r: string)
    ensures |r| <= |s| && r == s[|s| - |r|..]
    ensures r == [] || !IsSpace(r[0])
  {
    if s != [] && IsSpace(s[0]) then DropSpaces(s[1..]) else s
  }

  /** A run of whitespace in front of `b` is skipped entirely. */
  lemma {:induction false} DropSpacesOfSpaces(w: string, b: string)
    requires AllSpace(w)
    ensures DropSpaces(w + b) == DropSpaces(b)
  {
    if w == [] {
      assert w + b == b;
    } else {
      assert (w + b)[1..] == w[1..] + b;
      DropSpacesOfSpaces(w[1..], b);
    }
  }

  /** Skipping the leading whitespace of `a + b` stops inside `a` when `a`
      holds anything else, at index `i` or before. */
  lemma {:induction false} DropSpacesAppend(a: string, b: string, i: nat)
    requires i < |a| && !IsSpace(a[i])
    ensures DropSpaces(a) != [] && DropSpaces(a + b) == DropSpaces(a) + b
  {
    if IsSpace(a[0]) {
      assert (a + b)[1..] == a[1..] + b;
      DropSpacesAppend(a[1..], b, i - 1);
    }
  }

  /** After a leading whitespace run, what is left of `a` is shorter and, if
      anything is left, ends where `a` ends. */
  lemma DropSpacesRest(a: string)
    requires a != [] && IsSpace(a[0]) && DropSpaces(a) != []
    ensures |DropSpaces(a)| < |a|
    ensures DropSpaces(a)[|DropSpaces(a)| - 1] == a[|a| - 1]
  {
    var d := DropSpaces(a);
    assert d == DropSpaces(a[1..]);
    assert d == a[|a| - |d|..];
  }

  /** `s.replace(/\s+/g, sep)`: each maximal run of whitespace becomes `sep`. */
  function ReplaceSpaceRuns(s: string, sep: char): (r: string)
    requires !IsSpace(sep)
    ensures NoSpace(r) && |r| <= |s|
    decreases |s|
  {
    if s == [] then []
    else if IsSpace(s[0]) then [sep] + ReplaceSpaceRuns(DropSpaces(s), sep)
    else [s[0]] + ReplaceSpaceRuns(s[1..], sep)
  }

  /** No whitespace run spans the boundary between `a` and `b`, so the two
      are replaced separately. */
  lemma {:induction false} ReplaceSpaceRunsAppend(a: string, b: string, sep: char)
    requires !IsSpace(sep)
    requires a == [] || b == [] || !IsSpace(a[|a| - 1]) || !IsSpace(b[0])
    ensures ReplaceSpaceRuns(a + b, sep) == ReplaceSpaceRuns(a, sep) + ReplaceSpaceRuns(b, sep)
    decreases |a|
  {
    if a == [] || b == [] {
      ReplaceSpaceRunsAppendEmpty(a, b, sep);
    } else if !IsSpace(a[0]) {
      var t := a[1..];
      assert t == [] || t[|t| - 1] == a[|a| - 1];
      ReplaceSpaceRunsAppend(t, b, sep);
      ReplaceSpaceRunsAppendChar(a, b, sep);
    } else if AllSpace(a) {
      ReplaceSpaceRunsAppendSpaces(a, b, sep);
    } else {
      var i :| 0 <= i < |a| && !IsSpace(a[i]);
      DropSpacesAppend(a, b, i);
      DropSpacesRest(a);
      ReplaceSpaceRunsAppend(DropSpaces(a), b, sep);
      ReplaceSpaceRunsAppendRun(a, b, sep);
    }
  }

  /** `ReplaceSpaceRunsAppend` when one side is empty. */
  lemma ReplaceSpaceRunsAppendEmpty(a: string, b: string, sep: char)
    requires !IsSpace(sep) && (a == [] || b == [])
    ensures ReplaceSpaceRuns(a + b, sep) == ReplaceSpaceRuns(a, sep) + ReplaceSpaceRuns(b, sep)
  {
    if a == [] {
      assert a + b == b;
    } else {
      assert a + b == a;
    }
  }

  /** `ReplaceSpaceRunsAppend` when `a` is one whitespace run. */
  lemma ReplaceSpaceRunsAppendSpaces(a: string, b: string, sep: char)
    requires !IsSpace(sep) && a != [] && AllSpace(a)
    requires b == [] || !IsSpace(b[0])
    ensures ReplaceSpaceRuns(a + b, sep) == ReplaceSpaceRuns(a, sep) + ReplaceSpaceRuns(b, sep)
  {
    ReplaceSpaceRunsOfRun(a, b, sep);
    ReplaceSpaceRunsOfRun(a, [], sep);
    assert a + [] == a;
  }

  /** `ReplaceSpaceRunsAppend` for a leading character that is kept. */
  lemma ReplaceSpaceRunsAppendChar(a: string, b: string, sep: char)
    requires !IsSpace(sep) && a != [] && !IsSpace(a[0])
    requires ReplaceSpaceRuns(a[1..] + b, sep) == ReplaceSpaceRuns(a[1..], sep) + ReplaceSpaceRuns(b, sep)
    ensures ReplaceSpaceRuns(a + b, sep) == ReplaceSpaceRuns(a, sep) + ReplaceSpaceRuns(b, sep)
  {
    var t := a[1..];
    assert (a + b)[0] == a[0] && (a + b)[1..] == t + b;
    assert ReplaceSpaceRuns(a + b, sep) == [a[0]] + ReplaceSpaceRuns(t + b, sep);
    assert ReplaceSpaceRuns(a, sep) == [a[0]] + ReplaceSpaceRuns(t, sep);
    ConcatAssoc([a[0]], ReplaceSpaceRuns(t, sep), ReplaceSpaceRuns(b, sep));
  }

  /** `ReplaceSpaceRunsAppend` for a leading whitespace run that ends inside
      `a`. */
  lemma ReplaceSpaceRunsAppendRun(a: string, b: string, sep: char)
    requires !IsSpace(sep) && a != [] && IsSpace(a[0])
    requires DropSpaces(a + b) == DropSpaces(a) + b
    requires ReplaceSpaceRuns(DropSpaces(a) + b, sep) == ReplaceSpaceRuns(DropSpaces(a), sep) + ReplaceSpaceRuns(b, sep)
    ensures ReplaceSpaceRuns(a + b, sep) == ReplaceSpaceRuns(a, sep) + ReplaceSpaceRuns(b, sep)
  {
    ConcatAssoc([sep], ReplaceSpaceRuns(DropSpaces(a), sep), ReplaceSpaceRuns(b, sep));
  }

  /** A maximal run of whitespace becomes one `sep`. */
  lemma ReplaceSpaceRunsOfRun(w: string, b: string, sep: char)
    requires !IsSpace(sep) && w != [] && AllSpace(w)
    requires b == [] || !IsSpace(b[0])
    ensures ReplaceSpaceRuns(w + b, sep) == [sep] + ReplaceSpaceRuns(b, sep)
  {
    DropSpacesOfSpaces(w, b);
  }

  /** The text on either side of a maximal whitespace run is replaced on its
      own and the run becomes one `sep`. With `ReplaceSpaceRunsOfNoSpace`
      this fixes the result on every input. */
  lemma ReplaceSpaceRunsSplit(a: string, w: string, b: string, sep: char)
    requires !IsSpace(sep) && w != [] && AllSpace(w)
    requires a == [] || !IsSpace(a[|a| - 1])
    requires b == [] || !IsSpace(b[0])
    ensures ReplaceSpaceRuns(a + w + b, sep) == ReplaceSpaceRuns(a, sep) + [sep] + ReplaceSpaceRuns(b, sep)
  {
    ConcatAssoc(a, w, b);
    ReplaceSpaceRunsAppend(a, w + b, sep);
    ReplaceSpaceRunsOfRun(w, b, sep);
    ConcatAssoc(ReplaceSpaceRuns(a, sep), [sep], ReplaceSpaceRuns(b, sep));
  }

  lemma {:induction false} ReplaceSpaceRunsKeepsNoUpper(s: string, sep: char)
    requires !IsSpace(sep) && !IsUpper(sep) && NoUpper(s)
    ensures NoUpper(ReplaceSpaceRuns(s, sep))
    decreases |s|
  {
    if s != [] {
      if IsSpace(s[0]) {
        ReplaceSpaceRunsKeepsNoUpper(DropSpaces(s), sep);
      } else {
        ReplaceSpaceRunsKeepsNoUpper(s[1..], sep);
      }
    }
  }

  lemma {:induction false} ReplaceSpaceRunsOfNoSpace(s: string, sep: char)
    requires !IsSpace(sep) && NoSpace(s)
    ensures ReplaceSpaceRuns(s, sep) == s
  {
    if s != [] {
      ReplaceSpaceRunsOfNoSpace(s[1..], sep);
    }
  }

  predicate StartsWith(s: string, prefix: string) {
    |prefix| <= |s| && s[..|prefix|] == prefix
  }

  function DigitChar(d: nat): (c: char)
    requires d < 10
    ensures IsDigit(c)
  {
    ('0' as int + d) as char
  }

  function DigitValue(c: char): (d: nat)
    requires IsDigit(c)
    ensures d < 10
  {
    c as int - '0' as int
  }

  /** The decimal text of `n`, as a template literal `${n}` writes it. */
  function NatToString(n: nat): (r: string)
    ensures |r| > 0 && AllDigits(r)
  {
    if n < 10 then [DigitChar(n)] else NatToString(n / 10) + [DigitChar(n % 10)]
  }

  /** The number a string of decimal digits denotes. */
  function DecimalValue(s: string): nat
    requires AllDigits(s)
  {
    if s == [] then 0 else 10 * DecimalValue(s[..|s| - 1]) + DigitValue(s[|s| - 1])
  }

  /** Reading back the decimal text of `n` gives `n`. */
  lemma {:induction false} DecimalRoundTrip(n: nat)
    ensures DecimalValue(NatToString(n)) == n
  {
    var s := NatToString(n);
    if n >= 10 {
      DecimalRoundTrip(n / 10);
      assert s[..|s| - 1] == NatToString(n / 10);
    }
  }

  /** Distinct numbers have distinct decimal texts. */
  lemma NatToStringInjective(m: nat, n: nat)
    requires m != n
    ensures NatToString(m) != NatToString(n)
  {
    DecimalRoundTrip(m);
    DecimalRoundTrip(n);
  }
}

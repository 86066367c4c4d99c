/**
 * The ECMAScript string operations the pipeline relies on, over `seq<char>`:
 * character classes of regular expressions, `startsWith`/`includes`/`indexOf`,
 * `split` and `join`, `replaceAll` with a literal pattern, `trim`,
 * `toLowerCase` (ASCII letters) and decimal conversion of numbers.
 */
module Strings {
  import opened Wrappers

  // ---------------------------------------------------------------------------
  // Character classes

  /** The regular-expression class `\d`. */
  predicate IsDigit(c: char) { '0' <= c <= '9' }

  /** ECMAScript LineTerminator: the characters that `.` in a regular expression does not match. */
  predicate IsLineTerminator(c: char) {
    c == '\n' || c == '\r' || c == '\U{2028}' || c == '\U{2029}'
  }

  /** ECMAScript WhiteSpace or LineTerminator: the class `\s`, and what `trim` removes. */
  predicate IsSpace(c: char) {
    || c == '\t' || c == '\U{000B}' || c == '\U{000C}' || c == ' '
    || c == '\U{00A0}' || c == '\U{FEFF}' || c == '\U{1680}'
    || ('\U{2000}' <= c <= '\U{200A}')
    || c == '\U{202F}' || c == '\U{205F}' || c == '\U{3000}'
    || IsLineTerminator(c)
  }

  predicate AllDigits(s: string) {
    forall i :: 0 <= i < |s| ==> IsDigit(s[i])
  }

  predicate AllSpaces(s: string) {
    forall i :: 0 <= i < |s| ==> IsSpace(s[i])
  }

  /** `c` occurs nowhere in `s`. */
  predicate Lacks(s: string, c: char) {
    forall i :: 0 <= i < |s| ==> s[i] != c
  }

  /** A concatenation lacks what both of its parts lack. */
  lemma LacksConcat(a: string, b: string, c: char)
    requires Lacks(a, c) && Lacks(b, c)
    ensures Lacks(a + b, c)
  {
    assert forall i :: |a| <= i < |a + b| ==> (a + b)[i] == b[i - |a|];
  }

  // ---------------------------------------------------------------------------
  // Occurrences

  predicate StartsWith(s: string, p: string) {
    |p| <= |s| && s[..|p|] == p
  }

  /** `p` occurs in `s` starting at index `i`. */
  predicate OccursAt(s: string, p: string, i: nat) {
    i + |p| <= |s| && s[i..i + |p|] == p
  }

  /** `String.prototype.includes`. */
  predicate Contains(s: string, p: string)
    decreases |s|
  {
    StartsWith(s, p) || (|s| > 0 && Contains(s[1..], p))
  }

  lemma OccursAtShift(s: string, p: string, i: nat)
    requires |s| > 0
    ensures OccursAt(s[1..], p, i) <==> OccursAt(s, p, i + 1)
  {
    if i + 1 + |p| <= |s| {
      assert s[1..][i..i + |p|] == s[i + 1..i + 1 + |p|];
    }
  }

  lemma StartsWithOccursAt(s: string, p: string, i: nat)
    requires i <= |s|
    ensures StartsWith(s[i..], p) <==> OccursAt(s, p, i)
  {
    if i + |p| <= |s| {
      assert s[i..][..|p|] == s[i..i + |p|];
    }
  }

  /** `Contains` holds exactly when there is an index at which `p` occurs. */
  lemma {:induction false} ContainsIff(s: string, p: string)
    ensures Contains(s, p) <==> exists i: nat :: OccursAt(s, p, i)
    decreases |s|
  {
    StartsWithOccursAt(s, p, 0);
    assert s[0..] == s;
    if |s| > 0 {
      ContainsIff(s[1..], p);
      if Contains(s[1..], p) {
        var i: nat :| OccursAt(s[1..], p, i);
        OccursAtShift(s, p, i);
      }
      forall i: nat | OccursAt(s, p, i) && i > 0
        ensures Contains(s[1..], p)
      {
        OccursAtShift(s, p, i - 1);
      }
    } else {
      forall i: nat | OccursAt(s, p, i) ensures i == 0 { }
    }
  }

  lemma ContainsAt(s: string, p: string, i: nat)
    requires OccursAt(s, p, i)
    ensures Contains(s, p)
  {
    ContainsIff(s, p);
  }

  lemma ContainsConcat(a: string, b: string, p: string)
    requires Contains(a, p) || Contains(b, p)
    ensures Contains(a + b, p)
  {
    ContainsIff(a, p);
    ContainsIff(b, p);
    if Contains(a, p) {
      var i: nat :| OccursAt(a, p, i);
      assert (a + b)[i..i + |p|] == a[i..i + |p|];
      ContainsAt(a + b, p, i);
    } else {
      var i: nat :| OccursAt(b, p, i);
      assert (a + b)[|a| + i..|a| + i + |p|] == b[i..i + |p|];
      ContainsAt(a + b, p, |a| + i);
    }
  }

  /**
   * `s.indexOf(p, from)`: the first index at or after `from` where `p`
   * occurs, or `None`.
   */
  function IndexOf(s: string, p: string, from: nat): (r: Option<nat>)
    ensures r.Some? ==> from <= r.value && OccursAt(s, p, r.value)
    ensures r.Some? ==> forall j: nat :: from <= j < r.value ==> !OccursAt(s, p, j)
    ensures r.None? ==> forall j: nat :: from <= j ==> !OccursAt(s, p, j)
    decreases |s| - from
  {
    if from + |p| > |s| then None
    else if s[from..from + |p|] == p then Some(from)
    else IndexOf(s, p, from + 1)
  }

  // ---------------------------------------------------------------------------
  // split, join, replaceAll

  /** Concatenation regroups; stated once so that proofs need not compare elements. */
  lemma ConcatAssoc(a: string, b: string, c: string)
    ensures a + (b + c) == (a + b) + c
  {
  }

  /** `parts.join(sep)`. */
  function Join(parts: seq<string>, sep: string): string
    decreases |parts|
  {
    if |parts| == 0 then ""
    else if |parts| == 1 then parts[0]
    else parts[0] + sep + Join(parts[1..], sep)
  }

  lemma {:induction false} JoinSnoc(parts: seq<string>, x: string, sep: string)
    ensures Join(parts + [x], sep) == if parts == [] then x else Join(parts, sep) + sep + x
    decreases |parts|
  {
    if |parts| == 1 {
      assert parts + [x] == [parts[0], x];
      assert [parts[0], x][1..] == [x];
    } else if |parts| > 1 {
      assert (parts + [x])[1..] == parts[1..] + [x];
      JoinSnoc(parts[1..], x, sep);
    }
  }

  /** `s.split(sep)` for a non-empty literal separator. */
  function Split(s: string, sep: string): (r: seq<string>)
    requires |sep| > 0
    ensures |r| >= 1
    decreases |s|
  {
    match IndexOf(s, sep, 0)
    case None => [s]
    case Some(i) => [s[..i]] + Split(s[i + |sep|..], sep)
  }

  /** A prefix that ends before the first occurrence holds no occurrence. */
  lemma PrefixLacks(s: string, p: string, i: nat)
    requires |p| > 0 && i <= |s| && forall j: nat :: j < i ==> !OccursAt(s, p, j)
    ensures IndexOf(s[..i], p, 0) == None
  {
    forall j: nat | OccursAt(s[..i], p, j)
      ensures false
    {
      assert s[..i][j..j + |p|] == s[j..j + |p|];
      assert OccursAt(s, p, j);
    }
  }

  /**
   * `split` cuts at every occurrence: no piece holds the separator, so the
   * pieces, with `JoinSplit`, are exactly the text between occurrences.
   */
  lemma {:induction false} SplitPiecesLack(s: string, sep: string)
    requires |sep| > 0
    ensures forall piece :: piece in Split(s, sep) ==> IndexOf(piece, sep, 0) == None
    decreases |s|
  {
    match IndexOf(s, sep, 0)
    case None =>
    case Some(i) =>
      SplitPiecesLack(s[i + |sep|..], sep);
      PrefixLacks(s, sep, i);
  }

  /** Splitting and joining on the same separator gives the string back. */
  lemma {:induction false} JoinSplit(s: string, sep: string)
    requires |sep| > 0
    ensures Join(Split(s, sep), sep) == s
    decreases |s|
  {
    match IndexOf(s, sep, 0)
    case None =>
    case Some(i) =>
      var rest := s[i + |sep|..];
      var tail := Split(rest, sep);
      JoinSplit(rest, sep);
      assert Split(s, sep) == [s[..i]] + tail;
      assert ([s[..i]] + tail)[1..] == tail;
      assert Join([s[..i]] + tail, sep) == s[..i] + sep + Join(tail, sep);
      assert s[i..i + |sep|] == sep;
      assert s == s[..i] + s[i..i + |sep|] + rest;
  }

  /**
   * `s.replaceAll(p, r)` with a literal pattern and a replacement without `$`
   * patterns: the leftmost non-overlapping occurrences are replaced. The empty
   * pattern occurs before every character and at the end.
   */
  function ReplaceAll(s: string, p: string, r: string): string
    decreases |s|
  {
    if p == [] then (if s == [] then r else r + [s[0]] + ReplaceAll(s[1..], p, r))
    else if s == [] then []
    else if StartsWith(s, p) then r + ReplaceAll(s[|p|..], p, r)
    else [s[0]] + ReplaceAll(s[1..], p, r)
  }

  /** Text in which the pattern never occurs is left as it is. */
  lemma {:induction false} ReplaceAllAbsent(s: string, p: string, r: string)
    requires |p| > 0
    requires forall j: nat :: !OccursAt(s, p, j)
    ensures ReplaceAll(s, p, r) == s
    decreases |s|
  {
    if s != [] {
      StartsWithOccursAt(s, p, 0);
      assert s[0..] == s;
      forall j: nat ensures !OccursAt(s[1..], p, j) { OccursAtShift(s, p, j); }
      ReplaceAllAbsent(s[1..], p, r);
    }
  }

  /** A prefix in which no occurrence of the pattern starts is copied unchanged. */
  lemma {:induction false} ReplaceAllSkip(x: string, y: string, p: string, r: string)
    requires |p| > 0
    requires forall j: nat :: j < |x| ==> !OccursAt(x + y, p, j)
    ensures ReplaceAll(x + y, p, r) == x + ReplaceAll(y, p, r)
    decreases |x|
  {
    if x != [] {
      var s := x + y;
      assert s[1..] == x[1..] + y;
      calc {
        ReplaceAll(s, p, r);
        { assert !OccursAt(s, p, 0); ReplaceAllCopy(s, p, r); }
        [x[0]] + ReplaceAll(x[1..] + y, p, r);
        { forall j: nat | j < |x[1..]| ensures !OccursAt(x[1..] + y, p, j) {
            OccursAtShift(s, p, j);
          }
          ReplaceAllSkip(x[1..], y, p, r);
        }
        [x[0]] + (x[1..] + ReplaceAll(y, p, r));
        { assert [x[0]] + x[1..] == x; }
        x + ReplaceAll(y, p, r);
      }
    } else {
      assert x + y == y;
    }
  }

  /** A first character that starts no occurrence is copied. */
  lemma ReplaceAllCopy(s: string, p: string, r: string)
    requires |p| > 0 && s != [] && !OccursAt(s, p, 0)
    ensures ReplaceAll(s, p, r) == [s[0]] + ReplaceAll(s[1..], p, r)
  {
    StartsWithOccursAt(s, p, 0);
    assert s[0..] == s;
  }

  /** Replacing a pattern by itself changes nothing. */
  lemma {:induction false} ReplaceAllSelf(s: string, p: string)
    requires |p| > 0
    ensures ReplaceAll(s, p, p) == s
    decreases |s|
  {
    if s != [] {
      if StartsWith(s, p) {
        ReplaceAllSelf(s[|p|..], p);
        assert s[..|p|] + s[|p|..] == s;
      } else {
        ReplaceAllSelf(s[1..], p);
        assert [s[0]] + s[1..] == s;
      }
    }
  }

  /** A leading occurrence of the pattern is replaced. */
  lemma ReplaceAllHead(p: string, y: string, r: string)
    requires |p| > 0
    ensures ReplaceAll(p + y, p, r) == r + ReplaceAll(y, p, r)
  {
    assert (p + y)[..|p|] == p;
    assert (p + y)[|p|..] == y;
  }

  // ---------------------------------------------------------------------------
  // trim and toLowerCase

  function TrimStart(s: string): (r: string)
    ensures |r| <= |s| && r == s[|s| - |r|..]
    ensures r == [] || !IsSpace(r[0])
    ensures AllSpaces(s[..|s| - |r|])
    decreases |s|
  {
    if |s| > 0 && IsSpace(s[0]) then
      var t := TrimStart(s[1..]);
      assert s[1..][..|s[1..]| - |t|] == s[1..|s| - |t|];
      t
    else s
  }

  function TrimEnd(s: string): (r: string)
    ensures |r| <= |s| && r == s[..|r|]
    ensures r == [] || !IsSpace(r[|r| - 1])
    ensures AllSpaces(s[|r|..])
    decreases |s|
  {
    if |s| > 0 && IsSpace(s[|s| - 1]) then
      var t := TrimEnd(s[..|s| - 1]);
      assert s[..|s| - 1][|t|..] == s[|t|..|s| - 1];
      assert s[|t|..] == s[|t|..|s| - 1] + [s[|s| - 1]];
      t
    else s
  }

  /** `String.prototype.trim`. */
  function Trim(s: string): string {
    TrimEnd(TrimStart(s))
  }

  /** Neither end of `s` is white space. */
  predicate IsTrimmed(s: string) {
    s == [] || (!IsSpace(s[0]) && !IsSpace(s[|s| - 1]))
  }

  /** Where `trim` cuts: the result is the slice between leading and trailing white space. */
  lemma TrimSlice(s: string) returns (i: nat, j: nat)
    ensures i <= j <= |s| && Trim(s) == s[i..j] && AllSpaces(s[..i]) && AllSpaces(s[j..])
  {
    var t := TrimStart(s);
    i := |s| - |t|;
    var u := TrimEnd(t);
    j := i + |u|;
    assert u == s[i..j] by {
      assert t == s[i..];
      assert u == t[..|u|];
    }
    assert AllSpaces(s[j..]) by {
      assert t[|u|..] == s[j..];
    }
  }

  /** `trim` removes leading and trailing white space only, and keeps a trimmed string as it is. */
  lemma TrimSpec(s: string)
    ensures IsTrimmed(Trim(s))
    ensures exists i, j :: 0 <= i <= j <= |s| && Trim(s) == s[i..j] && AllSpaces(s[..i]) && AllSpaces(s[j..])
    ensures IsTrimmed(s) ==> Trim(s) == s
  {
    var t := TrimStart(s);
    var u := TrimEnd(t);
    if u != [] {
      assert u[0] == t[0];
    }
    var i, j := TrimSlice(s);
  }

  function LowerChar(c: char): char {
    if 'A' <= c <= 'Z' then (c as int + 32) as char else c
  }

  /** `toLowerCase`, on the ASCII letters. */
  function Lower(s: string): (r: string)
    ensures |r| == |s|
    ensures forall i :: 0 <= i < |s| ==> r[i] == LowerChar(s[i])
  {
    seq(|s|, i requires 0 <= i < |s| => LowerChar(s[i]))
  }

  lemma LowerIdempotent(s: string)
    ensures Lower(Lower(s)) == Lower(s)
  {
  }

  // ---------------------------------------------------------------------------
  // Numbers

  function DigitChar(d: nat): (c: char)
    requires d < 10
    ensures IsDigit(c)
  {
    ('0' as int + d) as char
  }

  /** Decimal notation of a natural number, as template literals print it. */
  function NatToString(n: nat): (r: string)
    ensures |r| >= 1 && AllDigits(r)
    decreases n
  {
    if n < 10 then [DigitChar(n)] else NatToString(n / 10) + [DigitChar(n % 10)]
  }

  /** Decimal notation of an integer, with a leading `-` when negative. */
  function IntToString(i: int): string {
    if i < 0 then "-" + NatToString(-i) else NatToString(i)
  }

  /** The number a run of decimal digits denotes (`Number(s)`, leading zeros allowed). */
  function DecimalValue(s: string): nat
    requires AllDigits(s)
    decreases |s|
  {
    if s == [] then 0
    else DecimalValue(s[..|s| - 1]) * 10 + (s[|s| - 1] as int - '0' as int)
  }

  lemma {:induction false} DecimalValueOfNatToString(n: nat)
    ensures DecimalValue(NatToString(n)) == n
    decreases n
  {
    if n >= 10 {
      var s := NatToString(n);
      assert s[..|s| - 1] == NatToString(n / 10);
      DecimalValueOfNatToString(n / 10);
    }
  }

  /** `Math.ceil(n / 4)` for a length `n`. */
  function CeilDiv4(n: nat): (r: nat)
    ensures 4 * r >= n && 4 * r < n + 4
  {
    (n + 3) / 4
  }
}

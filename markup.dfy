/**
 * Bracketed citation markup and the regular expressions that find it.
 *
 * Every citation pattern of the formatter has the shape `\[X\]` or `\[X\][.]`,
 * where no string of `X` contains a bracket. A match of such a pattern at a
 * position therefore ends at the first `]` after its `[`: it is a *token* of
 * the text, possibly followed by a fixed suffix. `Matches` is the global
 * `String.prototype.match` over such a pattern; `Rewrite` is the reference
 * single left-to-right pass that replaces every unit of a given set. The
 * central lemmas show that a sequence of `replaceAll` calls over the matched
 * units is such a single pass.
 */
module Markup {
  import opened Wrappers
  import opened Strings

  predicate IsBracket(c: char) { c == '[' || c == ']' }

  /** Neither a bracket nor an angle bracket of an HTML tag. */
  predicate IsPlain(c: char) { !IsBracket(c) && c != '<' && c != '>' }

  predicate AllPlain(s: string) {
    forall i :: 0 <= i < |s| ==> IsPlain(s[i])
  }

  /** `[`, then characters other than brackets, then `]`. */
  predicate IsToken(t: string) {
    && |t| >= 2 && t[0] == '[' && t[|t| - 1] == ']'
    && forall i :: 0 < i < |t| - 1 ==> !IsBracket(t[i])
  }

  /** A token with a plain inside, followed by the plain suffix `sfx`. */
  predicate IsUnit(u: string, sfx: string) {
    && |u| >= |sfx| + 2 && u[|u| - |sfx|..] == sfx && AllPlain(sfx)
    && IsToken(u[..|u| - |sfx|])
    && forall i :: 0 < i < |u| - |sfx| - 1 ==> IsPlain(u[i])
  }

  /** The first index at or after `i` that holds a bracket, or `|s|`. */
  function NextBracket(s: string, i: nat): (r: nat)
    requires i <= |s|
    ensures i <= r <= |s|
    ensures forall j :: i <= j < r ==> !IsBracket(s[j])
    ensures r < |s| ==> IsBracket(s[r])
    decreases |s| - i
  {
    if i == |s| || IsBracket(s[i]) then i else NextBracket(s, i + 1)
  }

  /** The length of the token `s` starts with, if it starts with one. */
  function TokenLen(s: string): (r: Option<nat>)
    ensures r.Some? ==> 2 <= r.value <= |s| && IsToken(s[..r.value])
    ensures r.None? && |s| > 0 && s[0] == '[' ==>
      NextBracket(s, 1) == |s| || s[NextBracket(s, 1)] == '['
  {
    if |s| > 0 && s[0] == '[' then
      var e := NextBracket(s, 1);
      if e < |s| && s[e] == ']' then Some(e + 1) else None
    else None
  }

  lemma TokenLenOf(t: string, rest: string)
    requires IsToken(t)
    ensures TokenLen(t + rest) == Some(|t|)
  {
    var s := t + rest;
    assert forall j :: 1 <= j < |t| ==> s[j] == t[j];
    NextBracketAt(s, 1, |t| - 1);
  }

  /** `NextBracket` finds the first bracket. */
  lemma NextBracketAt(s: string, i: nat, e: nat)
    requires i <= e < |s| && IsBracket(s[e])
    requires forall j :: i <= j < e ==> !IsBracket(s[j])
    ensures NextBracket(s, i) == e
  {
  }

  // ---------------------------------------------------------------------------
  // The citation patterns

  /** The citation regular expressions of the formatter. */
  datatype Pattern =
    | CommaGroup    // /\[\d+(?:\s*,\s*\d+)+\]/g
    | RangeGroup    // /\[\d+(?:\s*-\s*\d+)+\]/g
    | Marker        // /\[\d+\]/g
    | MarkerPeriod  // /\[\d+\][.]/g

  /** What a pattern matches after its closing bracket. */
  function Suffix(pat: Pattern): string {
    if pat == MarkerPeriod then "." else ""
  }

  /** The length of the run of digits `s` starts with. */
  function DigitRunLen(s: string): (n: nat)
    ensures n <= |s| && AllDigits(s[..n]) && (n < |s| ==> !IsDigit(s[n]))
    decreases |s|
  {
    if |s| > 0 && IsDigit(s[0]) then 1 + DigitRunLen(s[1..]) else 0
  }

  /** A run of digits followed by a non-digit is the run `DigitRunLen` measures. */
  lemma {:induction false} DigitRunLenOf(d: string, rest: string)
    requires AllDigits(d) && (rest == [] || !IsDigit(rest[0]))
    ensures DigitRunLen(d + rest) == |d|
    decreases |d|
  {
    if d != [] {
      assert (d + rest)[1..] == d[1..] + rest;
      DigitRunLenOf(d[1..], rest);
    } else {
      assert d + rest == rest;
    }
  }

  /** The length of the run of white space `s` starts with. */
  function SpaceRunLen(s: string): (n: nat)
    ensures n <= |s| && AllSpaces(s[..n]) && (n < |s| ==> !IsSpace(s[n]))
    decreases |s|
  {
    if |s| > 0 && IsSpace(s[0]) then 1 + SpaceRunLen(s[1..]) else 0
  }

  predicate IsGroupChar(c: char, sep: char) { IsDigit(c) || IsSpace(c) || c == sep }

  /** The length of one `\s*` sep `\s*\d+` at the start of `s`, runs taken whole, if `s` starts with one. */
  function GroupStep(s: string, sep: char): (r: Option<nat>)
    ensures r.Some? ==> 0 < r.value <= |s|
  {
    var a := SpaceRunLen(s);
    if a < |s| && s[a] == sep then
      var b := SpaceRunLen(s[a + 1..]);
      var c := DigitRunLen(s[a + 1 + b..]);
      if c > 0 then Some(a + 1 + b + c) else None
    else None
  }

  lemma GroupStepChars(s: string, sep: char)
    requires GroupStep(s, sep).Some?
    ensures forall i :: 0 <= i < GroupStep(s, sep).value ==> IsGroupChar(s[i], sep)
  {
    var a := SpaceRunLen(s);
    var b := SpaceRunLen(s[a + 1..]);
    var c := DigitRunLen(s[a + 1 + b..]);
    forall i | 0 <= i < a + 1 + b + c ensures IsGroupChar(s[i], sep) {
      if i < a {
        assert s[..a][i] == s[i];
      } else if i == a {
      } else if i < a + 1 + b {
        assert s[a + 1..][..b][i - a - 1] == s[i];
      } else {
        assert s[a + 1 + b..][..c][i - a - 1 - b] == s[i];
      }
    }
  }

  /**
   * `s` is one or more repetitions of `\s*` sep `\s*\d+`. Digit and space
   * runs are taken whole: when `sep` is neither a digit nor white space, the
   * pattern admits no other split of `s`.
   */
  predicate GroupTail(s: string, sep: char)
    decreases |s|
  {
    match GroupStep(s, sep)
    case None => false
    case Some(n) => n == |s| || GroupTail(s[n..], sep)
  }

  /** `s` matches `\d+(?:\s*` sep `\s*\d+)+`. */
  predicate GroupInside(s: string, sep: char) {
    var d := DigitRunLen(s);
    d > 0 && GroupTail(s[d..], sep)
  }

  /** The strings the pattern matches. */
  predicate Selects(pat: Pattern, u: string) {
    && |u| >= 2 + |Suffix(pat)| && u[0] == '['
    && u[|u| - |Suffix(pat)|..] == Suffix(pat) && u[|u| - |Suffix(pat)| - 1] == ']'
    && var inside := u[1..|u| - |Suffix(pat)| - 1];
       match pat
       case CommaGroup => GroupInside(inside, ',')
       case RangeGroup => GroupInside(inside, '-')
       case _ => |inside| > 0 && AllDigits(inside)
  }

  lemma {:induction false} GroupTailChars(s: string, sep: char)
    requires GroupTail(s, sep)
    ensures forall i :: 0 <= i < |s| ==> IsGroupChar(s[i], sep)
    decreases |s|
  {
    var n := GroupStep(s, sep).value;
    GroupStepChars(s, sep);
    if n < |s| {
      assert GroupTail(s[n..], sep);
      GroupTailChars(s[n..], sep);
      GroupCharsJoin(s, n, sep);
    }
  }

  lemma GroupCharsJoin(s: string, n: nat, sep: char)
    requires n <= |s|
    requires forall i :: 0 <= i < n ==> IsGroupChar(s[i], sep)
    requires forall i :: 0 <= i < |s[n..]| ==> IsGroupChar(s[n..][i], sep)
    ensures forall i :: 0 <= i < |s| ==> IsGroupChar(s[i], sep)
  {
    forall i | n <= i < |s| ensures IsGroupChar(s[i], sep) {
      assert s[n..][i - n] == s[i];
    }
  }

  lemma BracketedUnit(u: string, sfx: string)
    requires |u| >= |sfx| + 2 && u[0] == '[' && u[|u| - |sfx|..] == sfx && u[|u| - |sfx| - 1] == ']'
    requires AllPlain(sfx) && AllPlain(u[1..|u| - |sfx| - 1])
    ensures IsUnit(u, sfx)
  {
    var inside := u[1..|u| - |sfx| - 1];
    forall i | 0 < i < |u| - |sfx| - 1 ensures IsPlain(u[i]) {
      assert u[i] == inside[i - 1];
    }
    assert u[..|u| - |sfx|][|u| - |sfx| - 1] == ']';
  }

  lemma GroupInsidePlain(s: string, sep: char)
    requires GroupInside(s, sep) && IsPlain(sep)
    ensures AllPlain(s)
  {
    var d := DigitRunLen(s);
    GroupTailChars(s[d..], sep);
    forall i | 0 <= i < |s| ensures IsPlain(s[i]) {
      if i < d {
        assert s[..d][i] == s[i];
      } else {
        assert s[d..][i - d] == s[i];
      }
    }
  }

  /** What a pattern matches is a unit with the pattern's suffix. */
  lemma SelectsUnit(pat: Pattern, u: string)
    requires Selects(pat, u)
    ensures IsUnit(u, Suffix(pat))
  {
    var sfx := Suffix(pat);
    var inside := u[1..|u| - |sfx| - 1];
    match pat {
      case CommaGroup => GroupInsidePlain(inside, ',');
      case RangeGroup => GroupInsidePlain(inside, '-');
      case _ => assert forall i :: 0 <= i < |inside| ==> IsPlain(inside[i]);
    }
    BracketedUnit(u, sfx);
  }

  /** `Selects` for one pattern, as the test a scan applies to each token. */
  function SelectsOf(pat: Pattern): string -> bool {
    u => Selects(pat, u)
  }

  /**
   * The length of the match at the start of `s` of a pattern `\[X\]` followed
   * by `sfx`, where `sel` says which strings it matches: such a match is the
   * token at the start of `s` followed by the suffix.
   */
  function UnitAt(s: string, sel: string -> bool, sfx: string): (r: Option<nat>)
    ensures r.Some? ==> 2 <= r.value <= |s| && sel(s[..r.value])
  {
    match TokenLen(s)
    case None => None
    case Some(k) =>
      if StartsWith(s[k..], sfx) && sel(s[..k + |sfx|]) then Some(k + |sfx|) else None
  }

  /** `s.match(re)` with the global flag: the matches, left to right, without overlap. */
  function Scan(s: string, sel: string -> bool, sfx: string): (ms: seq<string>)
    ensures forall i :: 0 <= i < |ms| ==> sel(ms[i])
    decreases |s|
  {
    if s == [] then []
    else match UnitAt(s, sel, sfx)
      case Some(n) => [s[..n]] + Scan(s[n..], sel, sfx)
      case None => Scan(s[1..], sel, sfx)
  }

  /** The matches of one of the formatter's patterns. */
  function Matches(s: string, pat: Pattern): (ms: seq<string>)
    ensures forall i :: 0 <= i < |ms| ==> Selects(pat, ms[i]) && IsUnit(ms[i], Suffix(pat))
  {
    var ms := Scan(s, SelectsOf(pat), Suffix(pat));
    assert forall i :: 0 <= i < |ms| ==> Selects(pat, ms[i]) by {
      forall i | 0 <= i < |ms| ensures Selects(pat, ms[i]) {
        assert SelectsOf(pat)(ms[i]);
      }
    }
    MatchesAreUnits(ms, pat);
    ms
  }

  /** Strings the pattern selects are units of the pattern's suffix. */
  lemma MatchesAreUnits(ms: seq<string>, pat: Pattern)
    requires forall i :: 0 <= i < |ms| ==> Selects(pat, ms[i])
    ensures forall i :: 0 <= i < |ms| ==> IsUnit(ms[i], Suffix(pat))
  {
    forall i | 0 <= i < |ms| ensures IsUnit(ms[i], Suffix(pat)) {
      SelectsUnit(pat, ms[i]);
    }
  }

  /** A prefix without `[` holds no match. */
  lemma {:induction false} ScanSkip(u: string, v: string, sel: string -> bool, sfx: string)
    requires Lacks(u, '[')
    ensures Scan(u + v, sel, sfx) == Scan(v, sel, sfx)
    decreases |u|
  {
    if u != [] {
      assert (u + v)[1..] == u[1..] + v;
      ScanSkip(u[1..], v, sel, sfx);
    } else {
      assert u + v == v;
    }
  }

  // ---------------------------------------------------------------------------
  // The single-pass reference

  /** The strings of a sequence, as a set. */
  ghost function Elements(ms: seq<string>): iset<string> {
    iset x | x in ms
  }

  /** Every string a selector accepts. */
  ghost function Language(sel: string -> bool): iset<string> {
    iset u | sel(u)
  }

  /**
   * One left-to-right pass over `s`: each unit (token followed by `sfx`) that
   * belongs to `P` is replaced by its image under `g`; all other text is copied.
   */
  ghost function Rewrite(s: string, P: iset<string>, g: string -> string, sfx: string): string
    decreases |s|
  {
    if s == [] then []
    else match TokenLen(s)
      case None => [s[0]] + Rewrite(s[1..], P, g, sfx)
      case Some(k) =>
        if StartsWith(s[k..], sfx) && s[..k + |sfx|] in P then
          g(s[..k + |sfx|]) + Rewrite(s[k + |sfx|..], P, g, sfx)
        else s[..k] + Rewrite(s[k..], P, g, sfx)
  }

  /** Every image under `g` of a unit in `P` begins with a bracket or a tag. */
  ghost predicate Opens(P: iset<string>, g: string -> string) {
    forall x :: x in P ==> |g(x)| > 0 && (g(x)[0] == '[' || g(x)[0] == '<')
  }

  /**
   * `r` may stand in front of any text without creating or hiding an
   * occurrence of `t`: it begins with a bracket or a tag, `t` does not occur
   * in it, and its last character is not one of `t` but `t`'s last.
   */
  ghost predicate Good(r: string, t: string) {
    && |r| > 0 && (r[0] == '[' || r[0] == '<')
    && (forall j: nat :: !OccursAt(r, t, j))
    && (forall i :: 0 <= i < |t| - 1 ==> t[i] != r[|r| - 1])
  }

  ghost predicate GoodFor(P: iset<string>, g: string -> string, t: string) {
    forall x :: x in P ==> Good(g(x), t)
  }

  lemma {:induction false} RewriteCopies(u: string, v: string, P: iset<string>, g: string -> string, sfx: string)
    requires Lacks(u, '[')
    ensures Rewrite(u + v, P, g, sfx) == u + Rewrite(v, P, g, sfx)
    decreases |u|
  {
    if u != [] {
      var s := u + v;
      assert s[0] == u[0];
      assert s[1..] == u[1..] + v;
      RewriteCopies(u[1..], v, P, g, sfx);
      assert [u[0]] + u[1..] == u;
    } else {
      assert u + v == v;
    }
  }

  lemma RewriteFirst(v: string, P: iset<string>, g: string -> string, sfx: string)
    requires |v| > 0 && v[0] == '['
    requires Opens(P, g)
    ensures |Rewrite(v, P, g, sfx)| > 0
    ensures Rewrite(v, P, g, sfx)[0] == '[' || Rewrite(v, P, g, sfx)[0] == '<'
  {
  }

  /** A plain prefix of the output was copied from the input. */
  lemma {:induction false} PlainPrefix(v: string, p: string, P: iset<string>, g: string -> string, sfx: string)
    requires AllPlain(p)
    requires Opens(P, g)
    requires StartsWith(Rewrite(v, P, g, sfx), p)
    ensures StartsWith(v, p)
    decreases |p|
  {
    if p != [] {
      if v == [] {
      } else if v[0] == '[' {
        assert p[0] == Rewrite(v, P, g, sfx)[0] && IsPlain(p[0]);
        RewriteFirst(v, P, g, sfx);
      } else {
        var w := Rewrite(v[1..], P, g, sfx);
        assert Rewrite(v, P, g, sfx) == [v[0]] + w;
        assert (([v[0]] + w)[..|p|])[1..] == w[..|p| - 1];
        assert p[0] == v[0] && p[1..] == w[..|p| - 1];
        PlainPrefix(v[1..], p[1..], P, g, sfx);
        assert v[..|p|] == [v[0]] + v[1..][..|p| - 1];
        assert p == [p[0]] + p[1..];
      }
    }
  }

  lemma GoodNoStart(r: string, y: string, t: string)
    requires Good(r, t)
    ensures forall j: nat :: j < |r| ==> !OccursAt(r + y, t, j)
  {
    forall j: nat | j < |r| ensures !OccursAt(r + y, t, j) {
      if j + |t| <= |r| {
        assert (r + y)[j..j + |t|] == r[j..j + |t|];
        assert !OccursAt(r, t, j);
      } else if j + |t| <= |r + y| {
        assert (r + y)[j..j + |t|][|r| - 1 - j] == r[|r| - 1];
        assert t[|r| - 1 - j] != r[|r| - 1];
      }
    }
  }

  /** An occurrence of a unit that starts inside a token is that token with the suffix. */
  lemma TokenNoStart(tok: string, w: string, t: string, sfx: string)
    requires IsToken(tok) && IsUnit(t, sfx)
    ensures forall j: nat :: j < |tok| && OccursAt(tok + w, t, j) ==>
      j == 0 && t == tok + sfx && StartsWith(w, sfx)
  {
    forall j: nat | j < |tok| && OccursAt(tok + w, t, j)
      ensures j == 0 && t == tok + sfx && StartsWith(w, sfx)
    {
      var s := tok + w;
      assert s[j] == t[0];
      assert j == 0;
      var m := |t| - |sfx| - 1;
      assert t[..|t| - |sfx|][m] == ']';
      assert s[m] == ']';
      assert forall i :: 0 <= i < |tok| ==> s[i] == tok[i];
      assert forall i :: 0 <= i < |t| ==> s[i] == t[i];
      assert m == |tok| - 1;
      assert t[..|tok|] == tok;
      assert t == t[..|tok|] + t[|tok|..];
      assert t[|tok|..] == sfx;
      assert w[..|sfx|] == s[|tok|..|tok| + |sfx|];
    }
  }

  /** A `[` that opens no token is followed by text that no unit can continue. */
  lemma OpenNoStart(s: string, P: iset<string>, g: string -> string, sfx: string, t: string)
    requires |s| > 0 && s[0] == '[' && TokenLen(s).None?
    requires Opens(P, g) && IsUnit(t, sfx)
    ensures !OccursAt([s[0]] + Rewrite(s[1..], P, g, sfx), t, 0)
  {
    var e := NextBracket(s, 1);
    var u := s[1..e];
    var v := s[e..];
    assert s[1..] == u + v;
    RewriteCopies(u, v, P, g, sfx);
    var W := Rewrite(v, P, g, sfx);
    if v != [] {
      RewriteFirst(v, P, g, sfx);
    }
    OpenedNoStart(u, W, t, sfx);
  }

  /** `[`, text without brackets and then a bracket or a tag, or the end, is no unit's beginning. */
  lemma OpenedNoStart(u: string, W: string, t: string, sfx: string)
    requires forall i :: 0 <= i < |u| ==> !IsBracket(u[i])
    requires W == [] || W[0] == '[' || W[0] == '<'
    requires IsUnit(t, sfx)
    ensures !OccursAt(['['] + u + W, t, 0)
  {
    var w := ['['] + u + W;
    var m := |t| - |sfx| - 1;
    assert t[m] == ']' by { assert t[..|t| - |sfx|][m] == ']'; }
    if m <= |u| {
      assert w[m] == u[m - 1];
    } else if W != [] {
      assert w[|u| + 1] == W[0];
      assert |u| + 1 == m || IsPlain(t[|u| + 1]);
    }
  }

  lemma NoStartOfChar(c: char, w: string, t: string, sfx: string)
    requires c != '[' && IsUnit(t, sfx)
    ensures !OccursAt([c] + w, t, 0)
  {
    assert ([c] + w)[0] == c;
  }

  /** No occurrence of `t` in `x + y` starts inside `x`. */
  ghost predicate NoStartIn(x: string, y: string, t: string) {
    forall j: nat :: j < |x| ==> !OccursAt(x + y, t, j)
  }

  /** A character copied by the pass starts no occurrence of a unit. */
  lemma CharNoStart(s: string, P: iset<string>, g: string -> string, sfx: string, t: string)
    requires s != [] && TokenLen(s).None?
    requires Opens(P, g) && IsUnit(t, sfx)
    ensures NoStartIn([s[0]], Rewrite(s[1..], P, g, sfx), t)
  {
    if s[0] == '[' {
      OpenNoStart(s, P, g, sfx, t);
    } else {
      NoStartOfChar(s[0], Rewrite(s[1..], P, g, sfx), t, sfx);
    }
  }

  /** A token copied by the pass starts no occurrence of a unit other than its own. */
  lemma CopiedTokenNoStart(s: string, k: nat, P: iset<string>, g: string -> string, sfx: string, t: string)
    requires TokenLen(s) == Some(k)
    requires Opens(P, g) && IsUnit(t, sfx)
    requires !(StartsWith(s[k..], sfx) && s[..k + |sfx|] == t)
    ensures NoStartIn(s[..k], Rewrite(s[k..], P, g, sfx), t)
  {
    var W := Rewrite(s[k..], P, g, sfx);
    var tok := s[..k];
    assert !(StartsWith(W, sfx) && tok + sfx == t) by {
      if StartsWith(W, sfx) {
        PlainPrefix(s[k..], sfx, P, g, sfx);
        assert s[..k + |sfx|] == tok + sfx;
      }
    }
    TokenNoStartUnless(tok, W, t, sfx);
  }

  /** No unit starts inside a token unless it is that token followed by its suffix. */
  lemma TokenNoStartUnless(tok: string, w: string, t: string, sfx: string)
    requires IsToken(tok) && IsUnit(t, sfx)
    requires !(StartsWith(w, sfx) && tok + sfx == t)
    ensures NoStartIn(tok, w, t)
  {
    TokenNoStart(tok, w, t, sfx);
  }

  /**
   * One `replaceAll` of a unit `t` continues the single pass: replacing `t`
   * in the text rewritten for `P` gives the text rewritten for `P` and `t`.
   */
  lemma {:induction false} ReplaceStep(s: string, P: iset<string>, g: string -> string, sfx: string, t: string)
    requires IsUnit(t, sfx)
    requires GoodFor(P, g, t)
    ensures ReplaceAll(Rewrite(s, P, g, sfx), t, g(t)) == Rewrite(s, P + iset{t}, g, sfx)
    decreases |s|, 1
  {
    if s != [] {
      match TokenLen(s)
      case None => ReplaceStepChar(s, P, g, sfx, t);
      case Some(k) =>
        if StartsWith(s[k..], sfx) && s[..k + |sfx|] in P {
          ReplaceStepReplaced(s, k, P, g, sfx, t);
        } else if StartsWith(s[k..], sfx) && s[..k + |sfx|] == t {
          ReplaceStepTarget(s, k, P, g, sfx, t);
        } else {
          ReplaceStepCopied(s, k, P, g, sfx, t);
        }
    }
  }

  lemma {:induction false} ReplaceStepChar(s: string, P: iset<string>, g: string -> string, sfx: string, t: string)
    requires s != [] && TokenLen(s).None?
    requires IsUnit(t, sfx) && GoodFor(P, g, t)
    ensures ReplaceAll(Rewrite(s, P, g, sfx), t, g(t)) == Rewrite(s, P + iset{t}, g, sfx)
    decreases |s|, 0
  {
    var W := Rewrite(s[1..], P, g, sfx);
    RewriteChar(s, P, g, sfx);
    RewriteChar(s, P + iset{t}, g, sfx);
    CharNoStart(s, P, g, sfx, t);
    ReplaceAllSkip([s[0]], W, t, g(t));
    ReplaceStep(s[1..], P, g, sfx, t);
  }

  lemma {:induction false} ReplaceStepReplaced(s: string, k: nat, P: iset<string>, g: string -> string, sfx: string, t: string)
    requires TokenLen(s) == Some(k) && StartsWith(s[k..], sfx) && s[..k + |sfx|] in P
    requires IsUnit(t, sfx) && GoodFor(P, g, t)
    ensures ReplaceAll(Rewrite(s, P, g, sfx), t, g(t)) == Rewrite(s, P + iset{t}, g, sfx)
    decreases |s|, 0
  {
    var u := s[..k + |sfx|];
    var R := Rewrite(s[k + |sfx|..], P, g, sfx);
    RewriteHead(s, k, P, g, sfx);
    RewriteHead(s, k, P + iset{t}, g, sfx);
    GoodNoStart(g(u), R, t);
    ReplaceAllSkip(g(u), R, t, g(t));
    ReplaceStep(s[k + |sfx|..], P, g, sfx, t);
  }

  lemma {:induction false} ReplaceStepTarget(s: string, k: nat, P: iset<string>, g: string -> string, sfx: string, t: string)
    requires TokenLen(s) == Some(k) && StartsWith(s[k..], sfx) && s[..k + |sfx|] == t && t !in P
    requires IsUnit(t, sfx) && GoodFor(P, g, t)
    ensures ReplaceAll(Rewrite(s, P, g, sfx), t, g(t)) == Rewrite(s, P + iset{t}, g, sfx)
    decreases |s|, 0
  {
    var rest := s[k + |sfx|..];
    var R := Rewrite(rest, P, g, sfx);
    calc {
      ReplaceAll(Rewrite(s, P, g, sfx), t, g(t));
      { RewriteToken(s, k, P, g, sfx); }
      ReplaceAll(s[..k] + Rewrite(s[k..], P, g, sfx), t, g(t));
      { assert s[k..] == sfx + rest; RewriteCopies(sfx, rest, P, g, sfx); }
      ReplaceAll(s[..k] + (sfx + R), t, g(t));
      { assert s[..k] + (sfx + R) == t + R; }
      ReplaceAll(t + R, t, g(t));
      { ReplaceAllHead(t, R, g(t)); }
      g(t) + ReplaceAll(R, t, g(t));
      { ReplaceStep(rest, P, g, sfx, t); }
      g(t) + Rewrite(rest, P + iset{t}, g, sfx);
      { RewriteHead(s, k, P + iset{t}, g, sfx); }
      Rewrite(s, P + iset{t}, g, sfx);
    }
  }

  lemma {:induction false} ReplaceStepCopied(s: string, k: nat, P: iset<string>, g: string -> string, sfx: string, t: string)
    requires TokenLen(s) == Some(k)
    requires !(StartsWith(s[k..], sfx) && s[..k + |sfx|] in P)
    requires !(StartsWith(s[k..], sfx) && s[..k + |sfx|] == t)
    requires IsUnit(t, sfx) && GoodFor(P, g, t)
    ensures ReplaceAll(Rewrite(s, P, g, sfx), t, g(t)) == Rewrite(s, P + iset{t}, g, sfx)
    decreases |s|, 0
  {
    var W := Rewrite(s[k..], P, g, sfx);
    RewriteToken(s, k, P, g, sfx);
    RewriteToken(s, k, P + iset{t}, g, sfx);
    CopiedTokenNoStart(s, k, P, g, sfx, t);
    ReplaceAllSkip(s[..k], W, t, g(t));
    ReplaceStep(s[k..], P, g, sfx, t);
  }

  /**
   * The sequential replacements of a `forEach` over units: each `replaceAll`
   * adds its unit to the set the single pass replaces.
   */
  function ReplaceEach(s: string, ms: seq<string>, g: string -> string): string
    decreases |ms|
  {
    if ms == [] then s else ReplaceEach(ReplaceAll(s, ms[0], g(ms[0])), ms[1..], g)
  }

  /**
   * Units `ms`, taken in order, each of whose replacement is harmless before
   * every later unit, and every image of `P` harmless for each of them.
   */
  ghost predicate Sequenced(P: iset<string>, ms: seq<string>, g: string -> string, sfx: string) {
    && (forall m :: m in ms ==> IsUnit(m, sfx))
    && (forall x, i :: x in P && 0 <= i < |ms| ==> Good(g(x), ms[i]))
    && (forall i, j :: 0 <= j < i < |ms| ==> Good(g(ms[j]), ms[i]))
  }

  lemma {:induction false} FoldRewrite(s: string, P: iset<string>, ms: seq<string>, g: string -> string, sfx: string)
    requires Sequenced(P, ms, g, sfx)
    ensures ReplaceEach(Rewrite(s, P, g, sfx), ms, g) == Rewrite(s, P + Elements(ms), g, sfx)
    decreases |ms|
  {
    if ms == [] {
      assert P + Elements(ms) == P;
    } else {
      assert ms[0] in ms;
      ReplaceStep(s, P, g, sfx, ms[0]);
      var P1 := P + iset{ms[0]};
      var tail := ms[1..];
      forall x, i | x in P1 && 0 <= i < |tail| ensures Good(g(x), tail[i]) {
        assert tail[i] == ms[i + 1];
      }
      forall i, j | 0 <= j < i < |tail| ensures Good(g(tail[j]), tail[i]) {
        assert tail[i] == ms[i + 1] && tail[j] == ms[j + 1];
      }
      forall m | m in tail ensures IsUnit(m, sfx) {
        assert m in ms;
      }
      FoldRewrite(s, P1, tail, g, sfx);
      assert ms == [ms[0]] + tail;
      assert P1 + Elements(tail) == P + Elements(ms);
    }
  }

  lemma {:induction false} RewriteNothing(s: string, g: string -> string, sfx: string)
    ensures Rewrite(s, iset{}, g, sfx) == s
    decreases |s|
  {
    if s != [] {
      match TokenLen(s)
      case None =>
        RewriteNothing(s[1..], g, sfx);
        assert [s[0]] + s[1..] == s;
      case Some(k) =>
        RewriteNothing(s[k..], g, sfx);
        assert s[..k] + s[k..] == s;
    }
  }

  /** A pass whose images are the units themselves leaves the text as it is. */
  lemma {:induction false} RewriteFixed(s: string, P: iset<string>, g: string -> string, sfx: string)
    requires forall x :: x in P ==> g(x) == x
    ensures Rewrite(s, P, g, sfx) == s
    decreases |s|
  {
    if s != [] {
      match TokenLen(s)
      case None =>
        calc {
          Rewrite(s, P, g, sfx);
          { RewriteChar(s, P, g, sfx); }
          [s[0]] + Rewrite(s[1..], P, g, sfx);
          { RewriteFixed(s[1..], P, g, sfx); }
          [s[0]] + s[1..];
          { assert [s[0]] + s[1..] == s; }
          s;
        }
      case Some(k) =>
        if StartsWith(s[k..], sfx) && s[..k + |sfx|] in P {
          var n := k + |sfx|;
          calc {
            Rewrite(s, P, g, sfx);
            { RewriteHead(s, k, P, g, sfx); }
            g(s[..n]) + Rewrite(s[n..], P, g, sfx);
            { RewriteFixed(s[n..], P, g, sfx); }
            s[..n] + s[n..];
            { assert s[..n] + s[n..] == s; }
            s;
          }
        } else {
          calc {
            Rewrite(s, P, g, sfx);
            { RewriteToken(s, k, P, g, sfx); }
            s[..k] + Rewrite(s[k..], P, g, sfx);
            { RewriteFixed(s[k..], P, g, sfx); }
            s[..k] + s[k..];
            { assert s[..k] + s[k..] == s; }
            s;
          }
        }
    }
  }

  /** Text without `[` holds no unit: the pass copies it. */
  lemma TextWithoutUnits(u: string, P: iset<string>, g: string -> string, sfx: string)
    requires Lacks(u, '[')
    ensures Rewrite(u, P, g, sfx) == u
  {
    RewriteCopies(u, "", P, g, sfx);
    assert u + "" == u;
  }

  /**
   * Replacing a set of units that holds every match of a scan and nothing
   * but strings the scan selects is replacing every string it selects.
   */
  lemma {:induction false} RewriteAligned(s: string, P: iset<string>, sel: string -> bool, sfx: string, g: string -> string)
    requires forall x :: x in P ==> sel(x)
    requires forall m :: m in Scan(s, sel, sfx) ==> m in P
    ensures Rewrite(s, P, g, sfx) == Rewrite(s, Language(sel), g, sfx)
    decreases |s|, 2
  {
    if s != [] {
      match TokenLen(s)
      case None =>
        assert UnitAt(s, sel, sfx).None?;
        assert Scan(s, sel, sfx) == Scan(s[1..], sel, sfx);
        RewriteAligned(s[1..], P, sel, sfx, g);
      case Some(k) => RewriteAlignedToken(s, k, P, sel, sfx, g);
    }
  }

  lemma {:induction false} RewriteAlignedToken(s: string, k: nat, P: iset<string>, sel: string -> bool, sfx: string, g: string -> string)
    requires TokenLen(s) == Some(k)
    requires forall x :: x in P ==> sel(x)
    requires forall m :: m in Scan(s, sel, sfx) ==> m in P
    ensures Rewrite(s, P, g, sfx) == Rewrite(s, Language(sel), g, sfx)
    decreases |s|, 1
  {
    if UnitAt(s, sel, sfx).Some? {
      RewriteAlignedSelected(s, k, P, sel, sfx, g);
    } else {
      RewriteAlignedCopied(s, k, P, sel, sfx, g);
    }
  }

  lemma {:induction false} RewriteAlignedSelected(s: string, k: nat, P: iset<string>, sel: string -> bool, sfx: string, g: string -> string)
    requires TokenLen(s) == Some(k) && UnitAt(s, sel, sfx).Some?
    requires forall x :: x in P ==> sel(x)
    requires forall m :: m in Scan(s, sel, sfx) ==> m in P
    ensures Rewrite(s, P, g, sfx) == Rewrite(s, Language(sel), g, sfx)
    decreases |s|, 0
  {
    var n := k + |sfx|;
    var rest := s[n..];
    assert UnitAt(s, sel, sfx) == Some(n);
    SelectedHead(s, n, P, sel, sfx);
    assert s[..n] in Language(sel);
    RewriteAligned(rest, P, sel, sfx, g);
    calc {
      Rewrite(s, P, g, sfx);
      { RewriteHead(s, k, P, g, sfx); }
      g(s[..n]) + Rewrite(rest, P, g, sfx);
      g(s[..n]) + Rewrite(rest, Language(sel), g, sfx);
      { RewriteHead(s, k, Language(sel), g, sfx); }
      Rewrite(s, Language(sel), g, sfx);
    }
  }

  /** A match at the front is in `P`, and so are the matches after it. */
  lemma SelectedHead(s: string, n: nat, P: iset<string>, sel: string -> bool, sfx: string)
    requires s != [] && UnitAt(s, sel, sfx) == Some(n)
    requires forall m :: m in Scan(s, sel, sfx) ==> m in P
    ensures s[..n] in P
    ensures forall m :: m in Scan(s[n..], sel, sfx) ==> m in P
  {
    assert Scan(s, sel, sfx) == [s[..n]] + Scan(s[n..], sel, sfx);
    assert s[..n] in Scan(s, sel, sfx);
  }

  /** The pass copies a character that opens no token. */
  lemma RewriteChar(s: string, P: iset<string>, g: string -> string, sfx: string)
    requires s != [] && TokenLen(s).None?
    ensures Rewrite(s, P, g, sfx) == [s[0]] + Rewrite(s[1..], P, g, sfx)
  {
  }

  /** The pass replaces a unit of `P` at the front of the text. */
  lemma RewriteHead(s: string, k: nat, P: iset<string>, g: string -> string, sfx: string)
    requires TokenLen(s) == Some(k) && StartsWith(s[k..], sfx) && s[..k + |sfx|] in P
    ensures Rewrite(s, P, g, sfx) == g(s[..k + |sfx|]) + Rewrite(s[k + |sfx|..], P, g, sfx)
  {
  }

  lemma {:induction false} RewriteAlignedCopied(s: string, k: nat, P: iset<string>, sel: string -> bool, sfx: string, g: string -> string)
    requires TokenLen(s) == Some(k) && UnitAt(s, sel, sfx).None?
    requires forall x :: x in P ==> sel(x)
    requires forall m :: m in Scan(s, sel, sfx) ==> m in P
    ensures Rewrite(s, P, g, sfx) == Rewrite(s, Language(sel), g, sfx)
    decreases |s|, 0
  {
    ScanPastToken(s, k, sel, sfx);
    assert !(StartsWith(s[k..], sfx) && s[..k + |sfx|] in P);
    assert !(StartsWith(s[k..], sfx) && s[..k + |sfx|] in Language(sel));
    RewriteAligned(s[k..], P, sel, sfx, g);
    calc {
      Rewrite(s, P, g, sfx);
      { RewriteToken(s, k, P, g, sfx); }
      s[..k] + Rewrite(s[k..], P, g, sfx);
      s[..k] + Rewrite(s[k..], Language(sel), g, sfx);
      { RewriteToken(s, k, Language(sel), g, sfx); }
      Rewrite(s, Language(sel), g, sfx);
    }
  }

  /** No match starts inside a token that is not matched. */
  lemma ScanPastToken(s: string, k: nat, sel: string -> bool, sfx: string)
    requires TokenLen(s) == Some(k) && UnitAt(s, sel, sfx).None?
    ensures Scan(s, sel, sfx) == Scan(s[k..], sel, sfx)
  {
    assert s[1..] == s[1..k] + s[k..];
    ScanSkip(s[1..k], s[k..], sel, sfx);
  }

  /** The pass copies a token at the front that it does not replace. */
  lemma RewriteToken(s: string, k: nat, P: iset<string>, g: string -> string, sfx: string)
    requires TokenLen(s) == Some(k) && !(StartsWith(s[k..], sfx) && s[..k + |sfx|] in P)
    ensures Rewrite(s, P, g, sfx) == s[..k] + Rewrite(s[k..], P, g, sfx)
  {
  }

  /**
   * The matches of a pattern, replaced one after another, are every string
   * the pattern matches replaced in one pass.
   */
  lemma MatchesRewrite(s: string, ms: seq<string>, pat: Pattern, g: string -> string)
    requires Elements(ms) == Elements(Matches(s, pat))
    ensures Rewrite(s, Elements(ms), g, Suffix(pat)) == Rewrite(s, Language(SelectsOf(pat)), g, Suffix(pat))
  {
    var sel := SelectsOf(pat);
    forall m | m in Scan(s, sel, Suffix(pat)) ensures m in Elements(ms) {
      assert m in Elements(Matches(s, pat));
    }
    forall x | x in Elements(ms) ensures sel(x) {
      assert x in Elements(Matches(s, pat));
    }
    RewriteAligned(s, Elements(ms), sel, Suffix(pat), g);
  }

  lemma OccursAfter(x: string, y: string, t: string, j: nat)
    requires j >= |x|
    ensures OccursAt(x + y, t, j) <==> OccursAt(y, t, j - |x|)
  {
    if j + |t| <= |x + y| {
      assert (x + y)[j..j + |t|] == y[j - |x|..j - |x| + |t|];
    }
  }

  /** After the pass, no replaced unit is left in the text. */
  lemma {:induction false} RewriteRemoves(s: string, P: iset<string>, g: string -> string, sfx: string, t: string)
    requires IsUnit(t, sfx) && t in P
    requires GoodFor(P, g, t)
    ensures forall j: nat :: !OccursAt(Rewrite(s, P, g, sfx), t, j)
    decreases |s|
  {
    if s != [] {
      var piece: string, rest: string;
      match TokenLen(s) {
        case None =>
          piece, rest := [s[0]], s[1..];
          CharNoStart(s, P, g, sfx, t);
          RewriteChar(s, P, g, sfx);
        case Some(k) =>
          if StartsWith(s[k..], sfx) && s[..k + |sfx|] in P {
            piece, rest := g(s[..k + |sfx|]), s[k + |sfx|..];
            GoodNoStart(piece, Rewrite(rest, P, g, sfx), t);
            RewriteHead(s, k, P, g, sfx);
          } else {
            piece, rest := s[..k], s[k..];
            CopiedTokenNoStart(s, k, P, g, sfx, t);
            RewriteToken(s, k, P, g, sfx);
          }
      }
      var W := Rewrite(rest, P, g, sfx);
      assert NoStartIn(piece, W, t);
      RewriteRemoves(rest, P, g, sfx, t);
      forall j: nat ensures !OccursAt(piece + W, t, j) {
        if j >= |piece| {
          OccursAfter(piece, W, t, j);
        }
      }
    }
  }

  /** `replaceAll` of units already replaced by the pass changes nothing. */
  lemma {:induction false} ReplaceEachRemoved(s: string, P: iset<string>, g: string -> string, sfx: string,
                                               ms: seq<string>, h: string -> string)
    requires forall m :: m in ms ==> IsUnit(m, sfx)
    requires forall m :: m in ms ==> m in P && GoodFor(P, g, m)
    ensures ReplaceEach(Rewrite(s, P, g, sfx), ms, h) == Rewrite(s, P, g, sfx)
    decreases |ms|
  {
    if ms != [] {
      assert ms[0] in ms;
      RewriteRemoves(s, P, g, sfx, ms[0]);
      ReplaceAllAbsent(Rewrite(s, P, g, sfx), ms[0], h(ms[0]));
      ReplaceEachRemoved(s, P, g, sfx, ms[1..], h);
    }
  }
}

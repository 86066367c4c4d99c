/**
 * Expansion of grouped and ranged citations (`#separateGroupedCitations` of
 * `ChatbotResponse`, `separateGroupedCitations` of the globals script and the
 * inline copy of the older client): every match of `\[\d+(?:\s*,\s*\d+)+\]`,
 * or of its `-` form, is replaced by one marker `[n]` per literal digit run of
 * the match, in order. Ranges are not expanded arithmetically.
 */
module Citations {
  import opened Wrappers
  import opened Strings
  import opened Markup

  /** `s.match(/\d+/g)`: the maximal runs of digits of `s`, left to right. */
  function DigitRuns(s: string): (ds: seq<string>)
    ensures forall i :: 0 <= i < |ds| ==> |ds[i]| > 0 && AllDigits(ds[i])
    decreases |s|
  {
    if s == [] then []
    else if IsDigit(s[0]) then
      var d := DigitRunLen(s);
      [s[..d]] + DigitRuns(s[d..])
    else DigitRuns(s[1..])
  }

  /** The digits of `s`, in order. */
  function DigitsOf(s: string): string
    decreases |s|
  {
    if s == [] then [] else (if IsDigit(s[0]) then [s[0]] else []) + DigitsOf(s[1..])
  }

  lemma {:induction false} DigitsOfRun(s: string, d: nat)
    requires d <= |s| && AllDigits(s[..d])
    ensures DigitsOf(s) == s[..d] + DigitsOf(s[d..])
    decreases d
  {
    if d > 0 {
      DigitsOfRun(s[1..], d - 1);
      assert s[1..][..d - 1] == s[1..d];
      assert s[1..][d - 1..] == s[d..];
      assert s[..d] == [s[0]] + s[1..d];
    }
  }

  /** The runs hold every digit of `s` and nothing else, in order. */
  lemma {:induction false} DigitRunsKeepDigits(s: string)
    ensures Join(DigitRuns(s), "") == DigitsOf(s)
    decreases |s|
  {
    if s != [] {
      if IsDigit(s[0]) {
        var d := DigitRunLen(s);
        var rest := DigitRuns(s[d..]);
        DigitRunsKeepDigits(s[d..]);
        DigitsOfRun(s, d);
        JoinCons(s[..d], rest);
      } else {
        DigitRunsKeepDigits(s[1..]);
      }
    }
  }

  lemma JoinCons(x: string, parts: seq<string>)
    ensures Join([x] + parts, "") == x + Join(parts, "")
  {
    if parts != [] {
      assert ([x] + parts)[1..] == parts;
    }
  }

  /** The markers `[d]`, one per run. */
  function Brackets(ds: seq<string>): string
    decreases |ds|
  {
    if ds == [] then "" else "[" + ds[0] + "]" + Brackets(ds[1..])
  }

  lemma {:induction false} BracketsSnoc(ds: seq<string>, d: string)
    ensures Brackets(ds + [d]) == Brackets(ds) + "[" + d + "]"
    decreases |ds|
  {
    if ds != [] {
      assert (ds + [d])[1..] == ds[1..] + [d];
      BracketsSnoc(ds[1..], d);
    }
  }

  lemma BracketsTake(ds: seq<string>, j: nat)
    requires j < |ds|
    ensures Brackets(ds[..j + 1]) == Brackets(ds[..j]) + "[" + ds[j] + "]"
  {
    assert ds[..j + 1] == ds[..j] + [ds[j]];
    BracketsSnoc(ds[..j], ds[j]);
  }

  /** What a grouped citation is replaced by. */
  function Expand(u: string): string {
    Brackets(DigitRuns(u))
  }

  /** The individual marker of each run. */
  function MarkersOf(ds: seq<string>): (ms: seq<string>)
    ensures |ms| == |ds|
    ensures forall i :: 0 <= i < |ds| ==> ms[i] == "[" + ds[i] + "]"
    decreases |ds|
  {
    if ds == [] then [] else ["[" + ds[0] + "]"] + MarkersOf(ds[1..])
  }

  /**
   * The expansion is exactly the run markers, side by side: the marker scan
   * finds one `[n]` per number of the group, in order.
   */
  lemma {:induction false} BracketsScan(ds: seq<string>)
    requires forall i :: 0 <= i < |ds| ==> |ds[i]| > 0 && AllDigits(ds[i])
    ensures Matches(Brackets(ds), Marker) == MarkersOf(ds)
    decreases |ds|
  {
    if ds != [] {
      var m := "[" + ds[0] + "]";
      var rest := Brackets(ds[1..]);
      assert IsToken(m);
      TokenLenOf(m, rest);
      assert (m + rest)[..|m|] == m;
      assert m[1..|m| - 1] == ds[0];
      assert Selects(Marker, m);
      assert SelectsOf(Marker)(m);
      assert (m + rest)[|m|..] == rest;
      assert UnitAt(m + rest, SelectsOf(Marker), "") == Some(|m|);
      BracketsScan(ds[1..]);
    }
  }

  lemma ExpandScan(u: string)
    ensures Matches(Expand(u), Marker) == MarkersOf(DigitRuns(u))
  {
    BracketsScan(DigitRuns(u));
  }

  // ---------------------------------------------------------------------------
  // The pass

  predicate IsGroupPattern(pat: Pattern) { pat == CommaGroup || pat == RangeGroup }

  function SepOf(pat: Pattern): char {
    if pat == CommaGroup then ',' else '-'
  }

  /**
   * `separateGroupedCitations(text, pattern)`: each match, duplicates
   * included, is replaced everywhere by the markers of its digit runs, built
   * up in `formattedMatchNumbers`. The result is the single pass that
   * replaces every group of the pattern by its expansion.
   */
  method SeparateGroupedCitations(text: string, pat: Pattern) returns (r: string)
    requires IsGroupPattern(pat)
    ensures r == Rewrite(text, Language(SelectsOf(pat)), Expand, "")
  {
    r := text;
    var matches := Matches(text, pat);
    if |matches| > 0 {
      var formattedMatchNumbers := "";
      var i := 0;
      while i < |matches|
        invariant 0 <= i <= |matches|
        invariant formattedMatchNumbers == ""
        invariant ReplaceEach(r, matches[i..], Expand) == ReplaceEach(text, matches, Expand)
      {
        var m := matches[i];
        var matchNumbers := DigitRuns(m);
        var j := 0;
        while j < |matchNumbers|
          invariant 0 <= j <= |matchNumbers|
          invariant formattedMatchNumbers == Brackets(matchNumbers[..j])
        {
          BracketsTake(matchNumbers, j);
          formattedMatchNumbers := formattedMatchNumbers + "[" + matchNumbers[j] + "]";
          j := j + 1;
        }
        assert matchNumbers[..j] == matchNumbers;
        ReplaceEachNext(r, matches, i, Expand);
        r := ReplaceAll(r, m, formattedMatchNumbers);
        formattedMatchNumbers := "";
        i := i + 1;
      }
    }
    assert matches[|matches|..] == [];
    ExpandIsSinglePass(text, pat);
  }

  lemma ReplaceEachNext(r: string, ms: seq<string>, i: nat, g: string -> string)
    requires i < |ms|
    ensures ReplaceEach(r, ms[i..], g) == ReplaceEach(ReplaceAll(r, ms[i], g(ms[i])), ms[i + 1..], g)
  {
    assert ms[i..][1..] == ms[i + 1..];
  }

  /** Replacing the matches one after another is the single pass over every group. */
  lemma ExpandIsSinglePass(text: string, pat: Pattern)
    requires IsGroupPattern(pat)
    ensures ReplaceEach(text, Matches(text, pat), Expand) == Rewrite(text, Language(SelectsOf(pat)), Expand, "")
  {
    var ms := Matches(text, pat);
    RewriteNothing(text, Expand, "");
    forall i, j | 0 <= j < i < |ms| ensures Good(Expand(ms[j]), ms[i]) {
      ExpansionGood(pat, ms[j], ms[i]);
    }
    assert Sequenced(iset{}, ms, Expand, "");
    FoldRewrite(text, iset{}, ms, Expand, "");
    assert iset{} + Elements(ms) == Elements(ms);
    MatchesRewrite(text, ms, pat, Expand);
  }

  /** A character of an expansion. */
  predicate IsMarkerChar(c: char) { IsBracket(c) || IsDigit(c) }

  lemma {:induction false} BracketsShape(ds: seq<string>)
    requires ds != [] && forall i :: 0 <= i < |ds| ==> AllDigits(ds[i])
    ensures var b := Brackets(ds); |b| > 0 && b[0] == '[' && b[|b| - 1] == ']'
    ensures forall i :: 0 <= i < |Brackets(ds)| ==> IsMarkerChar(Brackets(ds)[i])
    decreases |ds|
  {
    var m := "[" + ds[0] + "]";
    var b := Brackets(ds);
    assert b == m + Brackets(ds[1..]);
    if |ds| > 1 {
      BracketsShape(ds[1..]);
      forall i | 0 <= i < |b| ensures IsMarkerChar(b[i]) {
        if i >= |m| {
          assert b[i] == Brackets(ds[1..])[i - |m|];
        } else if 0 < i < |m| - 1 {
          assert b[i] == ds[0][i - 1];
        }
      }
    } else {
      assert b == m;
      forall i | 0 < i < |b| - 1 ensures IsMarkerChar(b[i]) {
        assert b[i] == ds[0][i - 1];
      }
    }
  }

  /** What a group pattern selects is a bracketed group of its separator. */
  lemma SelectsGroup(pat: Pattern, u: string)
    requires IsGroupPattern(pat) && Selects(pat, u)
    ensures |u| >= 2 && u[0] == '[' && GroupInside(u[1..|u| - 1], SepOf(pat))
  {
    assert Suffix(pat) == "";
  }

  /** A group's first number follows its `[`. */
  lemma GroupRuns(pat: Pattern, u: string)
    requires IsGroupPattern(pat) && Selects(pat, u)
    ensures DigitRuns(u) != []
  {
    SelectsGroup(pat, u);
    var inside := u[1..|u| - 1];
    assert DigitRunLen(inside) > 0;
    assert u[1] == inside[0];
    assert DigitRuns(u) == DigitRuns(u[1..]);
  }

  /** A step of a group begins with white space and the separator. */
  lemma StepSeparator(s: string, sep: char) returns (a: nat)
    requires GroupTail(s, sep)
    ensures a < |s| && s[a] == sep
  {
    assert GroupStep(s, sep).Some?;
    a := SpaceRunLen(s);
  }

  lemma InsideSeparator(inside: string, sep: char) returns (q: nat)
    requires GroupInside(inside, sep)
    ensures q < |inside| && inside[q] == sep
  {
    var d := DigitRunLen(inside);
    var a := StepSeparator(inside[d..], sep);
    q := d + a;
  }

  /** A group holds its separator strictly inside its brackets. */
  lemma GroupSeparator(u: string, sep: char) returns (p: nat)
    requires |u| >= 2 && GroupInside(u[1..|u| - 1], sep)
    ensures 0 < p < |u| - 1 && u[p] == sep
  {
    var q := InsideSeparator(u[1..|u| - 1], sep);
    p := q + 1;
    assert u[p] == u[1..|u| - 1][q];
  }

  /** No string holding a separator occurs in text made of markers. */
  lemma NoGroupInMarkers(r: string, t: string, p: nat)
    requires p < |t| && !IsMarkerChar(t[p])
    requires forall i :: 0 <= i < |r| ==> IsMarkerChar(r[i])
    ensures forall j: nat :: !OccursAt(r, t, j)
  {
    forall j: nat ensures !OccursAt(r, t, j) {
      if j + |t| <= |r| {
        assert r[j..j + |t|][p] == r[j + p];
      }
    }
  }

  /** Only the last character of a group is `]`. */
  lemma UnitLast(pat: Pattern, t: string)
    requires IsGroupPattern(pat) && Selects(pat, t)
    ensures forall i :: 0 <= i < |t| - 1 ==> t[i] != ']'
  {
    SelectsUnit(pat, t);
    assert Suffix(pat) == "";
    assert t[..|t|] == t;
  }

  /** An expansion is a non-empty run of markers. */
  lemma ExpandShape(pat: Pattern, x: string)
    requires IsGroupPattern(pat) && Selects(pat, x)
    ensures var r := Expand(x); |r| > 0 && r[0] == '[' && r[|r| - 1] == ']'
    ensures forall i :: 0 <= i < |Expand(x)| ==> IsMarkerChar(Expand(x)[i])
  {
    GroupRuns(pat, x);
    BracketsShape(DigitRuns(x));
  }

  /** A run of markers stands in front of a group: the group holds a separator, and only its end is `]`. */
  lemma MarkersGood(r: string, t: string, p: nat)
    requires |r| > 0 && r[0] == '[' && r[|r| - 1] == ']'
    requires forall i :: 0 <= i < |r| ==> IsMarkerChar(r[i])
    requires p < |t| && !IsMarkerChar(t[p])
    requires forall i :: 0 <= i < |t| - 1 ==> t[i] != ']'
    ensures Good(r, t)
  {
    NoGroupInMarkers(r, t, p);
  }

  /** An expansion stands in front of any text without creating or hiding a group. */
  lemma ExpansionGood(pat: Pattern, x: string, t: string)
    requires IsGroupPattern(pat) && Selects(pat, x) && Selects(pat, t)
    ensures Good(Expand(x), t)
  {
    ExpandShape(pat, x);
    SelectsGroup(pat, t);
    var p := GroupSeparator(t, SepOf(pat));
    assert !IsMarkerChar(t[p]);
    UnitLast(pat, t);
    MarkersGood(Expand(x), t, p);
  }

  /** A match of a group pattern holds its separator, so a text without it has no match. */
  lemma {:induction false} ScanNeedsSeparator(s: string, pat: Pattern)
    requires IsGroupPattern(pat)
    ensures Scan(s, SelectsOf(pat), "") != [] ==> !Lacks(s, SepOf(pat))
    decreases |s|
  {
    var sep := SepOf(pat);
    if s != [] {
      match UnitAt(s, SelectsOf(pat), "")
      case Some(n) =>
        var u := s[..n];
        assert SelectsOf(pat)(u);
        SelectsGroup(pat, u);
        var p := GroupSeparator(u, sep);
        assert s[p] == sep;
      case None =>
        ScanNeedsSeparator(s[1..], pat);
        if !Lacks(s[1..], sep) {
          var i :| 0 <= i < |s[1..]| && s[1..][i] == sep;
          assert s[i + 1] == sep;
        }
    }
  }

  /** The expansion leaves a text without the pattern's separator as it is. */
  lemma GroupsNeedSeparator(s: string, pat: Pattern)
    requires IsGroupPattern(pat) && Lacks(s, SepOf(pat))
    ensures Rewrite(s, Language(SelectsOf(pat)), Expand, "") == s
  {
    ScanNeedsSeparator(s, pat);
    assert Matches(s, pat) == [];
    assert Elements([]) == iset{};
    MatchesRewrite(s, [], pat, Expand);
    RewriteNothing(s, Expand, "");
  }
}

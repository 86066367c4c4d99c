/**
 * Page links (the last step of `formatText` / `formatResponse`, and the
 * link step of the older client): every distinct citation marker whose page
 * number is a page of the loaded document is replaced, everywhere, by a
 * clickable element that turns the viewer to that page. A page number is
 * the marker's first run of digits, compared as a JavaScript number and
 * written into the link as the digits themselves.
 */
module Links {
  import opened Wrappers
  import opened Strings
  import opened Markup
  import opened Citations

  // ---------------------------------------------------------------------------
  // Distinct matches

  /** `[...new Set(ms)]`: the strings of `ms`, each once, in order of first appearance. */
  function Distinct(ms: seq<string>): (r: seq<string>)
    ensures forall x :: x in r <==> x in ms
    ensures forall i, j :: 0 <= i < j < |r| ==> r[i] != r[j]
    decreases |ms|
  {
    if ms == [] then []
    else
      var r := Distinct(ms[..|ms| - 1]);
      var x := ms[|ms| - 1];
      assert forall y :: y in ms <==> y in ms[..|ms| - 1] || y == x by {
        assert ms == ms[..|ms| - 1] + [x];
      }
      if x in r then r else r + [x]
  }

  /** A sequence without repetitions gives itself back. */
  lemma {:induction false} DistinctOfDistinct(ms: seq<string>)
    requires forall i, j :: 0 <= i < j < |ms| ==> ms[i] != ms[j]
    ensures Distinct(ms) == ms
    decreases |ms|
  {
    if ms != [] {
      var init := ms[..|ms| - 1];
      DistinctOfDistinct(init);
      assert ms[|ms| - 1] !in init;
      assert init + [ms[|ms| - 1]] == ms;
    }
  }

  // ---------------------------------------------------------------------------
  // The links

  /** The four forms a page link takes across the clients. */
  datatype LinkStyle =
    | ModuleButton  // `ChatbotResponse.formatText`: a button calling `WebViewer.getInstance()`
    | GlobalButton  // `formatResponse`: a button calling `window.WebViewer.getInstance()`
    | Anchor        // the older client, for keywords: an anchor
    | AnchorBreak   // the older client, for a marker ending a sentence: an anchor, the period, a line break

  const ButtonOpen: string := "<button class=\"page-link\" type=\"button\"" + OnClick
  const AnchorOpen: string := "<a href=\"#\"" + OnClick
  const OnClick: string := " style=\"color:blue;\" onclick=\""
  const SetPage: string := ".getInstance().Core.documentViewer" + ".setCurrentPage("
  const SetPageEnd: string := ", true);\">"

  function Viewer(style: LinkStyle): string {
    if style == ModuleButton then "WebViewer" else "window.WebViewer"
  }

  /** The markup in front of the visible `[n]`. */
  function Opening(style: LinkStyle, n: string): string {
    (if style.ModuleButton? || style.GlobalButton? then ButtonOpen else AnchorOpen)
      + Viewer(style) + SetPage + n + SetPageEnd
  }

  /** The markup after the visible `[n]`. */
  function Closing(style: LinkStyle): string {
    match style
    case ModuleButton => "</button>"
    case GlobalButton => "</button>"
    case Anchor => "</a>"
    case AnchorBreak => "</a>.<br/>"
  }

  /** The link to page `n`, showing `[n]`. */
  function PageLink(style: LinkStyle, n: string): string {
    Opening(style, n) + "[" + n + "]" + Closing(style)
  }

  /** The page number of a match: its first run of digits, `match.match(/\d+/)[0]`. */
  function PageNumber(m: string): Option<string> {
    var ds := DigitRuns(m);
    if ds == [] then None else Some(ds[0])
  }

  /** `pageNumber > 0 && pageNumber <= pageCount`, the digit string read as a decimal number. */
  predicate InRange(d: string, pageCount: nat)
    requires AllDigits(d)
  {
    0 < DecimalValue(d) <= pageCount
  }

  /** What a match becomes: the link to its page when the document has that page, else itself. */
  function LinkOrKeep(style: LinkStyle, pageCount: nat, m: string): string {
    match PageNumber(m)
    case Some(d) => if InRange(d, pageCount) then PageLink(style, d) else m
    case None => m
  }

  function Linked(style: LinkStyle, pageCount: nat): string -> string {
    m => LinkOrKeep(style, pageCount, m)
  }

  /**
   * The `forEach` over the distinct matches: each match whose page exists is
   * replaced everywhere by its link; the others are left alone.
   */
  method LinkMatches(text: string, matches: seq<string>, style: LinkStyle, pageCount: nat) returns (r: string)
    requires forall m :: m in matches ==> DigitRuns(m) != []
    ensures r == ReplaceEach(text, Distinct(matches), Linked(style, pageCount))
  {
    r := text;
    if |matches| > 0 {
      var ms := Distinct(matches);
      var i := 0;
      while i < |ms|
        invariant 0 <= i <= |ms|
        invariant ReplaceEach(r, ms[i..], Linked(style, pageCount)) == ReplaceEach(text, ms, Linked(style, pageCount))
      {
        var m := ms[i];
        assert m in matches;
        var pageNumber := DigitRuns(m)[0];
        ReplaceEachNext(r, ms, i, Linked(style, pageCount));
        if InRange(pageNumber, pageCount) {
          r := ReplaceAll(r, m, PageLink(style, pageNumber));
        } else {
          KeepStep(r, m, style, pageCount);
        }
        i := i + 1;
      }
      assert ms[|ms|..] == [];
    }
  }

  lemma KeepStep(r: string, m: string, style: LinkStyle, pageCount: nat)
    requires PageNumber(m).Some? && !InRange(PageNumber(m).value, pageCount)
    ensures ReplaceAll(r, m, Linked(style, pageCount)(m)) == r
  {
    assert |m| > 0;
    ReplaceAllSelf(r, m);
  }

  // ---------------------------------------------------------------------------
  // Shape of markers and links

  /** A marker pattern's match is `[`, its digits, `]` and the suffix. */
  lemma MarkerShape(pat: Pattern, u: string) returns (d: string)
    requires (pat == Marker || pat == MarkerPeriod) && Selects(pat, u)
    ensures |d| > 0 && AllDigits(d) && u == "[" + d + "]" + Suffix(pat)
  {
    var sfx := Suffix(pat);
    d := u[1..|u| - |sfx| - 1];
    assert u == u[..1] + d + u[|u| - |sfx| - 1..|u| - |sfx|] + u[|u| - |sfx|..];
  }

  /** The page number of a marker is its digits. */
  lemma MarkerPageNumber(d: string, sfx: string)
    requires |d| > 0 && AllDigits(d)
    ensures PageNumber("[" + d + "]" + sfx) == Some(d)
  {
    var u := "[" + d + "]" + sfx;
    var v := d + ("]" + sfx);
    assert u[1..] == v;
    assert !IsDigit(u[0]);
    assert DigitRuns(u) == DigitRuns(v);
    DigitRunLenOf(d, "]" + sfx);
    assert IsDigit(v[0]);
    assert v[..|d|] == d;
    assert DigitRuns(v)[0] == d;
  }

  lemma DigitsLack(d: string)
    requires AllDigits(d)
    ensures Lacks(d, '[') && Lacks(d, '>')
  {
  }

  /** The markup around the visible marker holds no `[`. */
  lemma FrameLacks(style: LinkStyle, n: string)
    requires AllDigits(n)
    ensures Lacks(Opening(style, n), '[') && Lacks(Closing(style), '[')
  {
    LacksConcat("<button class=\"page-link\" type=\"button\"", OnClick, '[');
    LacksConcat("<a href=\"#\"", OnClick, '[');
    LacksConcat(".getInstance().Core.documentViewer", ".setCurrentPage(", '[');
    var head := if style.ModuleButton? || style.GlobalButton? then ButtonOpen else AnchorOpen;
    LacksConcat(head, Viewer(style), '[');
    LacksConcat(head + Viewer(style), SetPage, '[');
    DigitsLack(n);
    LacksConcat(head + Viewer(style) + SetPage, n, '[');
    LacksConcat(head + Viewer(style) + SetPage + n, SetPageEnd, '[');
  }

  lemma ConcatEnds(a: string, b: string)
    requires |a| > 0 && |b| > 0
    ensures (a + b)[0] == a[0] && (a + b)[|a + b| - 1] == b[|b| - 1]
  {
  }

  lemma ConcatFirst(a: string, b: string)
    requires |a| > 0
    ensures |a + b| > 0 && (a + b)[0] == a[0]
  {
  }

  lemma OpeningStarts(style: LinkStyle, n: string)
    ensures |Opening(style, n)| > 0 && Opening(style, n)[0] == '<'
  {
    var head := if style.ModuleButton? || style.GlobalButton? then ButtonOpen else AnchorOpen;
    assert head[0] == '<';
    ConcatFirst(head, Viewer(style));
    ConcatFirst(head + Viewer(style), SetPage);
    ConcatFirst(head + Viewer(style) + SetPage, n);
    ConcatFirst(head + Viewer(style) + SetPage + n, SetPageEnd);
  }

  /** A link is an element: it begins with `<` and ends with `>`. */
  lemma LinkEnds(style: LinkStyle, n: string)
    ensures var l := PageLink(style, n); |l| > 0 && l[0] == '<' && l[|l| - 1] == '>'
  {
    var o := Opening(style, n);
    var c := Closing(style);
    OpeningStarts(style, n);
    assert c[|c| - 1] == '>';
    ConcatEnds(o, "[" + n + "]");
    ConcatEnds(o + "[" + n + "]", c);
  }

  /**
   * A marker `[m]` followed by `sfx` occurs in `a [d] b`, where `a` and `b`
   * hold no `[`, only as that `[d]`: so only when `m` is `d`.
   */
  lemma FramedOccurrence(a: string, d: string, b: string, m: string, sfx: string, j: nat)
    requires Lacks(a, '[') && Lacks(b, '[') && AllDigits(d) && AllDigits(m)
    ensures OccursAt(a + "[" + d + "]" + b, "[" + m + "]" + sfx, j) ==> m == d
  {
    if OccursAt(a + "[" + d + "]" + b, "[" + m + "]" + sfx, j) {
      FramedAt(a, d, b, m, sfx, j);
    }
  }

  /** In `a[d]b` with no bracket in `a`, `d` or `b`, the only `[` is the one after `a`. */
  lemma OneOpening(a: string, d: string, b: string)
    requires Lacks(a, '[') && Lacks(b, '[') && AllDigits(d)
    ensures var r := a + "[" + d + "]" + b;
      r[|a|] == '[' && forall k :: 0 <= k < |r| && k != |a| ==> r[k] != '['
  {
    var r := a + "[" + d + "]" + b;
    forall k | 0 <= k < |r| && k != |a| ensures r[k] != '[' {
      if k < |a| {
        assert r[k] == a[k];
      } else if k < |a| + 1 + |d| {
        assert r[k] == d[k - |a| - 1];
      } else if k > |a| + 1 + |d| {
        assert r[k] == b[k - |a| - 2 - |d|];
      }
    }
  }

  /** The digits between `[` and the next `]` of `[m]sfx`, placed at `j` in `r`. */
  lemma FramedDigits(r: string, m: string, sfx: string, j: nat)
    requires AllDigits(m) && OccursAt(r, "[" + m + "]" + sfx, j)
    ensures j + 1 + |m| < |r| && r[j + 1..j + 1 + |m|] == m && r[j + 1 + |m|] == ']'
  {
    var t := "[" + m + "]" + sfx;
    assert r[j..j + |t|] == t;
    forall k | 0 <= k < |m| ensures r[j + 1 + k] == m[k] {
      assert r[j + 1 + k] == t[1 + k];
    }
    assert r[j + 1 + |m|] == t[1 + |m|];
  }

  lemma FramedAt(a: string, d: string, b: string, m: string, sfx: string, j: nat)
    requires Lacks(a, '[') && Lacks(b, '[') && AllDigits(d) && AllDigits(m)
    requires OccursAt(a + "[" + d + "]" + b, "[" + m + "]" + sfx, j)
    ensures m == d
  {
    var r := a + "[" + d + "]" + b;
    var t := "[" + m + "]" + sfx;
    assert r[j] == t[0];
    OneOpening(a, d, b);
    assert j == |a|;
    FramedDigits(r, m, sfx, j);
    FramedDigits(r, d, b, |a|);
    SameRun(r, j + 1, m, d);
  }

  /** Two runs of digits that start at the same place and both end at a `]` are the same. */
  lemma SameRun(r: string, i: nat, m: string, d: string)
    requires AllDigits(m) && AllDigits(d)
    requires i + |m| < |r| && r[i..i + |m|] == m && r[i + |m|] == ']'
    requires i + |d| < |r| && r[i..i + |d|] == d && r[i + |d|] == ']'
    ensures m == d
  {
    RunBefore(r, i, m);
    RunBefore(r, i, d);
  }

  /** The number of digits of `r` from `i` on, up to the first other character. */
  function DigitsFrom(r: string, i: nat): nat
    decreases |r| - i
  {
    if i < |r| && IsDigit(r[i]) then 1 + DigitsFrom(r, i + 1) else 0
  }

  /** A run of digits followed by `]` is all the digits there. */
  lemma {:induction false} RunBefore(r: string, i: nat, m: string)
    requires AllDigits(m) && i + |m| < |r| && r[i..i + |m|] == m && r[i + |m|] == ']'
    ensures DigitsFrom(r, i) == |m|
    decreases |m|
  {
    if m != [] {
      assert r[i] == m[0];
      assert r[i + 1..i + 1 + |m[1..]|] == m[1..];
      RunBefore(r, i + 1, m[1..]);
    }
  }

  /** The suffixes of the marker patterns. */
  predicate MarkerSuffix(sfx: string) { sfx == "" || sfx == "." }

  /** Only the last character of a marker can be its suffix's last or `]`, and none is `>`. */
  lemma MarkerChars(e: string, sfx: string)
    requires AllDigits(e) && MarkerSuffix(sfx)
    ensures var t := "[" + e + "]" + sfx;
      forall i :: 0 <= i < |t| - 1 ==> t[i] != '>' && t[i] != (if sfx == "" then ']' else '.')
  {
    var t := "[" + e + "]" + sfx;
    forall i | 0 <= i < |t| - 1 ensures t[i] != '>' && t[i] != (if sfx == "" then ']' else '.') {
      if 0 < i <= |e| {
        assert t[i] == e[i - 1];
      }
    }
  }

  /** The link of one page stands in front of the marker of another. */
  lemma LinkFrontGood(style: LinkStyle, d: string, e: string, sfx: string)
    requires |d| > 0 && AllDigits(d) && AllDigits(e) && d != e && MarkerSuffix(sfx)
    ensures Good(PageLink(style, d), "[" + e + "]" + sfx)
  {
    var r := PageLink(style, d);
    var t := "[" + e + "]" + sfx;
    FrameLacks(style, d);
    LinkEnds(style, d);
    MarkerChars(e, sfx);
    forall j: nat ensures !OccursAt(r, t, j) {
      FramedOccurrence(Opening(style, d), d, Closing(style), e, sfx, j);
    }
  }

  /** The marker of one page stands in front of the marker of another. */
  lemma MarkerFrontGood(d: string, e: string, sfx: string)
    requires |d| > 0 && AllDigits(d) && AllDigits(e) && d != e && MarkerSuffix(sfx)
    ensures Good("[" + d + "]" + sfx, "[" + e + "]" + sfx)
  {
    var r := "[" + d + "]" + sfx;
    var t := "[" + e + "]" + sfx;
    assert r == "" + "[" + d + "]" + sfx;
    assert r[|r| - 1] == (if sfx == "" then ']' else '.');
    MarkerChars(e, sfx);
    forall j: nat ensures !OccursAt(r, t, j) {
      FramedOccurrence("", d, sfx, e, sfx, j);
    }
  }

  /** A marker other than `t` stands in front of `t`, as its link or as itself: the link step is sequenced. */
  lemma LinkGood(style: LinkStyle, pageCount: nat, pat: Pattern, x: string, t: string)
    requires (pat == Marker || pat == MarkerPeriod) && Selects(pat, x) && Selects(pat, t) && x != t
    ensures Good(LinkOrKeep(style, pageCount, x), t)
  {
    var sfx := Suffix(pat);
    var d := MarkerShape(pat, x);
    var e := MarkerShape(pat, t);
    MarkerPageNumber(d, sfx);
    if InRange(d, pageCount) {
      LinkFrontGood(style, d, e, sfx);
    } else {
      MarkerFrontGood(d, e, sfx);
    }
  }

  /**
   * Replacing the distinct markers one after another is the single pass that
   * links every marker of an existing page, wherever it stands.
   */
  lemma LinkIsSinglePass(text: string, pat: Pattern, style: LinkStyle, pageCount: nat)
    requires pat == Marker || pat == MarkerPeriod
    ensures ReplaceEach(text, Distinct(Matches(text, pat)), Linked(style, pageCount))
         == Rewrite(text, Language(SelectsOf(pat)), Linked(style, pageCount), Suffix(pat))
  {
    var g := Linked(style, pageCount);
    var sfx := Suffix(pat);
    var all := Matches(text, pat);
    var ms := Distinct(all);
    forall i | 0 <= i < |ms| ensures Selects(pat, ms[i]) && IsUnit(ms[i], sfx) {
      assert ms[i] in all;
    }
    RewriteNothing(text, g, sfx);
    forall i, j | 0 <= j < i < |ms| ensures Good(g(ms[j]), ms[i]) {
      LinkGood(style, pageCount, pat, ms[j], ms[i]);
    }
    assert Sequenced(iset{}, ms, g, sfx);
    FoldRewrite(text, iset{}, ms, g, sfx);
    assert iset{} + Elements(ms) == Elements(ms);
    assert Elements(ms) == Elements(all);
    MatchesRewrite(text, ms, pat, g);
  }

  /** A document without pages gets no links. */
  lemma NoPagesNoLinks(text: string, P: iset<string>, style: LinkStyle, sfx: string)
    ensures Rewrite(text, P, Linked(style, 0), sfx) == text
  {
    forall x | x in P ensures Linked(style, 0)(x) == x {
    }
    RewriteFixed(text, P, Linked(style, 0), sfx);
  }

  /** A marker of an existing page becomes its link; one of a missing page stays. */
  lemma LinkOrKeepMarker(style: LinkStyle, pageCount: nat, d: string, sfx: string)
    requires |d| > 0 && AllDigits(d)
    ensures InRange(d, pageCount) ==> LinkOrKeep(style, pageCount, "[" + d + "]" + sfx) == PageLink(style, d)
    ensures !InRange(d, pageCount) ==> LinkOrKeep(style, pageCount, "[" + d + "]" + sfx) == "[" + d + "]" + sfx
  {
    MarkerPageNumber(d, sfx);
  }
}

/**
 * The layout passes of the formatter: line breaks after cited sentences,
 * bullet lists, and the collapse of a marker repeated side by side.
 */
module Layout {
  import opened Strings
  import opened Markup

  // ---------------------------------------------------------------------------
  // Breaks after cited sentences: `text.replace(/(\d+\])\./g, '$1.<br/><br/>')`

  const ParagraphBreak: string := "<br/><br/>"

  /** Position `p` holds a period right after `]` right after a digit. */
  predicate CitedPeriod(s: string, p: int) {
    2 <= p < |s| && s[p] == '.' && s[p - 1] == ']' && IsDigit(s[p - 2])
  }

  /** The reference: `s` from `i` on, with the paragraph break after every cited period. */
  function BreakFrom(s: string, i: nat): string
    requires i <= |s|
    decreases |s| - i
  {
    if i == |s| then ""
    else [s[i]] + (if CitedPeriod(s, i) then ParagraphBreak else "") + BreakFrom(s, i + 1)
  }

  /**
   * The regular expression scan: at each position, a run of digits followed
   * by `].` is a match and is copied with the break after it; otherwise one
   * character is copied and the scan moves on.
   */
  function PeriodBreaks(s: string): string
    decreases |s|
  {
    if s == [] then ""
    else
      var n := DigitRunLen(s);
      if n > 0 && StartsWith(s[n..], "].") then s[..n + 2] + ParagraphBreak + PeriodBreaks(s[n + 2..])
      else [s[0]] + PeriodBreaks(s[1..])
  }

  /** Whether a position is a cited period depends only on the two characters before it. */
  lemma CitedShift(s: string, k: nat, p: nat)
    requires k + 2 <= p && k <= |s|
    ensures CitedPeriod(s, p) <==> CitedPeriod(s[k..], p - k)
  {
  }

  /** The reference from `i` reads `s[k..]` alone once no cited period in reach of `k` is lost. */
  lemma {:induction false} BreakShift(s: string, k: nat, i: nat)
    requires k <= i <= |s|
    requires forall p :: i <= p < k + 2 ==> !CitedPeriod(s, p)
    ensures BreakFrom(s, i) == BreakFrom(s[k..], i - k)
    decreases |s| - i
  {
    if i < |s| {
      BreakShift(s, k, i + 1);
      assert s[k..][i - k] == s[i];
      if i >= k + 2 {
        CitedShift(s, k, i);
      }
    }
  }

  /** A stretch without cited periods is copied by the reference. */
  lemma {:induction false} BreakCopy(s: string, i: nat, j: nat)
    requires i <= j <= |s|
    requires forall p :: i <= p < j ==> !CitedPeriod(s, p)
    ensures BreakFrom(s, i) == s[i..j] + BreakFrom(s, j)
    decreases j - i
  {
    if i < j {
      calc {
        BreakFrom(s, i);
        { assert !CitedPeriod(s, i); }
        [s[i]] + BreakFrom(s, i + 1);
        { BreakCopy(s, i + 1, j); }
        [s[i]] + (s[i + 1..j] + BreakFrom(s, j));
        { assert s[i..j] == [s[i]] + s[i + 1..j]; }
        s[i..j] + BreakFrom(s, j);
      }
    }
  }

  /** A cited period at the third position means the scan matches at the first. */
  lemma CitedAtTwo(t: string)
    ensures CitedPeriod(t, 2) ==> DigitRunLen(t) == 1 && StartsWith(t[1..], "].")
  {
    if CitedPeriod(t, 2) {
      assert t[1..][..2] == "].";
    }
  }

  /** At a match, the reference copies the digits and `]`, then the period and its break. */
  lemma BreakAtMatch(t: string, n: nat)
    requires 0 < n == DigitRunLen(t) && StartsWith(t[n..], "].")
    ensures BreakFrom(t, 0) == t[..n + 2] + ParagraphBreak + BreakFrom(t[n + 2..], 0)
  {
    assert t[n] == ']' && t[n + 1] == '.';
    assert forall p :: 0 <= p < n + 1 ==> !CitedPeriod(t, p) by {
      forall p | 0 <= p < n + 1 ensures !CitedPeriod(t, p) {
        if p < n {
          assert t[..n][p] == t[p];
        }
      }
    }
    assert t[..n][n - 1] == t[n - 1];
    calc {
      BreakFrom(t, 0);
      { BreakCopy(t, 0, n + 1); }
      t[0..n + 1] + BreakFrom(t, n + 1);
      { assert CitedPeriod(t, n + 1); }
      t[0..n + 1] + ([t[n + 1]] + ParagraphBreak + BreakFrom(t, n + 2));
      { assert t[..n + 2] == t[0..n + 1] + [t[n + 1]]; }
      t[..n + 2] + ParagraphBreak + BreakFrom(t, n + 2);
      { BreakShift(t, n + 2, n + 2); }
      t[..n + 2] + ParagraphBreak + BreakFrom(t[n + 2..], 0);
    }
  }

  /** The scan inserts exactly the breaks of the reference. */
  lemma {:induction false} PeriodBreaksSpec(t: string)
    ensures PeriodBreaks(t) == BreakFrom(t, 0)
    decreases |t|
  {
    if t != [] {
      var n := DigitRunLen(t);
      if n > 0 && StartsWith(t[n..], "].") {
        calc {
          PeriodBreaks(t);
          t[..n + 2] + ParagraphBreak + PeriodBreaks(t[n + 2..]);
          { PeriodBreaksSpec(t[n + 2..]); }
          t[..n + 2] + ParagraphBreak + BreakFrom(t[n + 2..], 0);
          { BreakAtMatch(t, n); }
          BreakFrom(t, 0);
        }
      } else {
        calc {
          PeriodBreaks(t);
          [t[0]] + PeriodBreaks(t[1..]);
          { PeriodBreaksSpec(t[1..]); }
          [t[0]] + BreakFrom(t[1..], 0);
          { CitedAtTwo(t); BreakShift(t, 1, 1); }
          [t[0]] + BreakFrom(t, 1);
          BreakFrom(t, 0);
        }
      }
    }
  }

  /** The breaks add no character the text lacks, save those of the break itself. */
  lemma {:induction false} BreakFromLacks(s: string, i: nat, c: char)
    requires i <= |s| && Lacks(s, c) && Lacks(ParagraphBreak, c)
    ensures Lacks(BreakFrom(s, i), c)
    decreases |s| - i
  {
    if i < |s| {
      BreakFromLacks(s, i + 1, c);
      var mid := if CitedPeriod(s, i) then ParagraphBreak else "";
      LacksConcat([s[i]], mid, c);
      LacksConcat([s[i]] + mid, BreakFrom(s, i + 1), c);
    }
  }

  /** Text without a cited period is left as it is. */
  lemma {:induction false} NoCitedPeriodUnchanged(s: string, i: nat)
    requires i <= |s|
    requires forall p :: i <= p < |s| ==> !CitedPeriod(s, p)
    ensures BreakFrom(s, i) == s[i..]
  {
    BreakCopy(s, i, |s|);
  }

  // ---------------------------------------------------------------------------
  // Bullets: `text.split(/•\s*/).filter(Boolean).map(line => `• ${line.trim()}`).join('<br/>')`

  /** The bullet the formatter writes in front of every item. */
  const Bullet: char := '\U{2022}'

  /** The separator the formatter joins lines with. */
  const LineBreak: string := "<br/>"

  /**
   * `s.split` on the regular expression `D\s*` for a literal delimiter `D`: the pieces between the
   * leftmost occurrences of `D`, each occurrence taking the white space after
   * it along.
   */
  function BulletSplit(s: string, d: string): (r: seq<string>)
    requires |d| > 0
    ensures |r| >= 1 && StartsWith(s, r[0])
    decreases |s|
  {
    if s == [] then [""]
    else if StartsWith(s, d) then
      var rest := s[|d|..];
      [""] + BulletSplit(rest[SpaceRunLen(rest)..], d)
    else
      var t := BulletSplit(s[1..], d);
      assert s[1..][..|t[0]|] == s[1..1 + |t[0]|];
      [[s[0]] + t[0]] + t[1..]
  }

  /** `.filter(Boolean)` on strings: the non-empty ones, in order. */
  function NonEmpty(xs: seq<string>): (r: seq<string>)
    ensures forall x :: x in r <==> x in xs && x != ""
    decreases |xs|
  {
    if xs == [] then []
    else if xs[0] == "" then NonEmpty(xs[1..])
    else [xs[0]] + NonEmpty(xs[1..])
  }

  /** `.map(line => `• ${line.trim()}`)`. */
  function Items(xs: seq<string>): seq<string> {
    seq(|xs|, i requires 0 <= i < |xs| => [Bullet, ' '] + Trim(xs[i]))
  }

  /** The bullet pass of the prompt types that ask for lists. */
  function Bulleted(s: string, d: string): string
    requires |d| > 0
  {
    Join(Items(NonEmpty(BulletSplit(s, d))), LineBreak)
  }

  /** No piece of the split holds the delimiter. */
  lemma {:induction false} BulletPiecesLack(s: string, d: string)
    requires |d| > 0
    ensures forall k :: 0 <= k < |BulletSplit(s, d)| ==> !Contains(BulletSplit(s, d)[k], d)
    decreases |s|
  {
    var r := BulletSplit(s, d);
    if s == [] {
      assert !Contains("", d);
    } else if StartsWith(s, d) {
      var rest := s[|d|..];
      BulletPiecesLack(rest[SpaceRunLen(rest)..], d);
      assert !Contains("", d);
    } else {
      var t := BulletSplit(s[1..], d);
      BulletPiecesLack(s[1..], d);
      var x := [s[0]] + t[0];
      assert x[1..] == t[0];
      assert !StartsWith(x, d) by {
        assert StartsWith(s, x);
        if |d| <= |x| {
          assert s[..|d|] == x[..|d|];
        }
      }
      assert r[0] == x;
      forall k | 1 <= k < |r| ensures !Contains(r[k], d) {
        assert r[k] == t[k];
      }
    }
  }

  /** Text without the delimiter is one piece. */
  lemma {:induction false} BulletSplitAbsent(s: string, d: string)
    requires |d| > 0 && !Contains(s, d)
    ensures BulletSplit(s, d) == [s]
    decreases |s|
  {
    if s != [] {
      BulletSplitAbsent(s[1..], d);
      assert [s[0]] + s[1..] == s;
    }
  }

  /** Text without the delimiter becomes one item, or nothing when it is empty. */
  lemma OneBullet(s: string, d: string)
    requires |d| > 0 && !Contains(s, d)
    ensures Bulleted(s, d) == if s == "" then "" else [Bullet, ' '] + Trim(s)
  {
    BulletSplitAbsent(s, d);
    if s == "" {
      assert NonEmpty([s]) == [];
    } else {
      assert NonEmpty([s]) == [s];
    }
  }

  /** `D q0 D q1 …`: a list written with a one-character delimiter and a space after each. */
  function Listed(qs: seq<string>, c: char): string
    decreases |qs|
  {
    if qs == [] then "" else [c, ' '] + qs[0] + Listed(qs[1..], c)
  }

  /** A piece without the delimiter is carried into the first piece of what follows. */
  lemma {:induction false} BulletSplitCopies(q: string, rest: string, c: char)
    requires Lacks(q, c)
    ensures BulletSplit(q + rest, [c]) == [q + BulletSplit(rest, [c])[0]] + BulletSplit(rest, [c])[1..]
    decreases |q|
  {
    var t := BulletSplit(rest, [c]);
    if q == [] {
      assert q + rest == rest;
      assert q + t[0] == t[0];
      assert [t[0]] + t[1..] == t;
    } else {
      var s := q + rest;
      assert s[1..] == q[1..] + rest;
      BulletSplitCopies(q[1..], rest, c);
      var u := BulletSplit(s[1..], [c]);
      assert u == [q[1..] + t[0]] + t[1..];
      assert !StartsWith(s, [c]) by {
        assert s[0] == q[0];
      }
      assert BulletSplit(s, [c]) == [[s[0]] + u[0]] + u[1..];
      assert u[1..] == t[1..];
      assert [s[0]] + u[0] == q + t[0] by {
        assert [q[0]] + q[1..] == q;
      }
    }
  }

  /** The items of a listed text are exactly the listed questions, after an empty first piece. */
  lemma {:induction false} BulletSplitListed(qs: seq<string>, c: char)
    requires qs != []
    requires forall i :: 0 <= i < |qs| ==> qs[i] != "" && Lacks(qs[i], c) && !IsSpace(qs[i][0])
    ensures BulletSplit(Listed(qs, c), [c]) == [""] + qs
    decreases |qs|
  {
    var tail := Listed(qs[1..], c);
    var s := Listed(qs, c);
    assert s == [c, ' '] + (qs[0] + tail);
    assert StartsWith(s, [c]);
    var rest := s[1..];
    assert rest == [' '] + (qs[0] + tail);
    assert SpaceRunLen(rest) == 1 by {
      assert rest[1..] == qs[0] + tail;
      assert rest[1..][0] == qs[0][0];
    }
    assert rest[1..] == qs[0] + tail;
    BulletSplitCopies(qs[0], tail, c);
    if |qs| == 1 {
      assert tail == "";
      assert qs[0] + "" == qs[0];
    } else {
      BulletSplitListed(qs[1..], c);
      assert BulletSplit(tail, [c]) == [""] + qs[1..];
      assert qs[0] + "" == qs[0];
      assert [qs[0]] + qs[1..] == qs;
    }
  }

  /** The non-empty pieces of a listed text are the listed questions. */
  lemma ListedPieces(qs: seq<string>, c: char)
    requires forall i :: 0 <= i < |qs| ==> qs[i] != "" && Lacks(qs[i], c) && !IsSpace(qs[i][0])
    ensures NonEmpty(BulletSplit(Listed(qs, c), [c])) == qs
  {
    if qs == [] {
      assert BulletSplit("", [c]) == [""];
      assert NonEmpty([""]) == [];
    } else {
      calc {
        NonEmpty(BulletSplit(Listed(qs, c), [c]));
        { BulletSplitListed(qs, c); }
        NonEmpty([""] + qs);
        { assert ([""] + qs)[1..] == qs; }
        NonEmpty(qs);
        { NonEmptyAll(qs); }
        qs;
      }
    }
  }

  /** A list of questions written `• q0 • q1 …` comes out as one item per question. */
  lemma ListedBullets(qs: seq<string>)
    requires forall i :: 0 <= i < |qs| ==> qs[i] != "" && Lacks(qs[i], Bullet) && !IsSpace(qs[i][0])
    ensures Bulleted(Listed(qs, Bullet), [Bullet]) == Join(Items(qs), LineBreak)
  {
    ListedPieces(qs, Bullet);
  }

  /** Filtering keeps a list without empty strings as it is. */
  lemma {:induction false} NonEmptyAll(xs: seq<string>)
    requires forall i :: 0 <= i < |xs| ==> xs[i] != ""
    ensures NonEmpty(xs) == xs
    decreases |xs|
  {
    if xs != [] {
      NonEmptyAll(xs[1..]);
      assert [xs[0]] + xs[1..] == xs;
    }
  }

  // ---------------------------------------------------------------------------
  // Repeated markers: `line.replace(/(\[\d+])(?:\1)+/g, '$1')` on every line

  /** `[`, one or more digits, `]`. */
  predicate IsMarker(m: string) {
    |m| >= 3 && m[0] == '[' && m[|m| - 1] == ']' && AllDigits(m[1..|m| - 1])
  }

  /** The length of the marker `s` starts with, or 0 when it starts with none. */
  function MarkerLen(s: string): (k: nat)
    ensures k == 0 || 3 <= k <= |s|
  {
    if |s| > 0 && s[0] == '[' then
      var n := DigitRunLen(s[1..]);
      if n > 0 && n + 1 < |s| && s[n + 1] == ']' then n + 2 else 0
    else 0
  }

  /** What `MarkerLen` measures is a marker. */
  lemma MarkerLenMarker(s: string)
    ensures MarkerLen(s) > 0 ==> IsMarker(s[..MarkerLen(s)])
  {
    var k := MarkerLen(s);
    if k > 0 {
      assert s[..k][1..k - 1] == s[1..][..k - 2];
    }
  }

  /** What follows the copies of `m` that `s` starts with. */
  function StripCopies(s: string, m: string): (r: string)
    requires |m| > 0
    ensures |r| <= |s|
    decreases |s|
  {
    if StartsWith(s, m) then StripCopies(s[|m|..], m) else s
  }

  /**
   * The regular expression scan: a marker followed by one or more copies of
   * itself is written once and the scan goes on after the last copy;
   * otherwise one character is copied.
   */
  function Collapse(s: string): string
    decreases |s|
  {
    if s == [] then ""
    else
      var k := MarkerLen(s);
      if k > 0 && StartsWith(s[k..], s[..k]) then s[..k] + Collapse(StripCopies(s[k..], s[..k]))
      else [s[0]] + Collapse(s[1..])
  }

  /** `k` copies of `m`. */
  function Repeat(m: string, k: nat): string
    decreases k
  {
    if k == 0 then "" else m + Repeat(m, k - 1)
  }

  /** A marker is measured as a whole, whatever follows it. */
  lemma MarkerLenOf(m: string, rest: string)
    requires IsMarker(m)
    ensures MarkerLen(m + rest) == |m|
  {
    var s := m + rest;
    var d := m[1..|m| - 1];
    assert s[1..] == d + ("]" + rest);
    DigitRunLenOf(d, "]" + rest);
    assert s[|m| - 1] == ']';
  }

  /** Where no marker starts, the scan copies one character. */
  lemma CollapsePlainStep(s: string)
    requires s != [] && MarkerLen(s) == 0
    ensures Collapse(s) == [s[0]] + Collapse(s[1..])
  {
  }

  /** A marker without a copy right after it is copied one character at a time. */
  lemma CollapseSingleStep(s: string, k: nat)
    requires s != [] && k == MarkerLen(s) && !StartsWith(s[k..], s[..k])
    ensures Collapse(s) == [s[0]] + Collapse(s[1..])
  {
  }

  /** A marker followed by a copy of itself is written once, and the copies are skipped. */
  lemma CollapseRunStep(s: string, m: string)
    requires s != [] && MarkerLen(s) == |m| > 0 && s[..|m|] == m && StartsWith(s[|m|..], m)
    ensures Collapse(s) == m + Collapse(StripCopies(s[|m|..], m))
  {
  }

  /** Text without `[` is copied, and the scan resumes after it. */
  lemma {:induction false} CollapseCopies(p: string, x: string)
    requires Lacks(p, '[')
    ensures Collapse(p + x) == p + Collapse(x)
    decreases |p|
  {
    if p == [] {
      assert p + x == x;
    } else {
      var s := p + x;
      assert s[0] == p[0] && s[1..] == p[1..] + x;
      calc {
        Collapse(s);
        { CollapsePlainStep(s); }
        [p[0]] + Collapse(p[1..] + x);
        { CollapseCopies(p[1..], x); }
        [p[0]] + (p[1..] + Collapse(x));
        { ConcatAssoc([p[0]], p[1..], Collapse(x)); assert [p[0]] + p[1..] == p; }
        p + Collapse(x);
      }
    }
  }

  /** Text without markers is left as it is. */
  lemma CollapseWithoutMarkers(s: string)
    requires Lacks(s, '[')
    ensures Collapse(s) == s
  {
    CollapseCopies(s, "");
    assert s + "" == s;
  }

  /** Leading copies of `m` are all stripped. */
  lemma {:induction false} StripRepeat(m: string, k: nat, rest: string)
    requires |m| > 0 && !StartsWith(rest, m)
    ensures StripCopies(Repeat(m, k) + rest, m) == rest
    decreases k
  {
    if k == 0 {
      assert Repeat(m, k) + rest == rest;
    } else {
      var s := Repeat(m, k) + rest;
      assert s == m + (Repeat(m, k - 1) + rest);
      assert s[..|m|] == m;
      assert s[|m|..] == Repeat(m, k - 1) + rest;
      StripRepeat(m, k - 1, rest);
    }
  }

  /** A marker written `k >= 1` times in a row, not followed by another copy, is written once. */
  lemma CollapseRun(m: string, k: nat, rest: string)
    requires IsMarker(m) && k >= 1 && !StartsWith(rest, m)
    ensures Collapse(Repeat(m, k) + rest) == m + Collapse(rest)
  {
    if k == 1 {
      calc {
        Collapse(Repeat(m, k) + rest);
        { assert Repeat(m, 1) == m + ""; assert m + "" == m; }
        Collapse(m + rest);
        { CollapseSingle(m, rest); }
        m + Collapse(rest);
      }
    } else {
      CollapseRepeated(m, k, rest);
    }
  }

  /** The case of two or more copies: one is written, the others are skipped. */
  lemma CollapseRepeated(m: string, k: nat, rest: string)
    requires IsMarker(m) && k >= 2 && !StartsWith(rest, m)
    ensures Collapse(Repeat(m, k) + rest) == m + Collapse(rest)
  {
    var s := Repeat(m, k) + rest;
    var tail := Repeat(m, k - 1) + rest;
    assert s == m + tail by {
      ConcatAssoc(m, Repeat(m, k - 1), rest);
    }
    assert tail == m + (Repeat(m, k - 2) + rest) by {
      ConcatAssoc(m, Repeat(m, k - 2), rest);
    }
    MarkerLenOf(m, tail);
    assert s[..|m|] == m && s[|m|..] == tail;
    assert StartsWith(tail, m) by {
      assert tail[..|m|] == m;
    }
    calc {
      Collapse(s);
      { CollapseRunStep(s, m); }
      m + Collapse(StripCopies(tail, m));
      { StripRepeat(m, k - 1, rest); }
      m + Collapse(rest);
    }
  }

  /** A marker not followed by a copy of itself is kept. */
  lemma CollapseSingle(m: string, rest: string)
    requires IsMarker(m) && !StartsWith(rest, m)
    ensures Collapse(m + rest) == m + Collapse(rest)
  {
    var s := m + rest;
    MarkerLenOf(m, rest);
    assert s[..|m|] == m && s[|m|..] == rest;
    assert Lacks(m[1..], '[') by {
      forall i | 0 <= i < |m| - 1 ensures m[1..][i] != '[' {
        if i < |m| - 2 {
          assert m[1..|m| - 1][i] == m[1..][i];
        }
      }
    }
    assert s[1..] == m[1..] + rest;
    calc {
      Collapse(s);
      { CollapseSingleStep(s, |m|); }
      [s[0]] + Collapse(m[1..] + rest);
      { CollapseCopies(m[1..], rest); }
      [m[0]] + (m[1..] + Collapse(rest));
      { ConcatAssoc([m[0]], m[1..], Collapse(rest)); assert [m[0]] + m[1..] == m; }
      m + Collapse(rest);
    }
  }

  /** `lines.join('<br/>')` after every line of a split went through `Collapse`. */
  function CollapsedLines(lines: seq<string>): (r: seq<string>)
    ensures |r| == |lines|
  {
    seq(|lines|, i requires 0 <= i < |lines| => Collapse(lines[i]))
  }

  /**
   * The keyword pass over lines: split on `<br/>`, drop the empty lines,
   * collapse the repeated markers of each line in place, join again.
   */
  method CollapseKeywordLines(text: string) returns (r: string)
    ensures r == Join(CollapsedLines(NonEmpty(Split(text, LineBreak))), LineBreak)
  {
    var parts := NonEmpty(Split(text, LineBreak));
    var lines := new string[|parts|](i requires 0 <= i < |parts| => parts[i]);
    for i := 0 to lines.Length
      invariant forall j :: 0 <= j < i ==> lines[j] == Collapse(parts[j])
      invariant forall j :: i <= j < lines.Length ==> lines[j] == parts[j]
    {
      lines[i] := Collapse(lines[i]);
    }
    assert lines[..] == CollapsedLines(parts);
    r := Join(lines[..], LineBreak);
  }

  /** Every piece of a split of text without `c` lacks `c`. */
  lemma {:induction false} SplitLacks(s: string, sep: string, c: char)
    requires |sep| > 0 && Lacks(s, c)
    ensures forall k :: 0 <= k < |Split(s, sep)| ==> Lacks(Split(s, sep)[k], c)
    decreases |s|
  {
    match IndexOf(s, sep, 0)
    case None =>
    case Some(i) =>
      var rest := s[i + |sep|..];
      SplitLacks(rest, sep, c);
      var r := Split(s, sep);
      assert r == [s[..i]] + Split(rest, sep);
      forall k | 0 < k < |r| ensures Lacks(r[k], c) {
        assert r[k] == Split(rest, sep)[k - 1];
      }
  }

  /** Keyword text without markers and without empty lines comes out as it went in. */
  lemma KeywordLinesPlain(text: string)
    requires Lacks(text, '[')
    requires forall k :: 0 <= k < |Split(text, LineBreak)| ==> Split(text, LineBreak)[k] != ""
    ensures Join(CollapsedLines(NonEmpty(Split(text, LineBreak))), LineBreak) == text
  {
    var parts := Split(text, LineBreak);
    NonEmptyAll(parts);
    SplitLacks(text, LineBreak, '[');
    forall k | 0 <= k < |parts| ensures Collapse(parts[k]) == parts[k] {
      CollapseWithoutMarkers(parts[k]);
    }
    assert CollapsedLines(parts) == parts;
    JoinSplit(text, LineBreak);
  }
}

/**
 * The response formatter: the fixed sequence of string passes that turns a
 * model's answer into the markup shown in the chat panel, in the two current
 * copies (`ChatbotResponse.formatText` and `formatResponse`, which differ only
 * in the page-link markup) and in the older client's `formatText`.
 */
module Formatter {
  import opened Strings
  import opened Markup
  import opened Citations
  import opened Links
  import opened Layout
  import opened Prompts

  // ---------------------------------------------------------------------------
  // The current formatter

  /**
   * The structural pass chosen by prompt type: breaks after cited sentences,
   * or bullets, or nothing.
   */
  function Structured(pt: string, text: string): (r: string)
    ensures IsSummaryType(pt) ==> r == BreakFrom(text, 0)
    ensures IsListType(pt) ==> r == Bulleted(text, [Bullet])
    ensures !IsSummaryType(pt) && !IsListType(pt) ==> r == text
  {
    if IsSummaryType(pt) then
      PeriodBreaksSpec(text);
      PeriodBreaks(text)
    else if IsListType(pt) then Bulleted(text, [Bullet])
    else text
  }

  /** Every pass before the links: structure, both expansions, and the keyword lines. */
  ghost function Prepared(pt: string, text: string): string {
    var grouped := Rewrite(Structured(pt, text), Language(SelectsOf(CommaGroup)), Expand, "");
    var ranged := Rewrite(grouped, Language(SelectsOf(RangeGroup)), Expand, "");
    if pt == DocumentKeywords then Join(CollapsedLines(NonEmpty(Split(ranged, LineBreak))), LineBreak)
    else ranged
  }

  /** The formatted answer: every marker of a page that exists replaced by the link to it. */
  ghost function Formatted(pt: string, text: string, style: LinkStyle, pageCount: nat): string {
    Rewrite(Prepared(pt, text), Language(SelectsOf(Marker)), Linked(style, pageCount), "")
  }

  /** Every match of the formatter's patterns has a run of digits. */
  lemma MatchesHaveRuns(s: string, pat: Pattern)
    ensures forall m :: m in Matches(s, pat) ==> DigitRuns(m) != []
  {
    forall m | m in Matches(s, pat) ensures DigitRuns(m) != [] {
      assert Selects(pat, m);
      if IsGroupPattern(pat) {
        GroupRuns(pat, m);
      } else {
        var d := MarkerShape(pat, m);
        MarkerPageNumber(d, Suffix(pat));
      }
    }
  }

  /**
   * `formatText(promptType, text)` with the page count of the loaded
   * document; the link style says which copy of the formatter it is.
   */
  method FormatText(pt: string, text: string, style: LinkStyle, pageCount: nat) returns (r: string)
    ensures r == Formatted(pt, text, style, pageCount)
  {
    var t := Structured(pt, text);
    t := SeparateGroupedCitations(t, CommaGroup);
    t := SeparateGroupedCitations(t, RangeGroup);
    if pt == DocumentKeywords {
      t := CollapseKeywordLines(t);
    }
    assert t == Prepared(pt, text);
    var matches := Matches(t, Marker);
    MatchesHaveRuns(t, Marker);
    r := LinkMatches(t, matches, style, pageCount);
    LinkIsSinglePass(t, Marker, style, pageCount);
  }

  /** For a prompt type without a structural pass, text without markers comes out unchanged. */
  lemma FormattedPlain(pt: string, text: string, style: LinkStyle, pageCount: nat)
    requires !IsSummaryType(pt) && !IsListType(pt) && Lacks(text, '[')
    ensures Formatted(pt, text, style, pageCount) == text
  {
    TextWithoutUnits(text, Language(SelectsOf(CommaGroup)), Expand, "");
    TextWithoutUnits(text, Language(SelectsOf(RangeGroup)), Expand, "");
    TextWithoutUnits(text, Language(SelectsOf(Marker)), Linked(style, pageCount), "");
  }

  /** For a cited-sentence type, text without markers only gets its breaks. */
  lemma FormattedSummaryPlain(pt: string, text: string, style: LinkStyle, pageCount: nat)
    requires IsSummaryType(pt) && Lacks(text, '[')
    ensures Formatted(pt, text, style, pageCount) == BreakFrom(text, 0)
  {
    var b := BreakFrom(text, 0);
    BreakFromLacks(text, 0, '[');
    TextWithoutUnits(b, Language(SelectsOf(CommaGroup)), Expand, "");
    TextWithoutUnits(b, Language(SelectsOf(RangeGroup)), Expand, "");
    TextWithoutUnits(b, Language(SelectsOf(Marker)), Linked(style, pageCount), "");
  }

  /** A document without pages gets no links: the answer is the prepared text. */
  lemma FormattedNoPages(pt: string, text: string, style: LinkStyle)
    ensures Formatted(pt, text, style, 0) == Prepared(pt, text)
  {
    NoPagesNoLinks(Prepared(pt, text), Language(SelectsOf(Marker)), style, "");
  }

  // ---------------------------------------------------------------------------
  // The older client's formatter

  /**
   * Its passes: comma groups only, then links for markers followed by a
   * period (cited-sentence types) or for all markers (keywords, followed by
   * bullets); any other type keeps the matches of the comma groups, which
   * are gone from the text by then.
   */
  ghost function LegacyFormatted(pt: string, text: string, pageCount: nat): string {
    var grouped := Rewrite(text, Language(SelectsOf(CommaGroup)), Expand, "");
    if IsSummaryType(pt) then
      Rewrite(grouped, Language(SelectsOf(MarkerPeriod)), Linked(AnchorBreak, pageCount), ".")
    else if pt == DocumentKeywords then
      Bulleted(Rewrite(grouped, Language(SelectsOf(Marker)), Linked(Anchor, pageCount), ""), [Bullet])
    else grouped
  }

  /** Replacing the comma groups of the text once more, after their expansion, changes nothing. */
  lemma StaleGroupsUnchanged(text: string, style: LinkStyle, pageCount: nat)
    ensures var P := Language(SelectsOf(CommaGroup));
      ReplaceEach(Rewrite(text, P, Expand, ""), Distinct(Matches(text, CommaGroup)), Linked(style, pageCount))
        == Rewrite(text, P, Expand, "")
  {
    var P := Language(SelectsOf(CommaGroup));
    var all := Matches(text, CommaGroup);
    var ms := Distinct(all);
    forall m | m in ms ensures IsUnit(m, "") && m in P && GoodFor(P, Expand, m) {
      assert m in all;
      assert SelectsOf(CommaGroup)(m);
      forall x | x in P ensures Good(Expand(x), m) {
        assert SelectsOf(CommaGroup)(x);
        ExpansionGood(CommaGroup, x, m);
      }
    }
    ReplaceEachRemoved(text, P, Expand, "", ms, Linked(style, pageCount));
  }

  /** The older client's `formatText(promptType, text)`. */
  method LegacyFormatText(pt: string, text: string, pageCount: nat) returns (r: string)
    ensures r == LegacyFormatted(pt, text, pageCount)
  {
    var matches := Matches(text, CommaGroup);
    MatchesHaveRuns(text, CommaGroup);
    var t := SeparateGroupedCitations(text, CommaGroup);
    var style := AnchorBreak;
    if IsSummaryType(pt) {
      matches := Matches(t, MarkerPeriod);
      MatchesHaveRuns(t, MarkerPeriod);
      LinkIsSinglePass(t, MarkerPeriod, style, pageCount);
    } else if pt == DocumentKeywords {
      matches := Matches(t, Marker);
      style := Anchor;
      MatchesHaveRuns(t, Marker);
      LinkIsSinglePass(t, Marker, style, pageCount);
    } else {
      StaleGroupsUnchanged(text, style, pageCount);
    }
    r := LinkMatches(t, matches, style, pageCount);
    if pt == DocumentKeywords {
      r := Bulleted(r, [Bullet]);
    }
  }

  /** The older client never expands hyphen ranges: for other types, text without commas is unchanged. */
  lemma LegacyKeepsRanges(pt: string, text: string, pageCount: nat)
    requires !IsSummaryType(pt) && pt != DocumentKeywords && Lacks(text, ',')
    ensures LegacyFormatted(pt, text, pageCount) == text
  {
    GroupsNeedSeparator(text, CommaGroup);
  }
}

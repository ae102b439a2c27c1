/** What the fraud scorer promises: how the scans raise flags, the ranges of
    the sub-scores and of the blend, the shape of the result record, and
    its behaviour on empty text, on upper-case text and on mappings. */
module DetectorLaws {
  import opened TextPatterns
  import opened PatternLaws
  import opened TextContent
  import opened FraudDetector

  // ---------------------------------------------------------------------------
  // Flags
  // ---------------------------------------------------------------------------

  /** Scanning two tables one after the other flags as scanning their
      concatenation: flags come out in table order. */
  lemma {:induction false} FlagsAppend(xs: seq<Indicator>, ys: seq<Indicator>, kind: FlagType, text: string)
    ensures Flags(xs + ys, kind, text) == Flags(xs, kind, text) + Flags(ys, kind, text)
    decreases |ys|
  {
    if |ys| == 0 {
      assert xs + ys == xs;
    } else {
      var front, last := ys[..|ys| - 1], ys[|ys| - 1];
      SplitLast(xs, ys);
      FlagsAppend(xs, front, kind, text);
      FlagsSnoc(xs + front, last, kind, text);
      FlagsSnoc(front, last, kind, text);
    }
  }

  lemma SplitLast(xs: seq<Indicator>, ys: seq<Indicator>)
    requires |ys| > 0
    ensures ys == ys[..|ys| - 1] + [ys[|ys| - 1]]
    ensures xs + ys == (xs + ys[..|ys| - 1]) + [ys[|ys| - 1]]
  {
  }

  lemma FlagsSnoc(table: seq<Indicator>, indicator: Indicator, kind: FlagType, text: string)
    ensures Flags(table + [indicator], kind, text) == Flags(table, kind, text) + FlagIfFound(indicator, kind, text)
  {
    assert (table + [indicator])[..|table|] == table;
  }

  /** The indicator at position `k` of `table` raises a flag on `text`. */
  ghost predicate RaisedBy(table: seq<Indicator>, kind: FlagType, text: string, f: Flag) {
    exists k :: 0 <= k < |table| && Occurs(table[k].pattern, text) && f == FlagFor(kind, table[k])
  }

  /** The last indicator of a table adds its flag when its pattern occurs. */
  lemma FlagsLast(table: seq<Indicator>, kind: FlagType, text: string, f: Flag)
    requires |table| > 0
    ensures var n := |table| - 1;
      (f in Flags(table, kind, text))
        <==> (f in Flags(table[..n], kind, text) || (Occurs(table[n].pattern, text) && f == FlagFor(kind, table[n])))
  {
  }

  lemma RaisedAt(table: seq<Indicator>, k: int, kind: FlagType, text: string, f: Flag)
    requires 0 <= k < |table| && Occurs(table[k].pattern, text) && f == FlagFor(kind, table[k])
    ensures RaisedBy(table, kind, text, f)
  {
  }

  lemma RaisedByWider(table: seq<Indicator>, n: int, kind: FlagType, text: string, f: Flag)
    requires 0 <= n <= |table| && RaisedBy(table[..n], kind, text, f)
    ensures RaisedBy(table, kind, text, f)
  {
    var k :| 0 <= k < n && Occurs(table[..n][k].pattern, text) && f == FlagFor(kind, table[..n][k]);
    assert table[k] == table[..n][k];
  }

  lemma RaisedByLast(table: seq<Indicator>, kind: FlagType, text: string, f: Flag)
    requires |table| > 0
    requires Occurs(table[|table| - 1].pattern, text) && f == FlagFor(kind, table[|table| - 1])
    ensures RaisedBy(table, kind, text, f)
  {
  }

  /** Every flag reports an indicator whose pattern occurs. */
  lemma {:induction false} FlagsAreRaised(table: seq<Indicator>, kind: FlagType, text: string, f: Flag)
    requires f in Flags(table, kind, text)
    ensures RaisedBy(table, kind, text, f)
    decreases |table|
  {
    var n := |table| - 1;
    FlagsLast(table, kind, text, f);
    if f in Flags(table[..n], kind, text) {
      FlagsAreRaised(table[..n], kind, text, f);
      RaisedByWider(table, n, kind, text, f);
    } else {
      RaisedByLast(table, kind, text, f);
    }
  }

  /** Every indicator whose pattern occurs has its flag raised. */
  lemma {:induction false} RaisedAreFlags(table: seq<Indicator>, kind: FlagType, text: string, f: Flag)
    requires RaisedBy(table, kind, text, f)
    ensures f in Flags(table, kind, text)
    decreases |table|
  {
    var n := |table| - 1;
    var k :| 0 <= k < |table| && Occurs(table[k].pattern, text) && f == FlagFor(kind, table[k]);
    FlagsLast(table, kind, text, f);
    if k < n {
      assert table[..n][k] == table[k];
      RaisedAt(table[..n], k, kind, text, f);
      RaisedAreFlags(table[..n], kind, text, f);
    } else {
      FlagOfLast(table, k, kind, text, f);
    }
  }

  /** A flag is raised exactly when it reports an indicator whose pattern
      occurs in the text. */
  lemma FlagsMembership(table: seq<Indicator>, kind: FlagType, text: string, f: Flag)
    ensures f in Flags(table, kind, text) <==> RaisedBy(table, kind, text, f)
  {
    if f in Flags(table, kind, text) {
      FlagsAreRaised(table, kind, text, f);
    }
    if RaisedBy(table, kind, text, f) {
      RaisedAreFlags(table, kind, text, f);
    }
  }

  lemma FlagOfLast(table: seq<Indicator>, k: int, kind: FlagType, text: string, f: Flag)
    requires k == |table| - 1 >= 0 && Occurs(table[k].pattern, text) && f == FlagFor(kind, table[k])
    ensures f in Flags(table, kind, text)
  {
    FlagsLast(table, kind, text, f);
  }

  /** The flags depend only on which patterns occur, not on where or how often. */
  lemma {:induction false} FlagsPresenceOnly(table: seq<Indicator>, kind: FlagType, t1: string, t2: string)
    requires forall k :: 0 <= k < |table| ==> (Occurs(table[k].pattern, t1) <==> Occurs(table[k].pattern, t2))
    ensures Flags(table, kind, t1) == Flags(table, kind, t2)
    decreases |table|
  {
    if |table| > 0 {
      var n := |table| - 1;
      forall k | 0 <= k < n
        ensures Occurs(table[..n][k].pattern, t1) <==> Occurs(table[..n][k].pattern, t2)
      {
        assert table[..n][k] == table[k];
      }
      FlagsPresenceOnly(table[..n], kind, t1, t2);
    }
  }

  /** No pattern occurs: no flag. */
  lemma {:induction false} FlagsNone(table: seq<Indicator>, kind: FlagType, text: string)
    requires forall k :: 0 <= k < |table| ==> !Occurs(table[k].pattern, text)
    ensures Flags(table, kind, text) == []
    decreases |table|
  {
    if |table| > 0 {
      var n := |table| - 1;
      forall k | 0 <= k < n ensures !Occurs(table[..n][k].pattern, text) {
        assert table[..n][k] == table[k];
      }
      FlagsNone(table[..n], kind, text);
    }
  }

  /** A scan of a four-entry table, written out entry by entry. */
  lemma FlagsOfFour(table: seq<Indicator>, kind: FlagType, text: string)
    requires |table| == 4
    ensures Flags(table, kind, text)
      == FlagIfFound(table[0], kind, text) + FlagIfFound(table[1], kind, text)
         + FlagIfFound(table[2], kind, text) + FlagIfFound(table[3], kind, text)
  {
    assert table[..4] == table;
    assert Flags(table[..0], kind, text) == [];
    FlagsStep(table, kind, text, 0);
    FlagsStep(table, kind, text, 1);
    FlagsStep(table, kind, text, 2);
    FlagsStep(table, kind, text, 3);
    AppendChain(Flags(table[..0], kind, text), Flags(table[..1], kind, text), Flags(table[..2], kind, text),
                Flags(table[..3], kind, text), Flags(table[..4], kind, text),
                FlagIfFound(table[0], kind, text), FlagIfFound(table[1], kind, text),
                FlagIfFound(table[2], kind, text), FlagIfFound(table[3], kind, text));
  }

  lemma AppendChain<T>(s0: seq<T>, s1: seq<T>, s2: seq<T>, s3: seq<T>, s4: seq<T>,
                       x0: seq<T>, x1: seq<T>, x2: seq<T>, x3: seq<T>)
    requires s0 == [] && s1 == s0 + x0 && s2 == s1 + x1 && s3 == s2 + x2 && s4 == s3 + x3
    ensures s4 == x0 + x1 + x2 + x3
  {
  }


  // ---------------------------------------------------------------------------
  // Sub-scores
  // ---------------------------------------------------------------------------

  predicate NonNegative(table: seq<Indicator>) {
    forall k :: 0 <= k < |table| ==> table[k].score >= 0.0
  }

  lemma TotalScoreSnoc(flags: seq<Flag>, f: Flag)
    ensures TotalScore(flags + [f]) == TotalScore(flags) + f.score
  {
    assert (flags + [f])[..|flags|] == flags;
  }

  /** Scanning one more indicator adds its weight to the sum when its
      pattern occurs, and nothing otherwise. */
  lemma TotalScoreStep(table: seq<Indicator>, kind: FlagType, text: string)
    requires |table| > 0
    ensures var n := |table| - 1;
      TotalScore(Flags(table, kind, text))
        == TotalScore(Flags(table[..n], kind, text))
           + (if Occurs(table[n].pattern, text) then table[n].score else 0.0)
  {
    var n := |table| - 1;
    var front := Flags(table[..n], kind, text);
    if Occurs(table[n].pattern, text) {
      TotalScoreSnoc(front, FlagFor(kind, table[n]));
    } else {
      assert front + [] == front;
    }
  }

  lemma NonNegativeFront(table: seq<Indicator>, n: nat)
    requires NonNegative(table) && n <= |table|
    ensures NonNegative(table[..n])
  {
    forall k | 0 <= k < n ensures table[..n][k].score >= 0.0 {
      assert table[..n][k] == table[k];
    }
  }

  /** With non-negative weights the sum of a scan's flags lies between
      zero and the sum of the table's weights. */
  lemma {:induction false} TotalScoreBounds(table: seq<Indicator>, kind: FlagType, text: string)
    requires NonNegative(table)
    ensures 0.0 <= TotalScore(Flags(table, kind, text)) <= TableScore(table)
    decreases |table|
  {
    if |table| > 0 {
      var n := |table| - 1;
      NonNegativeFront(table, n);
      TotalScoreBounds(table[..n], kind, text);
      TotalScoreStep(table, kind, text);
    }
  }

  /** A scan's sub-score lies in [0, 1]; it is the plain sum unless that
      exceeds 1, and always when the table's weights add up to at most 1. */
  lemma SubScoreRange(table: seq<Indicator>, kind: FlagType, text: string)
    requires NonNegative(table)
    ensures var flags := Flags(table, kind, text);
      0.0 <= ClampedScore(flags) <= 1.0
      && (ClampedScore(flags) == TotalScore(flags) <==> TotalScore(flags) <= 1.0)
      && (TableScore(table) <= 1.0 ==> ClampedScore(flags) == TotalScore(flags))
  {
    TotalScoreBounds(table, kind, text);
  }

  /** The cross-modal score is 0.4 per contradiction, never clamped: 0.8
      when both contradictions are present, 0.4 when one is, 0 otherwise. */
  lemma CrossModalValues(text: string)
    ensures var s := CrossModalScore(text);
      var correlationVsNoEffect := Occurs(MentionsCorrelation, text) && Occurs(ClaimsNoEffect, text);
      var rigorVsSmallSample := Occurs(ClaimsRigor, text) && Occurs(RigorSample, text);
      (s == 0.8 <==> correlationVsNoEffect && rigorVsSmallSample)
      && (s == 0.4 <==> correlationVsNoEffect != rigorVsSmallSample)
      && (s == 0.0 <==> !correlationVsNoEffect && !rigorVsSmallSample)
  {
  }

  /** With non-negative weights the overall score lies in [0, 1]. */
  lemma OverallRange(indicators: Indicators, text: string)
    requires NonNegative(indicators.statisticalAnomalies) && NonNegative(indicators.textInconsistencies)
    ensures 0.0 <= Analyze(indicators, text).overallScore <= 1.0
  {
    SubScoreRange(indicators.statisticalAnomalies, StatisticalAnomaly, text);
    SubScoreRange(indicators.textInconsistencies, TextInconsistency, text);
  }

  // ---------------------------------------------------------------------------
  // The default tables
  // ---------------------------------------------------------------------------

  predicate AllWellFormed(table: seq<Indicator>) {
    forall k :: 0 <= k < |table| ==> WellFormed(table[k].pattern)
  }

  predicate AllNeedText(table: seq<Indicator>) {
    forall k :: 0 <= k < |table| ==> NeedsText(table[k].pattern)
  }

  /** The default statistical table: four indicators with non-negative
      weights adding up to 1.9 (so its sub-score can be clamped). */
  lemma StatisticalWeights()
    ensures var table := StatisticalIndicators();
      |table| == 4 && NonNegative(table) && TableScore(table) == 1.9
  {
    var table := StatisticalIndicators();
    assert table[..0] == [] && table[..1][..0] == table[..0] && table[..2][..1] == table[..1];
    assert table[..3][..2] == table[..2] && table[..3] == table[..|table| - 1];
    assert TableScore(table[..1]) == 0.8;
    assert TableScore(table[..2]) == 1.2;
    assert TableScore(table[..3]) == 1.6;
  }

  /** The default text table: four indicators with non-negative weights
      adding up to 0.8. */
  lemma TextWeights()
    ensures var table := TextIndicators();
      |table| == 4 && NonNegative(table) && TableScore(table) == 0.8
  {
    var table := TextIndicators();
    assert table[..0] == [] && table[..1][..0] == table[..0] && table[..2][..1] == table[..1];
    assert table[..3][..2] == table[..2] && table[..3] == table[..|table| - 1];
    assert TableScore(table[..1]) == 0.2;
    assert TableScore(table[..2]) == 0.3;
    assert TableScore(table[..3]) == 0.6;
  }

  /** The comparison patterns have the well-formed shape. */
  lemma ComparisonsWellFormed()
    ensures WellFormed(ExactCorrelation) && WellFormed(ConvenientP) && WellFormed(PerfectP)
    ensures WellFormed(SmallSample) && WellFormed(RigorSample)
  {
    assert !IsSpace('=') && !IsSpace('<') && !IsSpace('>');
  }

  /** The default statistical patterns have the well-formed shape and need text. */
  lemma StatisticalShapes()
    ensures AllWellFormed(StatisticalIndicators()) && AllNeedText(StatisticalIndicators())
  {
  }

  /** The default text patterns have the well-formed shape and need text. */
  lemma TextShapes()
    ensures AllWellFormed(TextIndicators()) && AllNeedText(TextIndicators())
  {
  }

  /** The cross-modal patterns have the well-formed shape and need text. */
  lemma CrossModalShapes()
    ensures WellFormed(MentionsCorrelation) && WellFormed(ClaimsNoEffect)
    ensures WellFormed(ClaimsRigor) && WellFormed(RigorSample)
    ensures NeedsText(MentionsCorrelation) && NeedsText(ClaimsNoEffect)
    ensures NeedsText(ClaimsRigor) && NeedsText(RigorSample)
  {
  }

  /** The text-alignment score of the default table is never clamped: it is
      the sum of the raised weights, at most 0.8. */
  lemma DefaultAlignmentUnclamped(text: string)
    ensures var r := Analyze(DefaultIndicators(), text);
      r.textDataAlignmentScore
        == TotalScore(Flags(DefaultIndicators().textInconsistencies, TextInconsistency, text))
      && r.textDataAlignmentScore <= 0.8
  {
    TextWeights();
    SubScoreRange(DefaultIndicators().textInconsistencies, TextInconsistency, text);
    TotalScoreBounds(DefaultIndicators().textInconsistencies, TextInconsistency, text);
  }

  /** With the default tables the overall score lies in [0, 0.88]. */
  lemma DefaultOverallRange(text: string)
    ensures 0.0 <= Analyze(DefaultIndicators(), text).overallScore <= 0.88
  {
    StatisticalWeights();
    TextWeights();
    DefaultAlignmentUnclamped(text);
    SubScoreRange(DefaultIndicators().statisticalAnomalies, StatisticalAnomaly, text);
    SubScoreRange(DefaultIndicators().textInconsistencies, TextInconsistency, text);
    CrossModalValues(text);
  }

  /** A sample size of at most 49 is also one of at most 59: the small-sample
      indicator never fires without the cross-modal sample check. */
  lemma SmallSampleIsRigorSample(text: string)
    ensures Occurs(SmallSample, text) ==> Occurs(RigorSample, text)
  {
    if Occurs(SmallSample, text) {
      var i :| 0 <= i <= |text| && MatchesAt(SmallSample, text[i..]);
      SmallSampleMatchIsRigorSample(text[i..]);
      assert Matcher(RigorSample)(text[i..]);
    }
  }

  lemma SmallSampleMatchIsRigorSample(s: string)
    requires MatchesAt(SmallSample, s)
    ensures MatchesAt(RigorSample, s)
  {
    var rest := AfterRelation(s, 'n', "=");
    assert rest.Some? && TwoDigitNumber(rest.value, '4');
  }

  // ---------------------------------------------------------------------------
  // The result record
  // ---------------------------------------------------------------------------

  /** The description `d` belongs to an indicator of `table` whose pattern occurs. */
  ghost predicate Describes(table: seq<Indicator>, text: string, d: string) {
    exists k :: 0 <= k < |table| && Occurs(table[k].pattern, text) && table[k].description == d
  }

  lemma DescriptionsOfFlags(table: seq<Indicator>, kind: FlagType, text: string, d: string)
    ensures d in Descriptions(Flags(table, kind, text)) <==> Describes(table, text, d)
  {
    var flags := Flags(table, kind, text);
    if d in Descriptions(flags) {
      var j :| 0 <= j < |flags| && Descriptions(flags)[j] == d;
      FlagsMembership(table, kind, text, flags[j]);
    }
    if Describes(table, text, d) {
      var k :| 0 <= k < |table| && Occurs(table[k].pattern, text) && table[k].description == d;
      FlagsMembership(table, kind, text, FlagFor(kind, table[k]));
      var j :| 0 <= j < |flags| && flags[j] == FlagFor(kind, table[k]);
      assert Descriptions(flags)[j] == d;
    }
  }

  lemma DescriptionsAppend(xs: seq<Flag>, ys: seq<Flag>)
    ensures Descriptions(xs + ys) == Descriptions(xs) + Descriptions(ys)
  {
  }

  /** The flagged sections are the statistical descriptions followed by the
      text ones, one per flag: a description is listed exactly when its
      indicator's pattern occurs.  The details count the flags of each scan
      and the characters of the text; confidence and methodology are fixed. */
  lemma ResultShape(indicators: Indicators, text: string, d: string)
    ensures var r := Analyze(indicators, text);
      var stat := indicators.statisticalAnomalies;
      var texts := indicators.textInconsistencies;
      r.analysisDetails.Details?
      && |r.flaggedSections| == r.analysisDetails.statisticalFlags + r.analysisDetails.textFlags
      && r.analysisDetails.statisticalFlags <= |stat| && r.analysisDetails.textFlags <= |texts|
      && (d in r.flaggedSections[..r.analysisDetails.statisticalFlags] <==> Describes(stat, text, d))
      && (d in r.flaggedSections[r.analysisDetails.statisticalFlags..] <==> Describes(texts, text, d))
      && r.analysisDetails.contentLength == |text|
      && r.analysisDetails.methodology == "Cross-modal academic fraud detection v1.0"
      && r.confidenceLevel == 0.85
  {
    var statFlags := Flags(indicators.statisticalAnomalies, StatisticalAnomaly, text);
    var textFlags := Flags(indicators.textInconsistencies, TextInconsistency, text);
    DescriptionsAppend(statFlags, textFlags);
    var sections := Descriptions(statFlags) + Descriptions(textFlags);
    assert sections[..|statFlags|] == Descriptions(statFlags);
    assert sections[|statFlags|..] == Descriptions(textFlags);
    DescriptionsOfFlags(indicators.statisticalAnomalies, StatisticalAnomaly, text, d);
    DescriptionsOfFlags(indicators.textInconsistencies, TextInconsistency, text, d);
  }

  // ---------------------------------------------------------------------------
  // Content
  // ---------------------------------------------------------------------------

  /** Empty text raises nothing: every score is zero and no section is flagged. */
  lemma EmptyText(indicators: Indicators)
    requires AllNeedText(indicators.statisticalAnomalies) && AllNeedText(indicators.textInconsistencies)
    ensures Analyze(indicators, "")
      == AnalysisResult(0.0, 0.0, 0.0, 0.0, [], 0.85, Details(0, 0, 0, Methodology))
  {
    forall k | 0 <= k < |indicators.statisticalAnomalies|
      ensures !Occurs(indicators.statisticalAnomalies[k].pattern, "")
    {
      NotInEmpty(indicators.statisticalAnomalies[k].pattern);
    }
    forall k | 0 <= k < |indicators.textInconsistencies|
      ensures !Occurs(indicators.textInconsistencies[k].pattern, "")
    {
      NotInEmpty(indicators.textInconsistencies[k].pattern);
    }
    FlagsNone(indicators.statisticalAnomalies, StatisticalAnomaly, "");
    FlagsNone(indicators.textInconsistencies, TextInconsistency, "");
    NotInEmpty(MentionsCorrelation);
    NotInEmpty(ClaimsRigor);
  }

  /** An empty mapping is analysed as empty text. */
  lemma EmptyMapping(indicators: Indicators)
    requires AllNeedText(indicators.statisticalAnomalies) && AllNeedText(indicators.textInconsistencies)
    ensures Analyze(indicators, NormalizedText(Fields([])))
      == AnalysisResult(0.0, 0.0, 0.0, 0.0, [], 0.85, Details(0, 0, 0, Methodology))
  {
    assert NormalizedText(Fields([])) == "";
    EmptyText(indicators);
  }

  /** The content length of a mapping counts its values and one space
      between each two. */
  lemma MappingContentLength(indicators: Indicators, entries: seq<(string, string)>)
    requires |entries| > 0
    ensures Analyze(indicators, NormalizedText(Fields(entries))).analysisDetails.contentLength
      == TotalLength(Values(entries)) + |entries| - 1
  {
    JoinLength(" ", Values(entries));
  }

  /** A scan with well-formed patterns ignores ASCII case. */
  lemma FlagsIgnoreCase(table: seq<Indicator>, kind: FlagType, text: string)
    requires AllWellFormed(table)
    ensures Flags(table, kind, Lower(text)) == Flags(table, kind, text)
  {
    forall k | 0 <= k < |table|
      ensures Occurs(table[k].pattern, Lower(text)) <==> Occurs(table[k].pattern, text)
    {
      OccursLower(table[k].pattern, text);
    }
    FlagsPresenceOnly(table, kind, Lower(text), text);
  }

  /** The cross-modal check ignores ASCII case. */
  lemma CrossModalIgnoresCase(text: string)
    ensures CrossModalScore(Lower(text)) == CrossModalScore(text)
  {
    CrossModalShapes();
    OccursLower(MentionsCorrelation, text);
    OccursLower(ClaimsNoEffect, text);
    OccursLower(ClaimsRigor, text);
    OccursLower(RigorSample, text);
  }

  /** The analysis ignores ASCII case: lower-casing the text changes nothing. */
  lemma CaseInsensitive(indicators: Indicators, text: string)
    requires AllWellFormed(indicators.statisticalAnomalies) && AllWellFormed(indicators.textInconsistencies)
    ensures Analyze(indicators, Lower(text)) == Analyze(indicators, text)
  {
    FlagsIgnoreCase(indicators.statisticalAnomalies, StatisticalAnomaly, text);
    FlagsIgnoreCase(indicators.textInconsistencies, TextInconsistency, text);
    CrossModalIgnoresCase(text);
  }

  /** The detector as built ignores ASCII case. */
  lemma DefaultCaseInsensitive(text: string)
    ensures Analyze(DefaultIndicators(), Lower(text)) == Analyze(DefaultIndicators(), text)
  {
    StatisticalShapes();
    TextShapes();
    CaseInsensitive(DefaultIndicators(), text);
  }
}

/** The academic fraud scorer: two tables of weighted regular expressions
    (statistical anomalies and text inconsistencies), a cross-modal check
    that counts contradictory claims, and the analysis that blends the three
    sub-scores into an overall fraud score.  Scores are exact reals. */
module FraudDetector {
  import opened TextPatterns
  import opened TextContent

  /** The `type` a flag carries: `statistical_anomaly` or `text_inconsistency`. */
  datatype FlagType = StatisticalAnomaly | TextInconsistency

  /** One entry of an indicator table: the regular expression (as a matcher,
      and as the text a flag reports), its weight and its description. */
  datatype Indicator = Indicator(pattern: Pattern, source: string, score: real, description: string)

  /** What a scan reports for an indicator whose pattern occurs. */
  datatype Flag = Flag(flagType: FlagType, score: real, description: string, pattern: string)

  /** The detector's `fraud_indicators`. */
  datatype Indicators = Indicators(statisticalAnomalies: seq<Indicator>, textInconsistencies: seq<Indicator>)

  /** `analysis_details`: empty until the analysis fills it in. */
  datatype AnalysisDetails =
    | NoDetails
    | Details(statisticalFlags: nat, textFlags: nat, contentLength: nat, methodology: string)

  /** The record `analyze_paper` returns. */
  datatype AnalysisResult = AnalysisResult(
    overallScore: real,
    crossModalScore: real,
    statisticalAnomalyScore: real,
    textDataAlignmentScore: real,
    flaggedSections: seq<string>,
    confidenceLevel: real,
    analysisDetails: AnalysisDetails)

  const Methodology: string := "Cross-modal academic fraud detection v1.0"
  const Confidence: real := 0.85

  // ---------------------------------------------------------------------------
  // The patterns
  // ---------------------------------------------------------------------------

  // Each pattern below is the matcher of the regular expression recorded in
  // the `source` of its table entry (or, for the cross-modal rules, of the
  // expression the check searches for).
  const ExactCorrelation: Pattern := Comparison('r', "=", Exactly("0.87"))
  const ConvenientP: Pattern := Comparison('p', "<>=", Exactly("0.05"))
  const PerfectP: Pattern := Comparison('p', "<>=", Exactly("0.01"))
  const SmallSample: Pattern := Comparison('n', "=", TwoDigits('4'))
  const NoSignificance: Pattern := Gap("no significant", "effect")
  const StrongCorrelation: Pattern := Gap("strong", "correlation")
  const HighlySignificant: Pattern := Phrase("highly significant")
  const ProvesThat: Pattern := OptionalChar("prove", 's', " that")

  const MentionsCorrelation: Pattern := Either(Phrase("correlation"), Phrase("correlated"))
  const ClaimsNoEffect: Pattern := Either(Gap("no", "effect"), Gap("not", "significant"))
  const ClaimsRigor: Pattern := Either(Phrase("rigorous"), Phrase("comprehensive"))
  const RigorSample: Pattern := Comparison('n', "=", TwoDigits('5'))

  /** The tables the detector is built with. */
  function DefaultIndicators(): Indicators {
    Indicators(StatisticalIndicators(), TextIndicators())
  }

  function StatisticalIndicators(): seq<Indicator> {
      [ Indicator(ExactCorrelation, @"r\s*=\s*0\.87", 0.8, "Suspicious exact correlation (Gino-style)"),
        Indicator(ConvenientP, @"p\s*[<>=]\s*0\.05", 0.4, "Convenient p-value"),
        Indicator(PerfectP, @"p\s*[<>=]\s*0\.01", 0.4, "Too-perfect p-value"),
        Indicator(SmallSample, @"n\s*=\s*[1-4][0-9](?![0-9])", 0.3, "Small sample size") ]
  }

  function TextIndicators(): seq<Indicator> {
      [ Indicator(NoSignificance, @"no significant.*effect", 0.2, "Claims no significance"),
        Indicator(StrongCorrelation, @"strong.*correlation", 0.1, "Claims strong correlation"),
        Indicator(HighlySignificant, @"highly significant", 0.3, "Overstated significance"),
        Indicator(ProvesThat, @"proves? that", 0.2, "Overstated causation claims") ]
  }

  // ---------------------------------------------------------------------------
  // What the analysis computes
  // ---------------------------------------------------------------------------

  function FlagFor(kind: FlagType, indicator: Indicator): Flag {
    Flag(kind, indicator.score, indicator.description, indicator.source)
  }

  /** The flag, if any, that `indicator` raises on `text`. */
  function FlagIfFound(indicator: Indicator, kind: FlagType, text: string): seq<Flag> {
    if Occurs(indicator.pattern, text) then [FlagFor(kind, indicator)] else []
  }

  /** The flags a scan of `table` raises on `text`: one for each indicator
      whose pattern occurs, in table order. */
  function Flags(table: seq<Indicator>, kind: FlagType, text: string): (flags: seq<Flag>)
    ensures |flags| <= |table|
    decreases |table|
  {
    if |table| == 0 then []
    else
      Flags(table[..|table| - 1], kind, text) + FlagIfFound(table[|table| - 1], kind, text)
  }

  /** The sum of the flags' weights, added from the left as Python's `sum` does. */
  function TotalScore(flags: seq<Flag>): real
    decreases |flags|
  {
    if |flags| == 0 then 0.0 else TotalScore(flags[..|flags| - 1]) + flags[|flags| - 1].score
  }

  /** The sum of the weights of a table. */
  function TableScore(table: seq<Indicator>): real
    decreases |table|
  {
    if |table| == 0 then 0.0 else TableScore(table[..|table| - 1]) + table[|table| - 1].score
  }

  function Min(a: real, b: real): (m: real)
    ensures m <= a && m <= b && (m == a || m == b)
  {
    if b < a then b else a
  }

  /** `min(sum(...), 1.0)`: a sub-score of a scan. */
  function ClampedScore(flags: seq<Flag>): real {
    Min(TotalScore(flags), 1.0)
  }

  /** The descriptions of the flags, in order. */
  function Descriptions(flags: seq<Flag>): (ds: seq<string>)
    ensures |ds| == |flags|
    ensures forall k :: 0 <= k < |flags| ==> ds[k] == flags[k].description
  {
    seq(|flags|, k requires 0 <= k < |flags| => flags[k].description)
  }

  /** The number of contradictions the cross-modal check finds: a
      correlation together with a claim of no effect, and a claim of rigor
      together with a sample of at most 59. */
  function Contradictions(text: string): nat {
    (if Occurs(MentionsCorrelation, text) && Occurs(ClaimsNoEffect, text) then 1 else 0)
    + (if Occurs(ClaimsRigor, text) && Occurs(RigorSample, text) then 1 else 0)
  }

  function CrossModalScore(text: string): real {
    Min(Contradictions(text) as real * 0.4, 1.0)
  }

  /** The blend of the three sub-scores. */
  function OverallScore(statistical: real, alignment: real, crossModal: real): real {
    statistical * 0.4 + alignment * 0.3 + crossModal * 0.3
  }

  /** The result of analysing `text` with the tables `indicators`. */
  function Analyze(indicators: Indicators, text: string): AnalysisResult {
    var statFlags := Flags(indicators.statisticalAnomalies, StatisticalAnomaly, text);
    var textFlags := Flags(indicators.textInconsistencies, TextInconsistency, text);
    var statistical := ClampedScore(statFlags);
    var alignment := ClampedScore(textFlags);
    var crossModal := CrossModalScore(text);
    AnalysisResult(
      OverallScore(statistical, alignment, crossModal), crossModal, statistical, alignment,
      Descriptions(statFlags + textFlags), Confidence,
      Details(|statFlags|, |textFlags|, |text|, Methodology))
  }

  /** Scanning one more indicator appends at most its flag. */
  lemma FlagsStep(table: seq<Indicator>, kind: FlagType, text: string, i: int)
    requires 0 <= i < |table|
    ensures Flags(table[..i + 1], kind, text)
      == Flags(table[..i], kind, text) + FlagIfFound(table[i], kind, text)
  {
    assert table[..i + 1][..i] == table[..i];
  }

  // ---------------------------------------------------------------------------
  // The detector
  // ---------------------------------------------------------------------------

  /** Scans `table` in order and appends a flag for every indicator whose
      pattern occurs in `text`. */
  method ScanIndicators(table: seq<Indicator>, kind: FlagType, text: string) returns (flags: seq<Flag>)
    ensures flags == Flags(table, kind, text)
  {
    flags := [];
    var i := 0;
    while i < |table|
      invariant 0 <= i <= |table|
      invariant flags == Flags(table[..i], kind, text)
    {
      FlagsStep(table, kind, text, i);
      if Occurs(table[i].pattern, text) {
        flags := flags + [FlagFor(kind, table[i])];
      }
      i := i + 1;
    }
    assert table[..i] == table;
  }

  class AcademicFraudDetector {
    const fraudIndicators: Indicators

    constructor()
      ensures fraudIndicators == DefaultIndicators()
    {
      fraudIndicators := DefaultIndicators();
    }

    method CheckStatisticalAnomalies(text: string) returns (flags: seq<Flag>)
      ensures flags == Flags(fraudIndicators.statisticalAnomalies, StatisticalAnomaly, text)
    {
      flags := ScanIndicators(fraudIndicators.statisticalAnomalies, StatisticalAnomaly, text);
    }

    method CheckTextInconsistencies(text: string) returns (flags: seq<Flag>)
      ensures flags == Flags(fraudIndicators.textInconsistencies, TextInconsistency, text)
    {
      flags := ScanIndicators(fraudIndicators.textInconsistencies, TextInconsistency, text);
    }

    method CheckCrossModalConsistency(text: string) returns (score: real)
      ensures score == CrossModalScore(text)
    {
      var contradictions := 0;
      var hasCorrelation := Occurs(MentionsCorrelation, text);
      var claimsNoEffect := Occurs(ClaimsNoEffect, text);
      if hasCorrelation && claimsNoEffect {
        contradictions := contradictions + 1;
      }
      var claimsRigorous := Occurs(ClaimsRigor, text);
      var smallSample := Occurs(RigorSample, text);
      if claimsRigorous && smallSample {
        contradictions := contradictions + 1;
      }
      score := Min(contradictions as real * 0.4, 1.0);
    }

    /** Fills the result record step by step; `metadata` is not read. */
    method AnalyzePaper(content: Content, metadata: map<string, string>) returns (results: AnalysisResult)
      ensures results == Analyze(fraudIndicators, NormalizedText(content))
    {
      var textContent := NormalizedText(content);
      results := AnalysisResult(0.0, 0.0, 0.0, 0.0, [], Confidence, NoDetails);

      var statFlags := CheckStatisticalAnomalies(textContent);
      results := results.(statisticalAnomalyScore := ClampedScore(statFlags));

      var textFlags := CheckTextInconsistencies(textContent);
      results := results.(textDataAlignmentScore := ClampedScore(textFlags));

      var crossModal := CheckCrossModalConsistency(textContent);
      results := results.(crossModalScore := crossModal);

      results := results.(overallScore := OverallScore(
        results.statisticalAnomalyScore, results.textDataAlignmentScore, results.crossModalScore));

      var allFlags := statFlags + textFlags;
      results := results.(flaggedSections := Descriptions(allFlags));

      results := results.(analysisDetails :=
        Details(|statFlags|, |textFlags|, |textContent|, Methodology));
    }
  }
}

/** The paragraph the service analyses as its built-in sample, and the
    result the detector gives for it: three statistical flags whose weights
    add up past the cap, three text flags, both cross-modal contradictions,
    and an overall score of 0.85. */
module SamplePaper {
  import opened TextPatterns
  import opened PatternLaws
  import opened TextContent
  import opened FraudDetector
  import opened DetectorLaws
  import opened PatternExamples

  // ---------------------------------------------------------------------------
  // The text
  // ---------------------------------------------------------------------------

  /** The three lines of the paragraph, each cut at some of its spaces. */
  function FirstLine(): seq<string> {
    ["Our research shows a", "correlation", "of", "r=0.87", "(p<0.01,", "n=45)", "between variables."]
  }

  function SecondLine(): seq<string> {
    ["However,", "the results", "indicate", "no significant effect", "between the", "measured", "variables."]
  }

  function ThirdLine(): seq<string> {
    ["This", "highly significant", "finding", "proves that", "our", "methodology is", "rigorous."]
  }

  function Lines(): seq<string> {
    ["", Join(" ", FirstLine()), Join(" ", SecondLine()), Join(" ", ThirdLine()), ""]
  }

  /** The triple-quoted sample: a line break, then each line indented by
      four spaces and followed by a line break, then four spaces. */
  const Indent: string := "\n    "

  function SampleText(): string {
    Join(Indent, Lines())
  }

  // ---------------------------------------------------------------------------
  // Where a pattern is found
  // ---------------------------------------------------------------------------

  /** A match inside one piece of a line is a match in the paragraph. */
  lemma InLine(p: Pattern, row: int, line: seq<string>, k: int)
    requires WellFormed(p) && row in {1, 2, 3} && Lines()[row] == Join(" ", line)
    requires 0 <= k < |line| && Occurs(p, line[k])
    ensures Occurs(p, SampleText())
  {
    OccursInPiece(p, " ", line, k);
    OccursInPiece(p, Indent, Lines(), row);
  }

  lemma InFirstLine(p: Pattern, k: int, piece: string)
    requires WellFormed(p) && 0 <= k < |FirstLine()| && FirstLine()[k] == piece && Occurs(p, piece)
    ensures Occurs(p, SampleText())
  {
    InLine(p, 1, FirstLine(), k);
  }

  lemma InSecondLine(p: Pattern, k: int, piece: string)
    requires WellFormed(p) && 0 <= k < |SecondLine()| && SecondLine()[k] == piece && Occurs(p, piece)
    ensures Occurs(p, SampleText())
  {
    InLine(p, 2, SecondLine(), k);
  }

  lemma InThirdLine(p: Pattern, k: int, piece: string)
    requires WellFormed(p) && 0 <= k < |ThirdLine()| && ThirdLine()[k] == piece && Occurs(p, piece)
    ensures Occurs(p, SampleText())
  {
    InLine(p, 3, ThirdLine(), k);
  }

  lemma PerfectPValue()
    ensures Occurs(PerfectP, "(p<0.01,")
  {
    var t := "(p<0.01,";
    var s := t[1..];
    assert SpacesBetween(s, 1, 1) && OneOf(Fold(s[1]), "<>=") && SpacesBetween(s, 2, 2);
    assert Relation(s, 'p', "<>=", 2);
    assert Literal(s[2..], "0.01");
    ComparisonsWellFormed();
    MatchesAtIsRegexMatch(PerfectP, s);
  }

  lemma SmallSampleSize()
    ensures Occurs(SmallSample, "n=45)")
  {
    var t := "n=45)";
    assert SpacesBetween(t, 1, 1) && OneOf(Fold(t[1]), "=") && SpacesBetween(t, 2, 2);
    assert Relation(t, 'n', "=", 2);
    assert RegexOperand(TwoDigits('4'), t, 2);
    ComparisonsWellFormed();
    MatchesAtIsRegexMatch(SmallSample, t);
    assert MatchesAt(SmallSample, t[0..]);
  }

  lemma NoSignificanceFound()
    ensures Occurs(NoSignificance, "no significant effect")
  {
    var t := "no significant effect";
    assert Literal(t, "no significant") && NoNewlineBetween(t, 14, 15) && Literal(t[15..], "effect");
    GapCase(t, "no significant", "effect");
    assert MatchesAt(NoSignificance, t[0..]);
  }

  lemma NoEffectClaimFound()
    ensures Occurs(ClaimsNoEffect, "no significant effect")
  {
    var t := "no significant effect";
    assert Literal(t, "no") && NoNewlineBetween(t, 2, 15) && Literal(t[15..], "effect");
    GapCase(t, "no", "effect");
    assert MatchesAt(ClaimsNoEffect, t[0..]);
  }

  /** A phrase in lower case is found in itself. */
  lemma PhraseItself(w: string)
    requires forall k :: 0 <= k < |w| ==> Fold(w[k]) == w[k]
    ensures Occurs(Phrase(w), w)
  {
    assert Literal(w, w);
    StartsWithIsLiteral(w, w);
    assert MatchesAt(Phrase(w), w[0..]);
  }

  lemma HighlySignificantFound()
    ensures Occurs(HighlySignificant, "highly significant")
  {
    PhraseItself("highly significant");
  }

  lemma CorrelationFound()
    ensures Occurs(MentionsCorrelation, "correlation")
  {
    PhraseItself("correlation");
  }

  lemma RigorFound()
    ensures Occurs(ClaimsRigor, "rigorous.")
  {
    var t := "rigorous.";
    assert Literal(t, "rigorous");
    StartsWithIsLiteral(t, "rigorous");
    assert MatchesAt(ClaimsRigor, t[0..]);
  }

  // ---------------------------------------------------------------------------
  // What is not found
  // ---------------------------------------------------------------------------

  /** A phrase that shares nothing with the separators and lies in no piece
      of any line is not in the paragraph. */
  lemma NotInSample(w: string)
    requires |w| > 0 && !Shares(" ", w) && !Shares(Indent, w)
    requires forall k :: 0 <= k < |FirstLine()| ==> !Occurs(Phrase(w), FirstLine()[k])
    requires forall k :: 0 <= k < |SecondLine()| ==> !Occurs(Phrase(w), SecondLine()[k])
    requires forall k :: 0 <= k < |ThirdLine()| ==> !Occurs(Phrase(w), ThirdLine()[k])
    ensures !Occurs(Phrase(w), SampleText())
  {
    PhraseInNoPiece(w, " ", FirstLine());
    PhraseInNoPiece(w, " ", SecondLine());
    PhraseInNoPiece(w, " ", ThirdLine());
    NotInEmpty(Phrase(w));
    NoneOfFive(w, Lines());
    PhraseInNoPiece(w, Indent, Lines());
  }

  /** A phrase in none of the five lines. */
  lemma NoneOfFive(w: string, lines: seq<string>)
    requires |lines| == 5
    requires !Occurs(Phrase(w), lines[0]) && !Occurs(Phrase(w), lines[1]) && !Occurs(Phrase(w), lines[2])
    requires !Occurs(Phrase(w), lines[3]) && !Occurs(Phrase(w), lines[4])
    ensures forall k :: 0 <= k < |lines| ==> !Occurs(Phrase(w), lines[k])
  {
  }

  /** A phrase in none of the seven pieces of a line. */
  lemma NoneOfSeven(w: string, line: seq<string>)
    requires |line| == 7
    requires !Occurs(Phrase(w), line[0]) && !Occurs(Phrase(w), line[1]) && !Occurs(Phrase(w), line[2])
    requires !Occurs(Phrase(w), line[3]) && !Occurs(Phrase(w), line[4]) && !Occurs(Phrase(w), line[5])
    requires !Occurs(Phrase(w), line[6])
    ensures forall k :: 0 <= k < |line| ==> !Occurs(Phrase(w), line[k])
  {
  }

  /** Each piece of the first line lacks a '0' or a '5', so none holds "0.05". */
  lemma ValueNotInFirstLine()
    ensures forall k :: 0 <= k < |FirstLine()| ==> !Occurs(Phrase("0.05"), FirstLine()[k])
  {
    var w, a := "0.05", FirstLine();
    assert !HasFolded(a[0], w[0]);
    assert !HasFolded(a[1], w[0]);
    assert !HasFolded(a[2], w[0]);
    assert !HasFolded(a[3], w[3]);
    assert !HasFolded(a[4], w[3]);
    assert !HasFolded(a[5], w[0]);
    assert !HasFolded(a[6], w[0]);
    PhraseMissingChar(w, a[0], 0);
    PhraseMissingChar(w, a[1], 0);
    PhraseMissingChar(w, a[2], 0);
    PhraseMissingChar(w, a[3], 3);
    PhraseMissingChar(w, a[4], 3);
    PhraseMissingChar(w, a[5], 0);
    PhraseMissingChar(w, a[6], 0);
    NoneOfSeven(w, a);
  }

  /** The second line has no '0'. */
  lemma ValueNotInSecondLine()
    ensures forall k :: 0 <= k < |SecondLine()| ==> !Occurs(Phrase("0.05"), SecondLine()[k])
  {
    var w, b := "0.05", SecondLine();
    assert !HasFolded(b[0], w[0]);
    assert !HasFolded(b[1], w[0]);
    assert !HasFolded(b[2], w[0]);
    assert !HasFolded(b[3], w[0]);
    assert !HasFolded(b[4], w[0]);
    assert !HasFolded(b[5], w[0]);
    assert !HasFolded(b[6], w[0]);
    PhraseMissingChar(w, b[0], 0);
    PhraseMissingChar(w, b[1], 0);
    PhraseMissingChar(w, b[2], 0);
    PhraseMissingChar(w, b[3], 0);
    PhraseMissingChar(w, b[4], 0);
    PhraseMissingChar(w, b[5], 0);
    PhraseMissingChar(w, b[6], 0);
    NoneOfSeven(w, b);
  }

  /** The third line has no '0'. */
  lemma ValueNotInThirdLine()
    ensures forall k :: 0 <= k < |ThirdLine()| ==> !Occurs(Phrase("0.05"), ThirdLine()[k])
  {
    var w, c := "0.05", ThirdLine();
    assert !HasFolded(c[0], w[0]);
    assert !HasFolded(c[1], w[0]);
    assert !HasFolded(c[2], w[0]);
    assert !HasFolded(c[3], w[0]);
    assert !HasFolded(c[4], w[0]);
    assert !HasFolded(c[5], w[0]);
    assert !HasFolded(c[6], w[0]);
    PhraseMissingChar(w, c[0], 0);
    PhraseMissingChar(w, c[1], 0);
    PhraseMissingChar(w, c[2], 0);
    PhraseMissingChar(w, c[3], 0);
    PhraseMissingChar(w, c[4], 0);
    PhraseMissingChar(w, c[5], 0);
    PhraseMissingChar(w, c[6], 0);
    NoneOfSeven(w, c);
  }

  lemma NoConvenientValue()
    ensures !Occurs(Phrase("0.05"), SampleText())
  {
    ValueNotInFirstLine();
    ValueNotInSecondLine();
    ValueNotInThirdLine();
    NotInSample("0.05");
  }

  /** Each piece of the first line lacks a character of "strong". */
  lemma StrongNotInFirstLine()
    ensures forall k :: 0 <= k < |FirstLine()| ==> !Occurs(Phrase("strong"), FirstLine()[k])
  {
    var w, a := "strong", FirstLine();
    assert !HasFolded(a[0], w[5]);
    assert !HasFolded(a[1], w[0]);
    assert !HasFolded(a[2], w[0]);
    assert !HasFolded(a[3], w[0]);
    assert !HasFolded(a[4], w[0]);
    assert !HasFolded(a[5], w[0]);
    assert !HasFolded(a[6], w[5]);
    PhraseMissingChar(w, a[0], 5);
    PhraseMissingChar(w, a[1], 0);
    PhraseMissingChar(w, a[2], 0);
    PhraseMissingChar(w, a[3], 0);
    PhraseMissingChar(w, a[4], 0);
    PhraseMissingChar(w, a[5], 0);
    PhraseMissingChar(w, a[6], 5);
    NoneOfSeven(w, a);
  }

  lemma StrongNotInSecondLine()
    ensures forall k :: 0 <= k < |SecondLine()| ==> !Occurs(Phrase("strong"), SecondLine()[k])
  {
    var w, b := "strong", SecondLine();
    assert !HasFolded(b[0], w[5]);
    assert !HasFolded(b[1], w[5]);
    assert !HasFolded(b[2], w[5]);
    assert !HasFolded(b[3], w[2]);
    assert !HasFolded(b[4], w[5]);
    assert !HasFolded(b[5], w[5]);
    assert !HasFolded(b[6], w[5]);
    PhraseMissingChar(w, b[0], 5);
    PhraseMissingChar(w, b[1], 5);
    PhraseMissingChar(w, b[2], 5);
    PhraseMissingChar(w, b[3], 2);
    PhraseMissingChar(w, b[4], 5);
    PhraseMissingChar(w, b[5], 5);
    PhraseMissingChar(w, b[6], 5);
    NoneOfSeven(w, b);
  }

  lemma StrongNotInThirdLine()
    ensures forall k :: 0 <= k < |ThirdLine()| ==> !Occurs(Phrase("strong"), ThirdLine()[k])
  {
    var w, c := "strong", ThirdLine();
    assert !HasFolded(c[0], w[2]);
    assert !HasFolded(c[1], w[2]);
    assert !HasFolded(c[2], w[0]);
    assert !HasFolded(c[3], w[4]);
    assert !HasFolded(c[4], w[4]);
    assert !HasFolded(c[5], w[4]);
    assert !HasFolded(c[6], w[4]);
    PhraseMissingChar(w, c[0], 2);
    PhraseMissingChar(w, c[1], 2);
    PhraseMissingChar(w, c[2], 0);
    PhraseMissingChar(w, c[3], 4);
    PhraseMissingChar(w, c[4], 4);
    PhraseMissingChar(w, c[5], 4);
    PhraseMissingChar(w, c[6], 4);
    NoneOfSeven(w, c);
  }

  lemma NoStrong()
    ensures !Occurs(Phrase("strong"), SampleText())
  {
    StrongNotInFirstLine();
    StrongNotInSecondLine();
    StrongNotInThirdLine();
    NotInSample("strong");
  }

  // ---------------------------------------------------------------------------
  // The analysis
  // ---------------------------------------------------------------------------

  /** The reported correlation, r=0.87. */
  lemma ExactCorrelationInSample()
    ensures Occurs(ExactCorrelation, SampleText())
  {
    assert 3 < |FirstLine()| && FirstLine()[3] == "r=0.87";
    ComparisonsWellFormed();
    ExactCorrelationValue();
    InFirstLine(ExactCorrelation, 3, "r=0.87");
  }

  /** The reported p-value, p<0.01. */
  lemma PerfectPInSample()
    ensures Occurs(PerfectP, SampleText())
  {
    assert 4 < |FirstLine()| && FirstLine()[4] == "(p<0.01,";
    ComparisonsWellFormed();
    PerfectPValue();
    InFirstLine(PerfectP, 4, "(p<0.01,");
  }

  /** The reported sample size, n=45. */
  lemma SmallSampleInSample()
    ensures Occurs(SmallSample, SampleText())
  {
    assert 5 < |FirstLine()| && FirstLine()[5] == "n=45)";
    ComparisonsWellFormed();
    SmallSampleSize();
    InFirstLine(SmallSample, 5, "n=45)");
  }

  /** No p-value of 0.05 is reported. */
  lemma NoConvenientP()
    ensures !Occurs(ConvenientP, SampleText())
  {
    NoConvenientValue();
    if Occurs(ConvenientP, SampleText()) {
      ComparisonNeedsOperand('p', "<>=", "0.05", SampleText());
    }
  }

  lemma NoSignificanceInSample()
    ensures Occurs(NoSignificance, SampleText())
  {
    assert 3 < |SecondLine()| && SecondLine()[3] == "no significant effect";
    assert WellFormed(NoSignificance);
    NoSignificanceFound();
    InSecondLine(NoSignificance, 3, "no significant effect");
  }

  lemma HighlySignificantInSample()
    ensures Occurs(HighlySignificant, SampleText())
  {
    assert 1 < |ThirdLine()| && ThirdLine()[1] == "highly significant";
    assert WellFormed(HighlySignificant);
    HighlySignificantFound();
    InThirdLine(HighlySignificant, 1, "highly significant");
  }

  lemma ProvesThatInSample()
    ensures Occurs(ProvesThat, SampleText())
  {
    assert 3 < |ThirdLine()| && ThirdLine()[3] == "proves that";
    assert WellFormed(ProvesThat);
    OptionalSPresent();
    InThirdLine(ProvesThat, 3, "proves that");
  }

  /** Nothing in the paragraph says "strong". */
  lemma NoStrongCorrelation()
    ensures !Occurs(StrongCorrelation, SampleText())
  {
    NoStrong();
    if Occurs(StrongCorrelation, SampleText()) {
      GapNeedsFirst("strong", "correlation", SampleText());
    }
  }

  lemma CorrelationInSample()
    ensures Occurs(MentionsCorrelation, SampleText())
  {
    assert 1 < |FirstLine()| && FirstLine()[1] == "correlation";
    CrossModalShapes();
    CorrelationFound();
    InFirstLine(MentionsCorrelation, 1, "correlation");
  }

  lemma NoEffectClaimInSample()
    ensures Occurs(ClaimsNoEffect, SampleText())
  {
    assert 3 < |SecondLine()| && SecondLine()[3] == "no significant effect";
    CrossModalShapes();
    NoEffectClaimFound();
    InSecondLine(ClaimsNoEffect, 3, "no significant effect");
  }

  lemma RigorInSample()
    ensures Occurs(ClaimsRigor, SampleText())
  {
    assert 6 < |ThirdLine()| && ThirdLine()[6] == "rigorous.";
    CrossModalShapes();
    RigorFound();
    InThirdLine(ClaimsRigor, 6, "rigorous.");
  }

  /** The sample size of 45 is also below the cross-modal threshold. */
  lemma RigorSampleInSample()
    ensures Occurs(RigorSample, SampleText())
  {
    SmallSampleInSample();
    SmallSampleIsRigorSample(SampleText());
  }

  lemma FirstLineLength()
    ensures |Join(" ", FirstLine())| == 76
  {
    JoinLength(" ", FirstLine());
  }

  lemma SecondLineLength()
    ensures |Join(" ", SecondLine())| == 83
  {
    JoinLength(" ", SecondLine());
  }

  lemma ThirdLineLength()
    ensures |Join(" ", ThirdLine())| == 72
  {
    JoinLength(" ", ThirdLine());
  }

  /** The paragraph is 251 characters long. */
  lemma SampleLength()
    ensures |SampleText()| == 251
  {
    FirstLineLength();
    SecondLineLength();
    ThirdLineLength();
    JoinLength(Indent, Lines());
  }

  /** A table of four whose first, third and fourth patterns occur and whose
      second does not raises those three flags. */
  lemma FirstThirdFourth(table: seq<Indicator>, kind: FlagType, text: string)
    requires |table| == 4
    requires Occurs(table[0].pattern, text) && !Occurs(table[1].pattern, text)
    requires Occurs(table[2].pattern, text) && Occurs(table[3].pattern, text)
    ensures Flags(table, kind, text) == [FlagFor(kind, table[0]), FlagFor(kind, table[2]), FlagFor(kind, table[3])]
  {
    FlagsOfFour(table, kind, text);
  }

  /** Where each default statistical pattern sits in its table. */
  lemma StatisticalPatterns()
    ensures var table := StatisticalIndicators();
      |table| == 4 && table[0].pattern == ExactCorrelation && table[1].pattern == ConvenientP
      && table[2].pattern == PerfectP && table[3].pattern == SmallSample
  {
  }

  /** Where each default text pattern sits in its table. */
  lemma TextPatternsOrder()
    ensures var table := TextIndicators();
      |table| == 4 && table[0].pattern == NoSignificance && table[1].pattern == StrongCorrelation
      && table[2].pattern == HighlySignificant && table[3].pattern == ProvesThat
  {
  }

  lemma SampleStatisticalFlags()
    ensures var table := StatisticalIndicators();
      Flags(table, StatisticalAnomaly, SampleText())
        == [FlagFor(StatisticalAnomaly, table[0]), FlagFor(StatisticalAnomaly, table[2]), FlagFor(StatisticalAnomaly, table[3])]
  {
    StatisticalPatterns();
    ExactCorrelationInSample();
    PerfectPInSample();
    SmallSampleInSample();
    NoConvenientP();
    FirstThirdFourth(StatisticalIndicators(), StatisticalAnomaly, SampleText());
  }

  lemma SampleTextFlags()
    ensures var table := TextIndicators();
      Flags(table, TextInconsistency, SampleText())
        == [FlagFor(TextInconsistency, table[0]), FlagFor(TextInconsistency, table[2]), FlagFor(TextInconsistency, table[3])]
  {
    TextPatternsOrder();
    NoSignificanceInSample();
    HighlySignificantInSample();
    ProvesThatInSample();
    NoStrongCorrelation();
    FirstThirdFourth(TextIndicators(), TextInconsistency, SampleText());
  }

  lemma TotalOfThree(a: Flag, b: Flag, c: Flag)
    ensures TotalScore([a, b, c]) == a.score + b.score + c.score
  {
    assert [a, b, c][..2] == [a, b] && [a, b][..1] == [a] && [a][..0] == [];
    assert TotalScore([a]) == a.score;
    assert TotalScore([a, b]) == a.score + b.score;
  }

  lemma DescriptionsOfThree(a: Flag, b: Flag, c: Flag)
    ensures Descriptions([a, b, c]) == [a.description, b.description, c.description]
  {
  }

  /** The statistical sub-score of the sample: 0.8 + 0.4 + 0.3, capped at 1. */
  lemma SampleStatisticalScore()
    ensures ClampedScore(Flags(StatisticalIndicators(), StatisticalAnomaly, SampleText())) == 1.0
  {
    var table := StatisticalIndicators();
    SampleStatisticalFlags();
    TotalOfThree(FlagFor(StatisticalAnomaly, table[0]), FlagFor(StatisticalAnomaly, table[2]), FlagFor(StatisticalAnomaly, table[3]));
  }

  /** The text-alignment sub-score of the sample: 0.2 + 0.3 + 0.2. */
  lemma SampleTextScore()
    ensures ClampedScore(Flags(TextIndicators(), TextInconsistency, SampleText())) == 0.7
  {
    var table := TextIndicators();
    SampleTextFlags();
    TotalOfThree(FlagFor(TextInconsistency, table[0]), FlagFor(TextInconsistency, table[2]), FlagFor(TextInconsistency, table[3]));
  }

  /** Both contradictions: a cross-modal score of 0.8. */
  lemma SampleCrossModalScore()
    ensures CrossModalScore(SampleText()) == 0.8
  {
    CorrelationInSample();
    NoEffectClaimInSample();
    RigorInSample();
    RigorSampleInSample();
  }

  lemma SampleStatisticalDescriptions()
    ensures Descriptions(Flags(StatisticalIndicators(), StatisticalAnomaly, SampleText()))
      == ["Suspicious exact correlation (Gino-style)", "Too-perfect p-value", "Small sample size"]
  {
    var table := StatisticalIndicators();
    SampleStatisticalFlags();
    DescriptionsOfThree(FlagFor(StatisticalAnomaly, table[0]), FlagFor(StatisticalAnomaly, table[2]), FlagFor(StatisticalAnomaly, table[3]));
  }

  lemma SampleTextDescriptions()
    ensures Descriptions(Flags(TextIndicators(), TextInconsistency, SampleText()))
      == ["Claims no significance", "Overstated significance", "Overstated causation claims"]
  {
    var table := TextIndicators();
    SampleTextFlags();
    DescriptionsOfThree(FlagFor(TextInconsistency, table[0]), FlagFor(TextInconsistency, table[2]), FlagFor(TextInconsistency, table[3]));
  }

  lemma ThreeAndThree<T>(a: T, b: T, c: T, d: T, e: T, f: T)
    ensures [a, b, c] + [d, e, f] == [a, b, c, d, e, f]
  {
  }

  /** The analysis of the sample: statistical score 1.0 (0.8 + 0.4 + 0.3
      capped), text score 0.7, both contradictions (0.8), overall 0.85, six
      flagged sections in scan order, 251 characters. */
  lemma SampleAnalysis()
    ensures Analyze(DefaultIndicators(), SampleText())
      == AnalysisResult(
           0.85, 0.8, 1.0, 0.7,
           [ "Suspicious exact correlation (Gino-style)", "Too-perfect p-value", "Small sample size",
             "Claims no significance", "Overstated significance", "Overstated causation claims" ],
           0.85,
           Details(3, 3, 251, "Cross-modal academic fraud detection v1.0"))
  {
    var statFlags := Flags(StatisticalIndicators(), StatisticalAnomaly, SampleText());
    var textFlags := Flags(TextIndicators(), TextInconsistency, SampleText());
    SampleStatisticalFlags();
    SampleTextFlags();
    SampleStatisticalScore();
    SampleTextScore();
    SampleCrossModalScore();
    SampleStatisticalDescriptions();
    SampleTextDescriptions();
    DescriptionsAppend(statFlags, textFlags);
    SampleLength();
    ThreeAndThree("Suspicious exact correlation (Gino-style)", "Too-perfect p-value", "Small sample size",
                  "Claims no significance", "Overstated significance", "Overstated causation claims");
  }
}

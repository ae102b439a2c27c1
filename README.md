# Academic fraud scorer

This project models the pattern-based scorer `AcademicFraudDetector` of the
Veridity fraud detection service. Given a paper's content, the scorer does the following:

- It reads a mapping as its values joined with single spaces, and any other content as its `str()` form (a string as itself).
- It searches the text, ignoring case, with two fixed tables of four weighted
  regular expressions: "statistical anomalies" and "text inconsistencies".
  Each indicator whose pattern occurs raises one flag.
- Each table's sub-score is the sum of the raised weights, capped at 1.
- A cross-modal score counts two contradictions at 0.4 each:
  - a correlation together with a claim of no effect;
  - a claim of rigor together with a sample of 10 to 59.
- The overall score is 0.4 × statistical + 0.3 × text + 0.3 × cross-modal.
- It reports the flags' descriptions in scan order, the flag counts, the
  text length, a fixed methodology string and a fixed confidence of 0.85.

Modules:

- `TextPatterns` (`text_patterns.dfy`) has one bespoke matcher per pattern shape the scorer uses:
  - a comparison `name\s*[ops]\s*operand`;
  - a literal phrase;
  - `first.*last`;
  - `before s? after`;
  - an alternative.

  The matchers follow Python `re` semantics: unanchored search, `\s` as
  `str.isspace`, `.` stopping at a newline, and ASCII case folding. `Occurs(p, t)` is `re.search(p, t, re.IGNORECASE)`.
- `PatternLaws` (`pattern_laws.dfy`) reads each pattern declaratively, the way
  the regular expression is written, and proves that the matchers agree with
  that reading. It also proves how occurrences behave under concatenation, case folding and missing characters.
- `TextContent` (`text_content.dfy`) covers the content (a mapping, or the
  `str()` form of anything else), its normalisation with `' '.join`, and the
  laws of joining. `Values` is the definition of a mapping's values in
  insertion order; what the join does with them is stated by `JoinLength`,
  `OccursInPiece` and `PhraseInNoPiece`.
- `FraudDetector` (`fraud_detector.dfy`) holds:
  - the indicator tables and the patterns;
  - the specification functions: `Flags`, `ClampedScore`, `CrossModalScore`, `OverallScore` and `Analyze`;
  - the class `AcademicFraudDetector`. Its scans are loops proved equal to
    `Flags`. Its cross-modal check is a counter proved equal to
    `CrossModalScore`. `AnalyzePaper` fills the result record step by step
    and is proved equal to `Analyze`.
  - `Descriptions` is the definition of the list of flag descriptions;
    `DescriptionsOfFlags` and `ResultShape` state what it holds.
- `DetectorLaws` (`detector_laws.dfy`) proves the scorer's properties: presence-only flags, bounds, the blend, the result's shape, empty content and case insensitivity.
- `PatternExamples` (`pattern_examples.dfy`) pins the patterns down on small texts.
- `SamplePaper` (`sample_paper.dfy`) is the built-in three-line sample paragraph and its complete analysis.

Scores are exact reals.

## Model

| member | source | states |
|---|---|---|
| FraudDetector.Flags | poc-setup/scripts/fraud-detection/fraud_api.py:85-109 | a scan raises at most one flag per indicator, so at most as many flags as the table has entries |
| FraudDetector.FlagsStep | poc-setup/scripts/fraud-detection/fraud_api.py:88-95 | scanning one more indicator appends its flag exactly when its pattern occurs, and nothing otherwise |
| FraudDetector.ScanIndicators | poc-setup/scripts/fraud-detection/fraud_api.py:87-96 | the loop over the table, appending a flag per matching indicator, returns exactly the flags of `Flags` |
| FraudDetector.Min | poc-setup/scripts/fraud-detection/fraud_api.py:55 | `min` returns one of its arguments and is at most both |
| FraudDetector.FlagIfFound | poc-setup/scripts/fraud-detection/fraud_api.py:89-95 | an indicator yields its one flag (its type, weight, description and pattern text) when its pattern occurs and nothing otherwise; stated by `FlagsStep` and `FlagsMembership` |
| FraudDetector.TotalScore | poc-setup/scripts/fraud-detection/fraud_api.py:55 | Python's left-to-right `sum` of the flags' weights; `TotalScoreStep` states that each further indicator adds its weight exactly when its pattern occurs and nothing otherwise, and `TotalScoreBounds` that the sum lies between 0 and the table's total weight |
| FraudDetector.ClampedScore | poc-setup/scripts/fraud-detection/fraud_api.py:55 | `min(sum(...), 1.0)`; `SubScoreRange` states that it lies in [0, 1] and equals the sum exactly when the sum is at most 1 |
| FraudDetector.Contradictions | poc-setup/scripts/fraud-detection/fraud_api.py:114-128 | the count of the two contradictions found; `CrossModalValues` states which combination gives which score |
| FraudDetector.CrossModalScore | poc-setup/scripts/fraud-detection/fraud_api.py:131 | `min(contradictions * 0.4, 1.0)`; `CrossModalValues` states that it is 0.8, 0.4 or 0 exactly when two, one or none of the contradictions hold |
| FraudDetector.OverallScore | poc-setup/scripts/fraud-detection/fraud_api.py:65-69 | the 0.4/0.3/0.3 blend; `OverallRange` and `DefaultOverallRange` bound it by [0, 1] and [0, 0.88] |
| FraudDetector.Analyze | poc-setup/scripts/fraud-detection/fraud_api.py:43-81 | the result record of an analysis; `ResultShape`, `OverallRange`, `EmptyText`, `CaseInsensitive` and `SampleAnalysis` state its shape, range, empty-text result, case insensitivity and the sample's result |
| FraudDetector.StatisticalIndicators | poc-setup/scripts/fraud-detection/fraud_api.py:20-25 | the four statistical indicators in source order; `StatisticalWeights` and `StatisticalShapes` state their weights (1.9 in all) and that every pattern is well formed and needs text |
| FraudDetector.TextIndicators | poc-setup/scripts/fraud-detection/fraud_api.py:26-31 | the four text indicators in source order; `TextWeights` and `TextShapes` state their weights (0.8 in all) and that every pattern is well formed and needs text |
| FraudDetector.AcademicFraudDetector.constructor | poc-setup/scripts/fraud-detection/fraud_api.py:18-32 | the detector is built with the default statistical and text tables |
| FraudDetector.AcademicFraudDetector.CheckStatisticalAnomalies | poc-setup/scripts/fraud-detection/fraud_api.py:85-96 | the statistical scan returns the flags of the detector's statistical table on the text |
| FraudDetector.AcademicFraudDetector.CheckTextInconsistencies | poc-setup/scripts/fraud-detection/fraud_api.py:98-109 | the text scan returns the flags of the detector's text table on the text |
| FraudDetector.AcademicFraudDetector.CheckCrossModalConsistency | poc-setup/scripts/fraud-detection/fraud_api.py:111-131 | counting the two contradictions and capping 0.4 per contradiction at 1 gives `CrossModalScore` |
| FraudDetector.AcademicFraudDetector.AnalyzePaper | poc-setup/scripts/fraud-detection/fraud_api.py:34-83 | filling the result record field by field gives `Analyze` of the detector's tables on the normalised content |
| DetectorLaws.FlagsAppend | poc-setup/scripts/fraud-detection/fraud_api.py:87-96 | scanning two tables one after the other gives the first table's flags followed by the second's (table order) |
| DetectorLaws.FlagsLast | poc-setup/scripts/fraud-detection/fraud_api.py:88-95 | a flag is raised by a table exactly when it is raised by all but the last entry, or it is the last entry's flag and that pattern occurs |
| DetectorLaws.FlagsAreRaised | poc-setup/scripts/fraud-detection/fraud_api.py:88-95 | every flag comes from an indicator whose pattern occurs in the text |
| DetectorLaws.RaisedAreFlags | poc-setup/scripts/fraud-detection/fraud_api.py:88-95 | every indicator whose pattern occurs contributes its flag |
| DetectorLaws.FlagsMembership | poc-setup/scripts/fraud-detection/fraud_api.py:88-95 | a flag is in the scan exactly when some indicator's pattern occurs and the flag carries that indicator's type, weight, description and pattern |
| DetectorLaws.FlagsPresenceOnly | poc-setup/scripts/fraud-detection/fraud_api.py:89-95 | two texts in which the same patterns occur get the same flags: repetitions do not count |
| DetectorLaws.FlagsNone | poc-setup/scripts/fraud-detection/fraud_api.py:87-96 | when no pattern occurs the scan is empty |
| DetectorLaws.FlagsOfFour | poc-setup/scripts/fraud-detection/fraud_api.py:87-96 | the scan of a four-entry table is the optional flags of entries 0, 1, 2, 3 in that order |
| DetectorLaws.TotalScoreStep | poc-setup/scripts/fraud-detection/fraud_api.py:55 | one more indicator adds its weight to the sum when its pattern occurs, and nothing when it does not |
| DetectorLaws.TotalScoreBounds | poc-setup/scripts/fraud-detection/fraud_api.py:55 | with non-negative weights the sum of the flags lies between 0 and the table's total weight |
| DetectorLaws.SubScoreRange | poc-setup/scripts/fraud-detection/fraud_api.py:54-59 | each sub-score lies in [0, 1]. It equals the plain sum exactly when the sum is at most 1, and always when the table's weights add up to at most 1 |
| DetectorLaws.CrossModalValues | poc-setup/scripts/fraud-detection/fraud_api.py:114-131 | the cross-modal score is 0.8 exactly when both contradictions hold, 0.4 exactly when one holds, and 0 exactly when neither holds |
| DetectorLaws.OverallRange | poc-setup/scripts/fraud-detection/fraud_api.py:65-69 | with non-negative weights the overall score lies in [0, 1] |
| DetectorLaws.StatisticalWeights | poc-setup/scripts/fraud-detection/fraud_api.py:20-25 | the statistical table has four non-negative weights adding up to 1.9 |
| DetectorLaws.TextWeights | poc-setup/scripts/fraud-detection/fraud_api.py:26-31 | the text table has four non-negative weights adding up to 0.8 |
| DetectorLaws.DefaultAlignmentUnclamped | poc-setup/scripts/fraud-detection/fraud_api.py:59 | with the default tables the text-alignment cap never applies: the score is the plain sum, at most 0.8 |
| DetectorLaws.DefaultOverallRange | poc-setup/scripts/fraud-detection/fraud_api.py:65-69 | with the default tables the overall score lies in [0, 0.88] |
| DetectorLaws.SmallSampleIsRigorSample | poc-setup/scripts/fraud-detection/fraud_api.py:124-125 | a sample size that raises the small-sample flag (10-49) also counts for the rigor contradiction (10-59): every match of the small-sample pattern of line 24 is a match of the sample pattern of line 125 |
| DetectorLaws.DescriptionsOfFlags | poc-setup/scripts/fraud-detection/fraud_api.py:72-73 | a description is listed exactly when some indicator with that description has a pattern that occurs |
| DetectorLaws.ResultShape | poc-setup/scripts/fraud-detection/fraud_api.py:72-81 | The result has the following shape: <br>• The flagged sections are the statistical descriptions followed by the text ones. <br>• Their number is the sum of the two flag counts. <br>• Each count is at most its table's size. <br>• A description sits in the statistical part (text part) exactly when a statistical (text) indicator with it occurs. <br>• The content length is the text's length, and the methodology and the 0.85 confidence are fixed. |
| DetectorLaws.EmptyText | poc-setup/scripts/fraud-detection/fraud_api.py:43-81 | empty text gives all scores 0, no flagged section and zero counts |
| DetectorLaws.EmptyMapping | poc-setup/scripts/fraud-detection/fraud_api.py:38-39 | an empty mapping is analysed as empty text |
| DetectorLaws.MappingContentLength | poc-setup/scripts/fraud-detection/fraud_api.py:38-39 | for a mapping, the content length is the values' total length plus one space between each two |
| DetectorLaws.FlagsIgnoreCase | poc-setup/scripts/fraud-detection/fraud_api.py:89-102 | lower-casing the text changes no scan's flags |
| DetectorLaws.CrossModalIgnoresCase | poc-setup/scripts/fraud-detection/fraud_api.py:117-125 | lower-casing the text does not change the cross-modal score |
| DetectorLaws.CaseInsensitive | poc-setup/scripts/fraud-detection/fraud_api.py:34-83 | the whole analysis of a text and of its lower-cased form agree |
| DetectorLaws.DefaultCaseInsensitive | poc-setup/scripts/fraud-detection/fraud_api.py:19-32 | the default tables' patterns are case-insensitive, so the analysis with them is too |
| PatternLaws.MatchesAtIsRegexMatch | poc-setup/scripts/fraud-detection/fraud_api.py:21-30 | each matcher accepts exactly the texts that its regular expression, read declaratively, matches at the start |
| PatternLaws.OccursLower | poc-setup/scripts/fraud-detection/fraud_api.py:89 | a pattern occurs in a text exactly when it occurs in its lower-cased form (IGNORECASE) |
| PatternLaws.ComparisonNeedsOperand | poc-setup/scripts/fraud-detection/fraud_api.py:21-23 | a comparison with a literal value occurs only where the value itself occurs |
| PatternLaws.GapNeedsFirst | poc-setup/scripts/fraud-detection/fraud_api.py:27-28 | `first.*last` occurs only where `first` occurs |
| PatternLaws.NotInEmpty | poc-setup/scripts/fraud-detection/fraud_api.py:89 | a pattern that needs at least one character (every pattern of the scorer does) does not occur in empty text |
| PatternLaws.OccursBeforeAnySuffix | poc-setup/scripts/fraud-detection/fraud_api.py:21-23 | a comparison with a literal operand still occurs after any text is appended, digits included: nothing is required after the operand |
| TextPatterns.Occurs | poc-setup/scripts/fraud-detection/fraud_api.py:89 | `re.search(pattern, text, re.IGNORECASE)` succeeds; `MatchesAtIsRegexMatch` ties each match to the regular expression's declarative reading, `OccursLower` states the case insensitivity and `NotInEmpty` the empty text |
| TextPatterns.MatchesAt | poc-setup/scripts/fraud-detection/fraud_api.py:21-30 | a greedy match of a pattern at the start of the text; `MatchesAtIsRegexMatch` states that it accepts exactly what the regular expression, read declaratively, matches there |
| TextPatterns.IsSpace | poc-setup/scripts/fraud-detection/fraud_api.py:21-24 | the characters `\s` matches (Python's `str.isspace`); `MatchesAtIsRegexMatch` relies on it for the white space around a comparison |
| TextPatterns.Fold | poc-setup/scripts/fraud-detection/fraud_api.py:89 | the ASCII case folding IGNORECASE applies; `FoldKeepsClasses` states that folding keeps white space, digits and the newline and is idempotent, and `OccursLower` that every search gives the same answer on a text and on its folded form |
| PatternLaws.FoldKeepsClasses | poc-setup/scripts/fraud-detection/fraud_api.py:89 | case folding leaves a character white space, a digit or a newline exactly when it was one, and folding twice is folding once |
| TextContent.Join | poc-setup/scripts/fraud-detection/fraud_api.py:39 | Python's `sep.join(pieces)`; `JoinLength` and `JoinAppend` state its length and how it splits over a concatenation of lists |
| TextContent.NormalizedText | poc-setup/scripts/fraud-detection/fraud_api.py:38-41 | the text analysed: a mapping's values joined with single spaces, any other content as its `str()` form; `EmptyMapping`, `MappingContentLength` and `OccursInPiece` state what the join keeps |
| TextContent.JoinLength | poc-setup/scripts/fraud-detection/fraud_api.py:39 | the joined text is as long as the pieces plus one separator between each two |
| TextContent.OccursInPiece | poc-setup/scripts/fraud-detection/fraud_api.py:38-39 | a pattern occurring in one value of a mapping occurs in the joined text |
| TextContent.PhraseInNoPiece | poc-setup/scripts/fraud-detection/fraud_api.py:38-39 | a phrase in no value, and sharing no character with the separator, is not in the joined text |
| PatternExamples.FiftyFiveIsRigorSample | poc-setup/scripts/fraud-detection/fraud_api.py:125 | "n=55" is a small sample for the rigor contradiction |
| PatternExamples.FiftyFiveIsNotSmallSample | poc-setup/scripts/fraud-detection/fraud_api.py:24 | "n=55" raises no small-sample flag |
| PatternExamples.FourFifty | poc-setup/scripts/fraud-detection/fraud_api.py:124-125 | "n=450" is small for neither check, because a third digit is forbidden |
| PatternExamples.NoWordBoundary | poc-setup/scripts/fraud-detection/fraud_api.py:24 | the search is unanchored: "an=12" has a small sample |
| PatternExamples.ExactCorrelationValue | poc-setup/scripts/fraud-detection/fraud_api.py:21 | "r=0.87" is the suspicious exact correlation |
| PatternExamples.OpenEndedOperand | poc-setup/scripts/fraud-detection/fraud_api.py:21 | "r=0.875" is the suspicious correlation, because nothing is required after the literal |
| PatternExamples.SpacedUpperCase | poc-setup/scripts/fraud-detection/fraud_api.py:22 | white space around the operator and upper case are accepted: "P < 0.05" |
| PatternExamples.OptionalSAbsent | poc-setup/scripts/fraud-detection/fraud_api.py:30 | "prove that" matches `proves? that` |
| PatternExamples.OptionalSPresent | poc-setup/scripts/fraud-detection/fraud_api.py:30 | "proves that" matches `proves? that` |
| PatternExamples.GapWithinLine | poc-setup/scripts/fraud-detection/fraud_api.py:118 | `no.*effect` matches "no effect" |
| PatternExamples.GapStopsAtNewline | poc-setup/scripts/fraud-detection/fraud_api.py:118 | `no.*effect` does not match across a line break |
| SamplePaper.SampleLength | poc-setup/scripts/fraud-detection/fraud_api.py:183-187 | the sample paragraph is 251 characters long |
| SamplePaper.ExactCorrelationInSample | poc-setup/scripts/fraud-detection/fraud_api.py:184 | the sample reports r=0.87 |
| SamplePaper.PerfectPInSample | poc-setup/scripts/fraud-detection/fraud_api.py:184 | the sample reports p<0.01 |
| SamplePaper.SmallSampleInSample | poc-setup/scripts/fraud-detection/fraud_api.py:184 | the sample reports n=45 |
| SamplePaper.NoConvenientP | poc-setup/scripts/fraud-detection/fraud_api.py:183-187 | the sample has no p-value of 0.05 |
| SamplePaper.NoStrongCorrelation | poc-setup/scripts/fraud-detection/fraud_api.py:183-187 | the sample does not claim a strong correlation |
| SamplePaper.SampleStatisticalFlags | poc-setup/scripts/fraud-detection/fraud_api.py:183-189 | the sample raises the first, third and fourth statistical flags |
| SamplePaper.SampleTextFlags | poc-setup/scripts/fraud-detection/fraud_api.py:183-189 | the sample raises the first, third and fourth text flags |
| SamplePaper.SampleStatisticalScore | poc-setup/scripts/fraud-detection/fraud_api.py:183-189 | the statistical sub-score of the sample is min(0.8 + 0.4 + 0.3, 1) = 1 |
| SamplePaper.SampleTextScore | poc-setup/scripts/fraud-detection/fraud_api.py:183-189 | the text sub-score of the sample is 0.2 + 0.3 + 0.2 = 0.7 |
| SamplePaper.SampleCrossModalScore | poc-setup/scripts/fraud-detection/fraud_api.py:183-189 | both contradictions are in the sample: cross-modal score 0.8 |
| SamplePaper.SampleAnalysis | poc-setup/scripts/fraud-detection/fraud_api.py:183-189 | the complete result for the sample: <br>• overall 0.85, cross-modal 0.8, statistical 1.0 and text 0.7; <br>• the six descriptions in scan order; <br>• confidence 0.85; <br>• 3 statistical and 3 text flags, and 251 characters |

## Left out

- The Flask application, CORS, the `/health`, `/analyze` and `/test` routes, `jsonify` and the 400/500 error responses, and start-up (`fraud_api.py:7-15`, `:133-202`). This is HTTP plumbing. The `/test` paragraph is kept as `SamplePaper.SampleText`.
- A general regular-expression engine. Only the shapes of the scorer's own patterns are modelled, as bespoke matchers.
- Case folding beyond ASCII. Python's IGNORECASE also matches some non-ASCII characters against the ASCII letters of these patterns: 'ſ' (U+017F) as 's', and 'İ' (U+0130) and 'ı' (U+0131) as 'i'. Python flags "ſtrong correlation"; the model does not.
- Floating point. Scores are exact reals.
- SamplePaper.SampleAnalysis: states the overall score as exactly 0.85. Python's floating-point sum of 0.4 + 0.21 + 0.24 may differ from 0.85 in the last bits.
- `str()` of arbitrary Python values in a mapping. Mapping values are taken to be strings already.
- `str()` of content that is neither a mapping nor a string. A JSON list, number, boolean or null is scanned as its Python repr (`None`, `['a', 'b']`, `True`, `3`). The model does not compute that repr: such content enters as `Text` holding the string `str()` gives.
- `metadata`. `AnalyzePaper` accepts it but, like the source, never reads it.
- The unused `json` and `random` imports.
- The sample paragraph is built as the join of its three lines, and each line as the join of its pieces (the line cut at some of its spaces), instead of as one 251-character literal. The model's sample is the same string as the source's triple-quoted text: a line break, then each line indented by four spaces and followed by a line break, then four spaces.

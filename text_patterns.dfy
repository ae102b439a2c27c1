/** The fixed regular expressions the fraud scorer searches for, each written
    out as a bespoke matcher with Python `re` semantics under IGNORECASE:
    unanchored search, greedy `\s*`, `.` that stops at a newline, ASCII case
    folding.  Beside the executable matchers, `RegexMatch` states the same
    patterns declaratively (as "there are split points such that ..."), the
    way the regular-expression syntax reads, and `MatchesAtIsRegexMatch`
    proves that the greedy matchers agree with it. */
module TextPatterns {

  datatype Option<T> = None | Some(value: T)

  // ---------------------------------------------------------------------------
  // Characters
  // ---------------------------------------------------------------------------

  /** The characters `\s` matches in a str pattern: those for which Python's
      `str.isspace()` holds. */
  predicate IsSpace(c: char) {
    ('\t' <= c <= '\r') || ('\U{1C}' <= c <= '\U{1F}') || c == ' '
    || c == '\U{85}' || c == '\U{A0}' || c == '\U{1680}'
    || ('\U{2000}' <= c <= '\U{200A}') || c == '\U{2028}' || c == '\U{2029}'
    || c == '\U{202F}' || c == '\U{205F}' || c == '\U{3000}'
  }

  /** The class `[0-9]`: ASCII digits only. */
  predicate IsDigit(c: char) {
    '0' <= c <= '9'
  }

  /** ASCII case folding; IGNORECASE compares the text's characters after
      folding with the pattern's characters, which are all lower case. */
  function Fold(c: char): (d: char)
    ensures 'A' <= c <= 'Z' ==> d as int == c as int + 32
    ensures !('A' <= c <= 'Z') ==> d == c
    ensures !('A' <= d <= 'Z')
  {
    if 'A' <= c <= 'Z' then (c as int + 32) as char else c
  }

  /** The text with every ASCII capital replaced by its small letter. */
  function Lower(s: string): (r: string)
    ensures |r| == |s|
    ensures forall k :: 0 <= k < |s| ==> r[k] == Fold(s[k])
  {
    seq(|s|, k requires 0 <= k < |s| => Fold(s[k]))
  }

  // ---------------------------------------------------------------------------
  // Building blocks of the patterns, on the text that follows a position
  // ---------------------------------------------------------------------------

  /** The literal `w` (written in lower case) begins `s`, ignoring ASCII case. */
  predicate StartsWith(s: string, w: string)
    ensures StartsWith(s, w) ==> |w| <= |s|
    decreases |w|
  {
    |w| == 0 || (|s| > 0 && Fold(s[0]) == w[0] && StartsWith(s[1..], w[1..]))
  }

  /** How many characters a greedy `\s*` takes at the start of `s`: it stops
      at the first character that is not white space (and
      `LeadingSpacesAreSpaces` shows that it takes only white space). */
  function LeadingSpaces(s: string): (n: nat)
    ensures n <= |s|
    ensures n < |s| ==> !IsSpace(s[n])
    decreases |s|
  {
    if |s| > 0 && IsSpace(s[0]) then 1 + LeadingSpaces(s[1..]) else 0
  }

  /** What remains of `s` after a greedy `\s*`. */
  function SkipSpaces(s: string): string {
    s[LeadingSpaces(s)..]
  }

  /** The class `[ops]`: `c` is one of the characters of `ops`. */
  predicate OneOf(c: char, ops: string)
    decreases |ops|
  {
    |ops| > 0 && (ops[0] == c || OneOf(c, ops[1..]))
  }

  /** The text after a match of `name\s*[ops]\s*` at the start of `s`, if
      there is one.  In every pattern that uses it the second `\s*` is
      followed by a digit, so the greedy choice is the only one that can
      succeed (`RelationIsAfterRelation` in `PatternLaws`). */
  function AfterRelation(s: string, name: char, ops: string): Option<string> {
    if |s| == 0 || Fold(s[0]) != name then None
    else
      var u := SkipSpaces(s[1..]);
      if |u| == 0 || !OneOf(Fold(u[0]), ops) then None else Some(SkipSpaces(u[1..]))
  }

  /** `[1-m][0-9](?![0-9])` at the start of `s`: a two-digit number whose
      first digit is between 1 and `maxTens`, not followed by a third digit. */
  predicate TwoDigitNumber(s: string, maxTens: char) {
    |s| >= 2 && '1' <= s[0] <= maxTens && IsDigit(s[1]) && !(|s| > 2 && IsDigit(s[2]))
  }

  /** `.*last` at the start of `s`: `last` begins before the first newline. */
  predicate OnSameLine(s: string, last: string)
    decreases |s|
  {
    StartsWith(s, last) || (|s| > 0 && s[0] != '\n' && OnSameLine(s[1..], last))
  }

  // ---------------------------------------------------------------------------
  // The patterns
  // ---------------------------------------------------------------------------

  /** What may follow `name\s*[ops]\s*` in a comparison pattern. */
  datatype Operand =
    | Exactly(value: string)     // a literal such as `0\.87`
    | TwoDigits(maxTens: char)   // [1-m][0-9](?![0-9])

  /** The shapes of the patterns the scorer uses.  Every literal is written
      in lower case. */
  datatype Pattern =
    | Comparison(name: char, ops: string, operand: Operand)  // name\s*[ops]\s*operand
    | Phrase(words: string)                                   // a literal phrase
    | Gap(first: string, last: string)                        // first.*last
    | OptionalChar(before: string, optional: char, after: string)  // before optional? after
    | Either(left: Pattern, right: Pattern)                   // left|right

  /** A match of `operand` at the start of `s`. */
  predicate OperandAt(operand: Operand, s: string) {
    match operand
    case Exactly(value) => StartsWith(s, value)
    case TwoDigits(maxTens) => TwoDigitNumber(s, maxTens)
  }

  /** A match of `p` starts at the beginning of `s`. */
  predicate MatchesAt(p: Pattern, s: string) {
    match p
    case Comparison(name, ops, operand) =>
      (match AfterRelation(s, name, ops) case Some(rest) => OperandAt(operand, rest) case None => false)
    case Phrase(words) => StartsWith(s, words)
    case Gap(first, last) => StartsWith(s, first) && OnSameLine(s[|first|..], last)
    case OptionalChar(before, optional, after) =>
      StartsWith(s, before)
      && (StartsWith(s[|before|..], after)
          || (|s| > |before| && Fold(s[|before|]) == optional && StartsWith(s[|before| + 1..], after)))
    case Either(left, right) => MatchesAt(left, s) || MatchesAt(right, s)
  }

  /** The compiled form of `p`: the test "a match of `p` starts here". */
  function Matcher(p: Pattern): string -> bool {
    s => MatchesAt(p, s)
  }

  /** The scan `re.search` performs with a compiled pattern `m`: some
      position of `t`, the end of `t` included, starts a match. */
  predicate Search(m: string -> bool, t: string) {
    exists i :: 0 <= i <= |t| && m(t[i..])
  }

  /** `re.search(p, t, re.IGNORECASE)` succeeds. */
  predicate Occurs(p: Pattern, t: string) {
    Search(Matcher(p), t)
  }
}

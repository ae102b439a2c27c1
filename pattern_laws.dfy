/** What the matchers of `TextPatterns` mean, and the laws the scorer's
    properties rest on: the greedy matchers agree with the declarative
    reading of each regular expression, a search is "some position starts a
    match", matching ignores ASCII case, a match survives text added before
    it (and, with care about digits, after it), and two patterns can only
    occur where a given literal occurs. */
module PatternLaws {
  import opened TextPatterns

  // ---------------------------------------------------------------------------
  // Slices of concatenations
  // ---------------------------------------------------------------------------

  lemma DropAppend(s: string, b: string, n: int)
    requires 0 <= n <= |s|
    ensures (s + b)[n..] == s[n..] + b
  {
  }

  lemma DropPrefix(a: string, b: string, i: int)
    requires 0 <= i <= |b|
    ensures (a + b)[|a| + i..] == b[i..]
  {
  }

  lemma Assoc(a: string, b: string, c: string)
    ensures a + (b + c) == a + b + c
  {
  }

  lemma DropMiddle(a: string, m: string, b: string)
    ensures (a + m + b)[|a|..] == m + b
  {
  }

  // ---------------------------------------------------------------------------
  // Declarative reading of the regular expressions
  // ---------------------------------------------------------------------------

  /** The literal `w` begins `s`, position by position, ignoring ASCII case. */
  ghost predicate Literal(s: string, w: string) {
    |w| <= |s| && forall k :: 0 <= k < |w| ==> Fold(s[k]) == w[k]
  }

  /** Every character of `s[a..b]` is white space. */
  ghost predicate SpacesBetween(s: string, a: int, b: int) {
    0 <= a <= b <= |s| && forall k :: a <= k < b ==> IsSpace(s[k])
  }

  /** No character of `s[a..b]` is a newline. */
  ghost predicate NoNewlineBetween(s: string, a: int, b: int) {
    0 <= a <= b <= |s| && forall k :: a <= k < b ==> s[k] != '\n'
  }

  /** `s[..j]` is a match of `name\s*[ops]\s*`, for some way of splitting it. */
  ghost predicate Relation(s: string, name: char, ops: string, j: int) {
    exists i :: 1 <= i < j <= |s| && Fold(s[0]) == name && SpacesBetween(s, 1, i)
      && OneOf(Fold(s[i]), ops) && SpacesBetween(s, i + 1, j)
  }

  /** `operand` matches at position `j` of `s`. */
  ghost predicate RegexOperand(operand: Operand, s: string, j: int)
    requires 0 <= j <= |s|
  {
    match operand
    case Exactly(value) => Literal(s[j..], value)
    case TwoDigits(maxTens) =>
      j + 2 <= |s| && '1' <= s[j] <= maxTens && IsDigit(s[j + 1])
      && (j + 2 == |s| || !IsDigit(s[j + 2]))
  }

  /** A match of `p` starts at the beginning of `s`, read off the regular
      expression: each `\s*` may take any run of white space, each `.*` any
      run of characters other than a newline, `?` and `|` either choice. */
  ghost predicate RegexMatch(p: Pattern, s: string) {
    match p
    case Comparison(name, ops, operand) =>
      exists j :: 0 <= j <= |s| && Relation(s, name, ops, j) && RegexOperand(operand, s, j)
    case Phrase(words) => Literal(s, words)
    case Gap(first, last) =>
      Literal(s, first)
      && (exists m :: |first| <= m <= |s| && NoNewlineBetween(s, |first|, m) && Literal(s[m..], last))
    case OptionalChar(before, optional, after) =>
      Literal(s, before)
      && (Literal(s[|before|..], after) || Literal(s[|before|..], [optional] + after))
    case Either(left, right) => RegexMatch(left, s) || RegexMatch(right, s)
  }

  /** An operand the scorer uses starts with a digit, so the `\s*` before it
      cannot take any of it. */
  predicate OperandWellFormed(operand: Operand) {
    match operand
    case Exactly(value) => |value| > 0 && IsDigit(value[0])
    case TwoDigits(maxTens) => IsDigit(maxTens)
  }

  /** The patterns the scorer uses are of this form: a comparison's
      operators are not white space and its operand starts with a digit. */
  predicate WellFormed(p: Pattern) {
    match p
    case Comparison(_, ops, operand) =>
      (forall k :: 0 <= k < |ops| ==> !IsSpace(ops[k])) && OperandWellFormed(operand)
    case Either(left, right) => WellFormed(left) && WellFormed(right)
    case _ => true
  }

  // ---------------------------------------------------------------------------
  // Greedy matching agrees with the declarative reading
  // ---------------------------------------------------------------------------

  lemma {:induction false} StartsWithIsLiteral(s: string, w: string)
    ensures StartsWith(s, w) <==> Literal(s, w)
    decreases |w|
  {
    if |w| > 0 && |s| > 0 {
      StartsWithIsLiteral(s[1..], w[1..]);
      if Literal(s, w) {
        assert Literal(s[1..], w[1..]) by {
          forall k | 0 <= k < |w| - 1 ensures Fold(s[1..][k]) == w[1..][k] {
            assert Fold(s[k + 1]) == w[k + 1];
          }
        }
      }
      if StartsWith(s, w) {
        forall k | 0 <= k < |w| ensures Fold(s[k]) == w[k] {
          if k > 0 { assert Fold(s[1..][k - 1]) == w[1..][k - 1]; }
        }
      }
    }
  }

  /** A greedy `\s*` takes only white space. */
  lemma {:induction false} LeadingSpacesAreSpaces(s: string)
    ensures SpacesBetween(s, 0, LeadingSpaces(s))
    decreases |s|
  {
    if |s| > 0 && IsSpace(s[0]) {
      LeadingSpacesAreSpaces(s[1..]);
      forall k | 1 <= k < LeadingSpaces(s) ensures IsSpace(s[k]) { assert s[k] == s[1..][k - 1]; }
    }
  }

  /** The greedy run of white space is the only run followed by something else. */
  lemma LeadingSpacesUnique(s: string, n: nat)
    requires SpacesBetween(s, 0, n) && (n == |s| || !IsSpace(s[n]))
    ensures LeadingSpaces(s) == n
  {
    LeadingSpacesAreSpaces(s);
  }

  /** `s[1..]` and `s` describe the same characters, one position apart. */
  lemma SpacesAfterFirst(s: string, n: nat)
    requires 1 <= n <= |s|
    ensures SpacesBetween(s[1..], 0, n - 1) <==> SpacesBetween(s, 1, n)
  {
    if SpacesBetween(s[1..], 0, n - 1) {
      forall k | 1 <= k < n ensures IsSpace(s[k]) { assert s[k] == s[1..][k - 1]; }
    }
    if SpacesBetween(s, 1, n) {
      forall k | 0 <= k < n - 1 ensures IsSpace(s[1..][k]) { assert s[1..][k] == s[k + 1]; }
    }
  }

  /** A greedy `\s*` from position `a` of `s` stops at `a + LeadingSpaces(s[a..])`. */
  lemma SkipFrom(s: string, a: nat)
    requires a <= |s|
    ensures var n := LeadingSpaces(s[a..]);
      SpacesBetween(s, a, a + n) && (a + n == |s| || !IsSpace(s[a + n]))
      && s[a..][n..] == s[a + n..]
  {
    var n := LeadingSpaces(s[a..]);
    LeadingSpacesAreSpaces(s[a..]);
    forall k | a <= k < a + n ensures IsSpace(s[k]) { assert s[k] == s[a..][k - a]; }
    if a + n < |s| { assert s[a + n] == s[a..][n]; }
  }

  /** The only greedy `\s*` from position `a` that ends before a character
      other than white space ends at `b`. */
  lemma SkipFromUnique(s: string, a: nat, b: nat)
    requires SpacesBetween(s, a, b) && (b == |s| || !IsSpace(s[b]))
    ensures LeadingSpaces(s[a..]) == b - a && s[a..][b - a..] == s[b..]
  {
    forall k | 0 <= k < b - a ensures IsSpace(s[a..][k]) { assert s[a..][k] == s[a + k]; }
    if b < |s| { assert s[a..][b - a] == s[b]; }
    LeadingSpacesUnique(s[a..], b - a);
  }

  /** `AfterRelation` finds a match of `name\s*[ops]\s*`, the one whose last
      `\s*` runs up to the next character that is not white space; `j` is
      where that match ends. */
  lemma AfterRelationSplits(s: string, name: char, ops: string) returns (j: int)
    requires AfterRelation(s, name, ops).Some?
    ensures 0 <= j <= |s| && AfterRelation(s, name, ops).value == s[j..]
    ensures Relation(s, name, ops, j) && (j == |s| || !IsSpace(s[j]))
  {
    var i := OperatorAt(s, name, ops);
    j := SkipFromTo(s, i + 1);
    RelationAt(s, name, ops, i, j);
  }

  /** A greedy `\s*` from position `a` of `s` ends at the returned `b`. */
  lemma SkipFromTo(s: string, a: nat) returns (b: nat)
    requires a <= |s|
    ensures a <= b <= |s| && SpacesBetween(s, a, b) && (b == |s| || !IsSpace(s[b]))
    ensures SkipSpaces(s[a..]) == s[b..]
  {
    SkipFrom(s, a);
    b := a + LeadingSpaces(s[a..]);
  }

  /** The operator `AfterRelation` reads is at `i`, after a run of white space. */
  lemma OperatorAt(s: string, name: char, ops: string) returns (i: int)
    requires AfterRelation(s, name, ops).Some?
    ensures 1 <= i < |s| && Fold(s[0]) == name && SpacesBetween(s, 1, i) && OneOf(Fold(s[i]), ops)
    ensures AfterRelation(s, name, ops).value == SkipSpaces(s[i + 1..])
  {
    i := SkipFromTo(s, 1);
    DropDrop(s, i, 1);
  }

  /** Where the operator is at `i`, the relation that ends at `j` is witnessed. */
  lemma RelationAt(s: string, name: char, ops: string, i: int, j: int)
    requires 1 <= i < j <= |s| && Fold(s[0]) == name && SpacesBetween(s, 1, i)
    requires OneOf(Fold(s[i]), ops) && SpacesBetween(s, i + 1, j)
    ensures Relation(s, name, ops, j)
  {
  }

  /** A character of a class without white space is not white space. */
  lemma {:induction false} OneOfNotSpace(c: char, ops: string)
    requires forall k :: 0 <= k < |ops| ==> !IsSpace(ops[k])
    requires OneOf(c, ops)
    ensures !IsSpace(c)
    decreases |ops|
  {
    if ops[0] != c {
      assert forall k :: 0 <= k < |ops| - 1 ==> ops[1..][k] == ops[k + 1];
      OneOfNotSpace(c, ops[1..]);
    }
  }

  /** Conversely, a match of `name\s*[ops]\s*` that ends before a character
      other than white space is the one `AfterRelation` finds, provided no
      character of `ops` is white space. */
  lemma RelationIsAfterRelation(s: string, name: char, ops: string, j: int)
    requires forall k :: 0 <= k < |ops| ==> !IsSpace(ops[k])
    requires Relation(s, name, ops, j) && (j == |s| || !IsSpace(s[j]))
    ensures AfterRelation(s, name, ops) == Some(s[j..])
  {
    var i :| 1 <= i < j <= |s| && Fold(s[0]) == name && SpacesBetween(s, 1, i)
      && OneOf(Fold(s[i]), ops) && SpacesBetween(s, i + 1, j);
    OneOfNotSpace(Fold(s[i]), ops);
    SkipFromUnique(s, 1, i);
    SkipFromUnique(s, i + 1, j);
    assert s[i..][1..] == s[i + 1..];
  }

  /** `.*last` in its two readings. */
  lemma {:induction false} OnSameLineIsGap(s: string, last: string)
    ensures OnSameLine(s, last)
      <==> exists m :: 0 <= m <= |s| && NoNewlineBetween(s, 0, m) && Literal(s[m..], last)
    decreases |s|
  {
    StartsWithIsLiteral(s, last);
    assert s[0..] == s;
    assert NoNewlineBetween(s, 0, 0);
    if |s| > 0 {
      OnSameLineIsGap(s[1..], last);
      if OnSameLine(s, last) && !StartsWith(s, last) {
        var m :| 0 <= m <= |s| - 1 && NoNewlineBetween(s[1..], 0, m) && Literal(s[1..][m..], last);
        assert s[1..][m..] == s[m + 1..];
        forall k | 0 <= k < m + 1 ensures s[k] != '\n' {
          if k > 0 { assert s[k] == s[1..][k - 1]; }
        }
        assert NoNewlineBetween(s, 0, m + 1);
      }
      if exists m :: 0 <= m <= |s| && NoNewlineBetween(s, 0, m) && Literal(s[m..], last) {
        var m :| 0 <= m <= |s| && NoNewlineBetween(s, 0, m) && Literal(s[m..], last);
        if m > 0 {
          assert s[1..][m - 1..] == s[m..];
          forall k | 0 <= k < m - 1 ensures s[1..][k] != '\n' { assert s[1..][k] == s[k + 1]; }
          assert NoNewlineBetween(s[1..], 0, m - 1);
          assert OnSameLine(s[1..], last);
        }
      }
    }
  }

  /** A literal that begins with a digit cannot begin with white space. */
  lemma DigitLiteralStartsSolid(s: string, w: string)
    requires |w| > 0 && IsDigit(w[0]) && Literal(s, w)
    ensures !IsSpace(s[0])
  {
    assert Fold(s[0]) == w[0];
  }

  /** The greedy matchers find exactly the matches the regular expressions
      describe. */
  lemma MatchesAtIsRegexMatch(p: Pattern, s: string)
    requires WellFormed(p)
    ensures MatchesAt(p, s) <==> RegexMatch(p, s)
  {
    match p
    case Comparison(name, ops, operand) =>
      ComparisonCase(s, name, ops, operand);
    case Phrase(words) =>
      StartsWithIsLiteral(s, words);
    case Gap(first, last) =>
      GapCase(s, first, last);
    case OptionalChar(before, optional, after) =>
      OptionalCharCase(s, before, optional, after);
    case Either(left, right) =>
      MatchesAtIsRegexMatch(left, s);
      MatchesAtIsRegexMatch(right, s);
  }

  /** A gap of `m` characters read after the first `f` characters of `s`
      is the gap from `f` to `f + m` in `s`. */
  lemma GapShift(s: string, f: int, m: int, last: string)
    requires 0 <= f <= |s| && 0 <= m <= |s| - f
    ensures NoNewlineBetween(s[f..], 0, m) && Literal(s[f..][m..], last)
      <==> NoNewlineBetween(s, f, f + m) && Literal(s[f + m..], last)
  {
    assert s[f..][m..] == s[f + m..];
    if NoNewlineBetween(s[f..], 0, m) {
      forall k | f <= k < f + m ensures s[k] != '\n' { assert s[k] == s[f..][k - f]; }
    }
    if NoNewlineBetween(s, f, f + m) {
      forall k | 0 <= k < m ensures s[f..][k] != '\n' { assert s[f..][k] == s[f + k]; }
    }
  }

  /** `first.*last`: the gap is a run without newlines. */
  lemma GapCase(s: string, first: string, last: string)
    ensures MatchesAt(Gap(first, last), s) <==> RegexMatch(Gap(first, last), s)
  {
    StartsWithIsLiteral(s, first);
    if StartsWith(s, first) {
      var f := |first|;
      OnSameLineIsGap(s[f..], last);
      if OnSameLine(s[f..], last) {
        var m :| 0 <= m <= |s[f..]| && NoNewlineBetween(s[f..], 0, m) && Literal(s[f..][m..], last);
        GapShift(s, f, m, last);
      }
      if RegexMatch(Gap(first, last), s) {
        var m :| f <= m <= |s| && NoNewlineBetween(s, f, m) && Literal(s[m..], last);
        GapShift(s, f, m - f, last);
      }
    }
  }

  /** `c` followed by `w` begins `t` exactly when `t` begins with `c` and
      `w` begins the rest. */
  lemma LiteralCons(t: string, c: char, w: string)
    ensures Literal(t, [c] + w) <==> |t| > 0 && Fold(t[0]) == c && Literal(t[1..], w)
  {
    if Literal(t, [c] + w) {
      assert Fold(t[0]) == ([c] + w)[0];
      forall k | 0 <= k < |w| ensures Fold(t[1..][k]) == w[k] {
        assert Fold(t[k + 1]) == ([c] + w)[k + 1];
      }
    }
    if |t| > 0 && Fold(t[0]) == c && Literal(t[1..], w) {
      forall k | 0 <= k < |w| + 1 ensures Fold(t[k]) == ([c] + w)[k] {
        if k > 0 { assert Fold(t[1..][k - 1]) == w[k - 1]; }
      }
    }
  }

  /** `before optional? after`: the optional character is there or not. */
  lemma OptionalCharCase(s: string, before: string, optional: char, after: string)
    ensures MatchesAt(OptionalChar(before, optional, after), s)
      <==> RegexMatch(OptionalChar(before, optional, after), s)
  {
    StartsWithIsLiteral(s, before);
    if StartsWith(s, before) {
      var t := s[|before|..];
      StartsWithIsLiteral(t, after);
      LiteralCons(t, optional, after);
      if |t| > 0 {
        assert t[0] == s[|before|] && t[1..] == s[|before| + 1..];
        StartsWithIsLiteral(t[1..], after);
      }
    }
  }

  /** A match of an operand that starts with a digit does not start with
      white space. */
  lemma OperandStartsSolid(operand: Operand, s: string, j: int)
    requires OperandWellFormed(operand) && 0 <= j <= |s| && RegexOperand(operand, s, j)
    ensures j < |s| && !IsSpace(s[j])
  {
    match operand
    case Exactly(value) =>
      assert Fold(s[j..][0]) == value[0];
    case TwoDigits(_) =>
  }

  /** The operand matchers agree with the declarative reading. */
  lemma OperandCase(operand: Operand, s: string, j: int)
    requires 0 <= j <= |s|
    ensures OperandAt(operand, s[j..]) <==> RegexOperand(operand, s, j)
  {
    match operand
    case Exactly(value) =>
      StartsWithIsLiteral(s[j..], value);
    case TwoDigits(_) =>
      if j + 2 <= |s| {
        assert s[j..][0] == s[j] && s[j..][1] == s[j + 1];
        assert j + 2 < |s| ==> s[j..][2] == s[j + 2];
      }
  }

  /** `name\s*[ops]\s*operand` for an operand that begins with a digit. */
  lemma ComparisonCase(s: string, name: char, ops: string, operand: Operand)
    requires WellFormed(Comparison(name, ops, operand))
    ensures MatchesAt(Comparison(name, ops, operand), s) <==> RegexMatch(Comparison(name, ops, operand), s)
  {
    if MatchesAt(Comparison(name, ops, operand), s) {
      var j := AfterRelationSplits(s, name, ops);
      OperandCase(operand, s, j);
      assert Relation(s, name, ops, j) && RegexOperand(operand, s, j);
    }
    if RegexMatch(Comparison(name, ops, operand), s) {
      var j :| 0 <= j <= |s| && Relation(s, name, ops, j) && RegexOperand(operand, s, j);
      OperandStartsSolid(operand, s, j);
      RelationIsAfterRelation(s, name, ops, j);
      OperandCase(operand, s, j);
    }
  }

  // ---------------------------------------------------------------------------
  // Searching
  // ---------------------------------------------------------------------------

  /** Searching depends on the text only. */
  lemma OccursSame(p: Pattern, x: string, y: string)
    requires x == y && Occurs(p, x)
    ensures Occurs(p, y)
  {
  }

  /** Searching is unanchored: a match is still found when text is put in
      front of it. */
  lemma OccursAfterPrefix(p: Pattern, a: string, b: string)
    requires Occurs(p, b)
    ensures Occurs(p, a + b)
  {
    var i :| 0 <= i <= |b| && MatchesAt(p, b[i..]);
    DropPrefix(a, b, i);
  }

  // ---------------------------------------------------------------------------
  // Text appended after a match
  // ---------------------------------------------------------------------------

  lemma {:induction false} StartsWithAppend(s: string, w: string, b: string)
    requires StartsWith(s, w)
    ensures StartsWith(s + b, w)
    decreases |w|
  {
    if |w| > 0 {
      StartsWithAppend(s[1..], w[1..], b);
      DropAppend(s, b, 1);
    }
  }

  /** A greedy `\s*` that stops inside `s` is not affected by what follows `s`. */
  lemma {:induction false} LeadingSpacesAppend(s: string, b: string)
    requires LeadingSpaces(s) < |s|
    ensures LeadingSpaces(s + b) == LeadingSpaces(s)
    decreases |s|
  {
    assert (s + b)[0] == s[0];
    if IsSpace(s[0]) {
      DropAppend(s, b, 1);
      LeadingSpacesAppend(s[1..], b);
    }
  }

  lemma SkipSpacesAppend(s: string, b: string)
    requires LeadingSpaces(s) < |s|
    ensures SkipSpaces(s + b) == SkipSpaces(s) + b
  {
    LeadingSpacesAppend(s, b);
    DropAppend(s, b, LeadingSpaces(s));
  }

  lemma AfterRelationAppend(s: string, b: string, name: char, ops: string)
    requires AfterRelation(s, name, ops).Some? && AfterRelation(s, name, ops).value != []
    ensures AfterRelation(s + b, name, ops) == Some(AfterRelation(s, name, ops).value + b)
  {
    DropAppend(s, b, 1);
    var u := SkipSpaces(s[1..]);
    SkipSpacesAppend(s[1..], b);
    DropAppend(u, b, 1);
    SkipSpacesAppend(u[1..], b);
  }

  lemma {:induction false} OnSameLineAppend(s: string, last: string, b: string)
    requires OnSameLine(s, last)
    ensures OnSameLine(s + b, last)
    decreases |s|
  {
    if StartsWith(s, last) {
      StartsWithAppend(s, last, b);
    } else {
      OnSameLineAppend(s[1..], last, b);
      DropAppend(s, b, 1);
    }
  }

  lemma OperandAppend(operand: Operand, s: string, b: string)
    requires OperandAt(operand, s) && (b == [] || !IsDigit(b[0]))
    ensures OperandAt(operand, s + b)
  {
    match operand
    case Exactly(value) =>
      StartsWithAppend(s, value, b);
    case TwoDigits(_) =>
      assert (s + b)[0] == s[0] && (s + b)[1] == s[1];
      assert |s| > 2 ==> (s + b)[2] == s[2];
      assert |s| == 2 && b != [] ==> (s + b)[2] == b[0];
  }

  /** A match at the start of `s` is still a match when text is appended,
      unless the text begins with a digit (which the look-ahead `(?![0-9])`
      of a sample-size pattern may forbid). */
  lemma MatchesAtAppend(p: Pattern, s: string, b: string)
    requires WellFormed(p) && MatchesAt(p, s)
    requires b == [] || !IsDigit(b[0])
    ensures MatchesAt(p, s + b)
  {
    match p
    case Comparison(name, ops, operand) =>
      var rest := AfterRelation(s, name, ops).value;
      assert rest != [] by {
        match operand
        case Exactly(value) =>
        case TwoDigits(_) =>
      }
      AfterRelationAppend(s, b, name, ops);
      OperandAppend(operand, rest, b);
    case Phrase(words) =>
      StartsWithAppend(s, words, b);
    case Gap(first, last) =>
      StartsWithAppend(s, first, b);
      OnSameLineAppend(s[|first|..], last, b);
      DropAppend(s, b, |first|);
    case OptionalChar(before, optional, after) =>
      var f := |before|;
      StartsWithAppend(s, before, b);
      DropAppend(s, b, f);
      if StartsWith(s[f..], after) {
        StartsWithAppend(s[f..], after, b);
      } else {
        assert (s + b)[f] == s[f];
        DropAppend(s, b, f + 1);
        StartsWithAppend(s[f + 1..], after, b);
      }
    case Either(left, right) =>
      if MatchesAt(left, s) {
        MatchesAtAppend(left, s, b);
      } else {
        MatchesAtAppend(right, s, b);
      }
  }

  /** A match is still found when text is appended, unless the text begins
      with a digit. */
  lemma OccursBeforeSuffix(p: Pattern, s: string, b: string)
    requires WellFormed(p) && Occurs(p, s)
    requires b == [] || !IsDigit(b[0])
    ensures Occurs(p, s + b)
  {
    var i :| 0 <= i <= |s| && MatchesAt(p, s[i..]);
    MatchesAtAppend(p, s[i..], b);
    DropAppend(s, b, i);
  }

  /** A comparison with a literal operand requires nothing after the
      operand, so its match survives any appended text, a digit included. */
  lemma LiteralOperandAppend(name: char, ops: string, value: string, s: string, b: string)
    requires |value| > 0 && MatchesAt(Comparison(name, ops, Exactly(value)), s)
    ensures MatchesAt(Comparison(name, ops, Exactly(value)), s + b)
  {
    var rest := AfterRelation(s, name, ops).value;
    AfterRelationAppend(s, b, name, ops);
    StartsWithAppend(rest, value, b);
  }

  lemma OccursBeforeAnySuffix(name: char, ops: string, value: string, s: string, b: string)
    requires |value| > 0 && Occurs(Comparison(name, ops, Exactly(value)), s)
    ensures Occurs(Comparison(name, ops, Exactly(value)), s + b)
  {
    var i :| 0 <= i <= |s| && Matcher(Comparison(name, ops, Exactly(value)))(s[i..]);
    LiteralOperandAppend(name, ops, value, s[i..], b);
    DropAppend(s, b, i);
  }

  /** The text `a + m + b` contains a match when `m` begins with one and `b`
      does not begin with a digit. */
  lemma OccursInside(p: Pattern, a: string, m: string, b: string)
    requires WellFormed(p) && MatchesAt(p, m)
    requires b == [] || !IsDigit(b[0])
    ensures Occurs(p, a + m + b)
  {
    MatchesAtAppend(p, m, b);
    DropMiddle(a, m, b);
  }

  // ---------------------------------------------------------------------------
  // Case does not matter
  // ---------------------------------------------------------------------------

  lemma LowerDrop(s: string, n: int)
    requires 0 <= n <= |s|
    ensures Lower(s)[n..] == Lower(s[n..])
  {
  }

  /** Folding does not change which characters are white space, digits or
      newlines. */
  lemma FoldKeepsClasses(c: char)
    ensures IsSpace(Fold(c)) == IsSpace(c) && IsDigit(Fold(c)) == IsDigit(c)
    ensures (Fold(c) == '\n') == (c == '\n') && Fold(Fold(c)) == Fold(c)
  {
  }

  lemma {:induction false} StartsWithLower(s: string, w: string)
    ensures StartsWith(Lower(s), w) == StartsWith(s, w)
    decreases |w|
  {
    if |w| > 0 && |s| > 0 {
      LowerDrop(s, 1);
      FoldKeepsClasses(s[0]);
      StartsWithLower(s[1..], w[1..]);
    }
  }

  lemma {:induction false} LeadingSpacesLower(s: string)
    ensures LeadingSpaces(Lower(s)) == LeadingSpaces(s)
    decreases |s|
  {
    if |s| > 0 {
      LowerDrop(s, 1);
      FoldKeepsClasses(s[0]);
      LeadingSpacesLower(s[1..]);
    }
  }

  lemma SkipSpacesLower(s: string)
    ensures SkipSpaces(Lower(s)) == Lower(SkipSpaces(s))
  {
    LeadingSpacesLower(s);
    LowerDrop(s, LeadingSpaces(s));
  }

  lemma AfterRelationLower(s: string, name: char, ops: string)
    ensures AfterRelation(Lower(s), name, ops).Some? == AfterRelation(s, name, ops).Some?
    ensures AfterRelation(s, name, ops).Some?
      ==> AfterRelation(Lower(s), name, ops).value == Lower(AfterRelation(s, name, ops).value)
  {
    if |s| > 0 {
      FoldKeepsClasses(s[0]);
      LowerDrop(s, 1);
      SkipSpacesLower(s[1..]);
      var u := SkipSpaces(s[1..]);
      if |u| > 0 {
        FoldKeepsClasses(u[0]);
        LowerDrop(u, 1);
        SkipSpacesLower(u[1..]);
      }
    }
  }

  lemma OperandLower(operand: Operand, s: string)
    requires OperandWellFormed(operand)
    ensures OperandAt(operand, Lower(s)) == OperandAt(operand, s)
  {
    match operand
    case Exactly(value) =>
      StartsWithLower(s, value);
    case TwoDigits(_) =>
      if |s| >= 2 {
        FoldKeepsClasses(s[0]);
        FoldKeepsClasses(s[1]);
        if |s| > 2 { FoldKeepsClasses(s[2]); }
      }
  }

  lemma {:induction false} OnSameLineLower(s: string, last: string)
    ensures OnSameLine(Lower(s), last) == OnSameLine(s, last)
    decreases |s|
  {
    StartsWithLower(s, last);
    if |s| > 0 {
      FoldKeepsClasses(s[0]);
      LowerDrop(s, 1);
      OnSameLineLower(s[1..], last);
    }
  }

  /** Matching ignores ASCII case: a text matches exactly when its lower-case
      form does. */
  lemma MatchesAtLower(p: Pattern, s: string)
    requires WellFormed(p)
    ensures MatchesAt(p, Lower(s)) == MatchesAt(p, s)
  {
    match p
    case Comparison(name, ops, operand) =>
      AfterRelationLower(s, name, ops);
      if AfterRelation(s, name, ops).Some? {
        OperandLower(operand, AfterRelation(s, name, ops).value);
      }
    case Phrase(words) =>
      StartsWithLower(s, words);
    case Gap(first, last) =>
      StartsWithLower(s, first);
      if |first| <= |s| {
        LowerDrop(s, |first|);
        OnSameLineLower(s[|first|..], last);
      }
    case OptionalChar(before, optional, after) =>
      var f := |before|;
      StartsWithLower(s, before);
      if f <= |s| {
        LowerDrop(s, f);
        StartsWithLower(s[f..], after);
        if f < |s| {
          FoldKeepsClasses(s[f]);
          LowerDrop(s, f + 1);
          StartsWithLower(s[f + 1..], after);
        }
      }
    case Either(left, right) =>
      MatchesAtLower(left, s);
      MatchesAtLower(right, s);
  }

  /** A search ignores ASCII case. */
  lemma OccursLower(p: Pattern, t: string)
    requires WellFormed(p)
    ensures Occurs(p, Lower(t)) == Occurs(p, t)
  {
    if Occurs(p, t) {
      var i :| 0 <= i <= |t| && MatchesAt(p, t[i..]);
      MatchesAtLower(p, t[i..]);
      LowerDrop(t, i);
    }
    if Occurs(p, Lower(t)) {
      var i :| 0 <= i <= |t| && MatchesAt(p, Lower(t)[i..]);
      LowerDrop(t, i);
      MatchesAtLower(p, t[i..]);
    }
  }

  // ---------------------------------------------------------------------------
  // Literals a match needs
  // ---------------------------------------------------------------------------

  /** A comparison with a literal operand occurs only where the operand does. */
  lemma ComparisonNeedsOperand(name: char, ops: string, value: string, t: string)
    requires Occurs(Comparison(name, ops, Exactly(value)), t)
    ensures Occurs(Phrase(value), t)
  {
    var i :| 0 <= i <= |t| && MatchesAt(Comparison(name, ops, Exactly(value)), t[i..]);
    var j := AfterRelationSplits(t[i..], name, ops);
    DropDrop(t, i, j);
  }

  lemma DropDrop(t: string, i: int, j: int)
    requires 0 <= i <= |t| && 0 <= j <= |t| - i
    ensures t[i..][j..] == t[i + j..]
  {
  }

  /** `first.*last` occurs only where `first` does. */
  lemma GapNeedsFirst(first: string, last: string, t: string)
    requires Occurs(Gap(first, last), t)
    ensures Occurs(Phrase(first), t)
  {
    var i :| 0 <= i <= |t| && MatchesAt(Gap(first, last), t[i..]);
    assert MatchesAt(Phrase(first), t[i..]);
  }

  /** Some character of `t` folds to `c`. */
  ghost predicate HasFolded(t: string, c: char) {
    exists k :: 0 <= k < |t| && Fold(t[k]) == c
  }

  /** Some character of `m` folds to a character of `w`. */
  ghost predicate Shares(m: string, w: string) {
    exists l :: 0 <= l < |w| && HasFolded(m, w[l])
  }

  /** A text in which a phrase occurs has every character of the phrase. */
  lemma PhraseNeedsEveryChar(w: string, t: string)
    ensures Occurs(Phrase(w), t) ==> forall l :: 0 <= l < |w| ==> HasFolded(t, w[l])
  {
    if Occurs(Phrase(w), t) {
      var i :| 0 <= i <= |t| && MatchesAt(Phrase(w), t[i..]);
      StartsWithIsLiteral(t[i..], w);
      forall l | 0 <= l < |w| ensures HasFolded(t, w[l]) {
        assert t[i..][l] == t[i + l];
      }
    }
  }

  /** A phrase read at position `i` of `x + y` that ends within `x` is found in `x`. */
  lemma PhraseInFront(w: string, x: string, y: string, i: int)
    requires 0 <= i && i + |w| <= |x| && Literal((x + y)[i..], w)
    ensures Occurs(Phrase(w), x)
  {
    forall k | 0 <= k < |w| ensures Fold(x[i..][k]) == w[k] {
      assert x[i..][k] == (x + y)[i..][k];
    }
    StartsWithIsLiteral(x[i..], w);
    assert Matcher(Phrase(w))(x[i..]);
  }

  /** A phrase read at position `i` of `x + y` that starts within `y` is found in `y`. */
  lemma PhraseInBack(w: string, x: string, y: string, i: int)
    requires |x| <= i <= |x| + |y| && Literal((x + y)[i..], w)
    ensures Occurs(Phrase(w), y)
  {
    DropPrefix(x, y, i - |x|);
    StartsWithIsLiteral(y[i - |x|..], w);
    assert Matcher(Phrase(w))(y[i - |x|..]);
  }

  /** A phrase read at position `i` of `a + m + b` that overlaps `m` shares a
      character with `m`. */
  lemma PhraseOverMiddle(w: string, a: string, m: string, b: string, i: int)
    requires |w| > 0 && |m| > 0
    requires 0 <= i < |a| + |m| && |a| < i + |w| && Literal((a + m + b)[i..], w)
    ensures Shares(m, w)
  {
    var t := a + m + b;
    var q := if i < |a| then |a| else i;
    assert Fold(t[i..][q - i]) == w[q - i];
    assert t[i..][q - i] == m[q - |a|];
    assert HasFolded(m, w[q - i]);
  }

  /** A phrase found in `a + m + b` lies within `a` or within `b`, unless it
      overlaps `m`, and then they share a character. */
  lemma PhraseAcross(w: string, a: string, m: string, b: string)
    requires |m| > 0
    ensures Occurs(Phrase(w), a + m + b)
      ==> Occurs(Phrase(w), a) || Occurs(Phrase(w), b) || Shares(m, w)
  {
    var t := a + m + b;
    if Occurs(Phrase(w), t) {
      var i :| 0 <= i <= |t| && MatchesAt(Phrase(w), t[i..]);
      StartsWithIsLiteral(t[i..], w);
      if i + |w| <= |a| {
        Assoc(a, m, b);
        PhraseInFront(w, a, m + b, i);
      } else if i >= |a| + |m| {
        PhraseInBack(w, a + m, b, i);
      } else if |w| == 0 {
        Assoc(a, m, b);
        PhraseInFront(w, a, m + b, 0);
      } else {
        PhraseOverMiddle(w, a, m, b, i);
      }
    }
  }

  /** A text that lacks one character of a phrase does not contain it. */
  lemma PhraseMissingChar(w: string, t: string, l: int)
    requires 0 <= l < |w| && !HasFolded(t, w[l])
    ensures !Occurs(Phrase(w), t)
  {
    PhraseNeedsEveryChar(w, t);
  }

  // ---------------------------------------------------------------------------
  // The empty text
  // ---------------------------------------------------------------------------

  /** Every match of `p` takes at least one character. */
  predicate NeedsText(p: Pattern) {
    match p
    case Comparison(_, _, _) => true
    case Phrase(words) => |words| > 0
    case Gap(first, _) => |first| > 0
    case OptionalChar(before, _, _) => |before| > 0
    case Either(left, right) => NeedsText(left) && NeedsText(right)
  }

  lemma {:induction false} NoMatchInEmpty(p: Pattern)
    requires NeedsText(p)
    ensures !MatchesAt(p, "")
  {
    if p.Either? {
      NoMatchInEmpty(p.left);
      NoMatchInEmpty(p.right);
    }
  }

  /** A pattern that needs text occurs nowhere in the empty text. */
  lemma NotInEmpty(p: Pattern)
    requires NeedsText(p)
    ensures !Occurs(p, "")
  {
    NoMatchInEmpty(p);
    assert ""[0..] == "";
  }
}

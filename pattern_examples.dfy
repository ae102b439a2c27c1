/** Concrete texts that pin down what the scorer's regular expressions
    accept: the two sample-size thresholds, the absence of word boundaries,
    the optional `s`, white space and case around a comparison, and `.*`
    stopping at a newline. */
module PatternExamples {
  import opened TextPatterns
  import opened PatternLaws
  import opened FraudDetector
  import opened DetectorLaws

  /** "n=55" is small for the cross-modal rigor check ... */
  lemma FiftyFiveIsRigorSample()
    ensures Occurs(RigorSample, "n=55")
  {
    var t := "n=55";
    assert SpacesBetween(t, 1, 1) && OneOf(Fold(t[1]), "=") && SpacesBetween(t, 2, 2);
    assert Relation(t, 'n', "=", 2);
    assert RegexOperand(TwoDigits('5'), t, 2);
    ComparisonsWellFormed();
    MatchesAtIsRegexMatch(RigorSample, t);
    assert MatchesAt(RigorSample, t[0..]);
  }

  /** ... but not for the small-sample indicator. */
  lemma FiftyFiveIsNotSmallSample()
    ensures !Occurs(SmallSample, "n=55")
  {
    var t := "n=55";
    forall i | 0 <= i <= |t| ensures !MatchesAt(SmallSample, t[i..]) {
    }
  }

  /** A three-digit sample size is small for neither check. */
  lemma FourFifty()
    ensures !Occurs(RigorSample, "n=450") && !Occurs(SmallSample, "n=450")
  {
    var t := "n=450";
    ThreeDigitsAtStart(t);
    forall i | 1 <= i <= |t| ensures !MatchesAt(RigorSample, t[i..]) && !MatchesAt(SmallSample, t[i..]) {
      if i < |t| {
        assert t[i..][0] == t[i] && Fold(t[i]) != 'n';
      }
    }
  }

  lemma ThreeDigitsAtStart(t: string)
    requires t == "n=450"
    ensures !MatchesAt(RigorSample, t[0..]) && !MatchesAt(SmallSample, t[0..])
  {
    assert SkipSpaces(t[1..]) == t[1..];
    assert SkipSpaces(t[2..]) == t[2..];
    assert AfterRelation(t[0..], 'n', "=") == Some(t[2..]);
    assert IsDigit(t[2..][2]);
  }

  /** There is no word boundary before the `n`: "an=12" has a small sample. */
  lemma NoWordBoundary()
    ensures Occurs(SmallSample, "an=12")
  {
    var t := "an=12";
    var u := t[1..];
    assert SpacesBetween(u, 1, 1) && OneOf(Fold(u[1]), "=") && SpacesBetween(u, 2, 2);
    assert Relation(u, 'n', "=", 2);
    assert RegexOperand(TwoDigits('4'), u, 2);
    ComparisonsWellFormed();
    MatchesAtIsRegexMatch(SmallSample, u);
  }

  /** "r=0.87" is the suspicious correlation ... */
  lemma ExactCorrelationValue()
    ensures Occurs(ExactCorrelation, "r=0.87")
  {
    var t := "r=0.87";
    assert SpacesBetween(t, 1, 1) && OneOf(Fold(t[1]), "=") && SpacesBetween(t, 2, 2);
    assert Relation(t, 'r', "=", 2);
    assert Literal(t[2..], "0.87");
    ComparisonsWellFormed();
    MatchesAtIsRegexMatch(ExactCorrelation, t);
    assert MatchesAt(ExactCorrelation, t[0..]);
  }

  /** ... and so is "r=0.875": nothing is required after the literal
      operand, not even a non-digit. */
  lemma OpenEndedOperand()
    ensures Occurs(ExactCorrelation, "r=0.875")
  {
    ExactCorrelationValue();
    OccursBeforeAnySuffix('r', "=", "0.87", "r=0.87", "5");
    assert "r=0.87" + "5" == "r=0.875";
  }

  /** White space around the operator and upper case are accepted. */
  lemma SpacedUpperCase()
    ensures Occurs(ConvenientP, "P < 0.05")
  {
    var t := "P < 0.05";
    SpacedUpperCaseReading(t);
    ComparisonsWellFormed();
    MatchesAtIsRegexMatch(ConvenientP, t);
    assert MatchesAt(ConvenientP, t[0..]);
  }

  lemma SpacedUpperCaseReading(t: string)
    requires t == "P < 0.05"
    ensures RegexMatch(ConvenientP, t)
  {
    assert SpacesBetween(t, 1, 2) && OneOf(Fold(t[2]), "<>=") && SpacesBetween(t, 3, 4);
    assert Relation(t, 'p', "<>=", 4);
    assert Literal(t[4..], "0.05");
  }

  /** `proves? that` accepts the verb without its `s` ... */
  lemma OptionalSAbsent()
    ensures Occurs(ProvesThat, "prove that")
  {
    var t := "prove that";
    assert Literal(t, "prove") && Literal(t[5..], " that");
    MatchesAtIsRegexMatch(ProvesThat, t);
    assert MatchesAt(ProvesThat, t[0..]);
  }

  /** ... and with it. */
  lemma OptionalSPresent()
    ensures Occurs(ProvesThat, "proves that")
  {
    var t := "proves that";
    assert Literal(t, "prove") && Literal(t[5..], "s that");
    assert ['s'] + " that" == "s that";
    MatchesAtIsRegexMatch(ProvesThat, t);
    assert MatchesAt(ProvesThat, t[0..]);
  }

  /** `.*` runs along a line ... */
  lemma GapWithinLine()
    ensures Occurs(Gap("no", "effect"), "no effect")
  {
    var t := "no effect";
    assert MatchesAt(Gap("no", "effect"), t[0..]);
  }

  /** ... and does not cross a line break. */
  lemma GapStopsAtNewline()
    ensures !Occurs(Gap("no", "effect"), "no\neffect")
  {
    var u := "no\neffect";
    NewlineAfterFirst(u);
    forall i | 1 <= i <= |u| ensures !MatchesAt(Gap("no", "effect"), u[i..]) {
      if i < |u| {
        assert u[i..][0] == u[i] && Fold(u[i]) != 'n';
      }
    }
  }

  lemma NewlineAfterFirst(u: string)
    requires u == "no\neffect"
    ensures !MatchesAt(Gap("no", "effect"), u[0..])
  {
    assert u[0..][2..][0] == '\n';
    assert !StartsWith(u[0..][2..], "effect");
  }
}

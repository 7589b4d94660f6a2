/** The slug rule shared by the election and candidate forms
    (src/components/modals/CreateElection.tsx and src/components/modals/EditCandidate.tsx):
    empty, then the pattern `^[A-Za-z0-9]+(?:-[A-Za-z0-9]+)*$`, then a length of 3 to 24. */
module Slug {
  import opened Basics
  import opened Text

  const EmptySlugMessage := "Please enter an election slug"
  const PatternMessage := "Election slug must be alphanumeric and can contain dashes"
  const LengthMessage := "Election slug must be between 3 and 24 characters"

  /** The pattern's matcher after its first character: `afterDash` holds right after a `-`,
      where only an alphanumeric character may follow and the input may not end. */
  predicate MatchesFrom(s: string, afterDash: bool)
    decreases |s|
  {
    if s == [] then !afterDash
    else if IsAlnum(s[0]) then MatchesFrom(s[1..], false)
    else if s[0] == '-' && !afterDash then MatchesFrom(s[1..], true)
    else false
  }

  /** `/^[A-Za-z0-9]+(?:-[A-Za-z0-9]+)*$/.test(s)` */
  predicate MatchesPattern(s: string) {
    s != [] && IsAlnum(s[0]) && MatchesFrom(s[1..], false)
  }

  /** Alphanumeric runs joined by single dashes: only alphanumerics and `-`, no `-` at either
      end, and never two `-` in a row. */
  predicate WellFormed(s: string) {
    s != [] &&
    (forall i :: 0 <= i < |s| ==> IsAlnum(s[i]) || s[i] == '-') &&
    IsAlnum(s[0]) && IsAlnum(s[|s| - 1]) &&
    (forall i :: 0 <= i < |s| - 1 && s[i] == '-' ==> s[i + 1] != '-')
  }

  /** What the matcher accepts from a given state, said without the state machine. */
  lemma {:induction false} MatchesFromIff(s: string, afterDash: bool)
    ensures MatchesFrom(s, afterDash) <==>
      (forall i :: 0 <= i < |s| ==> IsAlnum(s[i]) || s[i] == '-') &&
      (s == [] ==> !afterDash) &&
      (s != [] ==> IsAlnum(s[|s| - 1]) && (afterDash ==> s[0] != '-')) &&
      (forall i :: 0 <= i < |s| - 1 && s[i] == '-' ==> s[i + 1] != '-')
    decreases |s|
  {
    if s != [] {
      var rest := s[1..];
      MatchesFromIff(rest, s[0] == '-');
      assert forall i :: 1 <= i < |s| ==> s[i] == rest[i - 1];
      if |s| == 1 {
        assert s[|s| - 1] == s[0];
      }
    }
  }

  /** The pattern accepts exactly the well-formed slugs. */
  lemma MatchesPatternIff(s: string)
    ensures MatchesPattern(s) <==> WellFormed(s)
  {
    if s != [] {
      var rest := s[1..];
      MatchesFromIff(rest, false);
      assert forall i :: 1 <= i < |s| ==> s[i] == rest[i - 1];
    }
  }

  /** The slug validator: the first failing check's message, or none. */
  function SlugError(value: string): Option<string> {
    if value == [] then Some(EmptySlugMessage)
    else if !MatchesPattern(value) then Some(PatternMessage)
    else if |value| < 3 || |value| > 24 then Some(LengthMessage)
    else None
  }

  /** A slug is accepted exactly when it is well formed and 3 to 24 characters long; an
      accepted slug neither starts nor ends with `-` and never holds `--`. */
  lemma SlugAccepted(value: string)
    ensures SlugError(value) == None <==> WellFormed(value) && 3 <= |value| <= 24
    ensures SlugError(value) == None ==>
      value[0] != '-' && value[|value| - 1] != '-' &&
      forall i :: 0 <= i < |value| - 1 ==> !(value[i] == '-' && value[i + 1] == '-')
  {
    MatchesPatternIff(value);
  }

  /** The checks run in order: the pattern message wins over the length message. */
  lemma SlugErrorOrder(value: string)
    ensures value != [] && !WellFormed(value) ==> SlugError(value) == Some(PatternMessage)
    ensures WellFormed(value) && (|value| < 3 || |value| > 24) ==> SlugError(value) == Some(LengthMessage)
  {
    MatchesPatternIff(value);
  }

  /** Worked examples: `a-` is too short but fails the pattern first; `ab` is well formed but
      too short; `ssc-2023` is accepted. */
  lemma SlugErrorExamples()
    ensures SlugError("") == Some(EmptySlugMessage)
    ensures SlugError("a-") == Some(PatternMessage)
    ensures SlugError("ab") == Some(LengthMessage)
    ensures SlugError("ssc-2023") == None
  {
    assert !MatchesPattern("a-") by {
      assert "a-"[1..] == "-";
      assert "-"[1..] == "";
    }
    assert MatchesPattern("ab") by {
      assert "ab"[1..] == "b";
    }
    MatchesPatternIff("ssc-2023");
  }
}

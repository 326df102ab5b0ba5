/**
 * The two identifier patterns of dist/modules/manifest.js: the component id
 * pattern for frontend slots and template components (lines 6-7) and the
 * provider id pattern for auth providers and payment methods (lines 8-9).
 * Both are stated as character conditions; the component id pattern is also
 * read as the state machine of its regular expression, and the two readings
 * are proved equal.
 */
module ManifestIds {
  predicate IsLowerAlnum(c: char) {
    ('a' <= c <= 'z') || ('0' <= c <= '9')
  }

  predicate IsSeparator(c: char) {
    c == '.' || c == '-'
  }

  predicate IsComponentChar(c: char) {
    IsLowerAlnum(c) || IsSeparator(c)
  }

  /** Positions `i` and `i + 1` both hold a separator. */
  predicate DoubleSeparatorAt(s: string, i: int)
    requires 0 <= i < |s| - 1
  {
    IsSeparator(s[i]) && IsSeparator(s[i + 1])
  }

  /** No two separators in a row. */
  predicate NoDoubleSeparator(s: string) {
    forall i :: 0 <= i < |s| - 1 ==> !DoubleSeparatorAt(s, i)
  }

  /** `^[a-z0-9]+(?:[.-][a-z0-9]+)+$`: lower-case alphanumeric runs joined by
      single dots or dashes, with at least one separator. */
  predicate ComponentIdPattern(s: string) {
    && |s| > 0
    && (forall i :: 0 <= i < |s| ==> IsComponentChar(s[i]))
    && IsLowerAlnum(s[0])
    && IsLowerAlnum(s[|s| - 1])
    && NoDoubleSeparator(s)
    && (exists i :: 0 <= i < |s| && IsSeparator(s[i]))
  }

  /** Two separators in a row rule the component id pattern out. */
  lemma DoubleSeparatorRejected(s: string, k: int)
    requires 0 <= k < |s| - 1 && DoubleSeparatorAt(s, k)
    ensures !ComponentIdPattern(s)
  {
  }

  predicate IsProviderChar(c: char) {
    IsLowerAlnum(c) || c == '.' || c == '_' || c == '-'
  }

  /** `^[a-z0-9](?:[a-z0-9._-]{0,62}[a-z0-9])?$`: one to 64 characters from
      `[a-z0-9._-]`, starting and ending alphanumeric. */
  predicate ProviderIdPattern(s: string) {
    && 1 <= |s| <= 64
    && IsLowerAlnum(s[0])
    && IsLowerAlnum(s[|s| - 1])
    && forall i :: 0 <= i < |s| ==> IsProviderChar(s[i])
  }

  // ---------------------------------------------------------------------------
  // The component id pattern as a state machine
  // ---------------------------------------------------------------------------

  /** Where the regular expression stands after a prefix of the input. */
  datatype PatternState =
    | ExpectFirst    // nothing read yet
    | InFirstRun     // inside the leading `[a-z0-9]+`
    | ExpectRun      // just read a separator
    | InLaterRun     // inside a `[a-z0-9]+` after a separator: accepting
    | Rejected

  function Step(st: PatternState, c: char): PatternState {
    match st
    case ExpectFirst => if IsLowerAlnum(c) then InFirstRun else Rejected
    case InFirstRun => if IsLowerAlnum(c) then InFirstRun else if IsSeparator(c) then ExpectRun else Rejected
    case ExpectRun => if IsLowerAlnum(c) then InLaterRun else Rejected
    case InLaterRun => if IsLowerAlnum(c) then InLaterRun else if IsSeparator(c) then ExpectRun else Rejected
    case Rejected => Rejected
  }

  /** The state after reading all of `s`. */
  function Run(s: string): PatternState
    decreases |s|
  {
    if |s| == 0 then ExpectFirst else Step(Run(s[..|s| - 1]), s[|s| - 1])
  }

  predicate MachineAccepts(s: string) {
    Run(s) == InLaterRun
  }

  /** No prefix of `s` has gone wrong yet. */
  predicate GoodSoFar(s: string) {
    && (forall i :: 0 <= i < |s| ==> IsComponentChar(s[i]))
    && (|s| > 0 ==> IsLowerAlnum(s[0]))
    && NoDoubleSeparator(s)
  }

  predicate HasSeparator(s: string) {
    exists i :: 0 <= i < |s| && IsSeparator(s[i])
  }

  /** The state the machine should be in, read off the prefix directly. */
  function Expected(s: string): PatternState {
    if !GoodSoFar(s) then Rejected
    else if |s| == 0 then ExpectFirst
    else if IsSeparator(s[|s| - 1]) then ExpectRun
    else if HasSeparator(s) then InLaterRun
    else InFirstRun
  }

  lemma GoodSoFarSnoc(s: string)
    requires |s| > 0
    ensures var p := s[..|s| - 1]; var c := s[|s| - 1];
            GoodSoFar(s) <==>
              && GoodSoFar(p)
              && IsComponentChar(c)
              && (|p| == 0 ==> IsLowerAlnum(c))
              && (|p| > 0 ==> !(IsSeparator(p[|p| - 1]) && IsSeparator(c)))
  {
    var p := s[..|s| - 1];
    assert forall i :: 0 <= i < |p| ==> p[i] == s[i];
    assert forall i :: 0 <= i < |p| - 1 ==> DoubleSeparatorAt(p, i) == DoubleSeparatorAt(s, i);
    if |p| > 0 {
      assert DoubleSeparatorAt(s, |p| - 1) == (IsSeparator(p[|p| - 1]) && IsSeparator(s[|s| - 1]));
    }
  }

  lemma HasSeparatorSnoc(s: string)
    requires |s| > 0
    ensures HasSeparator(s) <==> HasSeparator(s[..|s| - 1]) || IsSeparator(s[|s| - 1])
  {
    var p := s[..|s| - 1];
    if HasSeparator(s) && !IsSeparator(s[|s| - 1]) {
      var i :| 0 <= i < |s| && IsSeparator(s[i]);
      assert p[i] == s[i];
    }
    if HasSeparator(p) {
      var i :| 0 <= i < |p| && IsSeparator(p[i]);
      assert s[i] == p[i];
    }
  }

  /** The machine tracks the expected state on every prefix. */
  lemma {:induction false} RunIsExpected(s: string)
    ensures Run(s) == Expected(s)
    decreases |s|
  {
    if |s| > 0 {
      RunIsExpected(s[..|s| - 1]);
      GoodSoFarSnoc(s);
      HasSeparatorSnoc(s);
    }
  }

  /** The two readings of the component id pattern agree on every string. */
  lemma ComponentIdPatternIsMachine(s: string)
    ensures ComponentIdPattern(s) <==> MachineAccepts(s)
  {
    RunIsExpected(s);
  }

  /** Every component id carries a dot or a dash between two alphanumeric runs,
      so no single run such as `footer` is accepted. */
  lemma SingleRunRejected(s: string)
    requires |s| > 0 && forall i :: 0 <= i < |s| ==> IsLowerAlnum(s[i])
    ensures !ComponentIdPattern(s)
  {
    assert forall i :: 0 <= i < |s| ==> !IsSeparator(s[i]);
  }
}

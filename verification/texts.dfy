/**
 The rules texts are held to: actor identifiers, the reason of a rejection and of an assessment,
 and what SQLite's length checks measure.  Reading a row back applies stricter rules than
 storing it does.
 */
module Texts {
  import opened Prelude

  const MAX_ACTOR := 64
  const MAX_REASON := 500

  predicate Alphanumeric(c: char) {
    'a' <= c <= 'z' || 'A' <= c <= 'Z' || '0' <= c <= '9'
  }

  /** One to 64 characters: a letter or digit, then letters, digits, dots, underscores and hyphens. */
  predicate ValidActor(s: string) {
    && 1 <= |s| <= MAX_ACTOR
    && Alphanumeric(s[0])
    && forall i | 0 <= i < |s| :: Alphanumeric(s[i]) || s[i] == '.' || s[i] == '_' || s[i] == '-'
  }

  /** What the services supply: an authenticated identity or a configured one. */
  type Actor = s: string | ValidActor(s) witness "SYSTEM"

  /** SQLite's `length`: the characters before the first NUL. */
  function SqlLength(s: string): nat {
    if s == "" || s[0] as int == 0 then 0 else 1 + SqlLength(s[1..])
  }

  predicate StorableActor(s: string) {
    1 <= SqlLength(s) <= MAX_ACTOR
  }

  predicate StorableReason(s: string) {
    1 <= SqlLength(s) <= MAX_REASON
  }

  lemma {:induction false} LengthWithoutNul(s: string)
    requires forall i | 0 <= i < |s| :: s[i] as int != 0
    ensures SqlLength(s) == |s|
    decreases |s|
  {
    if s != "" {
      LengthWithoutNul(s[1..]);
    }
  }

  lemma ValidActorStorable(s: string)
    requires ValidActor(s)
    ensures StorableActor(s)
  {
    LengthWithoutNul(s);
  }

  // ---------------------------------------------------------------- reasons

  /** Unicode category Cc. */
  predicate Control(c: char) {
    c as int < 32 || 127 <= c as int <= 159
  }

  /** The characters `strip` removes. */
  predicate Space(c: char) {
    var n := c as int;
    || 9 <= n <= 13 || 28 <= n <= 32 || n == 0x85 || n == 0xA0 || n == 0x1680 || 0x2000 <= n <= 0x200A
    || n == 0x2028 || n == 0x2029 || n == 0x202F || n == 0x205F || n == 0x3000
  }

  function StripLeft(s: string): string {
    if s != "" && Space(s[0]) then StripLeft(s[1..]) else s
  }

  function StripRight(s: string): string {
    if s != "" && Space(s[|s| - 1]) then StripRight(s[..|s| - 1]) else s
  }

  function Strip(s: string): string {
    StripRight(StripLeft(s))
  }

  /** The reason validator; `unsafe` is the pattern of prohibited content. */
  function Sanitized(unsafe: string -> bool, s: string): Option<string> {
    var stripped := Strip(s);
    if stripped == "" || (exists i | 0 <= i < |s| :: Control(s[i])) || unsafe(stripped) then None else Some(stripped)
  }

  /** What the model of an approval, and of a rejection request, accepts as a reason. */
  predicate ReadableReason(unsafe: string -> bool, s: string) {
    1 <= |s| <= MAX_REASON && Sanitized(unsafe, s).Some?
  }

  /** A rejection request: the reason the service passes on, or nothing. */
  function RequestedReason(unsafe: string -> bool, s: string): Option<string> {
    if ReadableReason(unsafe, s) then Sanitized(unsafe, s) else None
  }

  /** A reason that can be read back could be stored. */
  lemma ReadableStorable(unsafe: string -> bool, s: string)
    requires ReadableReason(unsafe, s)
    ensures StorableReason(s)
  {
    forall i | 0 <= i < |s| ensures s[i] as int != 0 {
      assert !Control(s[i]);
    }
    LengthWithoutNul(s);
  }

  ghost predicate Blank(s: string) {
    forall i | 0 <= i < |s| :: Space(s[i])
  }

  lemma {:induction false} StripLeftShape(s: string)
    ensures var r := StripLeft(s);
            && |r| <= |s| && r == s[|s| - |r|..] && Blank(s[..|s| - |r|])
            && (r == "" || !Space(r[0]))
    decreases |s|
  {
    if s != "" && Space(s[0]) {
      StripLeftShape(s[1..]);
      var n := |s| - |StripLeft(s)|;
      assert s[..n] == [s[0]] + s[1..][..n - 1];
    }
  }

  lemma {:induction false} StripRightShape(s: string)
    ensures var r := StripRight(s);
            && |r| <= |s| && r == s[..|r|] && Blank(s[|r|..])
            && (r == "" || !Space(r[|r| - 1]))
    decreases |s|
  {
    if s != "" && Space(s[|s| - 1]) {
      var front := s[..|s| - 1];
      StripRightShape(front);
      assert s[|StripRight(s)|..] == front[|StripRight(s)|..] + [s[|s| - 1]];
    }
  }

  /** Stripping leaves a piece of the text, and stripping again changes nothing. */
  lemma StripSettles(s: string)
    ensures |Strip(s)| <= |s| && (forall c | c in Strip(s) :: c in s) && Strip(Strip(s)) == Strip(s)
  {
    var left := StripLeft(s);
    var r := StripRight(left);
    StripLeftShape(s);
    StripRightShape(left);
    if r != "" {
      assert r[0] == left[0];
    }
    assert StripLeft(r) == r;
    forall c | c in r ensures c in s {
    }
  }

  /** Stripping takes blanks, and all blanks, from both ends, and nothing else. */
  lemma StripExactly(s: string)
    ensures exists left, right | left + Strip(s) + right == s :: Blank(left) && Blank(right)
    ensures Strip(s) != "" ==> !Space(Strip(s)[0]) && !Space(Strip(s)[|Strip(s)| - 1])
    ensures Strip(s) == "" <==> Blank(s)
  {
    var tail := StripLeft(s);
    var r := StripRight(tail);
    StripLeftShape(s);
    StripRightShape(tail);
    var left, right := s[..|s| - |tail|], tail[|r|..];
    assert left + Strip(s) + right == s && Blank(left) && Blank(right);
    if r == "" {
      assert tail == right && s == left + tail;
    } else {
      assert r[0] == tail[0] == s[|s| - |tail|];
    }
  }

  /** Which reasons the model accepts: 1 to 500 characters, no control character, not blank, not prohibited. */
  lemma ReadableExactly(unsafe: string -> bool, s: string)
    ensures ReadableReason(unsafe, s) <==>
            && 1 <= |s| <= 500 && !Blank(s) && !unsafe(Strip(s))
            && forall i | 0 <= i < |s| :: s[i] as int >= 32 && !(127 <= s[i] as int <= 159)
    ensures RequestedReason(unsafe, s) == if ReadableReason(unsafe, s) then Some(Strip(s)) else None
  {
    StripExactly(s);
    hide Strip, Space;
  }

  /** Every reason the service passes on can be stored, and read back as it was passed. */
  lemma RequestedReasonReadable(unsafe: string -> bool, s: string)
    requires RequestedReason(unsafe, s).Some?
    ensures var r := RequestedReason(unsafe, s).value;
            ReadableReason(unsafe, r) && StorableReason(r) && Sanitized(unsafe, r) == Some(r)
  {
    var r := Strip(s);
    StripSettles(s);
    forall i | 0 <= i < |r| ensures !Control(r[i]) {
      assert r[i] in s;
    }
    ReadableStorable(unsafe, r);
  }

  /** One way a stored reason cannot be read back: a reason of blanks. */
  lemma BlankReasonIsStuck(unsafe: string -> bool)
    ensures StorableReason("  ") && !ReadableReason(unsafe, "  ")
  {
    LengthWithoutNul("  ");
    assert StripLeft("  "[1..]) == StripLeft("");
    assert Strip("  ") == "";
  }

  // ---------------------------------------------------------------- assessments

  /** The shape of the reason in a reconciliation request; its pattern of prohibited content refuses more. */
  predicate AssessmentReason(s: string) {
    && 1 <= |s| <= MAX_REASON
    && Alphanumeric(s[0])
    && forall i | 0 <= i < |s| :: Alphanumeric(s[i]) || s[i] in " .,;:'()_-"
  }

  /** What the model of an assessment accepts. */
  predicate ReadableAssessmentReason(s: string) {
    1 <= |s| <= MAX_REASON
  }

  lemma AssessmentReasonStorable(s: string)
    requires AssessmentReason(s)
    ensures StorableReason(s) && ReadableAssessmentReason(s)
  {
    assert 0 as char !in " .,;:'()_-";
    LengthWithoutNul(s);
  }
}

/** The anchored regular expression `^[C]{lo,hi}$` over one character class `C`,
    as Go's `regexp.MatchString` decides it. */
module IdPattern {

  /** How many leading characters of `s` the repetition `[cls]{..hi}` consumes:
      class characters, one at a time, never more than `hi`. */
  function RunLength(s: string, cls: char -> bool, hi: nat): (n: nat)
    ensures n <= hi && n <= |s|
    ensures forall i :: 0 <= i < n ==> cls(s[i])
    ensures n < |s| && n < hi ==> !cls(s[n])
  {
    if s == [] || hi == 0 || !cls(s[0]) then 0 else 1 + RunLength(s[1..], cls, hi - 1)
  }

  /** The match succeeds when at least `lo` characters were consumed and the end
      of the input (`$`) follows them. */
  predicate RepeatMatch(s: string, cls: char -> bool, lo: nat, hi: nat) {
    var n := RunLength(s, cls, hi);
    lo <= n && n == |s|
  }

  /** The language of `^[cls]{lo,hi}$`: between `lo` and `hi` characters, all in the class. */
  lemma RepeatMatchIff(s: string, cls: char -> bool, lo: nat, hi: nat)
    ensures RepeatMatch(s, cls, lo, hi) <==> lo <= |s| <= hi && forall i :: 0 <= i < |s| ==> cls(s[i])
  {
  }
}

/** `ValidateInputObjectID` of internal/validator/objectid.go. The same regular
    expression and message appear as `validateInputObjectID` in
    pkg/restfulhandler/validator-objectid.go and in internal/restfulhandler/rest.go. */
module AlnumIdValidator {
  import opened Base
  import IdPattern

  const InvalidIdMsg := "id is not valid"

  /** The class `[a-zA-Z0-9]`. */
  predicate IsAlnum(c: char) {
    ('a' <= c <= 'z') || ('A' <= c <= 'Z') || ('0' <= c <= '9')
  }

  /** `^[a-zA-Z0-9]{1,32}$`: nil error exactly for 1 to 32 ASCII letters and digits;
      every rejection carries "id is not valid". */
  function ValidateInputObjectID(id: string): (r: Option<Error>)
    ensures r == None <==> 1 <= |id| <= 32 && forall i :: 0 <= i < |id| ==> IsAlnum(id[i])
    ensures r != None ==> r == Some(Plain(InvalidIdMsg))
  {
    IdPattern.RepeatMatchIff(id, IsAlnum, 1, 32);
    if IdPattern.RepeatMatch(id, IsAlnum, 1, 32) then None else Some(Plain(InvalidIdMsg))
  }

  /** A character outside `[a-zA-Z0-9]` anywhere in the ID, or a length outside 1..32,
      is rejected. */
  lemma RejectsForeign(id: string, k: nat)
    requires |id| == 0 || |id| > 32 || (k < |id| && !IsAlnum(id[k]))
    ensures ValidateInputObjectID(id) == Some(Plain(InvalidIdMsg))
  {
  }
}

/** `ValidateObjectID` of validator.go: the upper-case-only generation. */
module UpperIdValidator {
  import opened Base
  import IdPattern
  import AlnumIdValidator

  const InvalidIdMsg := "id is not valid"

  /** The class `[A-Z0-9]`. */
  predicate IsUpperOrDigit(c: char) {
    ('A' <= c <= 'Z') || ('0' <= c <= '9')
  }

  /** `^[A-Z0-9]{1,32}$`: nil error exactly for 1 to 32 upper-case ASCII letters and
      digits; every rejection carries "id is not valid". */
  function ValidateObjectID(id: string): (r: Option<Error>)
    ensures r == None <==> 1 <= |id| <= 32 && forall i :: 0 <= i < |id| ==> IsUpperOrDigit(id[i])
    ensures r != None ==> r == Some(Plain(InvalidIdMsg))
  {
    IdPattern.RepeatMatchIff(id, IsUpperOrDigit, 1, 32);
    if IdPattern.RepeatMatch(id, IsUpperOrDigit, 1, 32) then None else Some(Plain(InvalidIdMsg))
  }

  /** A lower-case letter anywhere makes the ID invalid here, although the other
      generations accept it. */
  lemma RejectsLowercase(id: string, k: nat)
    requires k < |id| && 'a' <= id[k] <= 'z'
    ensures ValidateObjectID(id) == Some(Plain(InvalidIdMsg))
  {
  }

  /** Every ID this generation accepts the alphanumeric generation accepts too;
      "foo" shows the converse fails. */
  lemma StricterThanAlnum(id: string)
    ensures ValidateObjectID(id) == None ==> AlnumIdValidator.ValidateInputObjectID(id) == None
    ensures ValidateObjectID("foo") != None && AlnumIdValidator.ValidateInputObjectID("foo") == None
  {
    assert "foo"[0] == 'f';
  }
}

/**
 * Input checks of the teacher form (src/lib/validation.ts): the name, an
 * hours value, an optional grade and an optional class number. Each check
 * reports the first rule the input breaks; the message texts are
 * represented by the rule.
 */
module Validation {
  import opened Types
  import Simulator

  datatype Rule =
    | NameMissing | NameTooShort | NameTooLong
    | NotANumber | NotWhole | Negative | OverForty
    | GradeOutOfRange | ClassOutOfRange

  datatype Verdict = Valid | Invalid(rule: Rule)

  /**
   * A number as the checks see it: NaN, a whole number, or anything else
   * (a fraction or an infinity), which no integer test accepts.
   */
  datatype Number = NaN | Whole(value: int) | NonWhole

  /** The characters String.prototype.trim removes: white space and line terminators. */
  predicate IsSpace(c: char)
  {
    || c == '\U{9}' || c == '\U{A}' || c == '\U{B}' || c == '\U{C}' || c == '\U{D}' || c == '\U{20}'
    || c == '\U{A0}' || c == '\U{1680}' || ('\U{2000}' <= c <= '\U{200A}')
    || c == '\U{2028}' || c == '\U{2029}' || c == '\U{202F}' || c == '\U{205F}' || c == '\U{3000}'
    || c == '\U{FEFF}'
  }

  /** The text without its leading white space. */
  function TrimStart(s: string): (r: string)
    ensures |r| <= |s| && r == s[|s| - |r|..]
    ensures forall k :: 0 <= k < |s| - |r| ==> IsSpace(s[k])
    ensures r == [] || !IsSpace(r[0])
  {
    if s == [] || !IsSpace(s[0]) then s
    else
      var r := TrimStart(s[1..]);
      assert forall k :: 1 <= k < |s| ==> s[k] == s[1..][k - 1];
      r
  }

  /** The text without its trailing white space. */
  function TrimEnd(s: string): (r: string)
    ensures |r| <= |s| && r == s[..|r|]
    ensures forall k :: |r| <= k < |s| ==> IsSpace(s[k])
    ensures r == [] || !IsSpace(r[|r| - 1])
  {
    if s == [] || !IsSpace(s[|s| - 1]) then s
    else
      var r := TrimEnd(s[..|s| - 1]);
      assert forall k :: 0 <= k < |s| - 1 ==> s[k] == s[..|s| - 1][k];
      r
  }

  /** String.prototype.trim */
  function Trim(s: string): (r: string)
    ensures |r| <= |s|
    ensures r == [] || (!IsSpace(r[0]) && !IsSpace(r[|r| - 1]))
  {
    TrimEnd(TrimStart(s))
  }

  lemma {:induction false} TrimStartClean(s: string)
    requires s == [] || !IsSpace(s[0])
    ensures TrimStart(s) == s
  {
  }

  lemma {:induction false} TrimEndClean(s: string)
    requires s == [] || !IsSpace(s[|s| - 1])
    ensures TrimEnd(s) == s
  {
  }

  /** Trimming a trimmed text changes nothing. */
  lemma TrimIdempotent(s: string)
    ensures Trim(Trim(s)) == Trim(s)
  {
    var t := Trim(s);
    TrimStartClean(t);
    TrimEndClean(t);
  }

  /** validateTeacherName: empty after trimming, shorter than 2, longer than 20, in that order. */
  function ValidateTeacherName(name: string): (r: Verdict)
    ensures r == Valid <==> 2 <= |Trim(name)| <= 20
    ensures r == Invalid(NameMissing) <==> Trim(name) == []
    ensures r == Invalid(NameTooShort) <==> |Trim(name)| == 1
    ensures r == Invalid(NameTooLong) <==> |Trim(name)| > 20
  {
    var trimmed := Trim(name);
    if trimmed == [] then Invalid(NameMissing)
    else if |trimmed| < 2 then Invalid(NameTooShort)
    else if |trimmed| > 20 then Invalid(NameTooLong)
    else Valid
  }

  /** Surrounding white space never changes the verdict on a name. */
  lemma NameVerdictIgnoresPadding(name: string)
    ensures ValidateTeacherName(Trim(name)) == ValidateTeacherName(name)
  {
    TrimIdempotent(name);
  }

  /** validateHoursValue: a whole number from 0 to 40. */
  function ValidateHoursValue(value: Number): (r: Verdict)
    ensures r == Valid <==> value.Whole? && 0 <= value.value <= 40
    ensures value.NaN? ==> r == Invalid(NotANumber)
    ensures value.NonWhole? ==> r == Invalid(NotWhole)
    ensures value.Whole? && value.value < 0 ==> r == Invalid(Negative)
    ensures value.Whole? && value.value > 40 ==> r == Invalid(OverForty)
  {
    match value
    case NaN => Invalid(NotANumber)
    case NonWhole => Invalid(NotWhole)
    case Whole(v) =>
      if v < 0 then Invalid(Negative)
      else if v > 40 then Invalid(OverForty)
      else Valid
  }

  /** An optional whole number in [lo, hi]; absence is accepted. */
  function OptionalInRange(value: Option<Number>, lo: int, hi: int, rule: Rule): (r: Verdict)
    ensures r == Valid <==> value.None? || (value.value.Whole? && lo <= value.value.value <= hi)
    ensures r != Valid ==> r == Invalid(rule)
  {
    if value.None? then Valid
    else match value.value
      case Whole(v) => if v < lo || v > hi then Invalid(rule) else Valid
      case _ => Invalid(rule)
  }

  /** validateGrade: absent, or a whole number from 1 to 6. */
  function ValidateGrade(grade: Option<Number>): (r: Verdict)
    ensures r == Valid <==> grade.None? || (grade.value.Whole? && 1 <= grade.value.value <= 6)
    ensures r != Valid ==> r == Invalid(GradeOutOfRange)
  {
    OptionalInRange(grade, 1, 6, GradeOutOfRange)
  }

  /** validateClassNumber: absent, or a whole number from 1 to 20. */
  function ValidateClassNumber(classNumber: Option<Number>): (r: Verdict)
    ensures r == Valid <==> classNumber.None? || (classNumber.value.Whole? && 1 <= classNumber.value.value <= 20)
    ensures r != Valid ==> r == Invalid(ClassOutOfRange)
  {
    OptionalInRange(classNumber, 1, 20, ClassOutOfRange)
  }

  /**
   * The form's hours check and the simulator's clamp with its default bounds
   * agree: the clamp keeps exactly the whole numbers the check accepts, and
   * whatever it returns the check accepts.
   */
  lemma HoursCheckMatchesClamp(value: Number)
    ensures ValidateHoursValue(value) == Valid <==>
              value.Whole? && Simulator.ClampHours(value.value, Simulator.DefaultMin, Simulator.DefaultMax) == value.value
    ensures value.Whole? ==>
              ValidateHoursValue(Whole(Simulator.ClampHours(value.value, Simulator.DefaultMin, Simulator.DefaultMax))) == Valid
  {
  }
}

/**
 * Display labels of a teacher (src/lib/teacherUtils.ts): the role label
 * ("담임 3-2", "전담 영어, 체육"), the full label "name - role" and the
 * label of the role tag alone.
 */
module TeacherUtils {
  import opened Types

  const HomeroomWord := "담임"
  const SpecialistWord := "전담"

  /** The decimal digits of a natural number, most significant first, as `${n}` writes them. */
  function NatToString(n: nat): (r: string)
    ensures |r| >= 1
    ensures forall i :: 0 <= i < |r| ==> '0' <= r[i] <= '9'
    ensures n >= 10 ==> r[0] != '0'
    decreases n
  {
    var digit := ['0' + (n % 10) as char];
    if n < 10 then digit else NatToString(n / 10) + digit
  }

  /** `${n}` for a whole number: a minus sign before the digits of a negative one. */
  function IntToString(n: int): string
  {
    if n < 0 then "-" + NatToString(-n) else NatToString(n)
  }

  /** The value of a string of decimal digits. */
  function DigitsValue(s: string): int
  {
    if s == [] then 0 else 10 * DigitsValue(s[..|s| - 1]) + (s[|s| - 1] as int - '0' as int)
  }

  /** The digits read back as the number they were written from. */
  lemma {:induction false} NatToStringValue(n: nat)
    ensures DigitsValue(NatToString(n)) == n
    decreases n
  {
    var r := NatToString(n);
    if n >= 10 {
      NatToStringValue(n / 10);
      assert r[..|r| - 1] == NatToString(n / 10);
    }
  }

  /** The value of a written whole number: an optional minus sign, then digits. */
  function IntValue(s: string): int
  {
    if |s| > 0 && s[0] == '-' then -DigitsValue(s[1..]) else DigitsValue(s)
  }

  /** `${n}` reads back as n. */
  lemma IntToStringValue(n: int)
    ensures IntValue(IntToString(n)) == n
  {
    if n < 0 {
      var s := IntToString(n);
      assert s[1..] == NatToString(-n);
      NatToStringValue(-n);
    } else {
      assert '0' <= NatToString(n)[0];
      NatToStringValue(n);
    }
  }

  /** Distinct numbers are written differently. */
  lemma IntToStringInjective(a: int, b: int)
    requires IntToString(a) == IntToString(b)
    ensures a == b
  {
    IntToStringValue(a);
    IntToStringValue(b);
  }

  /** `items.join(sep)` */
  function Join(items: seq<string>, sep: string): (r: string)
    ensures items == [] ==> r == []
    ensures |items| == 1 ==> r == items[0]
  {
    if items == [] then []
    else if |items| == 1 then items[0]
    else Join(items[..|items| - 1], sep) + sep + items[|items| - 1]
  }

  /** The length of a join: every item plus one separator between each neighbouring pair. */
  lemma {:induction false} JoinLength(items: seq<string>, sep: string)
    requires items != []
    ensures |Join(items, sep)| == TotalLength(items) + (|items| - 1) * |sep|
  {
    if |items| > 1 {
      var init := items[..|items| - 1];
      JoinLength(init, sep);
      assert TotalLength(items) == TotalLength(init) + |items[|items| - 1]|;
    }
  }

  function TotalLength(items: seq<string>): nat
  {
    if items == [] then 0 else TotalLength(items[..|items| - 1]) + |items[|items| - 1]|
  }

  /** A number is truthy when present and non-zero. */
  predicate Truthy(v: Option<int>)
  {
    v.Some? && v.value != 0
  }

  /** "g-c": grade and class number joined by a dash. */
  function ClassText(g: int, c: int): string
  {
    IntToString(g) + "-" + IntToString(c)
  }

  /**
   * getTeacherRoleLabel: a homeroom teacher with a (truthy) grade and class
   * is "담임 g-c", otherwise "담임"; any other teacher is "전담" followed by
   * the subjects when there are any.
   */
  function RoleLabel(t: Teacher): (r: string)
    ensures t.kind == Homeroom && Truthy(t.grade) && Truthy(t.classNumber) ==>
              r == HomeroomWord + " " + ClassText(t.grade.value, t.classNumber.value)
    ensures t.kind == Homeroom && !(Truthy(t.grade) && Truthy(t.classNumber)) ==> r == HomeroomWord
    ensures t.kind != Homeroom && t.subjects.Some? && t.subjects.value != [] ==>
              r == SpecialistWord + " " + Join(t.subjects.value, ", ")
    ensures t.kind != Homeroom && (t.subjects.None? || t.subjects.value == []) ==> r == SpecialistWord
  {
    if t.kind == Homeroom then
      if Truthy(t.grade) && Truthy(t.classNumber) then
        HomeroomWord + " " + ClassText(t.grade.value, t.classNumber.value)
      else HomeroomWord
    else if t.subjects.Some? && |t.subjects.value| > 0 then
      SpecialistWord + " " + Join(t.subjects.value, ", ")
    else SpecialistWord
  }

  /** getTeacherFullLabel: the name, a spaced dash, then the role label. */
  function FullLabel(t: Teacher): (r: string)
    ensures |r| == |t.name| + 3 + |RoleLabel(t)|
    ensures r[..|t.name| + 3] == t.name + " - "
    ensures r[|t.name| + 3..] == RoleLabel(t)
  {
    t.name + " - " + RoleLabel(t)
  }

  /** For teachers of one name, the full labels agree exactly when the role labels agree. */
  lemma FullLabelSameName(a: Teacher, b: Teacher)
    requires a.name == b.name
    ensures FullLabel(a) == FullLabel(b) <==> RoleLabel(a) == RoleLabel(b)
  {
    if FullLabel(a) == FullLabel(b) {
      assert FullLabel(a)[|a.name| + 3..] == FullLabel(b)[|b.name| + 3..];
    }
  }

  /** getTeacherTypeLabel: "담임" for a homeroom teacher, "전담" for any other tag. */
  function TypeLabel(kind: TeacherType): (r: string)
    ensures kind == Homeroom <==> r == HomeroomWord
    ensures kind != Homeroom <==> r == SpecialistWord
  {
    if kind == Homeroom then HomeroomWord else SpecialistWord
  }

  /** Every role label begins with the label of the teacher's tag. */
  lemma RoleLabelStartsWithType(t: Teacher)
    ensures |TypeLabel(t.kind)| <= |RoleLabel(t)|
    ensures RoleLabel(t)[..|TypeLabel(t.kind)|] == TypeLabel(t.kind)
  {
  }

  /** Two homeroom labels with grade and class agree exactly when grade and class agree. */
  lemma HomeroomLabelDeterminesClass(a: Teacher, b: Teacher)
    requires a.kind == Homeroom && Truthy(a.grade) && Truthy(a.classNumber)
    requires b.kind == Homeroom && Truthy(b.grade) && Truthy(b.classNumber)
    requires 0 < a.grade.value && 0 < b.grade.value
    ensures RoleLabel(a) == RoleLabel(b) <==> a.grade == b.grade && a.classNumber == b.classNumber
  {
    if RoleLabel(a) == RoleLabel(b) {
      var ga, gb := NatToString(a.grade.value), NatToString(b.grade.value);
      var ca, cb := IntToString(a.classNumber.value), IntToString(b.classNumber.value);
      ClassPart(a.grade.value, a.classNumber.value);
      ClassPart(b.grade.value, b.classNumber.value);
      SplitAtDash(ga, ca, gb, cb);
      NatToStringValue(a.grade.value);
      NatToStringValue(b.grade.value);
      IntToStringInjective(a.classNumber.value, b.classNumber.value);
    }
  }

  /** After the word and its space, a homeroom label holds "g-c". */
  lemma ClassPart(g: int, c: int)
    ensures var l := HomeroomWord + " " + ClassText(g, c);
            |l| >= 3 && l[3..] == ClassText(g, c)
  {
    assert |HomeroomWord + " "| == 3;
  }

  /** A digit string followed by a dash splits back into the digits and the rest. */
  lemma SplitAtDash(x: string, y: string, x2: string, y2: string)
    requires forall i :: 0 <= i < |x| ==> '0' <= x[i] <= '9'
    requires forall i :: 0 <= i < |x2| ==> '0' <= x2[i] <= '9'
    requires x + "-" + y == x2 + "-" + y2
    ensures x == x2 && y == y2
  {
    var s := x + "-" + y;
    var s2 := x2 + "-" + y2;
    assert forall i :: 0 <= i < |x| ==> s[i] == x[i];
    assert forall i :: 0 <= i < |x2| ==> s2[i] == x2[i];
    assert s[|x|] == '-' && s2[|x2|] == '-';
    assert !(|x| < |x2|);
    assert !(|x2| < |x|);
    assert x == s[..|x|] && x2 == s2[..|x2|];
    assert y == s[|x| + 1..] && y2 == s2[|x2| + 1..];
  }
}

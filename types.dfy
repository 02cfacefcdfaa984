/**
 * The records shared by the scheduler and the stores: the timetable slot,
 * the teacher and the sheet-backed school tables.
 */
module Types {

  datatype Option<+T> = None | Some(value: T)

  /** The five school days, in the order the week is laid out. */
  datatype Day = Mon | Tue | Wed | Thu | Fri

  const Days: seq<Day> := [Mon, Tue, Wed, Thu, Fri]

  function DayIndex(d: Day): (i: nat)
    ensures i < |Days| && Days[i] == d
  {
    match d
    case Mon => 0
    case Tue => 1
    case Wed => 2
    case Thu => 3
    case Fri => 4
  }

  /** One scheduled lesson. `teacherName` is a display cache of the teacher's name. */
  datatype Slot = Slot(
    id: string,
    day: Day,
    period: int,
    grade: int,
    classNumber: int,
    teacherId: string,
    teacherName: string,
    subject: string,
    room: Option<string>,
    note: Option<string>)

  /**
   * The role tag. The declared type admits only the first two; a sheet row
   * is cast to it unchecked, so any other text survives as Unrecognised.
   */
  datatype TeacherType = Homeroom | Specialist | Unrecognised(raw: string)

  function TypeName(k: TeacherType): string
  {
    match k
    case Homeroom => "homeroom"
    case Specialist => "specialist"
    case Unrecognised(raw) => raw
  }

  function ParseType(s: string): (k: TeacherType)
    ensures TypeName(k) == s
  {
    if s == "homeroom" then Homeroom
    else if s == "specialist" then Specialist
    else Unrecognised(s)
  }

  /** A tag that reads back as itself: an Unrecognised tag never spells a known role. */
  predicate WellFormedType(k: TeacherType)
  {
    k.Unrecognised? ==> k.raw != "homeroom" && k.raw != "specialist"
  }

  lemma ParseTypeName(k: TeacherType)
    requires WellFormedType(k)
    ensures ParseType(TypeName(k)) == k
  {
  }

  /**
   * A teacher. `grades` is read by the scheduler although the declared
   * record only has `grade`; it is optional here.
   */
  datatype Teacher = Teacher(
    id: string,
    name: string,
    kind: TeacherType,
    grade: Option<int>,
    classNumber: Option<int>,
    subjects: Option<seq<string>>,
    grades: Option<seq<int>>,
    createdAt: int,
    updatedAt: int)

  /** Weekly hours by kind of work. */
  datatype HoursInput = HoursInput(
    basicTeaching: int,
    adminWork: int,
    training: int,
    consulting: int,
    other: int)

  const NoHours := HoursInput(0, 0, 0, 0, 0)

  /** A teacher's hour assignment. */
  datatype Assignment = Assignment(
    teacherId: string,
    hours: HoursInput,
    notes: Option<string>,
    lastModified: int)

  /**
   * School settings: base hours (기본시수), master-teacher reduction rate in
   * percent (수석감면율), tolerance (시수편차허용), homeroom standard
   * (담임기준시수), specialist standard (전담기준시수).
   */
  datatype SheetSettings = SheetSettings(
    baseHours: int,
    masterReductionRate: int,
    tolerance: int,
    homeroomStandard: int,
    specialistStandard: int)

  /** A table with one number for each grade 1..6. */
  datatype PerGrade = PerGrade(g1: int, g2: int, g3: int, g4: int, g5: int, g6: int)
  {
    /** The entry of grade g; a grade outside 1..6 has none. */
    function At(g: int): (r: Option<int>)
      ensures r.Some? <==> 1 <= g <= 6
    {
      if g == 1 then Some(g1)
      else if g == 2 then Some(g2)
      else if g == 3 then Some(g3)
      else if g == 4 then Some(g4)
      else if g == 5 then Some(g5)
      else if g == 6 then Some(g6)
      else None
    }
  }

  /** The value of the numeric expression `v || d`: d when v is absent or 0. */
  function NumberOr(v: Option<int>, d: int): (r: int)
    ensures v.Some? && v.value != 0 ==> r == v.value
    ensures (v.None? || v.value == 0) ==> r == d
  {
    if v.Some? && v.value != 0 then v.value else d
  }

  datatype SubjectInfo = SubjectInfo(
    id: string,
    name: string,
    hoursByGrade: PerGrade,
    defaultRoom: Option<string>,
    note: Option<string>)

  datatype SchoolSheetInfo = SchoolSheetInfo(
    schoolName: string,
    year: int,
    classesByGrade: PerGrade)

  datatype PeriodInfo = PeriodInfo(period: int, startTime: string, endTime: string)

  datatype RoomInfo = RoomInfo(
    id: string,
    name: string,
    kind: string,
    capacity: int,
    subject: string,
    note: Option<string>)

  /** The first subject of the table with the given name (Array.prototype.find). */
  function FindSubject(subjects: seq<SubjectInfo>, name: string): (r: Option<SubjectInfo>)
    ensures r.None? <==> forall i :: 0 <= i < |subjects| ==> subjects[i].name != name
    ensures r.Some? ==> exists i :: 0 <= i < |subjects| && subjects[i] == r.value && r.value.name == name
                                    && forall j :: 0 <= j < i ==> subjects[j].name != name
  {
    if subjects == [] then None
    else if subjects[0].name == name then Some(subjects[0])
    else
      var r := FindSubject(subjects[1..], name);
      assert forall i :: 0 < i < |subjects| ==> subjects[i] == subjects[1..][i - 1];
      r
  }
}

/**
 * The demand side of a scheduling run (src/lib/autoScheduler.ts):
 * which teachers are scheduled, the (teacher, subject, grade) requests
 * generated from them and the subject table, and the order they are served.
 */
module SchedulerRequests {
  import opened Types
  import opened Sorting
  import opened SlotSearch

  /** The specialist teachers, in list order (`filter(t => t.type === 'specialist')`). */
  function Specialists(teachers: seq<Teacher>): (r: seq<Teacher>)
    ensures forall t :: t in r <==> t in teachers && t.kind == Specialist
  {
    if teachers == [] then []
    else
      var last := teachers[|teachers| - 1];
      assert teachers == teachers[..|teachers| - 1] + [last];
      Specialists(teachers[..|teachers| - 1]) + (if last.kind == Specialist then [last] else [])
  }

  /** The filter works on each part of a roster on its own, so the specialists stay in roster order. */
  lemma {:induction false} SpecialistsAppend(a: seq<Teacher>, b: seq<Teacher>)
    ensures Specialists(a + b) == Specialists(a) + Specialists(b)
    decreases |b|
  {
    if b == [] {
      assert a + b == a;
    } else {
      var init := b[..|b| - 1];
      assert (a + b)[..|a + b| - 1] == a + init;
      SpecialistsAppend(a, init);
    }
  }

  /** Every specialist is kept as often as it occurs in the roster; every other teacher not at all. */
  lemma {:induction false} SpecialistsMultiset(teachers: seq<Teacher>)
    ensures forall t :: multiset(Specialists(teachers))[t] == if t.kind == Specialist then multiset(teachers)[t] else 0
  {
    if teachers != [] {
      var init := teachers[..|teachers| - 1];
      SpecialistsMultiset(init);
      assert teachers == init + [teachers[|teachers| - 1]];
    }
  }

  /** The grades a teacher serves: `grades` when non-empty, else the truthy `grade`, else none. */
  function GradesOf(t: Teacher): (r: seq<int>)
    ensures t.grades.Some? && t.grades.value != [] ==> r == t.grades.value
    ensures (t.grades.None? || t.grades.value == []) && t.grade.Some? && t.grade.value != 0 ==> r == [t.grade.value]
    ensures (t.grades.None? || t.grades.value == []) && (t.grade.None? || t.grade.value == 0) ==> r == []
  {
    if t.grades.Some? && |t.grades.value| > 0 then t.grades.value
    else if t.grade.Some? && t.grade.value != 0 then [t.grade.value]
    else []
  }

  /** `teacher.subjects || []` */
  function SubjectsOf(t: Teacher): seq<string>
  {
    if t.subjects.Some? then t.subjects.value else []
  }

  /**
   * `subjectInfo?.hoursByGrade[grade] || 1`: the table's hours for the
   * subject and grade, or 1 when the subject is not in the table, the grade
   * is outside 1..6, or the entry is 0. Never 0.
   */
  function HoursFor(table: seq<SubjectInfo>, name: string, grade: int): (r: int)
    ensures r != 0
    ensures FindSubject(table, name).None? ==> r == 1
    ensures !(1 <= grade <= 6) ==> r == 1
    ensures FindSubject(table, name).Some? && 1 <= grade <= 6 ==>
              var h := FindSubject(table, name).value.hoursByGrade.At(grade).value;
              r == (if h != 0 then h else 1)
  {
    var info := FindSubject(table, name);
    if info.None? then 1 else NumberOr(info.value.hoursByGrade.At(grade), 1)
  }

  /** `subjectInfo?.defaultRoom` */
  function DefaultRoomOf(table: seq<SubjectInfo>, name: string): Option<string>
  {
    var info := FindSubject(table, name);
    if info.None? then None else info.value.defaultRoom
  }

  function MakeRequest(t: Teacher, table: seq<SubjectInfo>, grade: int, name: string): Request
  {
    Request(t.id, t.name, name, grade, HoursFor(table, name, grade), DefaultRoomOf(table, name))
  }

  /** The requests of one teacher and grade over the subject names, skipping non-positive hours. */
  function SubjectRequests(t: Teacher, table: seq<SubjectInfo>, grade: int, names: seq<string>): seq<Request>
  {
    if names == [] then []
    else
      var name := names[|names| - 1];
      SubjectRequests(t, table, grade, names[..|names| - 1])
        + (if HoursFor(table, name, grade) > 0 then [MakeRequest(t, table, grade, name)] else [])
  }

  /** The requests of one teacher over the given grades. */
  function GradeRequests(t: Teacher, table: seq<SubjectInfo>, grades: seq<int>): seq<Request>
  {
    if grades == [] then []
    else
      GradeRequests(t, table, grades[..|grades| - 1]) + SubjectRequests(t, table, grades[|grades| - 1], SubjectsOf(t))
  }

  /** generateAssignmentRequests, as a value: teacher by teacher, grade by grade, subject by subject. */
  function RequestsFor(specialists: seq<Teacher>, table: seq<SubjectInfo>): seq<Request>
  {
    if specialists == [] then []
    else
      var t := specialists[|specialists| - 1];
      RequestsFor(specialists[..|specialists| - 1], table) + GradeRequests(t, table, GradesOf(t))
  }

  /** generateAssignmentRequests; the school info argument is unused. */
  method GenerateAssignmentRequests(specialists: seq<Teacher>, table: seq<SubjectInfo>, info: SchoolSheetInfo)
    returns (requests: seq<Request>)
    ensures requests == RequestsFor(specialists, table)
  {
    requests := [];
    for i := 0 to |specialists|
      invariant requests == RequestsFor(specialists[..i], table)
    {
      assert specialists[..i + 1][..i] == specialists[..i];
      var more := TeacherRequests(specialists[i], table);
      requests := requests + more;
    }
    assert specialists[..|specialists|] == specialists;
  }

  /** The body of the outer loop of generateAssignmentRequests: one teacher's requests. */
  method TeacherRequests(teacher: Teacher, table: seq<SubjectInfo>) returns (requests: seq<Request>)
    ensures requests == GradeRequests(teacher, table, GradesOf(teacher))
  {
    requests := [];
    var grades := GradesOf(teacher);
    var names := SubjectsOf(teacher);
    for j := 0 to |grades|
      invariant requests == GradeRequests(teacher, table, grades[..j])
    {
      assert grades[..j + 1][..j] == grades[..j];
      ghost var before := requests;
      for k := 0 to |names|
        invariant requests == before + SubjectRequests(teacher, table, grades[j], names[..k])
      {
        assert names[..k + 1][..k] == names[..k];
        var hoursNeeded := HoursFor(table, names[k], grades[j]);
        if hoursNeeded > 0 {
          requests := requests + [Request(teacher.id, teacher.name, names[k], grades[j], hoursNeeded,
                                          DefaultRoomOf(table, names[k]))];
        }
      }
      assert names[..|names|] == names;
    }
    assert grades[..|grades|] == grades;
  }

  // ---------------------------------------------------------------------
  // What the requests are

  lemma {:induction false} SubjectRequestsMembers(t: Teacher, table: seq<SubjectInfo>, grade: int, names: seq<string>, r: Request)
    ensures r in SubjectRequests(t, table, grade, names)
        <==> exists name :: name in names && HoursFor(table, name, grade) > 0 && r == MakeRequest(t, table, grade, name)
  {
    if names != [] {
      var init := names[..|names| - 1];
      SubjectRequestsMembers(t, table, grade, init, r);
      assert names == init + [names[|names| - 1]];
    }
  }

  lemma {:induction false} GradeRequestsMembers(t: Teacher, table: seq<SubjectInfo>, grades: seq<int>, r: Request)
    ensures r in GradeRequests(t, table, grades)
        <==> exists g, name :: g in grades && name in SubjectsOf(t) && HoursFor(table, name, g) > 0
                               && r == MakeRequest(t, table, g, name)
  {
    if grades != [] {
      var init := grades[..|grades| - 1];
      var g := grades[|grades| - 1];
      GradeRequestsMembers(t, table, init, r);
      SubjectRequestsMembers(t, table, g, SubjectsOf(t), r);
      assert grades == init + [g];
    }
  }

  /**
   * A request is generated exactly for each specialist, each grade they
   * serve and each subject they teach whose hours are positive.
   */
  lemma {:induction false} RequestsForMembers(specialists: seq<Teacher>, table: seq<SubjectInfo>, r: Request)
    ensures r in RequestsFor(specialists, table)
        <==> exists t, g, name :: t in specialists && g in GradesOf(t) && name in SubjectsOf(t)
                                  && HoursFor(table, name, g) > 0 && r == MakeRequest(t, table, g, name)
  {
    if specialists != [] {
      var init := specialists[..|specialists| - 1];
      var t := specialists[|specialists| - 1];
      RequestsForMembers(init, table, r);
      GradeRequestsMembers(t, table, GradesOf(t), r);
      assert specialists == init + [t];
    }
  }

  /** Every generated request has positive hours. */
  lemma RequestsPositive(specialists: seq<Teacher>, table: seq<SubjectInfo>)
    ensures forall r :: r in RequestsFor(specialists, table) ==> r.hoursNeeded > 0
  {
    forall r | r in RequestsFor(specialists, table) ensures r.hoursNeeded > 0 {
      RequestsForMembers(specialists, table, r);
    }
  }

  /** A subject missing from the table is requested with one hour a week. */
  lemma MissingSubjectOneHour(t: Teacher, table: seq<SubjectInfo>, grade: int, name: string)
    requires forall i :: 0 <= i < |table| ==> table[i].name != name
    ensures MakeRequest(t, table, grade, name).hoursNeeded == 1
    ensures MakeRequest(t, table, grade, name).defaultRoom == None
  {
  }

  // ---------------------------------------------------------------------
  // Serving order

  function RequestRank(r: Request): Rank
  {
    Rank(-r.hoursNeeded, 0)
  }

  /** `[...requests].sort((a, b) => b.hoursNeeded - a.hoursNeeded)`: most hours first, ties in list order. */
  function SortRequests(requests: seq<Request>): (r: seq<Request>)
    ensures multiset(r) == multiset(requests)
    ensures forall i, j :: 0 <= i < j < |r| ==> r[i].hoursNeeded >= r[j].hoursNeeded
    ensures forall k :: WithRank(r, RequestRank, k) == WithRank(requests, RequestRank, k)
  {
    var r := StableSortBy(requests, RequestRank);
    assert forall i, j :: 0 <= i < j < |r| ==> !Before(RequestRank(r[j]), RequestRank(r[i]));
    r
  }
}

/**
 * The sheet rows of the Google Sheets sync (src/lib/googleSheetsApi.ts):
 * the row written for each teacher when saving, and the teachers and
 * assignments read back from rows. The HTTP exchange itself is not part of
 * this model.
 */
module GoogleSheetsApi {
  import opened Types
  import TeacherStore

  /** One sheet row: a teacher with their five hour fields flattened in. */
  datatype SyncRow = SyncRow(
    id: string,
    name: string,
    kind: string,
    grade: Option<int>,
    classNumber: Option<int>,
    subjects: Option<seq<string>>,
    basicTeaching: int,
    adminWork: int,
    training: int,
    consulting: int,
    other: int,
    notes: Option<string>,
    lastModified: int,
    createdAt: int,
    updatedAt: int)

  function RowHours(row: SyncRow): HoursInput
  {
    HoursInput(row.basicTeaching, row.adminWork, row.training, row.consulting, row.other)
  }

  // ---------------------------------------------------------------------
  // Saving: the mapping inside saveData

  /** The row saved for one teacher: their first assignment's hours, or all zeros. */
  function SaveRow(t: Teacher, assignments: seq<Assignment>): (r: SyncRow)
    ensures r.id == t.id && r.name == t.name && r.kind == TypeName(t.kind)
    ensures r.grade == t.grade && r.classNumber == t.classNumber && r.subjects == t.subjects
    ensures r.createdAt == t.createdAt && r.updatedAt == t.updatedAt
    ensures var found := TeacherStore.FindAssignment(assignments, t.id);
            && (found.None? ==> RowHours(r) == NoHours && r.notes == None && r.lastModified == t.updatedAt)
            && (found.Some? ==> RowHours(r) == found.value.hours && r.notes == found.value.notes)
            && (found.Some? && found.value.lastModified != 0 ==> r.lastModified == found.value.lastModified)
            && (found.Some? && found.value.lastModified == 0 ==> r.lastModified == t.updatedAt)
  {
    var assignment := TeacherStore.FindAssignment(assignments, t.id);
    var hours := if assignment.Some? then assignment.value.hours else NoHours;
    SyncRow(t.id, t.name, TypeName(t.kind), t.grade, t.classNumber, t.subjects,
            hours.basicTeaching, hours.adminWork, hours.training, hours.consulting, hours.other,
            if assignment.Some? then assignment.value.notes else None,
            if assignment.Some? then NumberOr(Some(assignment.value.lastModified), t.updatedAt) else t.updatedAt,
            t.createdAt, t.updatedAt)
  }

  /** `teachers.map(...)`: one row per teacher, in roster order. */
  function SaveRows(teachers: seq<Teacher>, assignments: seq<Assignment>): (r: seq<SyncRow>)
    ensures |r| == |teachers|
    ensures forall i :: 0 <= i < |r| ==> r[i] == SaveRow(teachers[i], assignments)
  {
    seq(|teachers|, i requires 0 <= i < |teachers| => SaveRow(teachers[i], assignments))
  }

  // ---------------------------------------------------------------------
  // Reading back: parseSheetData

  /** The teacher read from a row; the tag is taken as written and no grade list is read. */
  function RowTeacher(row: SyncRow): Teacher
  {
    Teacher(row.id, row.name, ParseType(row.kind), row.grade, row.classNumber, row.subjects, None,
            row.createdAt, row.updatedAt)
  }

  /** Some kind of work has a positive number of hours. */
  predicate PositiveHours(h: HoursInput)
  {
    h.basicTeaching > 0 || h.adminWork > 0 || h.training > 0 || h.consulting > 0 || h.other > 0
  }

  /** A row carries an assignment when one of its hour fields is positive. */
  predicate HasHours(row: SyncRow)
  {
    PositiveHours(RowHours(row))
  }

  function RowAssignment(row: SyncRow): Assignment
  {
    Assignment(row.id, RowHours(row), row.notes, row.lastModified)
  }

  /** The teachers of the rows: one per row, in row order. */
  function ParsedTeachers(rows: seq<SyncRow>): (r: seq<Teacher>)
    ensures |r| == |rows|
    ensures forall i :: 0 <= i < |rows| ==> r[i] == RowTeacher(rows[i])
  {
    if rows == [] then []
    else
      var init := rows[..|rows| - 1];
      assert forall i :: 0 <= i < |init| ==> rows[i] == init[i];
      ParsedTeachers(init) + [RowTeacher(rows[|rows| - 1])]
  }

  /** The assignments of the rows that have hours, in row order. */
  function ParsedAssignments(rows: seq<SyncRow>): seq<Assignment>
  {
    if rows == [] then []
    else
      var last := rows[|rows| - 1];
      ParsedAssignments(rows[..|rows| - 1]) + (if HasHours(last) then [RowAssignment(last)] else [])
  }

  /** parseSheetData: walk the rows, pushing a teacher for each and an assignment for those with hours. */
  method ParseSheetData(data: seq<SyncRow>) returns (teachers: seq<Teacher>, assignments: seq<Assignment>)
    ensures teachers == ParsedTeachers(data)
    ensures assignments == ParsedAssignments(data)
  {
    teachers := [];
    assignments := [];
    for i := 0 to |data|
      invariant teachers == ParsedTeachers(data[..i])
      invariant assignments == ParsedAssignments(data[..i])
    {
      var item := data[i];
      assert data[..i + 1][..i] == data[..i];
      teachers := teachers + [Teacher(item.id, item.name, ParseType(item.kind), item.grade, item.classNumber,
                                      item.subjects, None, item.createdAt, item.updatedAt)];
      var hasHours := item.basicTeaching > 0 || item.adminWork > 0 || item.training > 0
                      || item.consulting > 0 || item.other > 0;
      if hasHours {
        assignments := assignments + [Assignment(item.id,
          HoursInput(item.basicTeaching, item.adminWork, item.training, item.consulting, item.other),
          item.notes, item.lastModified)];
      }
    }
    assert data[..|data|] == data;
  }

  // ---------------------------------------------------------------------
  // Properties

  /** Reading concatenated rows reads each part in turn: the row order is kept. */
  lemma {:induction false} ParsedAssignmentsAppend(a: seq<SyncRow>, b: seq<SyncRow>)
    ensures ParsedAssignments(a + b) == ParsedAssignments(a) + ParsedAssignments(b)
    decreases |b|
  {
    if b == [] {
      assert a + b == a;
    } else {
      var init := b[..|b| - 1];
      ParsedAssignmentsAppend(a, init);
      assert (a + b)[..|a + b| - 1] == a + init;
    }
  }

  /** The assignments read are exactly those of the rows with hours. */
  lemma {:induction false} ParsedAssignmentsFromRows(rows: seq<SyncRow>, a: Assignment)
    ensures a in ParsedAssignments(rows) <==>
              exists i :: 0 <= i < |rows| && HasHours(rows[i]) && a == RowAssignment(rows[i])
  {
    if rows != [] {
      var init := rows[..|rows| - 1];
      ParsedAssignmentsFromRows(init, a);
      if exists i :: 0 <= i < |rows| && HasHours(rows[i]) && a == RowAssignment(rows[i]) {
        var i :| 0 <= i < |rows| && HasHours(rows[i]) && a == RowAssignment(rows[i]);
        if i < |init| {
          assert init[i] == rows[i];
        }
      }
      if a in ParsedAssignments(init) {
        var i :| 0 <= i < |init| && HasHours(init[i]) && a == RowAssignment(init[i]);
        assert rows[i] == init[i];
      }
    }
  }

  /** Every assignment read names a teacher read from the same rows. */
  lemma AssignmentsHaveTeachers(rows: seq<SyncRow>)
    ensures forall a :: a in ParsedAssignments(rows) ==>
              exists t :: t in ParsedTeachers(rows) && t.id == a.teacherId
  {
    var teachers := ParsedTeachers(rows);
    forall a | a in ParsedAssignments(rows)
      ensures exists t :: t in teachers && t.id == a.teacherId
    {
      ParsedAssignmentsFromRows(rows, a);
      var i :| 0 <= i < |rows| && HasHours(rows[i]) && a == RowAssignment(rows[i]);
      assert teachers[i] in teachers && teachers[i].id == a.teacherId;
    }
  }

  /**
   * Saving and reading back gives the same teachers exactly when no teacher
   * has a grade list (rows do not carry one) and no unrecognised tag spells
   * a known role.
   */
  lemma SaveThenParseTeachers(teachers: seq<Teacher>, assignments: seq<Assignment>)
    ensures ParsedTeachers(SaveRows(teachers, assignments)) == teachers <==>
              forall t :: t in teachers ==> t.grades.None? && WellFormedType(t.kind)
  {
    var back := ParsedTeachers(SaveRows(teachers, assignments));
    if forall t :: t in teachers ==> t.grades.None? && WellFormedType(t.kind) {
      forall i | 0 <= i < |teachers| ensures back[i] == teachers[i] {
        ParseTypeName(teachers[i].kind);
      }
    }
    if back == teachers {
      forall t | t in teachers ensures t.grades.None? && WellFormedType(t.kind) {
        var i :| 0 <= i < |teachers| && teachers[i] == t;
        assert back[i] == t;
      }
    }
  }

  predicate UniqueTeacherIds(teachers: seq<Teacher>)
  {
    forall i, j :: 0 <= i < j < |teachers| ==> teachers[i].id != teachers[j].id
  }

  /**
   * With distinct teacher ids, a teacher's assignment survives saving and
   * reading back when it has a positive hour field, its lastModified
   * replaced by the teacher's updatedAt when 0; otherwise it is lost.
   */
  lemma SaveThenParseAssignment(teachers: seq<Teacher>, assignments: seq<Assignment>, k: nat)
    requires UniqueTeacherIds(teachers) && k < |teachers|
    ensures var t := teachers[k];
            var found := TeacherStore.FindAssignment(assignments, t.id);
            var back := TeacherStore.FindAssignment(ParsedAssignments(SaveRows(teachers, assignments)), t.id);
            back == (if found.Some? && PositiveHours(found.value.hours)
                     then Some(Assignment(t.id, found.value.hours, found.value.notes,
                                          NumberOr(Some(found.value.lastModified), t.updatedAt)))
                     else None)
  {
    var t := teachers[k];
    var rows := SaveRows(teachers, assignments);
    var parsed := ParsedAssignments(rows);
    var back := TeacherStore.FindAssignment(parsed, t.id);
    var row := rows[k];
    assert row == SaveRow(t, assignments);
    forall a | a in parsed && a.teacherId == t.id
      ensures HasHours(row) && a == RowAssignment(row)
    {
      ParsedAssignmentsFromRows(rows, a);
      var i :| 0 <= i < |rows| && HasHours(rows[i]) && a == RowAssignment(rows[i]);
      assert rows[i].id == teachers[i].id;
      assert i == k;
    }
    if HasHours(row) {
      ParsedAssignmentsFromRows(rows, RowAssignment(row));
      assert RowAssignment(row) in parsed;
    }
  }
}

/**
 * The teacher roster store (src/stores/teacherStore.ts): teachers, their
 * hour assignments, the selected teacher, the sync status and the sheet
 * settings. Ids and clocks are parameters; the sync actions and the
 * persistence to local storage are not part of this model.
 */
module TeacherStore {
  import opened Types

  datatype SyncState = Synced | Pending | Failed | Never

  datatype SyncStatus = SyncStatus(
    lastSyncTime: Option<int>,
    state: SyncState,
    errorMessage: Option<string>,
    pendingChanges: int)

  const NeverSynced := SyncStatus(None, Never, None, 0)

  /** One more local change waiting to be pushed. */
  function MarkPending(st: SyncStatus): (r: SyncStatus)
    ensures r.state == Pending && r.pendingChanges == st.pendingChanges + 1
    ensures r.lastSyncTime == st.lastSyncTime && r.errorMessage == st.errorMessage
  {
    st.(state := Pending, pendingChanges := st.pendingChanges + 1)
  }

  datatype SheetsConfig = SheetsConfig(spreadsheetId: string, webAppUrl: string, enabled: bool, autoSync: bool)

  const EmptyConfig := SheetsConfig("", "", false, false)

  /** `Partial<GoogleSheetsConfig>` */
  datatype ConfigPatch = ConfigPatch(
    spreadsheetId: Option<string>,
    webAppUrl: Option<string>,
    enabled: Option<bool>,
    autoSync: Option<bool>)

  /** `{ ...config, ...patch }` */
  function ApplyConfig(c: SheetsConfig, p: ConfigPatch): SheetsConfig
  {
    SheetsConfig(
      if p.spreadsheetId.Some? then p.spreadsheetId.value else c.spreadsheetId,
      if p.webAppUrl.Some? then p.webAppUrl.value else c.webAppUrl,
      if p.enabled.Some? then p.enabled.value else c.enabled,
      if p.autoSync.Some? then p.autoSync.value else c.autoSync)
  }

  /** A new teacher's data: a teacher without id and timestamps. */
  datatype TeacherDraft = TeacherDraft(
    name: string,
    kind: TeacherType,
    grade: Option<int>,
    classNumber: Option<int>,
    subjects: Option<seq<string>>,
    grades: Option<seq<int>>)

  /** The new teacher; `createdAt` and `updatedAt` are the two readings of the clock. */
  function NewTeacher(d: TeacherDraft, id: string, createdAt: int, updatedAt: int): Teacher
  {
    Teacher(id, d.name, d.kind, d.grade, d.classNumber, d.subjects, d.grades, createdAt, updatedAt)
  }

  /** `Partial<Teacher>`: each present field replaces the teacher's own (optional fields may be cleared). */
  datatype TeacherPatch = TeacherPatch(
    id: Option<string>,
    name: Option<string>,
    kind: Option<TeacherType>,
    grade: Option<Option<int>>,
    classNumber: Option<Option<int>>,
    subjects: Option<Option<seq<string>>>,
    grades: Option<Option<seq<int>>>,
    createdAt: Option<int>)

  /** `{ ...t, ...updates, updatedAt: now }` */
  function ApplyTeacherPatch(t: Teacher, p: TeacherPatch, now: int): (r: Teacher)
    ensures r.updatedAt == now
    ensures p.id.None? ==> r.id == t.id
  {
    Teacher(
      if p.id.Some? then p.id.value else t.id,
      if p.name.Some? then p.name.value else t.name,
      if p.kind.Some? then p.kind.value else t.kind,
      if p.grade.Some? then p.grade.value else t.grade,
      if p.classNumber.Some? then p.classNumber.value else t.classNumber,
      if p.subjects.Some? then p.subjects.value else t.subjects,
      if p.grades.Some? then p.grades.value else t.grades,
      if p.createdAt.Some? then p.createdAt.value else t.createdAt,
      now)
  }

  /** The roster with every teacher of the id patched, in place. */
  function TeachersUpdated(teachers: seq<Teacher>, id: string, p: TeacherPatch, now: int): (r: seq<Teacher>)
    ensures |r| == |teachers|
    ensures forall i :: 0 <= i < |teachers| ==>
              r[i] == (if teachers[i].id == id then ApplyTeacherPatch(teachers[i], p, now) else teachers[i])
  {
    if teachers == [] then []
    else
      var last := teachers[|teachers| - 1];
      TeachersUpdated(teachers[..|teachers| - 1], id, p, now)
        + [if last.id == id then ApplyTeacherPatch(last, p, now) else last]
  }

  /** The roster without the teachers of the id, in order. */
  function TeachersWithout(teachers: seq<Teacher>, id: string): (r: seq<Teacher>)
    ensures |r| <= |teachers|
    ensures forall t :: t in r <==> t in teachers && t.id != id
  {
    if teachers == [] then []
    else
      var last := teachers[|teachers| - 1];
      assert teachers == teachers[..|teachers| - 1] + [last];
      TeachersWithout(teachers[..|teachers| - 1], id) + (if last.id != id then [last] else [])
  }

  /** The assignments without those of the teacher, in order. */
  function AssignmentsWithout(assignments: seq<Assignment>, teacherId: string): (r: seq<Assignment>)
    ensures |r| <= |assignments|
    ensures forall a :: a in r <==> a in assignments && a.teacherId != teacherId
  {
    if assignments == [] then []
    else
      var last := assignments[|assignments| - 1];
      assert assignments == assignments[..|assignments| - 1] + [last];
      AssignmentsWithout(assignments[..|assignments| - 1], teacherId) + (if last.teacherId != teacherId then [last] else [])
  }

  /** Removal works on each part of a roster on its own, so the remaining teachers stay in order. */
  lemma {:induction false} TeachersWithoutAppend(a: seq<Teacher>, b: seq<Teacher>, id: string)
    ensures TeachersWithout(a + b, id) == TeachersWithout(a, id) + TeachersWithout(b, id)
    decreases |b|
  {
    if b == [] {
      assert a + b == a;
    } else {
      var init := b[..|b| - 1];
      assert (a + b)[..|a + b| - 1] == a + init;
      TeachersWithoutAppend(a, init, id);
    }
  }

  /** Every teacher with another id is kept as often as it occurs; those with the id not at all. */
  lemma {:induction false} TeachersWithoutMultiset(teachers: seq<Teacher>, id: string)
    ensures forall t :: multiset(TeachersWithout(teachers, id))[t] == if t.id != id then multiset(teachers)[t] else 0
  {
    if teachers != [] {
      var init := teachers[..|teachers| - 1];
      TeachersWithoutMultiset(init, id);
      assert teachers == init + [teachers[|teachers| - 1]];
    }
  }

  /** Removal works on each part of the assignments on its own, so the rest stay in order. */
  lemma {:induction false} AssignmentsWithoutAppend(a: seq<Assignment>, b: seq<Assignment>, teacherId: string)
    ensures AssignmentsWithout(a + b, teacherId) == AssignmentsWithout(a, teacherId) + AssignmentsWithout(b, teacherId)
    decreases |b|
  {
    if b == [] {
      assert a + b == a;
    } else {
      var init := b[..|b| - 1];
      assert (a + b)[..|a + b| - 1] == a + init;
      AssignmentsWithoutAppend(a, init, teacherId);
    }
  }

  /** Every assignment of another teacher is kept as often as it occurs; the teacher's own not at all. */
  lemma {:induction false} AssignmentsWithoutMultiset(assignments: seq<Assignment>, teacherId: string)
    ensures forall x :: multiset(AssignmentsWithout(assignments, teacherId))[x]
                        == if x.teacherId != teacherId then multiset(assignments)[x] else 0
  {
    if assignments != [] {
      var init := assignments[..|assignments| - 1];
      AssignmentsWithoutMultiset(init, teacherId);
      assert assignments == init + [assignments[|assignments| - 1]];
    }
  }

  /** `findIndex((a) => a.teacherId === teacherId)`, with None for -1. */
  function AssignmentIndex(assignments: seq<Assignment>, teacherId: string): (r: Option<nat>)
    ensures r.None? <==> forall i :: 0 <= i < |assignments| ==> assignments[i].teacherId != teacherId
    ensures r.Some? ==> r.value < |assignments| && assignments[r.value].teacherId == teacherId
                        && forall i :: 0 <= i < r.value ==> assignments[i].teacherId != teacherId
  {
    if assignments == [] then None
    else if assignments[0].teacherId == teacherId then Some(0)
    else
      var r := AssignmentIndex(assignments[1..], teacherId);
      assert forall i :: 0 < i < |assignments| ==> assignments[i] == assignments[1..][i - 1];
      if r.None? then None else Some(r.value + 1)
  }

  /** `find((a) => a.teacherId === teacherId)` */
  function FindAssignment(assignments: seq<Assignment>, teacherId: string): (r: Option<Assignment>)
    ensures r.None? <==> forall a :: a in assignments ==> a.teacherId != teacherId
    ensures r.Some? ==> exists i :: 0 <= i < |assignments| && assignments[i] == r.value && r.value.teacherId == teacherId
                                    && forall j :: 0 <= j < i ==> assignments[j].teacherId != teacherId
  {
    var i := AssignmentIndex(assignments, teacherId);
    if i.None? then None else Some(assignments[i.value])
  }

  /** The assignment list after an upsert: the first of the teacher is replaced in place, else appended. */
  function Upserted(assignments: seq<Assignment>, a: Assignment): seq<Assignment>
  {
    var i := AssignmentIndex(assignments, a.teacherId);
    if i.Some? then assignments[i.value := a] else assignments + [a]
  }

  // ---------------------------------------------------------------------
  // The store

  class Store {
    var teachers: seq<Teacher>
    var assignments: seq<Assignment>
    var selectedTeacherId: Option<string>
    var syncStatus: SyncStatus
    var config: SheetsConfig

    constructor ()
      ensures teachers == [] && assignments == [] && selectedTeacherId == None
      ensures syncStatus == NeverSynced && config == EmptyConfig
    {
      teachers := [];
      assignments := [];
      selectedTeacherId := None;
      syncStatus := NeverSynced;
      config := EmptyConfig;
    }

    /** addTeacher: `id` stands for the fresh UUID, `createdAt` and `updatedAt` for the two `Date.now()` calls. */
    method AddTeacher(d: TeacherDraft, id: string, createdAt: int, updatedAt: int)
      modifies this
      ensures teachers == old(teachers) + [NewTeacher(d, id, createdAt, updatedAt)]
      ensures syncStatus == MarkPending(old(syncStatus))
      ensures assignments == old(assignments) && selectedTeacherId == old(selectedTeacherId) && config == old(config)
    {
      teachers := teachers + [NewTeacher(d, id, createdAt, updatedAt)];
      syncStatus := MarkPending(syncStatus);
    }

    method UpdateTeacher(id: string, p: TeacherPatch, now: int)
      modifies this
      ensures teachers == TeachersUpdated(old(teachers), id, p, now)
      ensures syncStatus == MarkPending(old(syncStatus))
      ensures assignments == old(assignments) && selectedTeacherId == old(selectedTeacherId) && config == old(config)
    {
      teachers := TeachersUpdated(teachers, id, p, now);
      syncStatus := MarkPending(syncStatus);
    }

    /** deleteTeacher: the teacher, their assignments and, if it is theirs, the selection go. */
    method DeleteTeacher(id: string)
      modifies this
      ensures teachers == TeachersWithout(old(teachers), id)
      ensures assignments == AssignmentsWithout(old(assignments), id)
      ensures selectedTeacherId == (if old(selectedTeacherId) == Some(id) then None else old(selectedTeacherId))
      ensures syncStatus == MarkPending(old(syncStatus))
      ensures config == old(config)
    {
      teachers := TeachersWithout(teachers, id);
      assignments := AssignmentsWithout(assignments, id);
      if selectedTeacherId == Some(id) {
        selectedTeacherId := None;
      }
      syncStatus := MarkPending(syncStatus);
    }

    method SelectTeacher(id: Option<string>)
      modifies this
      ensures selectedTeacherId == id
      ensures teachers == old(teachers) && assignments == old(assignments)
      ensures syncStatus == old(syncStatus) && config == old(config)
    {
      selectedTeacherId := id;
    }

    /** updateAssignment: overwrite the teacher's first assignment in place, or append one. */
    method UpdateAssignment(teacherId: string, hours: HoursInput, notes: Option<string>, now: int)
      modifies this
      ensures assignments == Upserted(old(assignments), Assignment(teacherId, hours, notes, now))
      ensures syncStatus == MarkPending(old(syncStatus))
      ensures teachers == old(teachers) && selectedTeacherId == old(selectedTeacherId) && config == old(config)
    {
      var existingIndex := AssignmentIndex(assignments, teacherId);
      var a := Assignment(teacherId, hours, notes, now);
      if existingIndex.Some? {
        assignments := assignments[existingIndex.value := a];
      } else {
        assignments := assignments + [a];
      }
      syncStatus := MarkPending(syncStatus);
    }

    function GetAssignment(teacherId: string): (r: Option<Assignment>)
      reads this
      ensures r.None? <==> forall a :: a in assignments ==> a.teacherId != teacherId
      ensures r.Some? ==> exists i :: 0 <= i < |assignments| && assignments[i] == r.value && r.value.teacherId == teacherId
                                      && forall j :: 0 <= j < i ==> assignments[j].teacherId != teacherId
    {
      FindAssignment(assignments, teacherId)
    }

    method UpdateSheetsConfig(p: ConfigPatch)
      modifies this
      ensures config == ApplyConfig(old(config), p)
      ensures teachers == old(teachers) && assignments == old(assignments)
      ensures selectedTeacherId == old(selectedTeacherId) && syncStatus == old(syncStatus)
    {
      config := ApplyConfig(config, p);
    }

    /** clearAllData: everything but the sheet settings. */
    method ClearAllData()
      modifies this
      ensures teachers == [] && assignments == [] && selectedTeacherId == None
      ensures syncStatus == NeverSynced
      ensures config == old(config)
    {
      teachers := [];
      assignments := [];
      selectedTeacherId := None;
      syncStatus := NeverSynced;
    }
  }

  // ---------------------------------------------------------------------
  // Properties

  /** After an upsert the teacher's assignment is the new one; other teachers' lookups do not change. */
  lemma {:induction false} UpsertFinds(assignments: seq<Assignment>, a: Assignment, other: string)
    requires other != a.teacherId
    ensures FindAssignment(Upserted(assignments, a), a.teacherId) == Some(a)
    ensures FindAssignment(Upserted(assignments, a), other) == FindAssignment(assignments, other)
  {
    var u := Upserted(assignments, a);
    var i := AssignmentIndex(assignments, a.teacherId);
    if i.Some? {
      assert AssignmentIndex(u, a.teacherId) == i by {
        AssignmentIndexOf(u, a.teacherId, i.value);
      }
      var j := AssignmentIndex(assignments, other);
      if j.Some? {
        assert j.value != i.value;
        AssignmentIndexOf(u, other, j.value);
      } else {
        assert forall k :: 0 <= k < |u| ==> u[k].teacherId != other;
      }
    } else {
      assert AssignmentIndex(u, a.teacherId) == Some(|assignments|) by {
        AssignmentIndexOf(u, a.teacherId, |assignments|);
      }
      var j := AssignmentIndex(assignments, other);
      if j.Some? {
        AssignmentIndexOf(u, other, j.value);
      } else {
        assert forall k :: 0 <= k < |u| ==> u[k].teacherId != other;
      }
    }
  }

  /** The first index of a match is determined by the matches. */
  lemma AssignmentIndexOf(assignments: seq<Assignment>, teacherId: string, k: nat)
    requires k < |assignments| && assignments[k].teacherId == teacherId
    requires forall i :: 0 <= i < k ==> assignments[i].teacherId != teacherId
    ensures AssignmentIndex(assignments, teacherId) == Some(k)
  {
    var r := AssignmentIndex(assignments, teacherId);
    assert r.Some?;
  }

  /** An upsert grows the list by one exactly when the teacher had no assignment; a second one does not grow it. */
  lemma UpsertLength(assignments: seq<Assignment>, a: Assignment, b: Assignment)
    requires b.teacherId == a.teacherId
    ensures |Upserted(assignments, a)| == |assignments| + (if FindAssignment(assignments, a.teacherId).None? then 1 else 0)
    ensures |Upserted(Upserted(assignments, a), b)| == |Upserted(assignments, a)|
  {
    var u := Upserted(assignments, a);
    var i := AssignmentIndex(assignments, a.teacherId);
    if i.Some? {
      assert u[i.value] == a;
    } else {
      assert u[|assignments|] == a;
    }
    assert AssignmentIndex(u, a.teacherId).Some?;
  }
}

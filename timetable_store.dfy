/**
 * The timetable store (src/stores/timetableStore.ts): the slot list and the
 * sync flags, the operations that replace them, and the queries over the
 * slots. Persistence to local storage is not part of this model.
 */
module TimetableStore {
  import opened Types
  import opened Tally
  import opened Timetable

  /** `Partial<TimetableSlot>`: each present field replaces the slot's own. */
  datatype SlotPatch = SlotPatch(
    id: Option<string>,
    day: Option<Day>,
    period: Option<int>,
    grade: Option<int>,
    classNumber: Option<int>,
    teacherId: Option<string>,
    teacherName: Option<string>,
    subject: Option<string>,
    room: Option<Option<string>>,
    note: Option<Option<string>>)

  /** `{ ...s, ...updates }` */
  function ApplyPatch(s: Slot, p: SlotPatch): Slot
  {
    Slot(
      if p.id.Some? then p.id.value else s.id,
      if p.day.Some? then p.day.value else s.day,
      if p.period.Some? then p.period.value else s.period,
      if p.grade.Some? then p.grade.value else s.grade,
      if p.classNumber.Some? then p.classNumber.value else s.classNumber,
      if p.teacherId.Some? then p.teacherId.value else s.teacherId,
      if p.teacherName.Some? then p.teacherName.value else s.teacherName,
      if p.subject.Some? then p.subject.value else s.subject,
      if p.room.Some? then p.room.value else s.room,
      if p.note.Some? then p.note.value else s.note)
  }

  /** The slots with every slot of the id patched, in place. */
  function Updated(slots: seq<Slot>, id: string, p: SlotPatch): (r: seq<Slot>)
    ensures |r| == |slots|
    ensures forall i :: 0 <= i < |slots| ==> r[i] == (if slots[i].id == id then ApplyPatch(slots[i], p) else slots[i])
  {
    if slots == [] then []
    else
      var last := slots[|slots| - 1];
      Updated(slots[..|slots| - 1], id, p) + [if last.id == id then ApplyPatch(last, p) else last]
  }

  /** The slots without those of the id, in order. */
  function Without(slots: seq<Slot>, id: string): (r: seq<Slot>)
    ensures |r| <= |slots|
    ensures forall s :: s in r <==> s in slots && s.id != id
  {
    if slots == [] then []
    else
      var last := slots[|slots| - 1];
      assert slots == slots[..|slots| - 1] + [last];
      Without(slots[..|slots| - 1], id) + (if last.id != id then [last] else [])
  }

  /** No two slots share an id. */
  ghost predicate UniqueIds(slots: seq<Slot>)
  {
    forall i, j :: 0 <= i < j < |slots| ==> slots[i].id != slots[j].id
  }

  // ---------------------------------------------------------------------
  // Query results

  datatype TeacherTimetable = TeacherTimetable(teacherId: string, teacherName: string, slots: seq<Slot>)

  datatype ClassTimetable = ClassTimetable(grade: int, classNumber: int, slots: seq<Slot>)

  datatype Stats = Stats(totalSlots: int, byDay: map<Day, int>, byPeriod: map<int, int>, byGrade: map<int, int>)

  function StatsOf(slots: seq<Slot>): Stats
  {
    Stats(|slots|, DayTally(slots), PeriodTally(slots), GradeTally(slots))
  }

  /** A slot to be placed: a slot without its id. */
  datatype SlotDraft = SlotDraft(
    day: Day,
    period: int,
    grade: int,
    classNumber: int,
    teacherId: string,
    teacherName: string,
    subject: string,
    room: Option<string>,
    note: Option<string>)

  datatype ConflictKind = ClassConflict | TeacherConflict | RoomConflict

  /** A conflict names the one slot found; its message text is not modelled. */
  datatype Conflict = Conflict(kind: ConflictKind, slot: Slot)

  datatype ConflictReport = ConflictReport(hasConflict: bool, conflicts: seq<Conflict>)

  /** `s.id !== excludeId`: with no id to exclude, no slot is excluded. */
  predicate Counted(s: Slot, excludeId: Option<string>)
  {
    excludeId.None? || s.id != excludeId.value
  }

  /** The room is named: present and non-empty. */
  predicate HasRoom(d: SlotDraft)
  {
    d.room.Some? && d.room.value != ""
  }

  /** Slot s is in the way of the draft, in the sense of the kind. */
  predicate Collides(kind: ConflictKind, s: Slot, d: SlotDraft, excludeId: Option<string>)
  {
    Counted(s, excludeId) && s.day == d.day && s.period == d.period &&
    match kind
    case ClassConflict => s.grade == d.grade && s.classNumber == d.classNumber
    case TeacherConflict => s.teacherId == d.teacherId
    case RoomConflict => HasRoom(d) && s.room == d.room
  }

  /** The first slot that collides with the draft in the sense of the kind. */
  function FirstCollision(slots: seq<Slot>, kind: ConflictKind, d: SlotDraft, excludeId: Option<string>): (r: Option<Slot>)
    ensures r.None? <==> forall i :: 0 <= i < |slots| ==> !Collides(kind, slots[i], d, excludeId)
    ensures r.Some? ==> exists i :: 0 <= i < |slots| && slots[i] == r.value && Collides(kind, r.value, d, excludeId)
                                    && forall j :: 0 <= j < i ==> !Collides(kind, slots[j], d, excludeId)
  {
    if slots == [] then None
    else if Collides(kind, slots[0], d, excludeId) then Some(slots[0])
    else
      var r := FirstCollision(slots[1..], kind, d, excludeId);
      assert forall i :: 0 < i < |slots| ==> slots[i] == slots[1..][i - 1];
      r
  }

  function Reported(kind: ConflictKind, hit: Option<Slot>): seq<Conflict>
  {
    if hit.Some? then [Conflict(kind, hit.value)] else []
  }

  function KindsOf(conflicts: seq<Conflict>): set<ConflictKind>
  {
    set c | c in conflicts :: c.kind
  }

  /** Position of a kind in the report: class, then teacher, then room. */
  function KindOrder(kind: ConflictKind): int
  {
    match kind
    case ClassConflict => 0
    case TeacherConflict => 1
    case RoomConflict => 2
  }

  /** `filter`: a field constrains the slots only when it is truthy. */
  datatype SlotFilter = SlotFilter(
    teacherId: Option<string>,
    grade: Option<int>,
    classNumber: Option<int>,
    day: Option<Day>,
    subject: Option<string>)

  const NoFilter := SlotFilter(None, None, None, None, None)

  predicate Matches(f: SlotFilter, s: Slot)
  {
    && (f.teacherId.None? || f.teacherId.value == "" || s.teacherId == f.teacherId.value)
    && (f.grade.None? || f.grade.value == 0 || s.grade == f.grade.value)
    && (f.classNumber.None? || f.classNumber.value == 0 || s.classNumber == f.classNumber.value)
    && (f.day.None? || s.day == f.day.value)
    && (f.subject.None? || f.subject.value == "" || s.subject == f.subject.value)
  }

  function Matching(slots: seq<Slot>, f: SlotFilter): (r: seq<Slot>)
    ensures |r| <= |slots|
    ensures forall s :: s in r <==> s in slots && Matches(f, s)
  {
    if slots == [] then []
    else
      var last := slots[|slots| - 1];
      assert slots == slots[..|slots| - 1] + [last];
      Matching(slots[..|slots| - 1], f) + (if Matches(f, last) then [last] else [])
  }

  /** The slots of one class, in order. */
  function ClassSlots(slots: seq<Slot>, grade: int, classNumber: int): (r: seq<Slot>)
    ensures |r| <= |slots|
    ensures forall s :: s in r <==> s in slots && s.grade == grade && s.classNumber == classNumber
  {
    if slots == [] then []
    else
      var last := slots[|slots| - 1];
      assert slots == slots[..|slots| - 1] + [last];
      ClassSlots(slots[..|slots| - 1], grade, classNumber)
        + (if last.grade == grade && last.classNumber == classNumber then [last] else [])
  }

  /** The first slot satisfying the key test, as `find` returns it. */
  function FirstAt(slots: seq<Slot>, at: DayPeriod, grade: int, classNumber: int): (r: Option<Slot>)
    ensures r.None? <==> ClassKey(at, grade, classNumber) !in ClassKeys(slots)
    ensures r.Some? ==> exists i :: 0 <= i < |slots| && slots[i] == r.value && ClassKeyOf(r.value) == ClassKey(at, grade, classNumber)
                                    && forall j :: 0 <= j < i ==> ClassKeyOf(slots[j]) != ClassKey(at, grade, classNumber)
  {
    if slots == [] then None
    else if ClassKeyOf(slots[0]) == ClassKey(at, grade, classNumber) then Some(slots[0])
    else
      var r := FirstAt(slots[1..], at, grade, classNumber);
      assert forall i :: 0 < i < |slots| ==> slots[i] == slots[1..][i - 1];
      assert forall s :: s in slots ==> s == slots[0] || s in slots[1..];
      r
  }

  function FirstTeacherAt(slots: seq<Slot>, teacherId: string, at: DayPeriod): (r: Option<Slot>)
    ensures r.None? <==> TeacherKey(teacherId, at) !in TeacherKeys(slots)
    ensures r.Some? ==> exists i :: 0 <= i < |slots| && slots[i] == r.value && TeacherKeyOf(r.value) == TeacherKey(teacherId, at)
                                    && forall j :: 0 <= j < i ==> TeacherKeyOf(slots[j]) != TeacherKey(teacherId, at)
  {
    if slots == [] then None
    else if TeacherKeyOf(slots[0]) == TeacherKey(teacherId, at) then Some(slots[0])
    else
      var r := FirstTeacherAt(slots[1..], teacherId, at);
      assert forall i :: 0 < i < |slots| ==> slots[i] == slots[1..][i - 1];
      assert forall s :: s in slots ==> s == slots[0] || s in slots[1..];
      r
  }

  /** What checkConflicts reports: the first slot in the way for each kind, class, teacher, room. */
  function Conflicts(slots: seq<Slot>, draft: SlotDraft, excludeId: Option<string>): seq<Conflict>
  {
    Reported(ClassConflict, FirstCollision(slots, ClassConflict, draft, excludeId))
      + Reported(TeacherConflict, FirstCollision(slots, TeacherConflict, draft, excludeId))
      + (if HasRoom(draft) then Reported(RoomConflict, FirstCollision(slots, RoomConflict, draft, excludeId)) else [])
  }

  /** A kind is reported iff some counted slot collides in that sense. */
  lemma ConflictKinds(slots: seq<Slot>, draft: SlotDraft, excludeId: Option<string>)
    ensures forall k :: k in KindsOf(Conflicts(slots, draft, excludeId))
                        <==> exists s :: s in slots && Collides(k, s, draft, excludeId)
  {
    forall k ensures k in KindsOf(Conflicts(slots, draft, excludeId)) <==> exists s :: s in slots && Collides(k, s, draft, excludeId) {
      if k in KindsOf(Conflicts(slots, draft, excludeId)) {
        ReportedKindCollides(slots, draft, excludeId, k);
      }
      if exists s :: s in slots && Collides(k, s, draft, excludeId) {
        CollidingKindReported(slots, draft, excludeId, k);
      }
    }
  }

  lemma ReportedKindCollides(slots: seq<Slot>, draft: SlotDraft, excludeId: Option<string>, k: ConflictKind)
    requires k in KindsOf(Conflicts(slots, draft, excludeId))
    ensures exists s :: s in slots && Collides(k, s, draft, excludeId)
  {
    ConflictSlots(slots, draft, excludeId);
    var c :| c in Conflicts(slots, draft, excludeId) && c.kind == k;
    assert c.slot in slots && Collides(k, c.slot, draft, excludeId);
  }

  lemma CollidingKindReported(slots: seq<Slot>, draft: SlotDraft, excludeId: Option<string>, k: ConflictKind)
    requires exists s :: s in slots && Collides(k, s, draft, excludeId)
    ensures k in KindsOf(Conflicts(slots, draft, excludeId))
  {
    var s :| s in slots && Collides(k, s, draft, excludeId);
    var i :| 0 <= i < |slots| && slots[i] == s;
    var hit := FirstCollision(slots, k, draft, excludeId);
    assert hit.Some?;
    assert Conflict(k, hit.value) in Conflicts(slots, draft, excludeId);
  }

  /** Each reported conflict names the first slot in the way for its kind. */
  lemma ConflictSlots(slots: seq<Slot>, draft: SlotDraft, excludeId: Option<string>)
    ensures forall c :: c in Conflicts(slots, draft, excludeId) ==>
              && FirstCollision(slots, c.kind, draft, excludeId) == Some(c.slot)
              && c.slot in slots && Collides(c.kind, c.slot, draft, excludeId)
  {
  }

  /** The report lists each kind at most once, class before teacher before room. */
  lemma ConflictOrder(slots: seq<Slot>, draft: SlotDraft, excludeId: Option<string>)
    ensures var cs := Conflicts(slots, draft, excludeId);
            forall i, j :: 0 <= i < j < |cs| ==> KindOrder(cs[i].kind) < KindOrder(cs[j].kind)
  {
    var a := Reported(ClassConflict, FirstCollision(slots, ClassConflict, draft, excludeId));
    var b := Reported(TeacherConflict, FirstCollision(slots, TeacherConflict, draft, excludeId));
    var c := if HasRoom(draft) then Reported(RoomConflict, FirstCollision(slots, RoomConflict, draft, excludeId)) else [];
    var cs := a + b + c;
    assert cs == Conflicts(slots, draft, excludeId);
    forall i, j | 0 <= i < j < |cs| ensures KindOrder(cs[i].kind) < KindOrder(cs[j].kind) {
      if i < |a| {
        assert cs[i].kind == ClassConflict;
        assert cs[j] in b + c;
      } else {
        assert cs[i] in b;
        assert cs[j] in c;
      }
    }
  }

  // ---------------------------------------------------------------------
  // Order and multiplicity of the filters

  /** Removal filters each part of a list on its own, so the kept slots stay in list order. */
  lemma {:induction false} WithoutAppend(a: seq<Slot>, b: seq<Slot>, id: string)
    ensures Without(a + b, id) == Without(a, id) + Without(b, id)
    decreases |b|
  {
    if b == [] {
      assert a + b == a;
    } else {
      var init := b[..|b| - 1];
      assert (a + b)[..|a + b| - 1] == a + init;
      WithoutAppend(a, init, id);
    }
  }

  /** Every slot without the id is kept as often as it occurs; the others not at all. */
  lemma {:induction false} WithoutMultiset(slots: seq<Slot>, id: string)
    ensures forall s :: multiset(Without(slots, id))[s] == if s.id != id then multiset(slots)[s] else 0
  {
    if slots != [] {
      var init := slots[..|slots| - 1];
      WithoutMultiset(init, id);
      assert slots == init + [slots[|slots| - 1]];
    }
  }

  lemma {:induction false} MatchingAppend(a: seq<Slot>, b: seq<Slot>, f: SlotFilter)
    ensures Matching(a + b, f) == Matching(a, f) + Matching(b, f)
    decreases |b|
  {
    if b == [] {
      assert a + b == a;
    } else {
      var init := b[..|b| - 1];
      assert (a + b)[..|a + b| - 1] == a + init;
      MatchingAppend(a, init, f);
    }
  }

  lemma {:induction false} MatchingMultiset(slots: seq<Slot>, f: SlotFilter)
    ensures forall s :: multiset(Matching(slots, f))[s] == if Matches(f, s) then multiset(slots)[s] else 0
  {
    if slots != [] {
      var init := slots[..|slots| - 1];
      MatchingMultiset(init, f);
      assert slots == init + [slots[|slots| - 1]];
    }
  }

  lemma {:induction false} ClassSlotsAppend(a: seq<Slot>, b: seq<Slot>, grade: int, classNumber: int)
    ensures ClassSlots(a + b, grade, classNumber) == ClassSlots(a, grade, classNumber) + ClassSlots(b, grade, classNumber)
    decreases |b|
  {
    if b == [] {
      assert a + b == a;
    } else {
      var init := b[..|b| - 1];
      assert (a + b)[..|a + b| - 1] == a + init;
      ClassSlotsAppend(a, init, grade, classNumber);
    }
  }

  lemma {:induction false} ClassSlotsMultiset(slots: seq<Slot>, grade: int, classNumber: int)
    ensures forall s :: multiset(ClassSlots(slots, grade, classNumber))[s]
                        == if s.grade == grade && s.classNumber == classNumber then multiset(slots)[s] else 0
  {
    if slots != [] {
      var init := slots[..|slots| - 1];
      ClassSlotsMultiset(init, grade, classNumber);
      assert slots == init + [slots[|slots| - 1]];
    }
  }

  /** The class timetable is what filterSlots gives for that grade and class, both named. */
  lemma {:induction false} ClassFilterIsClassSlots(slots: seq<Slot>, grade: int, classNumber: int)
    requires grade != 0 && classNumber != 0
    ensures Matching(slots, SlotFilter(None, Some(grade), Some(classNumber), None, None)) == ClassSlots(slots, grade, classNumber)
  {
    if slots != [] {
      ClassFilterIsClassSlots(slots[..|slots| - 1], grade, classNumber);
    }
  }

  // ---------------------------------------------------------------------
  // The store

  class Store {
    var slots: seq<Slot>
    var lastSyncTime: Option<int>
    var isSyncing: bool
    var isEditing: bool

    constructor ()
      ensures slots == [] && lastSyncTime == None && !isSyncing && !isEditing
    {
      slots := [];
      lastSyncTime := None;
      isSyncing := false;
      isEditing := false;
    }

    method SetSlots(newSlots: seq<Slot>)
      modifies this
      ensures slots == newSlots
      ensures lastSyncTime == old(lastSyncTime) && isSyncing == old(isSyncing) && isEditing == old(isEditing)
    {
      slots := newSlots;
    }

    method AddSlot(s: Slot)
      modifies this
      ensures slots == old(slots) + [s]
      ensures lastSyncTime == old(lastSyncTime) && isSyncing == old(isSyncing) && isEditing == old(isEditing)
    {
      slots := slots + [s];
    }

    method UpdateSlot(id: string, patch: SlotPatch)
      modifies this
      ensures slots == Updated(old(slots), id, patch)
      ensures lastSyncTime == old(lastSyncTime) && isSyncing == old(isSyncing) && isEditing == old(isEditing)
    {
      slots := Updated(slots, id, patch);
    }

    method RemoveSlot(id: string)
      modifies this
      ensures slots == Without(old(slots), id)
      ensures lastSyncTime == old(lastSyncTime) && isSyncing == old(isSyncing) && isEditing == old(isEditing)
    {
      slots := Without(slots, id);
    }

    method ClearSlots()
      modifies this
      ensures slots == []
      ensures lastSyncTime == old(lastSyncTime) && isSyncing == old(isSyncing) && isEditing == old(isEditing)
    {
      slots := [];
    }

    method SetSyncing(syncing: bool)
      modifies this
      ensures isSyncing == syncing
      ensures slots == old(slots) && lastSyncTime == old(lastSyncTime) && isEditing == old(isEditing)
    {
      isSyncing := syncing;
    }

    method SetLastSyncTime(time: int)
      modifies this
      ensures lastSyncTime == Some(time)
      ensures slots == old(slots) && isSyncing == old(isSyncing) && isEditing == old(isEditing)
    {
      lastSyncTime := Some(time);
    }

    method SetEditing(editing: bool)
      modifies this
      ensures isEditing == editing
      ensures slots == old(slots) && lastSyncTime == old(lastSyncTime) && isSyncing == old(isSyncing)
    {
      isEditing := editing;
    }

    /** The teacher's slots and the name on the first of them; None when the teacher has none. */
    function GetTeacherTimetable(teacherId: string): (r: Option<TeacherTimetable>)
      reads this
      ensures r.None? <==> forall s :: s in slots ==> s.teacherId != teacherId
      ensures r.Some? ==> && r.value.teacherId == teacherId
                          && r.value.slots == SlotsOf(slots, teacherId)
                          && forall s :: s in r.value.slots <==> s in slots && s.teacherId == teacherId
      ensures r.Some? ==> exists i :: 0 <= i < |slots| && slots[i].teacherId == teacherId
                                      && r.value.teacherName == slots[i].teacherName
                                      && forall j :: 0 <= j < i ==> slots[j].teacherId != teacherId
    {
      var teacherSlots := SlotsOf(slots, teacherId);
      if |teacherSlots| == 0 then None
      else
        assert teacherSlots[0] in teacherSlots;
        SlotsOfFirst(slots, teacherId);
        Some(TeacherTimetable(teacherId, teacherSlots[0].teacherName, teacherSlots))
    }

    function GetClassTimetable(grade: int, classNumber: int): (r: ClassTimetable)
      reads this
      ensures r.grade == grade && r.classNumber == classNumber
      ensures r.slots == ClassSlots(slots, grade, classNumber)
      ensures forall s :: s in r.slots <==> s in slots && s.grade == grade && s.classNumber == classNumber
    {
      ClassTimetable(grade, classNumber, ClassSlots(slots, grade, classNumber))
    }

    /** The first lesson of the class at the hour, if any. */
    function GetSlotAt(day: Day, period: int, grade: int, classNumber: int): (r: Option<Slot>)
      reads this
      ensures r.None? <==> forall s :: s in slots ==> !(s.day == day && s.period == period && s.grade == grade && s.classNumber == classNumber)
      ensures r.Some? ==> exists i :: 0 <= i < |slots| && slots[i] == r.value
                                      && r.value.day == day && r.value.period == period
                                      && r.value.grade == grade && r.value.classNumber == classNumber
                                      && forall j :: 0 <= j < i ==>
                                           !(slots[j].day == day && slots[j].period == period
                                             && slots[j].grade == grade && slots[j].classNumber == classNumber)
    {
      FirstAt(slots, DayPeriod(day, period), grade, classNumber)
    }

    /** The first lesson of the teacher at the hour, if any. */
    function GetTeacherSlotAt(teacherId: string, day: Day, period: int): (r: Option<Slot>)
      reads this
      ensures r.None? <==> forall s :: s in slots ==> !(s.teacherId == teacherId && s.day == day && s.period == period)
      ensures r.Some? ==> exists i :: 0 <= i < |slots| && slots[i] == r.value
                                      && r.value.teacherId == teacherId && r.value.day == day && r.value.period == period
                                      && forall j :: 0 <= j < i ==>
                                           !(slots[j].teacherId == teacherId && slots[j].day == day && slots[j].period == period)
    {
      FirstTeacherAt(slots, teacherId, DayPeriod(day, period))
    }

    /**
     * checkConflicts: for each kind in turn (class, teacher, then room when
     * the draft names one), the first slot in the way.
     */
    function CheckConflicts(draft: SlotDraft, excludeId: Option<string>): (r: ConflictReport)
      reads this
      ensures r.hasConflict <==> exists k, s :: s in slots && Collides(k, s, draft, excludeId)
      ensures forall k :: k in KindsOf(r.conflicts) <==> exists s :: s in slots && Collides(k, s, draft, excludeId)
      ensures forall c :: c in r.conflicts ==>
                && FirstCollision(slots, c.kind, draft, excludeId) == Some(c.slot)
                && c.slot in slots && Collides(c.kind, c.slot, draft, excludeId)
      ensures forall i, j :: 0 <= i < j < |r.conflicts| ==> KindOrder(r.conflicts[i].kind) < KindOrder(r.conflicts[j].kind)
    {
      var conflicts := Conflicts(slots, draft, excludeId);
      ConflictKinds(slots, draft, excludeId);
      ConflictSlots(slots, draft, excludeId);
      ConflictOrder(slots, draft, excludeId);
      assert |conflicts| > 0 ==> conflicts[0].kind in KindsOf(conflicts);
      ConflictReport(|conflicts| > 0, conflicts)
    }

    /** filterSlots: the slots every truthy field of the filter agrees with, in order. */
    function FilterSlots(f: SlotFilter): (r: seq<Slot>)
      reads this
      ensures r == Matching(slots, f)
      ensures |r| <= |slots|
      ensures forall s :: s in r <==> s in slots && Matches(f, s)
    {
      Matching(slots, f)
    }

    /** getTeacherStats */
    method GetTeacherStats(teacherId: string) returns (st: Stats)
      ensures st == StatsOf(SlotsOf(slots, teacherId))
    {
      st := Tabulate(SlotsOf(slots, teacherId));
    }

    /** getTotalStats */
    method GetTotalStats() returns (st: Stats)
      ensures st == StatsOf(slots)
    {
      st := Tabulate(slots);
    }
  }

  /** The forEach shared by the two statistics: count by day, by period and by grade. */
  method Tabulate(slots: seq<Slot>) returns (st: Stats)
    ensures st == StatsOf(slots)
  {
    var byDay := map[Mon := 0, Tue := 0, Wed := 0, Thu := 0, Fri := 0];
    var byPeriod: map<int, int> := map[];
    var byGrade: map<int, int> := map[];
    forall d ensures d in byDay {
      assert d.Mon? || d.Tue? || d.Wed? || d.Thu? || d.Fri?;
    }
    for i := 0 to |slots|
      invariant forall d :: d in byDay && byDay[d] == DayCount(slots[..i], d)
      invariant byPeriod == PeriodTally(slots[..i])
      invariant byGrade == GradeTally(slots[..i])
    {
      var s := slots[i];
      TalliesStep(slots, i);
      byDay := byDay[s.day := byDay[s.day] + 1];
      byPeriod := Bump(byPeriod, s.period);
      byGrade := Bump(byGrade, s.grade);
    }
    TalliesWhole(slots);
    DayTallyOf(byDay, slots);
    st := Stats(|slots|, byDay, byPeriod, byGrade);
  }

  // ---------------------------------------------------------------------
  // Properties

  /** The counts of a statistics record each add up to its total. */
  lemma StatsConsistent(slots: seq<Slot>)
    ensures var st := StatsOf(slots);
            st.byDay[Mon] + st.byDay[Tue] + st.byDay[Wed] + st.byDay[Thu] + st.byDay[Fri] == st.totalSlots
    ensures SumValues(StatsOf(slots).byPeriod) == |slots|
    ensures SumValues(StatsOf(slots).byGrade) == |slots|
    ensures forall p :: p in StatsOf(slots).byPeriod ==> StatsOf(slots).byPeriod[p] == PeriodCount(slots, p)
    ensures forall g :: g in StatsOf(slots).byGrade ==> StatsOf(slots).byGrade[g] == GradeCount(slots, g)
  {
    WeekTotalIsLength(slots);
    PeriodTallyCounts(slots);
    GradeTallyCounts(slots);
  }

  /** An empty filter keeps every slot, in order. */
  lemma {:induction false} NoFilterKeepsAll(slots: seq<Slot>)
    ensures Matching(slots, NoFilter) == slots
  {
    if slots != [] {
      NoFilterKeepsAll(slots[..|slots| - 1]);
      assert slots == slots[..|slots| - 1] + [slots[|slots| - 1]];
    }
  }

  /** Filtering on a named teacher alone is the teacher's timetable. */
  lemma {:induction false} TeacherFilterIsTeacherSlots(slots: seq<Slot>, teacherId: string)
    requires teacherId != ""
    ensures Matching(slots, SlotFilter(Some(teacherId), None, None, None, None)) == SlotsOf(slots, teacherId)
  {
    if slots != [] {
      TeacherFilterIsTeacherSlots(slots[..|slots| - 1], teacherId);
    }
  }

  /** Removing a slot id twice is removing it once. */
  lemma {:induction false} WithoutIdempotent(slots: seq<Slot>, id: string)
    ensures Without(Without(slots, id), id) == Without(slots, id)
  {
    if slots != [] {
      var init := slots[..|slots| - 1];
      var last := slots[|slots| - 1];
      WithoutIdempotent(init, id);
      var w := Without(init, id);
      if last.id != id {
        assert Without(slots, id) == w + [last];
        assert (w + [last])[..|w|] == w;
        assert Without(w + [last], id) == Without(w, id) + [last];
      } else {
        assert Without(slots, id) == w;
      }
    }
  }

  /** Distinct ids stay distinct under adding a fresh id, removing, and patching without an id change. */
  lemma UniqueIdsKept(slots: seq<Slot>, s: Slot, id: string, p: SlotPatch)
    requires UniqueIds(slots)
    ensures (forall t :: t in slots ==> t.id != s.id) ==> UniqueIds(slots + [s])
    ensures p.id.None? || p.id.value == id ==> UniqueIds(Updated(slots, id, p))
  {
    if forall t :: t in slots ==> t.id != s.id {
      var r := slots + [s];
      forall i, j | 0 <= i < j < |r| ensures r[i].id != r[j].id {
        if j == |slots| {
          assert r[i] in slots;
        }
      }
    }
  }

  /** Removing keeps the remaining ids distinct. */
  lemma {:induction false} WithoutUnique(slots: seq<Slot>, id: string)
    requires UniqueIds(slots)
    ensures UniqueIds(Without(slots, id))
  {
    if slots != [] {
      var init := slots[..|slots| - 1];
      var last := slots[|slots| - 1];
      assert UniqueIds(init);
      WithoutUnique(init, id);
      var w := Without(init, id);
      if last.id != id {
        assert Without(slots, id) == w + [last];
        forall i, j | 0 <= i < j < |w + [last]| ensures (w + [last])[i].id != (w + [last])[j].id {
          if j == |w| {
            assert w[i] in init;
            var k :| 0 <= k < |init| && init[k] == w[i];
            assert slots[k] == init[k];
          }
        }
      } else {
        assert Without(slots, id) == w;
      }
    }
  }

  /** Removing an id no slot has changes nothing. */
  lemma {:induction false} WithoutAbsent(slots: seq<Slot>, id: string)
    requires forall s :: s in slots ==> s.id != id
    ensures Without(slots, id) == slots
  {
    if slots != [] {
      var init := slots[..|slots| - 1];
      var last := slots[|slots| - 1];
      assert slots == init + [last];
      WithoutAbsent(init, id);
    }
  }

  /** With distinct ids, removing an id some slot has removes exactly one slot. */
  lemma {:induction false} WithoutRemovesOne(slots: seq<Slot>, id: string)
    requires UniqueIds(slots)
    requires exists s :: s in slots && s.id == id
    ensures |Without(slots, id)| == |slots| - 1
  {
    var init := slots[..|slots| - 1];
    var last := slots[|slots| - 1];
    assert slots == init + [last];
    assert UniqueIds(init);
    if last.id == id {
      assert forall s :: s in init ==> s.id != id by {
        forall s | s in init ensures s.id != id {
          var k :| 0 <= k < |init| && init[k] == s;
          assert slots[k] == s;
        }
      }
      WithoutAbsent(init, id);
      assert Without(slots, id) == init;
    } else {
      var s :| s in slots && s.id == id;
      assert s in init;
      WithoutRemovesOne(init, id);
      assert Without(slots, id) == Without(init, id) + [last];
    }
  }

  /** Adding a slot with a fresh id and then removing that id restores the list. */
  lemma AddThenRemove(slots: seq<Slot>, s: Slot)
    requires forall t :: t in slots ==> t.id != s.id
    ensures Without(slots + [s], s.id) == slots
  {
    assert (slots + [s])[..|slots|] == slots;
    WithoutAbsent(slots, s.id);
  }
}

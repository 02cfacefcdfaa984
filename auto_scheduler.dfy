/**
 * runAutoSchedule (src/lib/autoScheduler.ts): serve every request, class by
 * class and hour by hour, placing each hour in the first free cell that
 * findAvailableSlot reports, and record the hours that found none.
 *
 * The source threads one set of local indexes and one list of new slots
 * through its three nested loops; here they are a Session value passed
 * from loop to loop. Slot ids come from `newId`, applied to the number of
 * slots placed before.
 */
module AutoScheduler {
  import opened Types
  import opened Timetable
  import opened SlotSearch
  import opened SchedulerRequests
  import Sorting

  /** `Partial<ScheduleConstraints>`: the fields the caller supplies. */
  datatype ConstraintOverrides = ConstraintOverrides(
    teacherUnavailable: Option<seq<Blackout>>,
    maxConsecutive: Option<int>,
    maxPerDay: Option<int>,
    subjectRoomRequirements: Option<seq<RoomRequirement>>)

  const NoOverrides := ConstraintOverrides(None, None, None, None)

  const DefaultConstraints := Constraints([], 4, 6, [])

  /** The defaults, with every supplied field replacing its default. */
  function MergeConstraints(o: ConstraintOverrides): (c: Constraints)
    ensures o == NoOverrides ==> c == DefaultConstraints
    ensures o.maxConsecutive.Some? ==> c.maxConsecutive == o.maxConsecutive.value
    ensures o.maxPerDay.Some? ==> c.maxPerDay == o.maxPerDay.value
    ensures o.teacherUnavailable.Some? ==> c.teacherUnavailable == o.teacherUnavailable.value
    ensures o.maxConsecutive.None? ==> c.maxConsecutive == 4
    ensures o.maxPerDay.None? ==> c.maxPerDay == 6
    ensures o.teacherUnavailable.None? ==> c.teacherUnavailable == []
  {
    Constraints(
      if o.teacherUnavailable.Some? then o.teacherUnavailable.value else [],
      if o.maxConsecutive.Some? then o.maxConsecutive.value else 4,
      if o.maxPerDay.Some? then o.maxPerDay.value else 6,
      if o.subjectRoomRequirements.Some? then o.subjectRoomRequirements.value else [])
  }

  /** An unserved class of a request; the source writes `shortfall` into its reason text. */
  datatype Unassigned = Unassigned(teacherId: string, subject: string, grade: int, classNumber: int, shortfall: int)

  datatype Message = NoSpecialists | NothingToAssign | Completed(placedHours: int, unplacedHours: int)

  datatype ScheduleResult = ScheduleResult(success: bool, slots: seq<Slot>, unassigned: seq<Unassigned>, message: Message)

  /** `schoolInfo.classesByGrade[grade] || 0` */
  function ClassCount(info: SchoolSheetInfo, grade: int): int
  {
    NumberOr(info.classesByGrade.At(grade), 0)
  }

  /** The hours one request asks for: its hours in each of classes 1..classCount. */
  function ClassDemand(r: Request, info: SchoolSheetInfo): nat
  {
    if ClassCount(info, r.grade) > 0 && r.hoursNeeded > 0 then ClassCount(info, r.grade) * r.hoursNeeded else 0
  }

  function Demand(requests: seq<Request>, info: SchoolSheetInfo): nat
  {
    if requests == [] then 0
    else Demand(requests[..|requests| - 1], info) + ClassDemand(requests[|requests| - 1], info)
  }

  /** `totalUnassigned`: the sum of the hours read back from the reasons. */
  function SumShortfall(us: seq<Unassigned>): int
  {
    if us == [] then 0 else SumShortfall(us[..|us| - 1]) + us[|us| - 1].shortfall
  }

  // ---------------------------------------------------------------------
  // What a placement guarantees

  /** The k-th new slot was admissible when it was placed, in periods 1..6. */
  ghost predicate PlacementOk(c: Constraints, existing: seq<Slot>, placed: seq<Slot>, k: int)
    requires 0 <= k < |placed|
  {
    var s := placed[k];
    1 <= s.period <= 6
    && Admissible(c, existing, placed[..k], s.teacherId, s.grade, s.classNumber, DayPeriod(s.day, s.period))
  }

  ghost predicate PlacementsOk(c: Constraints, existing: seq<Slot>, placed: seq<Slot>)
  {
    forall k :: 0 <= k < |placed| ==> PlacementOk(c, existing, placed, k)
  }

  /** The slot serves request r in one of the grade's classes. */
  ghost predicate Made(s: Slot, r: Request, info: SchoolSheetInfo)
  {
    1 <= s.classNumber <= ClassCount(info, r.grade) && s == NewSlot(s.id, r, s.classNumber, DayPeriod(s.day, s.period))
  }

  /** The record names request r and one of the grade's classes. */
  ghost predicate Records(u: Unassigned, r: Request, info: SchoolSheetInfo)
  {
    u.teacherId == r.teacherId && u.subject == r.subject && u.grade == r.grade
    && 1 <= u.classNumber <= ClassCount(info, r.grade) && 0 < u.shortfall <= r.hoursNeeded
  }

  /** Every placed slot has the id of its position and serves one of the requests. */
  ghost predicate Serves(placed: seq<Slot>, requests: seq<Request>, info: SchoolSheetInfo, newId: nat -> string)
  {
    forall k :: 0 <= k < |placed| ==>
      placed[k].id == newId(k) && exists r :: r in requests && Made(placed[k], r, info)
  }

  /** Every record names one of the requests. */
  ghost predicate Recorded(unassigned: seq<Unassigned>, requests: seq<Request>, info: SchoolSheetInfo)
  {
    forall u :: u in unassigned ==> exists r :: r in requests && Records(u, r, info)
  }

  ghost predicate Valid(sess: Session)
  {
    Indexes(sess.occ, sess.existing + sess.placed)
  }

  /** No cell of periods 1..6 is admissible for the class. */
  ghost predicate NoRoom(sess: Session, c: Constraints, req: Request, classNumber: int)
  {
    forall d, p :: 1 <= p <= 6 ==> !AdmissibleIn(sess, c, req, classNumber, DayPeriod(d, p))
  }

  lemma PlacementsExtend(c: Constraints, existing: seq<Slot>, placed: seq<Slot>, s: Slot)
    requires PlacementsOk(c, existing, placed)
    requires 1 <= s.period <= 6
    requires Admissible(c, existing, placed, s.teacherId, s.grade, s.classNumber, DayPeriod(s.day, s.period))
    ensures PlacementsOk(c, existing, placed + [s])
  {
    var p := placed + [s];
    forall k | 0 <= k < |p| ensures PlacementOk(c, existing, p, k) {
      if k < |placed| {
        assert p[..k] == placed[..k];
        assert PlacementOk(c, existing, placed, k);
      } else {
        assert p[..k] == placed;
      }
    }
  }

  /** Recording a placed slot keeps the indexes exact and every placement admissible. */
  lemma SessionStep(sess: Session, c: Constraints, req: Request, classNumber: int, s: Slot)
    requires Valid(sess)
    requires PlacementsOk(c, sess.existing, sess.placed)
    requires s.teacherId == req.teacherId && s.grade == req.grade && s.classNumber == classNumber
    requires 1 <= s.period <= 6 && AdmissibleIn(sess, c, req, classNumber, DayPeriod(s.day, s.period))
    ensures Valid(Session(sess.occ.Register(s), sess.existing, sess.placed + [s]))
    ensures PlacementsOk(c, sess.existing, sess.placed + [s])
  {
    AdmissibleInIndexes(sess, c, req, classNumber, DayPeriod(s.day, s.period));
    PlacementsExtend(c, sess.existing, sess.placed, s);
    RegisterIndexes(sess.occ, sess.existing + sess.placed, s);
    assert (sess.existing + sess.placed) + [s] == sess.existing + (sess.placed + [s]);
  }

  /** The slots from index `from` on were all built for the request and class, with ids by index. */
  ghost predicate BuiltFrom(placed: seq<Slot>, from: int, req: Request, classNumber: int, newId: nat -> string)
  {
    forall k :: 0 <= from <= k < |placed| ==>
      placed[k] == NewSlot(newId(k), req, classNumber, DayPeriod(placed[k].day, placed[k].period))
  }

  lemma BuiltFromExtend(placed: seq<Slot>, from: int, req: Request, classNumber: int, newId: nat -> string, s: Slot)
    requires 0 <= from <= |placed|
    requires BuiltFrom(placed, from, req, classNumber, newId)
    requires s == NewSlot(newId(|placed|), req, classNumber, DayPeriod(s.day, s.period))
    ensures BuiltFrom(placed + [s], from, req, classNumber, newId)
    ensures (placed + [s])[..from] == placed[..from]
  {
    var p := placed + [s];
    forall k | from <= k < |p|
      ensures p[k] == NewSlot(newId(k), req, classNumber, DayPeriod(p[k].day, p[k].period))
    {
      if k < |placed| {
        assert p[k] == placed[k];
      }
    }
  }

  /** The slots from index `from` on each have the id of their position and serve the request. */
  ghost predicate MadeFrom(placed: seq<Slot>, from: int, req: Request, info: SchoolSheetInfo, newId: nat -> string)
  {
    forall k :: 0 <= from <= k < |placed| ==> placed[k].id == newId(k) && Made(placed[k], req, info)
  }

  lemma MadeFromExtend(prev: seq<Slot>, placed: seq<Slot>, from: int, req: Request, classNumber: int,
                       info: SchoolSheetInfo, newId: nat -> string)
    requires 0 <= from <= |prev| <= |placed| && placed[..|prev|] == prev
    requires 1 <= classNumber <= ClassCount(info, req.grade)
    requires MadeFrom(prev, from, req, info, newId)
    requires BuiltFrom(placed, |prev|, req, classNumber, newId)
    ensures MadeFrom(placed, from, req, info, newId)
  {
    forall k | from <= k < |placed| ensures placed[k].id == newId(k) && Made(placed[k], req, info) {
      if k < |prev| {
        assert placed[k] == prev[k];
      }
    }
  }

  // ---------------------------------------------------------------------
  // Class by class accounting

  /** The hours a request asks of each class: `attempt < hoursNeeded` runs no attempt when it is not positive. */
  function HoursPerClass(r: Request): nat
  {
    if r.hoursNeeded > 0 then r.hoursNeeded else 0
  }

  /** The number of slots of class k. */
  function ClassHours(slots: seq<Slot>, k: int): nat
  {
    if slots == [] then 0
    else ClassHours(slots[..|slots| - 1], k) + (if slots[|slots| - 1].classNumber == k then 1 else 0)
  }

  /** The shortfall recorded for class k. */
  function ShortfallFor(us: seq<Unassigned>, k: int): int
  {
    if us == [] then 0
    else ShortfallFor(us[..|us| - 1], k) + (if us[|us| - 1].classNumber == k then us[|us| - 1].shortfall else 0)
  }

  /** The number of records for class k. */
  function RecordsFor(us: seq<Unassigned>, k: int): nat
  {
    if us == [] then 0
    else RecordsFor(us[..|us| - 1], k) + (if us[|us| - 1].classNumber == k then 1 else 0)
  }

  /** Class k got its hours, each one either placed or recorded short, and one record iff short. */
  ghost predicate Accounted(added: seq<Slot>, missing: seq<Unassigned>, hours: nat, k: int)
  {
    && ClassHours(added, k) + ShortfallFor(missing, k) == hours
    && RecordsFor(missing, k) == (if ClassHours(added, k) < hours then 1 else 0)
  }

  lemma {:induction false} ClassHoursAppend(a: seq<Slot>, b: seq<Slot>, k: int)
    ensures ClassHours(a + b, k) == ClassHours(a, k) + ClassHours(b, k)
    decreases |b|
  {
    if b == [] {
      assert a + b == a;
    } else {
      var init := b[..|b| - 1];
      assert (a + b)[..|a + b| - 1] == a + init;
      ClassHoursAppend(a, init, k);
    }
  }

  /** Slots all of one class count fully for it and not at all for any other. */
  lemma {:induction false} ClassHoursOfOne(slots: seq<Slot>, cn: int, k: int)
    requires forall s :: s in slots ==> s.classNumber == cn
    ensures ClassHours(slots, k) == if k == cn then |slots| else 0
  {
    if slots != [] {
      var init := slots[..|slots| - 1];
      assert slots[|slots| - 1] in slots;
      assert forall s :: s in init ==> s in slots;
      ClassHoursOfOne(init, cn, k);
    }
  }

  /** A class no slot names has no hours. */
  lemma {:induction false} ClassHoursNone(slots: seq<Slot>, k: int)
    requires forall s :: s in slots ==> s.classNumber != k
    ensures ClassHours(slots, k) == 0
  {
    if slots != [] {
      var init := slots[..|slots| - 1];
      assert slots[|slots| - 1] in slots;
      assert forall s :: s in init ==> s in slots;
      ClassHoursNone(init, k);
    }
  }

  /** A class no record names has no shortfall and no record. */
  lemma {:induction false} RecordsNone(us: seq<Unassigned>, k: int)
    requires forall u :: u in us ==> u.classNumber != k
    ensures ShortfallFor(us, k) == 0 && RecordsFor(us, k) == 0
  {
    if us != [] {
      var init := us[..|us| - 1];
      assert us[|us| - 1] in us;
      assert forall u :: u in init ==> u in us;
      RecordsNone(init, k);
    }
  }

  /**
   * One pass of the class loop: class cn's slots `seg` and its record `extra`
   * (present iff fewer than the hours were placed) settle class cn and
   * leave the classes before it settled.
   */
  lemma AccountStep(added: seq<Slot>, seg: seq<Slot>, missing: seq<Unassigned>, extra: seq<Unassigned>,
                    hours: nat, cn: int)
    requires forall k :: 1 <= k < cn ==> Accounted(added, missing, hours, k)
    requires forall s :: s in added ==> s.classNumber < cn
    requires forall u :: u in missing ==> u.classNumber < cn
    requires forall s :: s in seg ==> s.classNumber == cn
    requires |seg| <= hours
    requires |seg| == hours ==> extra == []
    requires |seg| < hours ==> |extra| == 1 && extra[0].classNumber == cn && extra[0].shortfall == hours - |seg|
    ensures forall k :: 1 <= k <= cn ==> Accounted(added + seg, missing + extra, hours, k)
  {
    forall k | 1 <= k <= cn ensures Accounted(added + seg, missing + extra, hours, k) {
      ClassHoursAppend(added, seg, k);
      ClassHoursOfOne(seg, cn, k);
      var m := missing + extra;
      if extra != [] {
        assert m[..|m| - 1] == missing;
        assert m[|m| - 1] == extra[0];
        assert ShortfallFor(m, k) == ShortfallFor(missing, k) + (if k == cn then hours - |seg| else 0);
        assert RecordsFor(m, k) == RecordsFor(missing, k) + (if k == cn then 1 else 0);
      } else {
        assert m == missing;
      }
      if k == cn {
        ClassHoursNone(added, k);
        RecordsNone(missing, k);
      } else {
        assert Accounted(added, missing, hours, k);
      }
    }
  }

  /** The class loop's bookkeeping over one pass: the slots placed from `from` on, and the records. */
  ghost predicate ClassesSettled(added: seq<Slot>, missing: seq<Unassigned>, hours: nat, cn: int)
  {
    && (forall i, j :: 0 <= i < j < |missing| ==> missing[i].classNumber < missing[j].classNumber)
    && (forall u :: u in missing ==> u.classNumber < cn)
    && (forall s :: s in added ==> s.classNumber < cn)
    && (forall k :: 1 <= k < cn ==> Accounted(added, missing, hours, k))
  }

  /** The slots of one pass all belong to the class served. */
  lemma BuiltFromClass(prev: seq<Slot>, placed: seq<Slot>, req: Request, cn: int, newId: nat -> string)
    requires |prev| <= |placed|
    requires BuiltFrom(placed, |prev|, req, cn, newId)
    ensures forall s :: s in placed[|prev|..] ==> s.classNumber == cn
  {
    var seg := placed[|prev|..];
    forall s | s in seg ensures s.classNumber == cn {
      var k :| 0 <= k < |seg| && seg[k] == s;
      assert s == placed[|prev| + k];
    }
  }

  /** A record for class cn after records of earlier classes keeps them in class order. */
  lemma RecordsExtend(missing: seq<Unassigned>, extra: seq<Unassigned>, cn: int)
    requires forall i, j :: 0 <= i < j < |missing| ==> missing[i].classNumber < missing[j].classNumber
    requires forall u :: u in missing ==> u.classNumber < cn
    requires extra == [] || (|extra| == 1 && extra[0].classNumber == cn)
    ensures var m := missing + extra;
            && (forall i, j :: 0 <= i < j < |m| ==> m[i].classNumber < m[j].classNumber)
            && (forall u :: u in m ==> u.classNumber < cn + 1)
            && SumShortfall(m) == SumShortfall(missing) + (if extra == [] then 0 else extra[0].shortfall)
  {
    var m := missing + extra;
    if extra != [] {
      assert m[..|missing|] == missing;
    } else {
      assert m == missing;
    }
    forall i, j | 0 <= i < j < |m| ensures m[i].classNumber < m[j].classNumber {
      if j >= |missing| {
        assert m[i] in missing;
      }
    }
  }

  /** Slots of earlier classes followed by slots of class cn all come before class cn + 1. */
  lemma SlotsExtend(added: seq<Slot>, seg: seq<Slot>, cn: int)
    requires forall s :: s in added ==> s.classNumber < cn
    requires forall s :: s in seg ==> s.classNumber == cn
    ensures forall s :: s in added + seg ==> s.classNumber < cn + 1
  {
  }

  lemma ClassPass(from: nat, prev: seq<Slot>, placed: seq<Slot>, req: Request, cn: int, newId: nat -> string,
                  missing: seq<Unassigned>, extra: seq<Unassigned>)
    requires from <= |prev| <= |placed| && placed[..|prev|] == prev
    requires BuiltFrom(placed, |prev|, req, cn, newId)
    requires |placed| - |prev| <= HoursPerClass(req)
    requires |placed| - |prev| == HoursPerClass(req) ==> extra == []
    requires |placed| - |prev| < HoursPerClass(req) ==>
               |extra| == 1 && extra[0].classNumber == cn && extra[0].shortfall == HoursPerClass(req) - (|placed| - |prev|)
    requires ClassesSettled(prev[from..], missing, HoursPerClass(req), cn)
    ensures ClassesSettled(placed[from..], missing + extra, HoursPerClass(req), cn + 1)
    ensures SumShortfall(missing + extra) == SumShortfall(missing) + HoursPerClass(req) - (|placed| - |prev|)
  {
    var seg := placed[|prev|..];
    assert placed[from..] == prev[from..] + seg;
    BuiltFromClass(prev, placed, req, cn, newId);
    RecordsExtend(missing, extra, cn);
    SlotsExtend(prev[from..], seg, cn);
    AccountStep(prev[from..], seg, missing, extra, HoursPerClass(req), cn);
  }

  /** What the class loop keeps between classes, `cn` being the next class. */
  ghost predicate RequestProgress(sess: Session, next: Session, missing: seq<Unassigned>, req: Request,
                                  info: SchoolSheetInfo, c: Constraints, newId: nat -> string, cn: int)
  {
    && Valid(next) && next.existing == sess.existing
    && PlacementsOk(c, next.existing, next.placed)
    && |sess.placed| <= |next.placed| && next.placed[..|sess.placed|] == sess.placed
    && MadeFrom(next.placed, |sess.placed|, req, info, newId)
    && (forall u :: u in missing ==> Records(u, req, info))
    && ClassesSettled(next.placed[|sess.placed|..], missing, HoursPerClass(req), cn)
  }

  /** One class served by the attempt loop moves the class loop on by one class. */
  lemma RequestStep(sess: Session, prev: Session, next: Session, hoursAssigned: nat,
                    missing: seq<Unassigned>, extra: seq<Unassigned>,
                    req: Request, info: SchoolSheetInfo, c: Constraints, newId: nat -> string, cn: int)
    requires RequestProgress(sess, prev, missing, req, info, c, newId, cn)
    requires 1 <= cn <= ClassCount(info, req.grade)
    requires Valid(next) && next.existing == prev.existing
    requires PlacementsOk(c, next.existing, next.placed)
    requires |next.placed| == |prev.placed| + hoursAssigned && next.placed[..|prev.placed|] == prev.placed
    requires hoursAssigned <= HoursPerClass(req)
    requires BuiltFrom(next.placed, |prev.placed|, req, cn, newId)
    requires extra == if hoursAssigned < req.hoursNeeded
                      then [Unassigned(req.teacherId, req.subject, req.grade, cn, req.hoursNeeded - hoursAssigned)]
                      else []
    ensures RequestProgress(sess, next, missing + extra, req, info, c, newId, cn + 1)
    ensures SumShortfall(missing + extra) == SumShortfall(missing) + HoursPerClass(req) - hoursAssigned
  {
    assert next.placed[..|sess.placed|] == prev.placed[..|sess.placed|] by {
      assert next.placed[..|prev.placed|] == prev.placed;
    }
    MadeFromExtend(prev.placed, next.placed, |sess.placed|, req, cn, info, newId);
    ClassPass(|sess.placed|, prev.placed, next.placed, req, cn, newId, missing, extra);
  }

  // ---------------------------------------------------------------------
  // The loops

  /** The forEach over the existing slots that seeds the two indexes. */
  method SeedIndexes(existing: seq<Slot>) returns (occ: Occupancy)
    ensures Indexes(occ, existing)
  {
    occ := EmptyOccupancy;
    EmptyIndexes();
    for i := 0 to |existing|
      invariant Indexes(occ, existing[..i])
    {
      RegisterIndexes(occ, existing[..i], existing[i]);
      assert existing[..i + 1] == existing[..i] + [existing[i]];
      occ := occ.Register(existing[i]);
    }
    assert existing[..|existing|] == existing;
  }

  /** The attempt loop for one class: up to hoursNeeded searches, each placed slot recorded. */
  method PlaceClass(req: Request, classNumber: int, c: Constraints, sess: Session, newId: nat -> string)
    returns (next: Session, hoursAssigned: nat)
    requires Valid(sess)
    requires PlacementsOk(c, sess.existing, sess.placed)
    ensures Valid(next) && next.existing == sess.existing
    ensures PlacementsOk(c, next.existing, next.placed)
    ensures |next.placed| == |sess.placed| + hoursAssigned && next.placed[..|sess.placed|] == sess.placed
    ensures hoursAssigned <= (if req.hoursNeeded > 0 then req.hoursNeeded else 0)
    ensures BuiltFrom(next.placed, |sess.placed|, req, classNumber, newId)
    ensures hoursAssigned < req.hoursNeeded ==>
              forall d, p :: 1 <= p <= 6 ==>
                !Admissible(c, next.existing, next.placed, req.teacherId, req.grade, classNumber, DayPeriod(d, p))
  {
    next := sess;
    hoursAssigned := 0;
    var attempt := 0;
    while attempt < req.hoursNeeded
      invariant 0 <= hoursAssigned <= attempt
      invariant attempt <= (if req.hoursNeeded > 0 then req.hoursNeeded else 0)
      invariant Valid(next) && next.existing == sess.existing
      invariant PlacementsOk(c, next.existing, next.placed)
      invariant |next.placed| == |sess.placed| + hoursAssigned && next.placed[..|sess.placed|] == sess.placed
      invariant BuiltFrom(next.placed, |sess.placed|, req, classNumber, newId)
      invariant hoursAssigned < attempt ==> NoRoom(next, c, req, classNumber)
    {
      var slot := FindAvailableSlot(req, classNumber, next, c, newId(|next.placed|));
      if slot.Some? {
        var s := slot.value;
        SessionStep(next, c, req, classNumber, s);
        BuiltFromExtend(next.placed, |sess.placed|, req, classNumber, newId, s);
        next := Session(next.occ.Register(s), next.existing, next.placed + [s]);
        hoursAssigned := hoursAssigned + 1;
      }
      attempt := attempt + 1;
    }
    if hoursAssigned < req.hoursNeeded {
      forall d, p | 1 <= p <= 6
        ensures !Admissible(c, next.existing, next.placed, req.teacherId, req.grade, classNumber, DayPeriod(d, p))
      {
        AdmissibleInIndexes(next, c, req, classNumber, DayPeriod(d, p));
      }
    }
  }

  /** The class loop for one request: classes 1..classCount, a record for each class left short. */
  method PlaceRequest(req: Request, info: SchoolSheetInfo, c: Constraints, sess: Session, newId: nat -> string)
    returns (next: Session, missing: seq<Unassigned>)
    requires Valid(sess)
    requires PlacementsOk(c, sess.existing, sess.placed)
    ensures Valid(next) && next.existing == sess.existing
    ensures PlacementsOk(c, next.existing, next.placed)
    ensures |sess.placed| <= |next.placed| && next.placed[..|sess.placed|] == sess.placed
    ensures |next.placed| - |sess.placed| + SumShortfall(missing) == ClassDemand(req, info)
    ensures MadeFrom(next.placed, |sess.placed|, req, info, newId)
    ensures forall u :: u in missing ==> Records(u, req, info)
    ensures forall k :: 1 <= k <= ClassCount(info, req.grade) ==>
              Accounted(next.placed[|sess.placed|..], missing, HoursPerClass(req), k)
    ensures forall i, j :: 0 <= i < j < |missing| ==> missing[i].classNumber < missing[j].classNumber
  {
    var classCount := ClassCount(info, req.grade);
    next := sess;
    missing := [];
    if classCount == 0 {
      return;
    }
    var hours := HoursPerClass(req);
    var classNum := 1;
    while classNum <= classCount
      invariant 1 <= classNum <= (if classCount >= 1 then classCount + 1 else 1)
      invariant RequestProgress(sess, next, missing, req, info, c, newId, classNum)
      invariant |next.placed| - |sess.placed| + SumShortfall(missing) == (classNum - 1) * hours
    {
      ghost var prev := next;
      var hoursAssigned;
      next, hoursAssigned := PlaceClass(req, classNum, c, next, newId);
      var extra := [];
      if hoursAssigned < req.hoursNeeded {
        extra := [Unassigned(req.teacherId, req.subject, req.grade, classNum, req.hoursNeeded - hoursAssigned)];
      }
      RequestStep(sess, prev, next, hoursAssigned, missing, extra, req, info, c, newId, classNum);
      missing := missing + extra;
      assert classNum * hours == (classNum - 1) * hours + hours;
      classNum := classNum + 1;
    }
  }

  lemma {:induction false} SumShortfallAppend(a: seq<Unassigned>, b: seq<Unassigned>)
    ensures SumShortfall(a + b) == SumShortfall(a) + SumShortfall(b)
    decreases |b|
  {
    if b == [] {
      assert a + b == a;
    } else {
      var init := b[..|b| - 1];
      assert (a + b)[..|a + b| - 1] == a + init;
      SumShortfallAppend(a, init);
    }
  }

  /** Records with positive shortfalls sum to zero only when there are none. */
  lemma {:induction false} SumShortfallPositive(us: seq<Unassigned>)
    requires forall u :: u in us ==> u.shortfall > 0
    ensures us != [] ==> SumShortfall(us) > 0
    ensures us == [] ==> SumShortfall(us) == 0
  {
    if us != [] {
      var init := us[..|us| - 1];
      assert forall u :: u in init ==> u in us;
      SumShortfallPositive(init);
    }
  }

  /** The request loop of runAutoSchedule, from the seeded indexes and no new slots. */
  method ServeRequests(requests: seq<Request>, info: SchoolSheetInfo, c: Constraints, existing: seq<Slot>,
                       occ: Occupancy, newId: nat -> string)
    returns (placed: seq<Slot>, unassigned: seq<Unassigned>)
    requires Indexes(occ, existing)
    ensures PlacementsOk(c, existing, placed)
    ensures |placed| + SumShortfall(unassigned) == Demand(requests, info)
    ensures Serves(placed, requests, info, newId)
    ensures Recorded(unassigned, requests, info)
  {
    var sess := Session(occ, existing, []);
    assert existing + [] == existing;
    unassigned := [];
    for i := 0 to |requests|
      invariant Valid(sess) && sess.existing == existing
      invariant PlacementsOk(c, existing, sess.placed)
      invariant |sess.placed| + SumShortfall(unassigned) == Demand(requests[..i], info)
      invariant Serves(sess.placed, requests, info, newId)
      invariant Recorded(unassigned, requests, info)
    {
      ghost var prev := sess.placed;
      var missing;
      sess, missing := PlaceRequest(requests[i], info, c, sess, newId);
      forall k | 0 <= k < |sess.placed|
        ensures sess.placed[k].id == newId(k) && exists r :: r in requests && Made(sess.placed[k], r, info)
      {
        if k < |prev| {
          assert sess.placed[k] == sess.placed[..|prev|][k];
        } else {
          assert Made(sess.placed[k], requests[i], info);
        }
      }
      SumShortfallAppend(unassigned, missing);
      assert requests[..i + 1][..i] == requests[..i];
      unassigned := unassigned + missing;
    }
    assert requests[..|requests|] == requests;
    placed := sess.placed;
  }

  /**
   * runAutoSchedule. The settings argument is unused; `newId(k)` is the id
   * of the k-th new slot.
   */
  method RunAutoSchedule(teachers: seq<Teacher>, existingSlots: seq<Slot>, subjects: seq<SubjectInfo>,
                         info: SchoolSheetInfo, settings: SheetSettings, overrides: ConstraintOverrides,
                         newId: nat -> string)
    returns (result: ScheduleResult)
    ensures Specialists(teachers) == [] ==> result == ScheduleResult(false, [], [], NoSpecialists)
    ensures Specialists(teachers) != [] && RequestsFor(Specialists(teachers), subjects) == [] ==>
              result == ScheduleResult(true, [], [], NothingToAssign)
    ensures Specialists(teachers) != [] && RequestsFor(Specialists(teachers), subjects) != [] ==>
              && result.message == Completed(|result.slots|, SumShortfall(result.unassigned))
              && (result.success <==> result.unassigned == [])
              && (result.success <==> |result.slots| == Demand(RequestsFor(Specialists(teachers), subjects), info))
              && |result.slots| + SumShortfall(result.unassigned) == Demand(RequestsFor(Specialists(teachers), subjects), info)
    ensures PlacementsOk(MergeConstraints(overrides), existingSlots, result.slots)
    ensures Serves(result.slots, RequestsFor(Specialists(teachers), subjects), info, newId)
    ensures Recorded(result.unassigned, RequestsFor(Specialists(teachers), subjects), info)
  {
    var specialists := Specialists(teachers);
    if |specialists| == 0 {
      return ScheduleResult(false, [], [], NoSpecialists);
    }
    var c := MergeConstraints(overrides);
    var requests := GenerateAssignmentRequests(specialists, subjects, info);
    if |requests| == 0 {
      return ScheduleResult(true, [], [], NothingToAssign);
    }
    var occ := SeedIndexes(existingSlots);
    var sorted := SortRequests(requests);
    var placed, unassigned := ServeRequests(sorted, info, c, existingSlots, occ, newId);
    DemandPermutation(sorted, requests, info);
    ServesPermuted(placed, sorted, requests, info, newId);
    RecordsPermuted(unassigned, sorted, requests, info);
    SumShortfallPositive(unassigned);
    var totalAssigned := |placed|;
    var totalUnassigned := SumShortfall(unassigned);
    result := ScheduleResult(|unassigned| == 0, placed, unassigned, Completed(totalAssigned, totalUnassigned));
  }

  /** Serving a reordering of the requests serves the requests themselves. */
  lemma ServesPermuted(placed: seq<Slot>, sorted: seq<Request>, requests: seq<Request>, info: SchoolSheetInfo,
                       newId: nat -> string)
    requires multiset(sorted) == multiset(requests)
    requires Serves(placed, sorted, info, newId)
    ensures Serves(placed, requests, info, newId)
  {
    forall k | 0 <= k < |placed|
      ensures placed[k].id == newId(k) && exists r :: r in requests && Made(placed[k], r, info)
    {
      assert placed[k].id == newId(k) && exists r :: r in sorted && Made(placed[k], r, info);
      var r :| r in sorted && Made(placed[k], r, info);
      assert r in multiset(sorted);
    }
  }

  /** Records made for a reordering of the requests name the requests themselves, each with a positive shortfall. */
  lemma RecordsPermuted(unassigned: seq<Unassigned>, sorted: seq<Request>, requests: seq<Request>, info: SchoolSheetInfo)
    requires multiset(sorted) == multiset(requests)
    requires Recorded(unassigned, sorted, info)
    ensures Recorded(unassigned, requests, info)
    ensures forall u :: u in unassigned ==> u.shortfall > 0
  {
    forall u | u in unassigned ensures u.shortfall > 0 && exists r :: r in requests && Records(u, r, info) {
      var r :| r in sorted && Records(u, r, info);
      assert r in multiset(sorted);
    }
  }

  // ---------------------------------------------------------------------
  // Demand does not depend on the serving order

  lemma {:induction false} DemandAppend(a: seq<Request>, b: seq<Request>, info: SchoolSheetInfo)
    ensures Demand(a + b, info) == Demand(a, info) + Demand(b, info)
    decreases |b|
  {
    if b == [] {
      assert a + b == a;
    } else {
      var init := b[..|b| - 1];
      assert (a + b)[..|a + b| - 1] == a + init;
      DemandAppend(a, init, info);
    }
  }

  /** Reordering the requests does not change the total demand. */
  lemma {:induction false} DemandPermutation(a: seq<Request>, b: seq<Request>, info: SchoolSheetInfo)
    requires multiset(a) == multiset(b)
    ensures Demand(a, info) == Demand(b, info)
    decreases |a|
  {
    if a != [] {
      var init := a[..|a| - 1];
      var x := a[|a| - 1];
      assert x in multiset(a);
      var j :| 0 <= j < |b| && b[j] == x;
      var rest := b[..j] + b[j + 1..];
      Sorting.LastRemoved(a, b, j);
      DemandPermutation(init, rest, info);
      DemandRemove(b, j, info);
      assert a == init + [x];
      DemandAppend(init, [x], info);
      assert Demand([x], info) == ClassDemand(x, info) by {
        assert [x][..0] == [];
      }
    } else {
      assert |b| == |multiset(b)| == 0;
    }
  }

  /** Taking one request out of a list takes out its demand. */
  lemma DemandRemove(b: seq<Request>, j: nat, info: SchoolSheetInfo)
    requires j < |b|
    ensures Demand(b, info) == Demand(b[..j] + b[j + 1..], info) + ClassDemand(b[j], info)
  {
    var x := b[j];
    assert b == (b[..j] + [x]) + b[j + 1..];
    DemandAppend(b[..j] + [x], b[j + 1..], info);
    DemandAppend(b[..j], [x], info);
    DemandAppend(b[..j], b[j + 1..], info);
    assert Demand([x], info) == ClassDemand(x, info) by {
      assert [x][..0] == [];
    }
  }
}

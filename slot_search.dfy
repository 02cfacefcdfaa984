/**
 * The scheduler's search for one free lesson cell: the occupancy indexes,
 * the consecutive-lesson check and the day/period scan
 * (src/lib/autoScheduler.ts, findAvailableSlot and checkConsecutive).
 */
module SlotSearch {
  import opened Types
  import opened Sorting
  import opened Tally
  import opened Timetable

  /** One (teacher, subject, grade) demand of a scheduling run. */
  datatype Request = Request(
    teacherId: string,
    teacherName: string,
    subject: string,
    grade: int,
    hoursNeeded: int,
    defaultRoom: Option<string>)

  /** A whole-day blackout; its period is declared but never consulted. */
  datatype Blackout = Blackout(teacherId: string, day: Day, period: int)

  /** Declared by the constraints record and never consulted. */
  datatype RoomRequirement = RoomRequirement(subject: string, room: string)

  datatype Constraints = Constraints(
    teacherUnavailable: seq<Blackout>,
    maxConsecutive: int,
    maxPerDay: int,
    subjectRoomRequirements: seq<RoomRequirement>)

  /** Whether the teacher is blacked out for the whole day (`some` over the list). */
  predicate BlackedOut(list: seq<Blackout>, teacherId: string, d: Day)
  {
    exists i :: 0 <= i < |list| && list[i].teacherId == teacherId && list[i].day == d
  }

  // ---------------------------------------------------------------------
  // Occupancy indexes

  /**
   * The two indexes of a run: taken class cells, and for each teacher the
   * taken (day, period) pairs.
   */
  datatype Occupancy = Occupancy(classes: set<ClassKey>, teachers: map<string, set<DayPeriod>>)
  {
    predicate TeacherBusy(teacherId: string, at: DayPeriod)
    {
      teacherId in teachers && at in teachers[teacherId]
    }

    /** The indexes after the slot is recorded in both. */
    function Register(s: Slot): Occupancy
    {
      var at := DayPeriod(s.day, s.period);
      Occupancy(
        classes + {ClassKeyOf(s)},
        teachers[s.teacherId := (if s.teacherId in teachers then teachers[s.teacherId] else {}) + {at}])
    }
  }

  const EmptyOccupancy := Occupancy({}, map[])

  /** The indexes hold exactly the keys of the slots. */
  ghost predicate Indexes(occ: Occupancy, slots: seq<Slot>)
  {
    && occ.classes == ClassKeys(slots)
    && forall t, at :: occ.TeacherBusy(t, at) <==> TeacherKey(t, at) in TeacherKeys(slots)
  }

  lemma EmptyIndexes()
    ensures Indexes(EmptyOccupancy, [])
  {
  }

  lemma RegisterIndexes(occ: Occupancy, slots: seq<Slot>, s: Slot)
    requires Indexes(occ, slots)
    ensures Indexes(occ.Register(s), slots + [s])
  {
    KeysAppend(slots, s);
    var r := occ.Register(s);
    forall t, at ensures r.TeacherBusy(t, at) <==> TeacherKey(t, at) in TeacherKeys(slots + [s]) {
      if t == s.teacherId && at == DayPeriod(s.day, s.period) {
        assert TeacherKey(t, at) == TeacherKeyOf(s);
      } else {
        assert r.TeacherBusy(t, at) <==> occ.TeacherBusy(t, at);
      }
    }
  }

  // ---------------------------------------------------------------------
  // Consecutive-lesson check

  /** ps[i..j] is a run: each element is one more than the one before it. */
  ghost predicate IsRun(ps: seq<int>, i: int, j: int)
  {
    0 <= i < j <= |ps| && forall k :: i < k < j ==> ps[k] == ps[k - 1] + 1
  }

  /** No run in ps is longer than limit. */
  ghost predicate RunsAtMost(ps: seq<int>, limit: int)
  {
    forall i, j :: IsRun(ps, i, j) ==> j - i <= limit
  }

  /** The length of the longest run that ends at index i. */
  ghost function RunEndingAt(ps: seq<int>, i: nat): (n: nat)
    requires i < |ps|
    ensures 1 <= n <= i + 1
  {
    if i > 0 && ps[i] == ps[i - 1] + 1 then RunEndingAt(ps, i - 1) + 1 else 1
  }

  lemma {:induction false} RunEndingAtIsRun(ps: seq<int>, i: nat)
    requires i < |ps|
    ensures IsRun(ps, i + 1 - RunEndingAt(ps, i), i + 1)
  {
    if i > 0 && ps[i] == ps[i - 1] + 1 {
      RunEndingAtIsRun(ps, i - 1);
    }
  }

  lemma {:induction false} RunWithinRunEndingAt(ps: seq<int>, a: int, b: int)
    requires IsRun(ps, a, b)
    ensures b - a <= RunEndingAt(ps, b - 1)
    decreases b
  {
    if b - a > 1 {
      assert ps[b - 1] == ps[b - 2] + 1;
      assert IsRun(ps, a, b - 1);
      RunWithinRunEndingAt(ps, a, b - 1);
    }
  }

  /**
   * checkConsecutive: the periods of the teacher's slots on that day in
   * existingSlots followed by newSlots, plus the candidate, sorted; accepted
   * iff no run of consecutive periods is longer than maxConsecutive. An
   * equal neighbour ends a run, so a slot present in both lists (as the
   * caller passes them) is counted twice and can split a run.
   */
  method CheckConsecutive(teacherId: string, day: Day, period: int, existingSlots: seq<Slot>, newSlots: seq<Slot>,
                          maxConsecutive: int) returns (ok: bool)
    ensures ok == RunsAtMost(SortInts(PeriodsOn(existingSlots + newSlots, teacherId, day) + [period]), maxConsecutive)
  {
    var periods := SortInts(PeriodsOn(existingSlots + newSlots, teacherId, day) + [period]);
    var consecutive := 1;
    var maxFound := 1;
    ghost var longestAt := 0;
    for i := 1 to |periods|
      invariant consecutive == RunEndingAt(periods, i - 1)
      invariant forall k :: 0 <= k < i ==> RunEndingAt(periods, k) <= maxFound
      invariant 0 <= longestAt < i && RunEndingAt(periods, longestAt) == maxFound
    {
      assert RunEndingAt(periods, i) == if periods[i] == periods[i - 1] + 1 then consecutive + 1 else 1;
      if periods[i] == periods[i - 1] + 1 {
        consecutive := consecutive + 1;
        if maxFound < consecutive {
          maxFound := consecutive;
          longestAt := i;
        }
      } else {
        consecutive := 1;
      }
    }
    ok := maxFound <= maxConsecutive;
    LongestRunDecides(periods, longestAt, maxConsecutive);
  }

  /** When the run ending at k is the longest, the runs are at most limit long exactly when that one is. */
  lemma LongestRunDecides(ps: seq<int>, k: nat, limit: int)
    requires k < |ps|
    requires forall j :: 0 <= j < |ps| ==> RunEndingAt(ps, j) <= RunEndingAt(ps, k)
    ensures RunsAtMost(ps, limit) <==> RunEndingAt(ps, k) <= limit
  {
    if RunEndingAt(ps, k) <= limit {
      forall a, b | IsRun(ps, a, b) ensures b - a <= limit {
        RunWithinRunEndingAt(ps, a, b);
      }
    } else {
      RunEndingAtIsRun(ps, k);
    }
  }

  /**
   * The source passes the teacher's slots (existing and new) together with
   * all new slots, so a new slot of that day is counted twice, and a
   * duplicated period ends a run. With new lessons in periods p and p + 1,
   * period p + 2 passes a limit of 2 although it makes a run of three.
   */
  lemma NewSlotsCountedTwice(a: Slot, b: Slot, p: int)
    requires a.teacherId == b.teacherId && a.day == b.day && a.period == p && b.period == p + 1
    ensures var teacherSlots := SlotsOf([] + [a, b], a.teacherId);
            && RunsAtMost(SortInts(PeriodsOn(teacherSlots + [a, b], a.teacherId, a.day) + [p + 2]), 2)
            && !RunsAtMost(SortInts(PeriodsOn([a, b], a.teacherId, a.day) + [p + 2]), 2)
  {
    TwoLessonPeriods(a, b);
    DoubledRuns(p);
    SingleRun(p);
  }

  lemma DoubledRuns(p: int)
    ensures RunsAtMost(SortInts([p, p + 1, p, p + 1] + [p + 2]), 2)
  {
    var xs := [p, p + 1, p, p + 1] + [p + 2];
    var ys := [p, p, p + 1, p + 1, p + 2];
    assert multiset(xs) == multiset{p, p + 1, p, p + 1, p + 2};
    assert multiset(ys) == multiset{p, p, p + 1, p + 1, p + 2};
    SortedExample(xs, ys);
    PairedRuns(p);
  }

  lemma PairedRuns(p: int)
    ensures RunsAtMost([p, p, p + 1, p + 1, p + 2], 2)
  {
    var ys := [p, p, p + 1, p + 1, p + 2];
    assert ys[1] != ys[0] + 1 && ys[3] != ys[2] + 1;
    assert !IsRun(ys, 0, 3) && !IsRun(ys, 1, 4) && !IsRun(ys, 2, 5);
    forall i, j | IsRun(ys, i, j) ensures j - i <= 2 {
      LongRunHasThree(ys, i, j);
    }
  }

  lemma LongRunHasThree(ps: seq<int>, i: int, j: int)
    requires IsRun(ps, i, j)
    ensures j - i > 2 ==> IsRun(ps, i, i + 3)
  {
  }

  lemma SingleRun(p: int)
    ensures !RunsAtMost(SortInts([p, p + 1] + [p + 2]), 2)
  {
    var xs := [p, p + 1] + [p + 2];
    SortedExample(xs, xs);
    assert IsRun(xs, 0, 3);
  }

  lemma TwoLessonPeriods(a: Slot, b: Slot)
    requires a.teacherId == b.teacherId && a.day == b.day
    ensures SlotsOf([] + [a, b], a.teacherId) == [a, b]
    ensures PeriodsOn([a, b], a.teacherId, a.day) == [a.period, b.period]
    ensures PeriodsOn([a, b] + [a, b], a.teacherId, a.day) == [a.period, b.period, a.period, b.period]
  {
    assert [] + [a, b] == [a, b];
    assert [a, b][..1] == [a];
    PeriodsOnAppend([a, b], [a, b], a.teacherId, a.day);
  }

  lemma SortedExample(xs: seq<int>, ys: seq<int>)
    requires multiset(xs) == multiset(ys)
    requires forall i, j :: 0 <= i < j < |ys| ==> ys[i] <= ys[j]
    ensures SortInts(xs) == ys
  {
    AscendingUnique(SortInts(xs), ys);
  }

  // ---------------------------------------------------------------------
  // Day order

  /** The teacher's lessons per day, as `teacherDayCount` is filled (days without lessons absent). */
  function DayCounts(teacherSlots: seq<Slot>): map<Day, int>
  {
    if teacherSlots == [] then map[]
    else Bump(DayCounts(teacherSlots[..|teacherSlots| - 1]), teacherSlots[|teacherSlots| - 1].day)
  }

  /** `teacherDayCount.get(d) || 0` */
  function CountOn(counts: map<Day, int>, d: Day): int
  {
    if d in counts then counts[d] else 0
  }

  lemma {:induction false} DayCountsCount(teacherSlots: seq<Slot>, d: Day)
    ensures CountOn(DayCounts(teacherSlots), d) == DayCount(teacherSlots, d)
  {
    if teacherSlots != [] {
      DayCountsCount(teacherSlots[..|teacherSlots| - 1], d);
    }
  }

  function DayKey(counts: map<Day, int>): Day -> Rank
  {
    d => Rank(CountOn(counts, d), 0)
  }

  /** The five days in ascending lesson count, ties in weekday order (a stable sort). */
  function DayOrder(counts: map<Day, int>): seq<Day>
  {
    StableSortBy(Days, DayKey(counts))
  }

  lemma DayOrderProperties(counts: map<Day, int>)
    ensures |DayOrder(counts)| == 5
    ensures forall d :: d in DayOrder(counts)
    ensures forall i, j :: 0 <= i < j < 5 ==> CountOn(counts, DayOrder(counts)[i]) <= CountOn(counts, DayOrder(counts)[j])
    ensures forall n :: WithRank(DayOrder(counts), DayKey(counts), Rank(n, 0)) == WithRank(Days, DayKey(counts), Rank(n, 0))
  {
    var order := DayOrder(counts);
    forall d ensures d in order {
      assert d in multiset(Days) by { assert Days[DayIndex(d)] == d; }
      assert d in multiset(order);
    }
    forall i, j | 0 <= i < j < 5 ensures CountOn(counts, order[i]) <= CountOn(counts, order[j]) {
      assert !Before(DayKey(counts)(order[j]), DayKey(counts)(order[i]));
    }
  }

  // ---------------------------------------------------------------------
  // The search

  /** A search's view of one run: the indexes and the two slot lists. */
  datatype Session = Session(occ: Occupancy, existing: seq<Slot>, placed: seq<Slot>)
  {
    /** `[...existingSlots, ...newSlots].filter(s => s.teacherId === teacherId)` */
    function TeacherSlots(teacherId: string): seq<Slot>
    {
      SlotsOf(existing + placed, teacherId)
    }
  }

  /** The checks findAvailableSlot makes of one cell, against the indexes. */
  ghost predicate AdmissibleIn(sess: Session, c: Constraints, req: Request, classNumber: int, at: DayPeriod)
  {
    var teacherSlots := sess.TeacherSlots(req.teacherId);
    && DayCount(teacherSlots, at.day) < c.maxPerDay
    && !BlackedOut(c.teacherUnavailable, req.teacherId, at.day)
    && ClassKey(at, req.grade, classNumber) !in sess.occ.classes
    && !sess.occ.TeacherBusy(req.teacherId, at)
    && RunsAtMost(SortInts(PeriodsOn(teacherSlots + sess.placed, req.teacherId, at.day) + [at.period]), c.maxConsecutive)
  }

  /** The same checks stated over the slot lists rather than the indexes. */
  ghost predicate Admissible(c: Constraints, existing: seq<Slot>, placed: seq<Slot>, teacherId: string, grade: int,
                             classNumber: int, at: DayPeriod)
  {
    var before := existing + placed;
    var teacherSlots := SlotsOf(before, teacherId);
    && DayCount(teacherSlots, at.day) < c.maxPerDay
    && !BlackedOut(c.teacherUnavailable, teacherId, at.day)
    && ClassKey(at, grade, classNumber) !in ClassKeys(before)
    && TeacherKey(teacherId, at) !in TeacherKeys(before)
    && RunsAtMost(SortInts(PeriodsOn(teacherSlots + placed, teacherId, at.day) + [at.period]), c.maxConsecutive)
  }

  lemma AdmissibleInIndexes(sess: Session, c: Constraints, req: Request, classNumber: int, at: DayPeriod)
    requires Indexes(sess.occ, sess.existing + sess.placed)
    ensures AdmissibleIn(sess, c, req, classNumber, at)
        <==> Admissible(c, sess.existing, sess.placed, req.teacherId, req.grade, classNumber, at)
  {
  }

  /** The order findAvailableSlot tries days in. */
  function SearchOrder(sess: Session, teacherId: string): seq<Day>
  {
    DayOrder(DayCounts(sess.TeacherSlots(teacherId)))
  }

  /** at is the first admissible cell: days in search order, periods 1..6 within a day. */
  ghost predicate FirstAdmissible(sess: Session, c: Constraints, req: Request, classNumber: int, at: DayPeriod)
  {
    var order := SearchOrder(sess, req.teacherId);
    && 1 <= at.period <= 6
    && AdmissibleIn(sess, c, req, classNumber, at)
    && (exists i :: 0 <= i < |order| && order[i] == at.day
          && forall j, p :: 0 <= j < i && 1 <= p <= 6 ==> !AdmissibleIn(sess, c, req, classNumber, DayPeriod(order[j], p)))
    && forall p :: 1 <= p < at.period ==> !AdmissibleIn(sess, c, req, classNumber, DayPeriod(at.day, p))
  }

  /** The slot built for a found cell; the room is the default room or "". */
  function NewSlot(id: string, req: Request, classNumber: int, at: DayPeriod): Slot
  {
    Slot(id, at.day, at.period, req.grade, classNumber, req.teacherId, req.teacherName, req.subject,
         Some(if req.defaultRoom.Some? then req.defaultRoom.value else ""), None)
  }

  /** `teacherDayCount`: the teacher's lessons per day. */
  method TallyDays(teacherSlots: seq<Slot>) returns (counts: map<Day, int>)
    ensures counts == DayCounts(teacherSlots)
    ensures forall d :: CountOn(counts, d) == DayCount(teacherSlots, d)
  {
    counts := map[];
    for i := 0 to |teacherSlots|
      invariant counts == DayCounts(teacherSlots[..i])
    {
      assert teacherSlots[..i + 1][..i] == teacherSlots[..i];
      counts := Bump(counts, teacherSlots[i].day);
    }
    assert teacherSlots[..|teacherSlots|] == teacherSlots;
    forall d ensures CountOn(counts, d) == DayCount(teacherSlots, d) {
      DayCountsCount(teacherSlots, d);
    }
  }

  /**
   * One day of the search: the day-level checks, then periods 1..6 in
   * order. The first admissible period, or None when the day has none.
   */
  method ScanDay(req: Request, classNumber: int, sess: Session, c: Constraints, counts: map<Day, int>, day: Day)
    returns (r: Option<int>)
    requires forall d :: CountOn(counts, d) == DayCount(sess.TeacherSlots(req.teacherId), d)
    ensures r.Some? ==> 1 <= r.value <= 6 && AdmissibleIn(sess, c, req, classNumber, DayPeriod(day, r.value))
    ensures r.Some? ==> forall p :: 1 <= p < r.value ==> !AdmissibleIn(sess, c, req, classNumber, DayPeriod(day, p))
    ensures r.None? <==> forall p :: 1 <= p <= 6 ==> !AdmissibleIn(sess, c, req, classNumber, DayPeriod(day, p))
  {
    var teacherSlots := sess.TeacherSlots(req.teacherId);
    if CountOn(counts, day) >= c.maxPerDay {
      return None;
    }
    if BlackedOut(c.teacherUnavailable, req.teacherId, day) {
      return None;
    }
    for period := 1 to 7
      invariant forall p :: 1 <= p < period ==> !AdmissibleIn(sess, c, req, classNumber, DayPeriod(day, p))
    {
      var at := DayPeriod(day, period);
      if ClassKey(at, req.grade, classNumber) in sess.occ.classes {
        continue;
      }
      if sess.occ.TeacherBusy(req.teacherId, at) {
        continue;
      }
      var ok := CheckConsecutive(req.teacherId, day, period, teacherSlots, sess.placed, c.maxConsecutive);
      if !ok {
        continue;
      }
      return Some(period);
    }
    return None;
  }

  /** The days, ordered from the tally of the teacher's slots, are the search order. */
  lemma SearchOrderOf(sess: Session, teacherId: string, counts: map<Day, int>)
    requires counts == DayCounts(sess.TeacherSlots(teacherId))
    ensures DayOrder(counts) == SearchOrder(sess, teacherId)
  {
  }

  /**
   * findAvailableSlot: the first admissible cell in the search order, or
   * None exactly when no cell of periods 1..6 on any day is admissible.
   */
  method FindAvailableSlot(req: Request, classNumber: int, sess: Session, c: Constraints, id: string)
    returns (r: Option<Slot>)
    ensures r.Some? ==> r.value == NewSlot(id, req, classNumber, DayPeriod(r.value.day, r.value.period))
    ensures r.Some? ==> FirstAdmissible(sess, c, req, classNumber, DayPeriod(r.value.day, r.value.period))
    ensures r.None? <==> forall d, p :: 1 <= p <= 6 ==> !AdmissibleIn(sess, c, req, classNumber, DayPeriod(d, p))
  {
    var counts := TallyDays(sess.TeacherSlots(req.teacherId));
    var order := DayOrder(counts);
    for i := 0 to |order|
      invariant forall j, p :: 0 <= j < i && 1 <= p <= 6 ==> !AdmissibleIn(sess, c, req, classNumber, DayPeriod(order[j], p))
    {
      var found := ScanDay(req, classNumber, sess, c, counts, order[i]);
      if found.Some? {
        var at := DayPeriod(order[i], found.value);
        r := Some(NewSlot(id, req, classNumber, at));
        SearchOrderOf(sess, req.teacherId, counts);
        return;
      }
      forall j, p | 0 <= j < i + 1 && 1 <= p <= 6
        ensures !AdmissibleIn(sess, c, req, classNumber, DayPeriod(order[j], p))
      {
        if j == i {
          assert DayPeriod(order[j], p) == DayPeriod(order[i], p);
        }
      }
    }
    DayOrderProperties(counts);
    forall d, p | 1 <= p <= 6 ensures !AdmissibleIn(sess, c, req, classNumber, DayPeriod(d, p)) {
      assert d in order;
    }
    r := None;
  }
}

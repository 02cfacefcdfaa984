/**
 * The dashboard figures (src/lib/dashboardStats.ts): each teacher's
 * assigned hours against their standard, classified over / normal / under
 * with the school's tolerance, the school-wide counters and totals, and
 * the teacher list ordered for display. The averages are not part of this
 * model.
 */
module DashboardStats {
  import opened Types
  import opened Sorting
  import Simulator
  import TeacherStore
  import SchoolStore

  datatype Status = Over | Normal | Under

  datatype TeacherStatus = TeacherStatus(
    teacher: Teacher,
    totalHours: int,
    standardHours: int,
    difference: int,
    status: Status)

  datatype Dashboard = Dashboard(
    totalTeachers: int,
    homeroomCount: int,
    specialistCount: int,
    totalSchoolHours: int,
    homeroomTotalHours: int,
    specialistTotalHours: int,
    underHoursCount: int,
    overHoursCount: int,
    totalUnderHours: int,
    totalOverHours: int,
    assignedCount: int,
    assignmentRate: int,
    teacherStatuses: seq<TeacherStatus>)

  function Abs(x: int): (r: int)
    ensures r >= 0 && (r == x || r == -x)
  {
    if x < 0 then -x else x
  }

  predicate OccursAt(s: string, part: string, i: int)
  {
    0 <= i && i + |part| <= |s| && s[i..i + |part|] == part
  }

  /** `s.includes(part)` */
  predicate Contains(s: string, part: string)
  {
    exists i :: 0 <= i <= |s| - |part| && OccursAt(s, part, i)
  }

  /** A master teacher is recognised by "수석" in the name. */
  predicate IsMaster(t: Teacher)
  {
    Contains(t.name, "수석")
  }

  /**
   * The dashboard's own getStandardHours, which takes the teacher's tag: any
   * tag but homeroom reads the specialist standard. It agrees with the
   * school store's rule.
   */
  function StandardHours(settings: SheetSettings, kind: TeacherType, isMaster: bool): (r: int)
    ensures r == SchoolStore.StandardHoursOf(settings, kind == Homeroom, isMaster)
  {
    var baseHours := if kind == Homeroom then NumberOr(Some(settings.homeroomStandard), settings.baseHours)
                     else NumberOr(Some(settings.specialistStandard), settings.baseHours);
    if isMaster && settings.masterReductionRate > 0 then
      SchoolStore.RoundDiv(baseHours * (100 - settings.masterReductionRate), 100)
    else baseHours
  }

  /** Over when the difference exceeds the tolerance, under when it falls below its negation. */
  function StatusFor(difference: int, tolerance: int): (r: Status)
    ensures r == Over <==> difference > tolerance
    ensures r == Under <==> difference <= tolerance && difference < -tolerance
    ensures r == Normal <==> -tolerance <= difference <= tolerance
  {
    if difference > tolerance then Over
    else if difference < -tolerance then Under
    else Normal
  }

  /** `settings.시수편차허용 || 0` */
  function Tolerance(settings: SheetSettings): int
  {
    NumberOr(Some(settings.tolerance), 0)
  }

  /** One teacher's row: hours from the first assignment of theirs, if any. */
  function StatusOf(t: Teacher, assignments: seq<Assignment>, settings: SheetSettings): (r: TeacherStatus)
    ensures r.teacher == t
    ensures TeacherStore.FindAssignment(assignments, t.id).None? ==> r.totalHours == 0
    ensures TeacherStore.FindAssignment(assignments, t.id).Some? ==>
              r.totalHours == Simulator.WeeklyTotal(TeacherStore.FindAssignment(assignments, t.id).value.hours)
    ensures r.standardHours == StandardHours(settings, t.kind, IsMaster(t))
    ensures r.difference == r.totalHours - r.standardHours
    ensures r.status == StatusFor(r.difference, Tolerance(settings))
  {
    var assignment := TeacherStore.FindAssignment(assignments, t.id);
    var standard := StandardHours(settings, t.kind, IsMaster(t));
    var totalHours := if assignment.Some? then Simulator.CalculateStats(assignment.value.hours).totalHours else 0;
    var difference := totalHours - standard;
    TeacherStatus(t, totalHours, standard, difference, StatusFor(difference, Tolerance(settings)))
  }

  /** The rows of the teachers, in roster order. */
  function StatusesOf(teachers: seq<Teacher>, assignments: seq<Assignment>, settings: SheetSettings): (r: seq<TeacherStatus>)
    ensures |r| == |teachers|
  {
    if teachers == [] then []
    else StatusesOf(teachers[..|teachers| - 1], assignments, settings) + [StatusOf(teachers[|teachers| - 1], assignments, settings)]
  }

  // ---------------------------------------------------------------------
  // What each counter adds up

  /** The sum of f over the rows. */
  function SumBy(xs: seq<TeacherStatus>, f: TeacherStatus -> int): int
  {
    if xs == [] then 0 else SumBy(xs[..|xs| - 1], f) + f(xs[|xs| - 1])
  }

  lemma SumByAppend(xs: seq<TeacherStatus>, x: TeacherStatus, f: TeacherStatus -> int)
    ensures SumBy(xs + [x], f) == SumBy(xs, f) + f(x)
  {
    assert (xs + [x])[..|xs|] == xs;
  }

  function OverOne(s: TeacherStatus): int { if s.status == Over then 1 else 0 }
  function UnderOne(s: TeacherStatus): int { if s.status == Under then 1 else 0 }
  function OverExcess(s: TeacherStatus): int { if s.status == Over then s.difference else 0 }
  function UnderShortfall(s: TeacherStatus): int { if s.status == Under then Abs(s.difference) else 0 }
  function HomeroomHours(s: TeacherStatus): int { if s.teacher.kind == Homeroom then s.totalHours else 0 }
  function OtherHours(s: TeacherStatus): int { if s.teacher.kind != Homeroom then s.totalHours else 0 }
  function Hours(s: TeacherStatus): int { s.totalHours }

  /** The teachers carrying a tag (a `filter(...).length`). */
  function KindCount(teachers: seq<Teacher>, kind: TeacherType): (r: nat)
    ensures r <= |teachers|
  {
    if teachers == [] then 0
    else KindCount(teachers[..|teachers| - 1], kind) + (if teachers[|teachers| - 1].kind == kind then 1 else 0)
  }

  /** The teachers that have an assignment. */
  function AssignedCount(teachers: seq<Teacher>, assignments: seq<Assignment>): (r: nat)
    ensures r <= |teachers|
  {
    if teachers == [] then 0
    else AssignedCount(teachers[..|teachers| - 1], assignments)
         + (if TeacherStore.FindAssignment(assignments, teachers[|teachers| - 1].id).Some? then 1 else 0)
  }

  /** Display order: under, then over, then normal; within a status, the larger gap first. */
  function StatusRank(s: TeacherStatus): Rank
  {
    Rank(match s.status case Under => 0 case Over => 1 case Normal => 2, -Abs(s.difference))
  }

  // ---------------------------------------------------------------------
  // calculateDashboardStats

  /**
   * calculateDashboardStats: one row per teacher with the six running
   * totals kept beside it, then the rows ordered (under, over, normal, the
   * larger difference first) and the assignment rate rounded to a percent.
   */
  method CalculateDashboardStats(teachers: seq<Teacher>, assignments: seq<Assignment>, settings: SheetSettings)
    returns (d: Dashboard)
    ensures var rows := StatusesOf(teachers, assignments, settings);
            && d.teacherStatuses == StableSortBy(rows, StatusRank)
            && d.overHoursCount == SumBy(rows, OverOne) && d.underHoursCount == SumBy(rows, UnderOne)
            && d.totalOverHours == SumBy(rows, OverExcess) && d.totalUnderHours == SumBy(rows, UnderShortfall)
            && d.homeroomTotalHours == SumBy(rows, HomeroomHours) && d.specialistTotalHours == SumBy(rows, OtherHours)
    ensures d.totalSchoolHours == d.homeroomTotalHours + d.specialistTotalHours
    ensures d.totalTeachers == |teachers|
    ensures d.homeroomCount == KindCount(teachers, Homeroom) && d.specialistCount == KindCount(teachers, Specialist)
    ensures d.assignedCount == AssignedCount(teachers, assignments)
    ensures d.assignmentRate == (if |teachers| > 0 then SchoolStore.RoundDiv(100 * d.assignedCount, |teachers|) else 0)
  {
    var statuses, t := TallyTeachers(teachers, assignments, settings);
    var sorted := StableSortBy(statuses, StatusRank);
    var assignmentRate := if |teachers| > 0 then SchoolStore.RoundDiv(100 * t.assignedCount, |teachers|) else 0;
    d := Dashboard(|teachers|, KindCount(teachers, Homeroom), KindCount(teachers, Specialist),
                   t.homeroomTotalHours + t.specialistTotalHours, t.homeroomTotalHours, t.specialistTotalHours,
                   t.underHoursCount, t.overHoursCount, t.totalUnderHours, t.totalOverHours,
                   t.assignedCount, assignmentRate, sorted);
  }

  /** The running totals of the dashboard's loop. */
  datatype Totals = Totals(
    homeroomTotalHours: int, specialistTotalHours: int,
    underHoursCount: int, overHoursCount: int,
    totalUnderHours: int, totalOverHours: int,
    assignedCount: int)

  /** The running totals are the sums over the rows so far. */
  ghost predicate Tallied(t: Totals, statuses: seq<TeacherStatus>)
  {
    && t.overHoursCount == SumBy(statuses, OverOne) && t.underHoursCount == SumBy(statuses, UnderOne)
    && t.totalOverHours == SumBy(statuses, OverExcess) && t.totalUnderHours == SumBy(statuses, UnderShortfall)
    && t.homeroomTotalHours == SumBy(statuses, HomeroomHours) && t.specialistTotalHours == SumBy(statuses, OtherHours)
  }

  /** The loop of calculateDashboardStats over the teachers, in their order. */
  method TallyTeachers(teachers: seq<Teacher>, assignments: seq<Assignment>, settings: SheetSettings)
    returns (statuses: seq<TeacherStatus>, t: Totals)
    ensures statuses == StatusesOf(teachers, assignments, settings)
    ensures t.overHoursCount == SumBy(statuses, OverOne) && t.underHoursCount == SumBy(statuses, UnderOne)
    ensures t.totalOverHours == SumBy(statuses, OverExcess) && t.totalUnderHours == SumBy(statuses, UnderShortfall)
    ensures t.homeroomTotalHours == SumBy(statuses, HomeroomHours) && t.specialistTotalHours == SumBy(statuses, OtherHours)
    ensures t.assignedCount == AssignedCount(teachers, assignments)
  {
    statuses := [];
    t := Totals(0, 0, 0, 0, 0, 0, 0);
    var tolerance := Tolerance(settings);
    for i := 0 to |teachers|
      invariant statuses == StatusesOf(teachers[..i], assignments, settings)
      invariant Tallied(t, statuses)
      invariant t.assignedCount == AssignedCount(teachers[..i], assignments)
    {
      var teacher := teachers[i];
      assert teachers[..i + 1][..i] == teachers[..i];
      var row, hasAssignment := TeacherRow(teacher, assignments, settings, tolerance);
      t := AddRow(t, row, hasAssignment, statuses);
      statuses := statuses + [row];
    }
    assert teachers[..|teachers|] == teachers;
  }

  /** The counter updates of the loop for one row. */
  method AddRow(t: Totals, row: TeacherStatus, hasAssignment: bool, ghost statuses: seq<TeacherStatus>)
    returns (u: Totals)
    requires Tallied(t, statuses)
    ensures Tallied(u, statuses + [row])
    ensures u.assignedCount == t.assignedCount + (if hasAssignment then 1 else 0)
  {
    SumByAppend(statuses, row, OverOne);
    SumByAppend(statuses, row, UnderOne);
    SumByAppend(statuses, row, OverExcess);
    SumByAppend(statuses, row, UnderShortfall);
    SumByAppend(statuses, row, HomeroomHours);
    SumByAppend(statuses, row, OtherHours);
    u := t;
    if hasAssignment {
      u := u.(assignedCount := u.assignedCount + 1);
    }
    if row.status == Over {
      u := u.(overHoursCount := u.overHoursCount + 1, totalOverHours := u.totalOverHours + row.difference);
    } else if row.status == Under {
      u := u.(underHoursCount := u.underHoursCount + 1, totalUnderHours := u.totalUnderHours + Abs(row.difference));
    }
    if row.teacher.kind == Homeroom {
      u := u.(homeroomTotalHours := u.homeroomTotalHours + row.totalHours);
    } else {
      u := u.(specialistTotalHours := u.specialistTotalHours + row.totalHours);
    }
  }

  /** The body of the loop for one teacher: the row, and whether the teacher has an assignment. */
  method TeacherRow(teacher: Teacher, assignments: seq<Assignment>, settings: SheetSettings, tolerance: int)
    returns (row: TeacherStatus, hasAssignment: bool)
    requires tolerance == Tolerance(settings)
    ensures row == StatusOf(teacher, assignments, settings)
    ensures hasAssignment <==> TeacherStore.FindAssignment(assignments, teacher.id).Some?
  {
    var assignment := TeacherStore.FindAssignment(assignments, teacher.id);
    var isMaster := IsMaster(teacher);
    var standard := StandardHours(settings, teacher.kind, isMaster);
    var totalHours := 0;
    hasAssignment := false;
    if assignment.Some? {
      var stats := Simulator.CalculateStats(assignment.value.hours);
      totalHours := stats.totalHours;
      hasAssignment := true;
    }
    var difference := totalHours - standard;
    var status := Normal;
    if difference > tolerance {
      status := Over;
    } else if difference < -tolerance {
      status := Under;
    }
    row := TeacherStatus(teacher, totalHours, standard, difference, status);
  }

  // ---------------------------------------------------------------------
  // Properties

  /** Row i of the list is the row of teacher i. */
  lemma {:induction false} StatusesOfRows(teachers: seq<Teacher>, assignments: seq<Assignment>, settings: SheetSettings)
    ensures forall i :: 0 <= i < |teachers| ==>
              StatusesOf(teachers, assignments, settings)[i] == StatusOf(teachers[i], assignments, settings)
  {
    if teachers != [] {
      var init := teachers[..|teachers| - 1];
      StatusesOfRows(init, assignments, settings);
      assert forall i :: 0 <= i < |init| ==> teachers[i] == init[i];
    }
  }

  /** Sums over the rows do not depend on the order of the rows. */
  lemma {:induction false} SumByPermutation(a: seq<TeacherStatus>, b: seq<TeacherStatus>, f: TeacherStatus -> int)
    requires multiset(a) == multiset(b)
    ensures SumBy(a, f) == SumBy(b, f)
    decreases |a|
  {
    if a != [] {
      var x := a[|a| - 1];
      var a' := a[..|a| - 1];
      assert a == a' + [x];
      assert x in multiset(b);
      var i :| 0 <= i < |b| && b[i] == x;
      var b' := b[..i] + b[i + 1..];
      LastRemoved(a, b, i);
      SumByPermutation(a', b', f);
      SumByRemove(b, i, f);
    } else {
      assert |b| == |multiset(b)| == 0;
    }
  }

  /** Taking one row out of a sum takes out its value. */
  lemma {:induction false} SumByRemove(b: seq<TeacherStatus>, i: nat, f: TeacherStatus -> int)
    requires i < |b|
    ensures SumBy(b, f) == SumBy(b[..i] + b[i + 1..], f) + f(b[i])
    decreases |b|
  {
    var last := |b| - 1;
    if i < last {
      var init := b[..last];
      SumByRemove(init, i, f);
      assert init[..i] + init[i + 1..] == (b[..i] + b[i + 1..])[..last - 1];
      assert (b[..i] + b[i + 1..])[last - 1] == b[last];
    } else {
      assert b[..i] + b[i + 1..] == b[..last];
    }
  }

  /** Sums add up pointwise. */
  lemma {:induction false} SumByAdd(xs: seq<TeacherStatus>, f: TeacherStatus -> int, g: TeacherStatus -> int, h: TeacherStatus -> int)
    requires forall x :: h(x) == f(x) + g(x)
    ensures SumBy(xs, h) == SumBy(xs, f) + SumBy(xs, g)
  {
    if xs != [] {
      SumByAdd(xs[..|xs| - 1], f, g, h);
    }
  }

  /**
   * The figures of calculateDashboardStats, stated over the rows in roster
   * order, hold of the list it returns: that list is the rows reordered
   * for display, every sum over it is the same, and each teacher's hours
   * are in exactly one of the homeroom and specialist totals.
   */
  lemma SortedRowsKeepFigures(rows: seq<TeacherStatus>)
    ensures var sorted := StableSortBy(rows, StatusRank);
            && multiset(sorted) == multiset(rows)
            && SortedBy(sorted, StatusRank)
            && (forall f: TeacherStatus -> int :: SumBy(sorted, f) == SumBy(rows, f))
            && SumBy(sorted, HomeroomHours) + SumBy(sorted, OtherHours) == SumBy(sorted, Hours)
  {
    var sorted := StableSortBy(rows, StatusRank);
    forall f: TeacherStatus -> int ensures SumBy(sorted, f) == SumBy(rows, f) {
      SumByPermutation(rows, sorted, f);
    }
    SumByAdd(sorted, HomeroomHours, OtherHours, Hours);
  }

  /** With no teachers the assignment rate is 0; otherwise it is a percentage within 0..100. */
  lemma AssignmentRateRange(teachers: seq<Teacher>, assignments: seq<Assignment>)
    ensures var n := AssignedCount(teachers, assignments);
            var rate := if |teachers| > 0 then SchoolStore.RoundDiv(100 * n, |teachers|) else 0;
            && (teachers == [] ==> rate == 0)
            && 0 <= rate <= 100
  {
    var n := AssignedCount(teachers, assignments);
    if |teachers| > 0 {
      PercentWithin(n, |teachers|);
    }
  }

  /** A rounded percentage of a part of a whole lies within 0..100. */
  lemma PercentWithin(n: int, m: int)
    requires 0 <= n <= m && 0 < m
    ensures 0 <= SchoolStore.RoundDiv(100 * n, m) <= 100
  {
    var q := SchoolStore.RoundDiv(100 * n, m);
    assert 2 * m * q - m <= 200 * n < 2 * m * q + m;
    assert 2 * m * q == 2 * (m * q);
    MulSign(m, q - 101);
    MulSign(m, q + 1);
    assert m * (q - 101) == m * q - 101 * m;
    assert m * (q + 1) == m * q + m;
  }

  lemma MulSign(m: int, k: int)
    requires m > 0
    ensures k >= 0 ==> m * k >= 0
    ensures k <= 0 ==> m * k <= 0
  {
  }
}

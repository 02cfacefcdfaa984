/**
 * Queries over a list of timetable slots shared by the scheduler, the
 * validator and the timetable store: the two occupancy keys of a slot, the
 * slots of one teacher, and per-day, per-period and per-grade counts.
 *
 * The source keys its indexes by the strings "day-period-grade-class" and
 * "teacherId-day-period"; for integer fields and the five day words those
 * encodings are injective, so the keys are tuples here.
 */
module Timetable {
  import opened Types
  import opened Tally

  datatype DayPeriod = DayPeriod(day: Day, period: int)

  datatype ClassKey = ClassKey(at: DayPeriod, grade: int, classNumber: int)

  datatype TeacherKey = TeacherKey(teacherId: string, at: DayPeriod)

  function ClassKeyOf(s: Slot): ClassKey
  {
    ClassKey(DayPeriod(s.day, s.period), s.grade, s.classNumber)
  }

  function TeacherKeyOf(s: Slot): TeacherKey
  {
    TeacherKey(s.teacherId, DayPeriod(s.day, s.period))
  }

  /** The class cells taken by the slots. */
  function ClassKeys(slots: seq<Slot>): set<ClassKey>
  {
    set s | s in slots :: ClassKeyOf(s)
  }

  /** The teacher hours taken by the slots. */
  function TeacherKeys(slots: seq<Slot>): set<TeacherKey>
  {
    set s | s in slots :: TeacherKeyOf(s)
  }

  lemma KeysAppend(slots: seq<Slot>, s: Slot)
    ensures ClassKeys(slots + [s]) == ClassKeys(slots) + {ClassKeyOf(s)}
    ensures TeacherKeys(slots + [s]) == TeacherKeys(slots) + {TeacherKeyOf(s)}
  {
    assert forall x :: x in slots + [s] <==> x in slots || x == s;
  }

  /** The slots of one teacher, in list order (`filter(s => s.teacherId === id)`). */
  function SlotsOf(slots: seq<Slot>, teacherId: string): (r: seq<Slot>)
    ensures |r| <= |slots|
    ensures forall s :: s in r <==> s in slots && s.teacherId == teacherId
  {
    if slots == [] then []
    else
      var init := slots[..|slots| - 1];
      var last := slots[|slots| - 1];
      assert slots == init + [last];
      SlotsOf(init, teacherId) + (if last.teacherId == teacherId then [last] else [])
  }

  lemma {:induction false} SlotsOfAppend(a: seq<Slot>, b: seq<Slot>, teacherId: string)
    ensures SlotsOf(a + b, teacherId) == SlotsOf(a, teacherId) + SlotsOf(b, teacherId)
    decreases |b|
  {
    if b == [] {
      assert a + b == a;
    } else {
      var init := b[..|b| - 1];
      assert a + b == (a + init) + [b[|b| - 1]];
      assert (a + b)[..|a + b| - 1] == a + init;
      SlotsOfAppend(a, init, teacherId);
    }
  }

  /** The head of a teacher's slots is the teacher's first slot in list order. */
  lemma {:induction false} SlotsOfFirst(slots: seq<Slot>, teacherId: string)
    requires SlotsOf(slots, teacherId) != []
    ensures exists i :: 0 <= i < |slots| && slots[i] == SlotsOf(slots, teacherId)[0] && slots[i].teacherId == teacherId
                        && forall j :: 0 <= j < i ==> slots[j].teacherId != teacherId
  {
    var init := slots[..|slots| - 1];
    var last := slots[|slots| - 1];
    var head := SlotsOf(init, teacherId);
    assert SlotsOf(slots, teacherId) == head + (if last.teacherId == teacherId then [last] else []);
    if head != [] {
      assert SlotsOf(slots, teacherId)[0] == head[0];
      SlotsOfFirst(init, teacherId);
      var i :| 0 <= i < |init| && init[i] == head[0] && init[i].teacherId == teacherId
               && forall j :: 0 <= j < i ==> init[j].teacherId != teacherId;
      assert slots[i] == init[i];
      assert forall j :: 0 <= j < i ==> slots[j] == init[j];
    } else {
      assert SlotsOf(slots, teacherId) == [last];
      assert forall j :: 0 <= j < |init| ==> init[j] in init && init[j] !in head;
      assert forall j :: 0 <= j < |slots| - 1 ==> slots[j] == init[j];
      assert slots[|slots| - 1] == SlotsOf(slots, teacherId)[0];
    }
  }

  /** The number of slots on day d. */
  function DayCount(slots: seq<Slot>, d: Day): nat
  {
    if slots == [] then 0
    else DayCount(slots[..|slots| - 1], d) + (if slots[|slots| - 1].day == d then 1 else 0)
  }

  /** The number of slots in period p. */
  function PeriodCount(slots: seq<Slot>, p: int): nat
  {
    if slots == [] then 0
    else PeriodCount(slots[..|slots| - 1], p) + (if slots[|slots| - 1].period == p then 1 else 0)
  }

  /** The number of slots of grade g. */
  function GradeCount(slots: seq<Slot>, g: int): nat
  {
    if slots == [] then 0
    else GradeCount(slots[..|slots| - 1], g) + (if slots[|slots| - 1].grade == g then 1 else 0)
  }

  /** Sum over the five days of the per-day count. */
  function WeekTotal(slots: seq<Slot>): nat
  {
    DayCount(slots, Mon) + DayCount(slots, Tue) + DayCount(slots, Wed) + DayCount(slots, Thu) + DayCount(slots, Fri)
  }

  /** Every slot falls on exactly one of the five days. */
  lemma {:induction false} WeekTotalIsLength(slots: seq<Slot>)
    ensures WeekTotal(slots) == |slots|
  {
    if slots != [] {
      WeekTotalIsLength(slots[..|slots| - 1]);
    }
  }

  lemma {:induction false} CountsPositive(slots: seq<Slot>, i: nat)
    requires i < |slots|
    ensures DayCount(slots, slots[i].day) > 0
    ensures PeriodCount(slots, slots[i].period) > 0
    ensures GradeCount(slots, slots[i].grade) > 0
  {
    if i < |slots| - 1 {
      CountsPositive(slots[..|slots| - 1], i);
    }
  }

  lemma {:induction false} GradeCountZero(slots: seq<Slot>, g: int)
    requires forall s :: s in slots ==> s.grade != g
    ensures GradeCount(slots, g) == 0
  {
    if slots != [] {
      var init := slots[..|slots| - 1];
      assert forall s :: s in init ==> s in slots;
      GradeCountZero(init, g);
    }
  }

  lemma {:induction false} PeriodCountZero(slots: seq<Slot>, p: int)
    requires forall s :: s in slots ==> s.period != p
    ensures PeriodCount(slots, p) == 0
  {
    if slots != [] {
      var init := slots[..|slots| - 1];
      assert forall s :: s in init ==> s in slots;
      PeriodCountZero(init, p);
    }
  }

  /** The periods of one teacher's slots on one day, in list order. */
  function PeriodsOn(slots: seq<Slot>, teacherId: string, d: Day): (r: seq<int>)
    ensures |r| <= |slots|
  {
    if slots == [] then []
    else
      var last := slots[|slots| - 1];
      PeriodsOn(slots[..|slots| - 1], teacherId, d)
        + (if last.teacherId == teacherId && last.day == d then [last.period] else [])
  }

  lemma {:induction false} PeriodsOnAppend(a: seq<Slot>, b: seq<Slot>, teacherId: string, d: Day)
    ensures PeriodsOn(a + b, teacherId, d) == PeriodsOn(a, teacherId, d) + PeriodsOn(b, teacherId, d)
    decreases |b|
  {
    if b == [] {
      assert a + b == a;
    } else {
      var init := b[..|b| - 1];
      assert (a + b)[..|a + b| - 1] == a + init;
      assert (a + b)[|a + b| - 1] == b[|b| - 1];
      PeriodsOnAppend(a, init, teacherId, d);
    }
  }

  /** `byGrade[g] = (byGrade[g] || 0) + 1` over the slots. */
  function GradeTally(slots: seq<Slot>): map<int, int>
  {
    if slots == [] then map[] else Bump(GradeTally(slots[..|slots| - 1]), slots[|slots| - 1].grade)
  }

  function DayTally(slots: seq<Slot>): map<Day, int>
  {
    map[Mon := DayCount(slots, Mon), Tue := DayCount(slots, Tue), Wed := DayCount(slots, Wed),
        Thu := DayCount(slots, Thu), Fri := DayCount(slots, Fri)]
  }

  lemma DayTallyStep(slots: seq<Slot>, s: Slot)
    ensures s.day in DayTally(slots)
    ensures DayTally(slots + [s]) == DayTally(slots)[s.day := DayTally(slots)[s.day] + 1]
  {
    assert (slots + [s])[..|slots|] == slots;
    assert s.day.Mon? || s.day.Tue? || s.day.Wed? || s.day.Thu? || s.day.Fri?;
  }

  lemma {:induction false} GradeTallyCounts(slots: seq<Slot>)
    ensures forall g :: g in GradeTally(slots) <==> exists s :: s in slots && s.grade == g
    ensures forall g :: g in GradeTally(slots) ==> GradeTally(slots)[g] == GradeCount(slots, g)
    ensures SumValues(GradeTally(slots)) == |slots|
  {
    GradeTallyKeys(slots);
    GradeTallyValues(slots);
    GradeTallySum(slots);
  }

  lemma {:induction false} GradeTallyKeys(slots: seq<Slot>)
    ensures forall g :: g in GradeTally(slots) <==> exists s :: s in slots && s.grade == g
  {
    if slots != [] {
      var init := slots[..|slots| - 1];
      var last := slots[|slots| - 1];
      GradeTallyKeys(init);
      forall g ensures g in GradeTally(slots) <==> exists s :: s in slots && s.grade == g {
        if exists s :: s in init && s.grade == g {
          var s :| s in init && s.grade == g;
          assert s in slots;
        }
        if exists s :: s in slots && s.grade == g {
          var s :| s in slots && s.grade == g;
          assert s == last || s in init;
        }
      }
    }
  }

  lemma {:induction false} GradeTallyValues(slots: seq<Slot>)
    ensures forall g :: g in GradeTally(slots) ==> GradeTally(slots)[g] == GradeCount(slots, g)
  {
    if slots != [] {
      var init := slots[..|slots| - 1];
      var last := slots[|slots| - 1];
      GradeTallyValues(init);
      GradeTallyKeys(init);
      forall g | g in GradeTally(slots) ensures GradeTally(slots)[g] == GradeCount(slots, g) {
        if g !in GradeTally(init) {
          GradeCountZero(init, g);
        }
      }
    }
  }

  lemma {:induction false} GradeTallySum(slots: seq<Slot>)
    ensures SumValues(GradeTally(slots)) == |slots|
  {
    if slots != [] {
      var init := slots[..|slots| - 1];
      GradeTallySum(init);
      SumValuesBump(GradeTally(init), slots[|slots| - 1].grade);
    }
  }



  /** `byPeriod[p] = (byPeriod[p] || 0) + 1` over the slots. */
  function PeriodTally(slots: seq<Slot>): map<int, int>
  {
    if slots == [] then map[] else Bump(PeriodTally(slots[..|slots| - 1]), slots[|slots| - 1].period)
  }

  lemma {:induction false} PeriodTallyCounts(slots: seq<Slot>)
    ensures forall p :: p in PeriodTally(slots) <==> exists s :: s in slots && s.period == p
    ensures forall p :: p in PeriodTally(slots) ==> PeriodTally(slots)[p] == PeriodCount(slots, p)
    ensures SumValues(PeriodTally(slots)) == |slots|
  {
    PeriodTallyKeys(slots);
    PeriodTallyValues(slots);
    PeriodTallySum(slots);
  }

  lemma {:induction false} PeriodTallyKeys(slots: seq<Slot>)
    ensures forall p :: p in PeriodTally(slots) <==> exists s :: s in slots && s.period == p
  {
    if slots != [] {
      var init := slots[..|slots| - 1];
      var last := slots[|slots| - 1];
      PeriodTallyKeys(init);
      forall p ensures p in PeriodTally(slots) <==> exists s :: s in slots && s.period == p {
        if exists s :: s in init && s.period == p {
          var s :| s in init && s.period == p;
          assert s in slots;
        }
        if exists s :: s in slots && s.period == p {
          var s :| s in slots && s.period == p;
          assert s == last || s in init;
        }
      }
    }
  }

  lemma {:induction false} PeriodTallyValues(slots: seq<Slot>)
    ensures forall p :: p in PeriodTally(slots) ==> PeriodTally(slots)[p] == PeriodCount(slots, p)
  {
    if slots != [] {
      var init := slots[..|slots| - 1];
      var last := slots[|slots| - 1];
      PeriodTallyValues(init);
      PeriodTallyKeys(init);
      forall p | p in PeriodTally(slots) ensures PeriodTally(slots)[p] == PeriodCount(slots, p) {
        if p !in PeriodTally(init) {
          PeriodCountZero(init, p);
        }
      }
    }
  }

  lemma {:induction false} PeriodTallySum(slots: seq<Slot>)
    ensures SumValues(PeriodTally(slots)) == |slots|
  {
    if slots != [] {
      var init := slots[..|slots| - 1];
      PeriodTallySum(init);
      SumValuesBump(PeriodTally(init), slots[|slots| - 1].period);
    }
  }

  /** The whole prefix tallies like the list itself. */
  lemma TalliesWhole(slots: seq<Slot>)
    ensures forall d :: DayCount(slots[..|slots|], d) == DayCount(slots, d)
    ensures PeriodTally(slots[..|slots|]) == PeriodTally(slots)
    ensures GradeTally(slots[..|slots|]) == GradeTally(slots)
  {
    assert slots[..|slots|] == slots;
  }

  /** Slot i adds one to its day, its period and its grade. */
  lemma TalliesStep(slots: seq<Slot>, i: nat)
    requires i < |slots|
    ensures forall d :: DayCount(slots[..i + 1], d) == DayCount(slots[..i], d) + (if slots[i].day == d then 1 else 0)
    ensures PeriodTally(slots[..i + 1]) == Bump(PeriodTally(slots[..i]), slots[i].period)
    ensures GradeTally(slots[..i + 1]) == Bump(GradeTally(slots[..i]), slots[i].grade)
  {
    assert slots[..i + 1][..i] == slots[..i];
  }

  /** A map holding every day's count is the day tally. */
  lemma DayTallyOf(byDay: map<Day, int>, slots: seq<Slot>)
    requires forall d :: d in byDay && byDay[d] == DayCount(slots, d)
    ensures byDay == DayTally(slots)
  {
    forall d ensures d in DayTally(slots) {
      assert d.Mon? || d.Tue? || d.Wed? || d.Thu? || d.Fri?;
    }
  }
}

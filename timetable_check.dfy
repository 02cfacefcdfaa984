/**
 * validateTimetable and getTeacherHoursSummary (src/lib/autoScheduler.ts),
 * and what they say about a scheduling run's output.
 */
module TimetableCheck {
  import opened Types
  import opened Tally
  import opened Timetable
  import opened SlotSearch
  import opened SchedulerRequests
  import opened AutoScheduler

  // ---------------------------------------------------------------------
  // Duplicate keys

  function KeySet<K(==)>(slots: seq<Slot>, key: Slot -> K): set<K>
  {
    set s | s in slots :: key(s)
  }

  /** The first slot of the list with the key (the one the scan's map keeps). */
  function FirstWith<K(==)>(slots: seq<Slot>, key: Slot -> K, k: K): (r: Slot)
    requires k in KeySet(slots, key)
    ensures r in slots && key(r) == k
  {
    if key(slots[0]) == k then slots[0]
    else
      assert forall s :: s in slots && s != slots[0] ==> s in slots[1..];
      FirstWith(slots[1..], key, k)
  }

  /**
   * The scan's findings, in list order: each slot whose key an earlier slot
   * already has, paired with the first slot that had it.
   */
  function Duplicates<K(==)>(slots: seq<Slot>, key: Slot -> K): seq<(Slot, Slot)>
  {
    if slots == [] then []
    else
      var init := slots[..|slots| - 1];
      var last := slots[|slots| - 1];
      Duplicates(init, key) + (if key(last) in KeySet(init, key) then [(FirstWith(init, key, key(last)), last)] else [])
  }

  lemma KeySetAppend<K>(slots: seq<Slot>, key: Slot -> K, s: Slot)
    ensures KeySet(slots + [s], key) == KeySet(slots, key) + {key(s)}
  {
    assert forall x :: x in slots + [s] <==> x in slots || x == s;
  }

  lemma {:induction false} FirstWithAppend<K>(slots: seq<Slot>, key: Slot -> K, s: Slot, k: K)
    requires k in KeySet(slots, key)
    ensures k in KeySet(slots + [s], key)
    ensures FirstWith(slots + [s], key, k) == FirstWith(slots, key, k)
  {
    KeySetAppend(slots, key, s);
    if key(slots[0]) != k {
      assert (slots + [s])[1..] == slots[1..] + [s];
      assert forall x :: x in slots && x != slots[0] ==> x in slots[1..];
      FirstWithAppend(slots[1..], key, s, k);
    }
  }

  /**
   * One of validateTimetable's two loops: a map from key to the first slot
   * seen with it, and a finding for every later slot with a seen key.
   */
  method ScanDuplicates<K(==)>(slots: seq<Slot>, key: Slot -> K) returns (found: seq<(Slot, Slot)>)
    ensures found == Duplicates(slots, key)
  {
    var firstSeen: map<K, Slot> := map[];
    found := [];
    for i := 0 to |slots|
      invariant firstSeen.Keys == KeySet(slots[..i], key)
      invariant forall k :: k in firstSeen ==> firstSeen[k] == FirstWith(slots[..i], key, k)
      invariant found == Duplicates(slots[..i], key)
    {
      var s := slots[i];
      var prefix := slots[..i];
      assert slots[..i + 1] == prefix + [s];
      KeySetAppend(prefix, key, s);
      forall k | k in firstSeen ensures FirstWith(prefix + [s], key, k) == firstSeen[k] {
        FirstWithAppend(prefix, key, s, k);
      }
      if key(s) in firstSeen {
        found := found + [(firstSeen[key(s)], s)];
      } else {
        firstSeen := firstSeen[key(s) := s];
        assert FirstWith(prefix + [s], key, key(s)) == s by {
          FirstWithLast(prefix, key, s);
        }
      }
    }
    assert slots[..|slots|] == slots;
  }

  lemma {:induction false} FirstWithLast<K>(slots: seq<Slot>, key: Slot -> K, s: Slot)
    requires key(s) !in KeySet(slots, key)
    ensures key(s) in KeySet(slots + [s], key)
    ensures FirstWith(slots + [s], key, key(s)) == s
  {
    KeySetAppend(slots, key, s);
    if slots != [] {
      assert (slots + [s])[1..] == slots[1..] + [s];
      assert slots[0] in slots;
      assert forall x :: x in slots[1..] ==> x in slots;
      FirstWithLast(slots[1..], key, s);
    }
  }

  /** No two slots of the list share a key. */
  ghost predicate DistinctKeys<K>(slots: seq<Slot>, key: Slot -> K)
  {
    forall i, j :: 0 <= i < j < |slots| ==> key(slots[i]) != key(slots[j])
  }

  /** The scan finds nothing exactly when the keys are distinct. */
  lemma {:induction false} DuplicatesEmpty<K>(slots: seq<Slot>, key: Slot -> K)
    ensures Duplicates(slots, key) == [] <==> DistinctKeys(slots, key)
  {
    if slots != [] {
      var init := slots[..|slots| - 1];
      var last := slots[|slots| - 1];
      DuplicatesEmpty(init, key);
      if key(last) in KeySet(init, key) {
        var x :| x in init && key(x) == key(last);
        var i :| 0 <= i < |init| && init[i] == x;
        assert key(slots[i]) == key(slots[|slots| - 1]);
      } else if DistinctKeys(init, key) {
        forall i, j | 0 <= i < j < |slots| ensures key(slots[i]) != key(slots[j]) {
          if j == |slots| - 1 {
            assert slots[i] == init[i];
            assert init[i] in init;
          } else {
            assert slots[i] == init[i] && slots[j] == init[j];
          }
        }
      } else {
        var i, j :| 0 <= i < j < |init| && key(init[i]) == key(init[j]);
        assert slots[i] == init[i] && slots[j] == init[j];
      }
    }
  }

  /** One finding per slot beyond the first of each key. */
  lemma {:induction false} DuplicatesCount<K>(slots: seq<Slot>, key: Slot -> K)
    ensures |Duplicates(slots, key)| == |slots| - |KeySet(slots, key)|
  {
    if slots != [] {
      var init := slots[..|slots| - 1];
      var last := slots[|slots| - 1];
      DuplicatesCount(init, key);
      assert slots == init + [last];
      KeySetAppend(init, key, last);
    }
  }

  /** Every finding pairs two slots of the list with the same key, the first of them the earliest. */
  lemma {:induction false} DuplicatesSound<K>(slots: seq<Slot>, key: Slot -> K)
    ensures forall p :: p in Duplicates(slots, key) ==>
              p.0 in slots && p.1 in slots && key(p.0) == key(p.1) && p.0 == FirstWith(slots, key, key(p.1))
  {
    if slots != [] {
      var init := slots[..|slots| - 1];
      var last := slots[|slots| - 1];
      DuplicatesSound(init, key);
      assert slots == init + [last];
      forall p | p in Duplicates(slots, key)
        ensures p.0 in slots && p.1 in slots && key(p.0) == key(p.1) && p.0 == FirstWith(slots, key, key(p.1))
      {
        if p in Duplicates(init, key) {
          FirstWithAppend(init, key, last, key(p.1));
        } else {
          FirstWithAppend(init, key, last, key(last));
        }
      }
    }
  }

  // ---------------------------------------------------------------------
  // validateTimetable

  /** An error of validateTimetable: the slot that clashes and the first slot it clashes with. */
  datatype Clash = ClassClash(first: Slot, second: Slot) | TeacherClash(first: Slot, second: Slot)

  datatype Validation = Validation(valid: bool, errors: seq<Clash>)

  function ClassClashes(pairs: seq<(Slot, Slot)>): (r: seq<Clash>)
    ensures |r| == |pairs|
    ensures forall i :: 0 <= i < |pairs| ==> r[i] == ClassClash(pairs[i].0, pairs[i].1)
  {
    if pairs == [] then [] else [ClassClash(pairs[0].0, pairs[0].1)] + ClassClashes(pairs[1..])
  }

  function TeacherClashes(pairs: seq<(Slot, Slot)>): (r: seq<Clash>)
    ensures |r| == |pairs|
    ensures forall i :: 0 <= i < |pairs| ==> r[i] == TeacherClash(pairs[i].0, pairs[i].1)
  {
    if pairs == [] then [] else [TeacherClash(pairs[0].0, pairs[0].1)] + TeacherClashes(pairs[1..])
  }

  /** The timetable is valid: no class has two lessons, and no teacher two classes, at one hour. */
  ghost predicate Clashless(slots: seq<Slot>)
  {
    DistinctKeys(slots, ClassKeyOf) && DistinctKeys(slots, TeacherKeyOf)
  }

  /**
   * validateTimetable: the class-cell clashes in list order, then the
   * teacher-hour clashes; valid exactly when there are none.
   */
  method ValidateTimetable(slots: seq<Slot>) returns (v: Validation)
    ensures v.errors == ClassClashes(Duplicates(slots, ClassKeyOf)) + TeacherClashes(Duplicates(slots, TeacherKeyOf))
    ensures v.valid <==> Clashless(slots)
    ensures |v.errors| == (|slots| - |ClassKeys(slots)|) + (|slots| - |TeacherKeys(slots)|)
  {
    var classPairs := ScanDuplicates(slots, ClassKeyOf);
    var teacherPairs := ScanDuplicates(slots, TeacherKeyOf);
    var errors := ClassClashes(classPairs) + TeacherClashes(teacherPairs);
    DuplicatesEmpty(slots, ClassKeyOf);
    DuplicatesEmpty(slots, TeacherKeyOf);
    DuplicatesCount(slots, ClassKeyOf);
    DuplicatesCount(slots, TeacherKeyOf);
    assert KeySet(slots, ClassKeyOf) == ClassKeys(slots);
    assert KeySet(slots, TeacherKeyOf) == TeacherKeys(slots);
    v := Validation(|errors| == 0, errors);
  }

  /**
   * A scheduling run never breaks a valid timetable: the existing slots
   * followed by the slots the run placed still have no clash.
   */
  lemma PlacementsKeepClashless(c: Constraints, existing: seq<Slot>, placed: seq<Slot>)
    requires Clashless(existing)
    requires PlacementsOk(c, existing, placed)
    ensures Clashless(existing + placed)
  {
    var all := existing + placed;
    forall i, j | 0 <= i < j < |all|
      ensures ClassKeyOf(all[i]) != ClassKeyOf(all[j]) && TeacherKeyOf(all[i]) != TeacherKeyOf(all[j])
    {
      if j >= |existing| {
        var k := j - |existing|;
        assert PlacementOk(c, existing, placed, k);
        assert all[j] == placed[k];
        var before := existing + placed[..k];
        assert all[i] == before[i];
        assert all[i] in before;
      }
    }
  }

  /**
   * A scheduling run keeps every teacher within maxPerDay lessons on every
   * day, provided the existing slots already were: each placement was made
   * while its teacher had fewer than maxPerDay lessons that day.
   */
  lemma PlacementsKeepPerDay(c: Constraints, existing: seq<Slot>, placed: seq<Slot>, t: string, d: Day)
    requires PlacementsOk(c, existing, placed)
    requires DayCount(SlotsOf(existing, t), d) <= c.maxPerDay
    ensures DayCount(SlotsOf(existing + placed, t), d) <= c.maxPerDay
  {
    forall k | 0 <= k < |placed| ensures UnderCapAt(existing, placed, t, d, c.maxPerDay, k) {
      PlacedUnderCap(c, existing, placed, k);
    }
    PerDayUpTo(existing, placed, t, d, c.maxPerDay, |placed|);
    assert placed[..|placed|] == placed;
  }

  /** Placement k, when it is teacher t's lesson on day d, found the day below the cap. */
  ghost predicate UnderCapAt(existing: seq<Slot>, placed: seq<Slot>, t: string, d: Day, cap: int, k: int)
    requires 0 <= k < |placed|
  {
    placed[k].teacherId == t && placed[k].day == d ==> DayCount(SlotsOf(existing + placed[..k], t), d) < cap
  }

  lemma {:induction false} PerDayUpTo(existing: seq<Slot>, placed: seq<Slot>, t: string, d: Day, cap: int, n: nat)
    requires n <= |placed|
    requires forall k :: 0 <= k < n ==> UnderCapAt(existing, placed, t, d, cap, k)
    requires DayCount(SlotsOf(existing, t), d) <= cap
    ensures DayCount(SlotsOf(existing + placed[..n], t), d) <= cap
    decreases n
  {
    if n == 0 {
      assert existing + placed[..0] == existing;
    } else {
      PerDayUpTo(existing, placed, t, d, cap, n - 1);
      var s := placed[n - 1];
      var before := existing + placed[..n - 1];
      assert UnderCapAt(existing, placed, t, d, cap, n - 1);
      PerDayStep(before, s, t, d, cap);
      AppendPrefix(existing, placed, n - 1);
    }
  }

  /** One more slot keeps a teacher's day within the cap when that day was below it or the slot is elsewhere. */
  lemma PerDayStep(before: seq<Slot>, s: Slot, t: string, d: Day, cap: int)
    requires DayCount(SlotsOf(before, t), d) <= cap
    requires s.teacherId == t && s.day == d ==> DayCount(SlotsOf(before, t), d) < cap
    ensures DayCount(SlotsOf(before + [s], t), d) <= cap
  {
    var all := before + [s];
    assert all[..|all| - 1] == before;
    var x := SlotsOf(before, t);
    if s.teacherId == t {
      assert SlotsOf(all, t) == x + [s];
      assert (x + [s])[..|x|] == x;
    } else {
      assert SlotsOf(all, t) == x;
    }
  }

  /** A placement was made while its teacher had fewer than maxPerDay lessons that day. */
  lemma PlacedUnderCap(c: Constraints, existing: seq<Slot>, placed: seq<Slot>, k: nat)
    requires k < |placed|
    requires PlacementsOk(c, existing, placed)
    ensures DayCount(SlotsOf(existing + placed[..k], placed[k].teacherId), placed[k].day) < c.maxPerDay
  {
    assert PlacementOk(c, existing, placed, k);
  }

  lemma AppendPrefix<T>(a: seq<T>, b: seq<T>, n: nat)
    requires n < |b|
    ensures a + b[..n + 1] == (a + b[..n]) + [b[n]]
  {
    assert b[..n + 1] == b[..n] + [b[n]];
  }

  // ---------------------------------------------------------------------
  // getTeacherHoursSummary

  datatype HoursSummary = HoursSummary(
    teacherId: string,
    teacherName: string,
    totalHours: int,
    byDay: map<Day, int>,
    byGrade: map<int, int>)

  /** A teacher's row, as a value. */
  function SummaryOf(slots: seq<Slot>, t: Teacher): HoursSummary
  {
    var ts := SlotsOf(slots, t.id);
    HoursSummary(t.id, t.name, |ts|, DayTally(ts), GradeTally(ts))
  }

  /** One teacher's row: the forEach over the teacher's slots. */
  method TeacherSummary(slots: seq<Slot>, t: Teacher) returns (row: HoursSummary)
    ensures row == SummaryOf(slots, t)
  {
    var teacherSlots := SlotsOf(slots, t.id);
    var byDay := map[Mon := 0, Tue := 0, Wed := 0, Thu := 0, Fri := 0];
    var byGrade: map<int, int> := map[];
    forall d ensures d in byDay {
      assert d.Mon? || d.Tue? || d.Wed? || d.Thu? || d.Fri?;
    }
    for i := 0 to |teacherSlots|
      invariant forall d :: d in byDay && byDay[d] == DayCount(teacherSlots[..i], d)
      invariant byGrade == GradeTally(teacherSlots[..i])
    {
      var s := teacherSlots[i];
      TalliesStep(teacherSlots, i);
      byDay := byDay[s.day := byDay[s.day] + 1];
      byGrade := Bump(byGrade, s.grade);
    }
    TalliesWhole(teacherSlots);
    DayTallyOf(byDay, teacherSlots);
    row := HoursSummary(t.id, t.name, |teacherSlots|, byDay, byGrade);
  }

  /** getTeacherHoursSummary: one row per specialist, in list order. */
  method TeacherHoursSummary(slots: seq<Slot>, teachers: seq<Teacher>) returns (rows: seq<HoursSummary>)
    ensures |rows| == |Specialists(teachers)|
    ensures forall i :: 0 <= i < |rows| ==> rows[i] == SummaryOf(slots, Specialists(teachers)[i])
  {
    var specialists := Specialists(teachers);
    rows := [];
    for i := 0 to |specialists|
      invariant |rows| == i
      invariant forall j :: 0 <= j < i ==> rows[j] == SummaryOf(slots, specialists[j])
    {
      var row := TeacherSummary(slots, specialists[i]);
      rows := rows + [row];
    }
  }

  /**
   * A row's day counts and grade counts each add up to its total, and each
   * grade count is the number of the teacher's slots of that grade.
   */
  lemma SummaryConsistent(slots: seq<Slot>, t: Teacher)
    ensures var row := SummaryOf(slots, t);
            row.byDay[Mon] + row.byDay[Tue] + row.byDay[Wed] + row.byDay[Thu] + row.byDay[Fri] == row.totalHours
    ensures var row := SummaryOf(slots, t);
            SumValues(row.byGrade) == row.totalHours
    ensures forall g :: g in SummaryOf(slots, t).byGrade <==> exists s :: s in slots && s.teacherId == t.id && s.grade == g
    ensures forall g :: g in SummaryOf(slots, t).byGrade ==> SummaryOf(slots, t).byGrade[g] == GradeCount(SlotsOf(slots, t.id), g)
  {
    var ts := SlotsOf(slots, t.id);
    WeekTotalIsLength(ts);
    GradeTallyCounts(ts);
  }
}

/**
 * The school store (src/stores/schoolStore.ts): the sheet-backed settings,
 * school information, subject and room tables and the period times, with
 * the lookups the rest of the program uses. The clock is a parameter; the
 * persistence and its version migration are not part of this model.
 */
module SchoolStore {
  import opened Types
  import SchedulerRequests
  import AutoScheduler

  /** basic 22, master reduction 50%, tolerance 2, homeroom 22, specialist 22 */
  const DefaultSettings := SheetSettings(22, 50, 2, 22, 22)

  /** An empty school of the given year with no classes. */
  function DefaultSchoolInfo(year: int): SchoolSheetInfo
  {
    SchoolSheetInfo("", year, PerGrade(0, 0, 0, 0, 0, 0))
  }

  /** The six default period times. */
  const DefaultPeriods: seq<PeriodInfo> := [
    PeriodInfo(1, "09:00", "09:40"),
    PeriodInfo(2, "09:50", "10:30"),
    PeriodInfo(3, "10:50", "11:30"),
    PeriodInfo(4, "11:40", "12:20"),
    PeriodInfo(5, "13:20", "14:00"),
    PeriodInfo(6, "14:10", "14:50")
  ]

  datatype AllSheetData = AllSheetData(
    settings: SheetSettings,
    schoolInfo: SchoolSheetInfo,
    periods: seq<PeriodInfo>,
    rooms: seq<RoomInfo>,
    subjects: seq<SubjectInfo>)

  /** `Math.round(n / d)` for d > 0: the nearest integer, halves rounded up. */
  function RoundDiv(n: int, d: int): (r: int)
    requires d > 0
    ensures 2 * d * r - d <= 2 * n < 2 * d * r + d
  {
    (2 * n + d) / (2 * d)
  }

  /**
   * getStandardHours: the homeroom or specialist standard, or the basic
   * hours when that standard is 0; a master teacher's standard is reduced
   * by the reduction rate when the rate is positive.
   */
  function StandardHoursOf(settings: SheetSettings, homeroom: bool, isMaster: bool): (r: int)
    ensures var base := if homeroom then NumberOr(Some(settings.homeroomStandard), settings.baseHours)
                        else NumberOr(Some(settings.specialistStandard), settings.baseHours);
            && (isMaster && settings.masterReductionRate > 0 ==>
                  200 * r - 100 <= 2 * base * (100 - settings.masterReductionRate) < 200 * r + 100)
            && (!(isMaster && settings.masterReductionRate > 0) ==> r == base)
  {
    var base := if homeroom then NumberOr(Some(settings.homeroomStandard), settings.baseHours)
                else NumberOr(Some(settings.specialistStandard), settings.baseHours);
    if isMaster && settings.masterReductionRate > 0 then RoundDiv(base * (100 - settings.masterReductionRate), 100)
    else base
  }

  /** A rate within 0..100 never raises a non-negative standard and never takes it below zero. */
  lemma ReductionWithinBase(settings: SheetSettings, homeroom: bool, isMaster: bool)
    requires 0 <= settings.masterReductionRate <= 100
    requires 0 <= settings.baseHours && 0 <= settings.homeroomStandard && 0 <= settings.specialistStandard
    ensures var base := if homeroom then NumberOr(Some(settings.homeroomStandard), settings.baseHours)
                        else NumberOr(Some(settings.specialistStandard), settings.baseHours);
            0 <= StandardHoursOf(settings, homeroom, isMaster) <= base
  {
    var base := if homeroom then NumberOr(Some(settings.homeroomStandard), settings.baseHours)
                else NumberOr(Some(settings.specialistStandard), settings.baseHours);
    var rate := settings.masterReductionRate;
    if isMaster && rate > 0 {
      var r := StandardHoursOf(settings, homeroom, isMaster);
      var n := base * (100 - rate);
      ScaledWithin(base, 100 - rate);
      assert 0 <= n <= base * 100;
      assert 200 * r - 100 <= 2 * n < 200 * r + 100;
    }
  }

  lemma ScaledWithin(base: int, k: int)
    requires 0 <= base && 0 <= k <= 100
    ensures 0 <= base * k <= base * 100
  {
    assert base * 100 - base * k == base * (100 - k);
  }

  /** The classes of grades 1..n. */
  function ClassesUpTo(info: SchoolSheetInfo, n: int): int
    decreases n
  {
    if n <= 0 then 0 else ClassesUpTo(info, n - 1) + AutoScheduler.ClassCount(info, n)
  }

  /** `getSubjectHours`: the table's hours of the subject for the grade, 0 when unknown or 0. */
  function SubjectHoursOf(subjects: seq<SubjectInfo>, name: string, grade: int): (r: int)
    ensures FindSubject(subjects, name).None? ==> r == 0
    ensures !(1 <= grade <= 6) ==> r == 0
    ensures FindSubject(subjects, name).Some? && 1 <= grade <= 6 ==>
              r == FindSubject(subjects, name).value.hoursByGrade.At(grade).value
  {
    var subject := FindSubject(subjects, name);
    if subject.None? then 0 else NumberOr(subject.value.hoursByGrade.At(grade), 0)
  }

  /** Where the store says 0 hours, the scheduler asks for 1; otherwise they agree. */
  lemma SubjectHoursAgainstScheduler(subjects: seq<SubjectInfo>, name: string, grade: int)
    ensures var h := SubjectHoursOf(subjects, name, grade);
            SchedulerRequests.HoursFor(subjects, name, grade) == (if h == 0 then 1 else h)
  {
  }

  // ---------------------------------------------------------------------
  // The store

  class Store {
    var settings: SheetSettings
    var schoolInfo: SchoolSheetInfo
    var subjects: seq<SubjectInfo>
    var rooms: seq<RoomInfo>
    var periods: seq<PeriodInfo>
    var lastSyncTime: Option<int>
    var isSyncing: bool
    /** The calendar year read once when the defaults are built; every reset returns to it. */
    const defaultYear: int

    /** The initial state; `year` stands for the calendar year at load time. */
    constructor (year: int)
      ensures defaultYear == year
      ensures settings == DefaultSettings && schoolInfo == DefaultSchoolInfo(year)
      ensures subjects == [] && rooms == [] && periods == DefaultPeriods
      ensures lastSyncTime == None && !isSyncing
    {
      defaultYear := year;
      settings := DefaultSettings;
      schoolInfo := DefaultSchoolInfo(year);
      subjects := [];
      rooms := [];
      periods := DefaultPeriods;
      lastSyncTime := None;
      isSyncing := false;
    }

    /** setAllData: take the sheet's data, keeping the default periods when it has none. */
    method SetAllData(data: AllSheetData, now: int)
      modifies this
      ensures settings == data.settings && schoolInfo == data.schoolInfo
      ensures subjects == data.subjects && rooms == data.rooms
      ensures periods == (if |data.periods| > 0 then data.periods else DefaultPeriods)
      ensures lastSyncTime == Some(now)
      ensures isSyncing == old(isSyncing)
    {
      settings := data.settings;
      schoolInfo := data.schoolInfo;
      subjects := data.subjects;
      rooms := data.rooms;
      periods := if |data.periods| > 0 then data.periods else DefaultPeriods;
      lastSyncTime := Some(now);
    }

    /** resetAll: back to the defaults, except the syncing flag. */
    method ResetAll()
      modifies this
      ensures settings == DefaultSettings && schoolInfo == DefaultSchoolInfo(defaultYear)
      ensures subjects == [] && rooms == [] && periods == DefaultPeriods
      ensures lastSyncTime == None
      ensures isSyncing == old(isSyncing)
    {
      settings := DefaultSettings;
      schoolInfo := DefaultSchoolInfo(defaultYear);
      subjects := [];
      rooms := [];
      periods := DefaultPeriods;
      lastSyncTime := None;
    }

    function GetStandardHours(homeroom: bool, isMaster: bool): (r: int)
      reads this
      ensures var base := if homeroom then NumberOr(Some(settings.homeroomStandard), settings.baseHours)
                          else NumberOr(Some(settings.specialistStandard), settings.baseHours);
              && (isMaster && settings.masterReductionRate > 0 ==>
                    200 * r - 100 <= 2 * base * (100 - settings.masterReductionRate) < 200 * r + 100)
              && (!(isMaster && settings.masterReductionRate > 0) ==> r == base)
    {
      StandardHoursOf(settings, homeroom, isMaster)
    }

    /** getTotalClasses: the classes of all six grades, which is what the scheduler iterates over. */
    function GetTotalClasses(): (r: int)
      reads this
      ensures r == ClassesUpTo(schoolInfo, 6)
    {
      var c := schoolInfo.classesByGrade;
      assert ClassesUpTo(schoolInfo, 6) == c.g1 + c.g2 + c.g3 + c.g4 + c.g5 + c.g6 by {
        ClassesUpToTable(schoolInfo);
      }
      c.g1 + c.g2 + c.g3 + c.g4 + c.g5 + c.g6
    }

    function GetSubjectHours(name: string, grade: int): (r: int)
      reads this
      ensures FindSubject(subjects, name).None? ==> r == 0
      ensures FindSubject(subjects, name).Some? && 1 <= grade <= 6 ==>
                r == FindSubject(subjects, name).value.hoursByGrade.At(grade).value
      ensures !(1 <= grade <= 6) ==> r == 0
    {
      SubjectHoursOf(subjects, name, grade)
    }
  }

  /** The per-grade class counts add up to the table's six entries. */
  lemma ClassesUpToTable(info: SchoolSheetInfo)
    ensures var c := info.classesByGrade;
            ClassesUpTo(info, 6) == c.g1 + c.g2 + c.g3 + c.g4 + c.g5 + c.g6
  {
    var c := info.classesByGrade;
    assert ClassesUpTo(info, 0) == 0;
    assert ClassesUpTo(info, 1) == c.g1;
    assert ClassesUpTo(info, 2) == c.g1 + c.g2;
    assert ClassesUpTo(info, 3) == c.g1 + c.g2 + c.g3;
    assert ClassesUpTo(info, 4) == c.g1 + c.g2 + c.g3 + c.g4;
    assert ClassesUpTo(info, 5) == c.g1 + c.g2 + c.g3 + c.g4 + c.g5;
  }
}

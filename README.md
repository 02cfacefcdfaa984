# Teaching-hours and timetable core of sisu, in Dafny

sisu is a web tool for a Korean elementary school. It keeps the roster of
teachers, each teacher's weekly hours by kind of work, the school's
settings from a Google Sheet, and a timetable of specialist lessons. This
project models the logic at the centre of that tool and proves what it
promises:

- **Automatic scheduler.** `runAutoSchedule` and its helpers (`auto_scheduler.dfy`,
  `scheduler_requests.dfy`, `slot_search.dfy`). It turns each specialist's
  grades and subjects into requests and serves the requests with most hours
  first. It places each hour in the first free cell that `findAvailableSlot`
  finds, and records the hours it cannot place.
- **Timetable checks.** `validateTimetable` and `getTeacherHoursSummary`
  (`timetable_check.dfy`). Along with them, the proofs about what a
  scheduling run places. `PlacementsKeepClashless` shows the run never
  creates a clash. `PlacementsKeepPerDay` shows it never takes a teacher
  over `maxPerDay` lessons on a day the existing slots kept within the cap.
  Both apply to a run's result through the `PlacementsOk` postcondition of
  `RunAutoSchedule`.
- **Timetable store.** The slot list, its CRUD actions, the conflict checker,
  the lookups and the statistics (`timetable_store.dfy`). It is modelled as
  a class with a `seq<Slot>` field.
- **Teacher store.** Teacher CRUD, the cascade on delete, the assignment
  upsert and the pending-change counter (`teacher_store.dfy`). It is
  modelled as a class.
- **School store.** The settings lookups, `setAllData` and `resetAll`
  (`school_store.dfy`).
- **Smaller pure logic:**
  - the hours simulator (`simulator.dfy`);
  - the dashboard figures (`dashboard_stats.dfy`);
  - the form validators (`validation.dfy`);
  - the role labels (`teacher_utils.dfy`);
  - the sheet-row conversion of the Sheets sync (`google_sheets.dfy`).

Shared records live in `types.dfy`. `sorting.dfy` holds the stable sort that
`Array.prototype.sort` performs with a consistent comparator. `tally.dfy`
holds the `(m[k] || 0) + 1` count records, and `timetable.dfy` the slot keys
and counts.

Modelling choices:

- **Ids and clocks are parameters.** The scheduler names its k-th new slot
  `newId(k)`, and the stores take `id` and `now` arguments.
- **Index keys are tuples.** The source's string keys
  "day-period-grade-class" and "teacherId-day-period" become tuples. For
  integer fields and the five fixed day words, that string encoding is
  injective, so nothing is lost.
- **Teacher tags.** A teacher's tag is `Homeroom | Specialist |
  Unrecognised(raw)`, because a sheet row's tag is cast without a check.
- **Grade lists.** `Teacher` has an optional `grades` list. The scheduler
  reads `teacher.grades` although the declared record has only `grade`.

Where the behaviour is surprising, the model follows the code as written:

- **Consecutive-lesson check.** The check counts the lessons already placed
  in a run twice. `SlotSearch.NewSlotsCountedTwice` shows a run of three
  that passes a limit of two.
- **Subject hours.** The scheduler asks for 1 hour where the school store
  reports 0.
- **Dashboard counts.** A teacher whose tag is neither homeroom nor
  specialist is in neither dashboard count, but their hours go to the
  specialist total.

## Model

| member | source | states |
|---|---|---|
| Types.DayIndex | src/lib/autoScheduler.ts:22 | the week is Mon..Fri in that order and every day has its place in it |
| Types.ParseType | src/lib/googleSheetsApi.ts:263 | the tag read from a sheet's type text writes back as exactly that text, whatever the text |
| Types.ParseTypeName | src/lib/googleSheetsApi.ts:263 | a tag that does not spell a known role under another name reads back as itself |
| Types.NumberOr | src/lib/dashboardStats.ts:48-50 | `v \|\| d` on numbers: the value when present and non-zero, otherwise the default |
| Types.PerGrade.At | src/lib/autoScheduler.ts:189 | a per-grade table has an entry exactly for grades 1..6 |
| Types.FindSubject | src/lib/autoScheduler.ts:188 | `find` by name: None iff no subject has the name, otherwise the first one that has it |
| Sorting.StableSortBy | src/lib/autoScheduler.ts:99 | the sort returns a permutation of its input in ascending rank, with equal-ranked elements in input order |
| Sorting.SortInts | src/lib/autoScheduler.ts:303 | `sort((a, b) => a - b)` returns an ascending permutation |
| Sorting.AscendingUnique | src/lib/autoScheduler.ts:303 | two ascending lists with the same elements are equal, so the sorted periods are determined by the periods |
| Tally.Bump | src/stores/timetableStore.ts:149-150 | `m[k] = (m[k] \|\| 0) + 1` adds the key if absent, adds one to its count and leaves every other count alone |
| Tally.SumValuesBump | src/stores/timetableStore.ts:149-150 | each count step adds exactly one to the sum of the counts |
| Timetable.KeysAppend | src/lib/autoScheduler.ts:127-134 | recording a slot adds exactly its class key and its teacher key to the taken keys |
| Timetable.SlotsOf | src/stores/timetableStore.ts:90 | a slot is in a teacher's list iff it is in the timetable and is that teacher's |
| Timetable.SlotsOfFirst | src/stores/timetableStore.ts:89-95 | the head of a teacher's filtered slots is the teacher's first slot in list order |
| Timetable.SlotsOfAppend | src/lib/autoScheduler.ts:222-224 | filtering the existing slots followed by the new ones is filtering each list in turn |
| Timetable.WeekTotalIsLength | src/stores/timetableStore.ts:147-158 | the five per-day counts add up to the number of slots |
| Timetable.CountsPositive | src/stores/timetableStore.ts:147-151 | every slot is counted under its day, its period and its grade |
| Timetable.GradeCountZero | src/stores/timetableStore.ts:150 | a grade that no slot has counts 0 |
| Timetable.PeriodCountZero | src/stores/timetableStore.ts:149 | a period that no slot has counts 0 |
| Timetable.PeriodsOnAppend | src/lib/autoScheduler.ts:297-301 | a teacher's periods on a day, over two lists, are those of the first list followed by those of the second |
| Timetable.DayTallyStep | src/stores/timetableStore.ts:148 | `byDay[slot.day]++`: one more lesson on the slot's day, every other day unchanged |
| Timetable.GradeTallyCounts | src/stores/timetableStore.ts:150 | byGrade has a key exactly for the grades present, each value is the number of slots of that grade, and the values sum to the number of slots |
| Timetable.PeriodTallyCounts | src/stores/timetableStore.ts:149 | byPeriod has a key exactly for the periods present, each value is that period's count, and the values sum to the number of slots |
| SlotSearch.EmptyIndexes | src/lib/autoScheduler.ts:83-84 | the fresh class and teacher indexes hold the keys of no slot |
| SlotSearch.RegisterIndexes | src/lib/autoScheduler.ts:127-134 | recording a slot in both indexes keeps them equal to the keys of the slots recorded so far |
| SlotSearch.RunEndingAt | src/lib/autoScheduler.ts:306-316 | the run counter at index i lies between 1 and i + 1 |
| SlotSearch.RunEndingAtIsRun | src/lib/autoScheduler.ts:309-316 | the counter's value is the length of a run of consecutive periods ending at i |
| SlotSearch.RunWithinRunEndingAt | src/lib/autoScheduler.ts:309-316 | no run ending at i is longer than the counter at i, so `maxFound` is the longest run |
| SlotSearch.LongestRunDecides | src/lib/autoScheduler.ts:309-318 | with the largest counter, `maxFound <= maxConsecutive` holds iff no run is longer than maxConsecutive |
| SlotSearch.CheckConsecutive | src/lib/autoScheduler.ts:289-319 | accepts iff no run of consecutive periods in the sorted periods of both lists plus the candidate is longer than maxConsecutive |
| SlotSearch.NewSlotsCountedTwice | src/lib/autoScheduler.ts:258-265 | as the search calls it, new lessons in periods p and p + 1 let period p + 2 pass a limit of 2, although counting each lesson once would refuse it |
| SlotSearch.DayCountsCount | src/lib/autoScheduler.ts:226-228 | `teacherDayCount.get(d) \|\| 0` is the teacher's number of lessons on day d |
| SlotSearch.DayOrderProperties | src/lib/autoScheduler.ts:232-234 | the days are tried in ascending lesson count: all five days, with equal counts in weekday order |
| SlotSearch.AdmissibleInIndexes | src/lib/autoScheduler.ts:248-266 | while the indexes are exact, checking a cell against them is checking it against the slot lists |
| SlotSearch.TallyDays | src/lib/autoScheduler.ts:221-228 | the forEach fills teacherDayCount with each day's lesson count |
| SlotSearch.ScanDay | src/lib/autoScheduler.ts:236-281 | returns the first period of 1..6 that passes every check on that day, or None iff none passes |
| SlotSearch.FindAvailableSlot | src/lib/autoScheduler.ts:211-284 | returns the slot for the first admissible cell in search order, or null iff no cell of periods 1..6 on any day is admissible |
| SchedulerRequests.Specialists | src/lib/autoScheduler.ts:46 | keeps a teacher iff tagged specialist; order and counts by the two lemmas below |
| SchedulerRequests.SpecialistsAppend | src/lib/autoScheduler.ts:46 | the filter distributes over concatenation, so the specialists stay in roster order |
| SchedulerRequests.SpecialistsMultiset | src/lib/autoScheduler.ts:46 | each specialist is kept as often as it occurs in the roster; other teachers not at all |
| SchedulerRequests.GradesOf | src/lib/autoScheduler.ts:179-180 | a teacher's grades are `grades` if non-empty, else `[grade]` if grade is truthy, else none |
| SchedulerRequests.HoursFor | src/lib/autoScheduler.ts:188-189 | the hours are the table entry, or 1 when the subject is missing, the grade is outside 1..6 or the entry is 0; never 0 |
| SchedulerRequests.GenerateAssignmentRequests | src/lib/autoScheduler.ts:170-206 | the three nested loops build, in order, the requests of every teacher, grade and subject with positive hours |
| SchedulerRequests.TeacherRequests | src/lib/autoScheduler.ts:177-203 | one teacher's requests: grade by grade, subject by subject |
| SchedulerRequests.RequestsForMembers | src/lib/autoScheduler.ts:177-202 | a request is generated iff it belongs to a specialist, one of their grades and one of their subjects, and its hours are positive |
| SchedulerRequests.RequestsPositive | src/lib/autoScheduler.ts:191 | every generated request asks for a positive number of hours |
| SchedulerRequests.MissingSubjectOneHour | src/lib/autoScheduler.ts:188-198 | a subject missing from the table is requested for 1 hour and with no default room |
| SchedulerRequests.SortRequests | src/lib/autoScheduler.ts:99 | the requests are reordered with most hours first, and requests with equal hours keep their order |
| AutoScheduler.MergeConstraints | src/lib/autoScheduler.ts:58-64 | defaults maxConsecutive 4, maxPerDay 6 and no blackouts, each replaced by the caller's field when supplied |
| AutoScheduler.PlacementsExtend | src/lib/autoScheduler.ts:248-266 | a slot that passes every check can be added while every earlier placement stays admissible |
| AutoScheduler.SessionStep | src/lib/autoScheduler.ts:123-134 | recording a placed slot keeps both indexes exact and every placement admissible |
| AutoScheduler.BuiltFromExtend | src/lib/autoScheduler.ts:268-279 | every slot placed for a class is built from the request and the class, with the id of its position |
| AutoScheduler.SeedIndexes | src/lib/autoScheduler.ts:86-96 | the forEach over the existing slots leaves the indexes holding exactly their keys |
| AutoScheduler.PlaceClass | src/lib/autoScheduler.ts:109-149 | places at most hoursNeeded slots for the class, each admissible when placed; any shortfall means no cell is left for it |
| AutoScheduler.PlaceRequest | src/lib/autoScheduler.ts:103-150 | for each class k in 1..classCount, k's new slots plus the shortfall recorded for k equal the request's hours, and k has exactly one record iff fewer were placed, none otherwise; records come in class order; summed, placed plus shortfalls equal the request's demand |
| AutoScheduler.AccountStep | src/lib/autoScheduler.ts:108-148 | one pass of the class loop settles its class, placed or recorded short, and leaves the earlier classes settled |
| AutoScheduler.RequestStep | src/lib/autoScheduler.ts:108-148 | the attempt loop's result and the record it may add carry the class loop on to the next class |
| AutoScheduler.SumShortfallAppend | src/lib/autoScheduler.ts:154-157 | the reduce over the records adds up part by part |
| AutoScheduler.SumShortfallPositive | src/lib/autoScheduler.ts:141-163 | records with positive shortfalls sum to 0 exactly when there are none |
| AutoScheduler.ServeRequests | src/lib/autoScheduler.ts:102-151 | over all requests, the placed slots plus the shortfalls equal the total demand; each slot serves a request and is admissible when placed |
| AutoScheduler.RunAutoSchedule | src/lib/autoScheduler.ts:37-165 | no specialists: failure with nothing; no requests: success with nothing; otherwise placed + unplaced hours = demand, success iff nothing is unassigned, and every slot is admissible, serves a request and has its id |
| AutoScheduler.DemandAppend | src/lib/autoScheduler.ts:102-151 | the demand of two request lists is the sum of their demands |
| AutoScheduler.DemandPermutation | src/lib/autoScheduler.ts:99 | reordering the requests does not change the total demand |
| TimetableCheck.FirstWith | src/lib/autoScheduler.ts:330-343 | the slot the map keeps for a key is a slot of the list with that key |
| TimetableCheck.ScanDuplicates | src/lib/autoScheduler.ts:330-344 | the loop reports each later slot with a seen key, paired with the first slot that had it |
| TimetableCheck.DuplicatesEmpty | src/lib/autoScheduler.ts:363-364 | a scan finds nothing iff no two slots share the key |
| TimetableCheck.DuplicatesCount | src/lib/autoScheduler.ts:329-361 | a scan makes one finding per slot beyond the first of each key |
| TimetableCheck.DuplicatesSound | src/lib/autoScheduler.ts:335-340 | each finding pairs two slots of the list with equal keys, and the first of them is the earliest with that key |
| TimetableCheck.ClassClashes | src/lib/autoScheduler.ts:337-340 | one class-clash error per finding, in order |
| TimetableCheck.TeacherClashes | src/lib/autoScheduler.ts:354-357 | one teacher-clash error per finding, in order |
| TimetableCheck.ValidateTimetable | src/lib/autoScheduler.ts:324-367 | class clashes then teacher clashes; valid iff no class has two lessons and no teacher has two classes at one hour; error count = duplicates of each key |
| TimetableCheck.PlacementsKeepClashless | src/lib/autoScheduler.ts:83-134 | slots placed through the index checks never clash with the existing slots or with each other |
| TimetableCheck.PlacementsKeepPerDay | src/lib/autoScheduler.ts:236-239 | when the existing slots keep a teacher within maxPerDay lessons on a day, the existing slots followed by the placed ones still do: each placement was made only while the day was below the cap |
| TimetableCheck.PerDayStep | src/lib/autoScheduler.ts:236-239 | one more slot keeps a teacher's day within the cap when the day was below the cap or the slot is another teacher's or day's |
| TimetableCheck.TeacherSummary | src/lib/autoScheduler.ts:384-404 | a teacher's row counts their slots by day and by grade |
| TimetableCheck.TeacherHoursSummary | src/lib/autoScheduler.ts:372-405 | one row per specialist, in roster order |
| TimetableCheck.SummaryConsistent | src/lib/autoScheduler.ts:387-400 | a row's day counts and its grade counts each add up to its total; byGrade holds exactly the teacher's grades, each with its count |
| TimetableStore.Updated | src/stores/timetableStore.ts:70-74 | every slot with the id is patched in place; the others are unchanged |
| TimetableStore.Without | src/stores/timetableStore.ts:76-78 | exactly the slots with other ids remain, and the list gets no longer |
| TimetableStore.WithoutAppend | src/stores/timetableStore.ts:76-78 | removal filters each part of a list on its own, so the remaining slots keep their order |
| TimetableStore.WithoutMultiset | src/stores/timetableStore.ts:76-78 | each slot with another id remains as often as it occurred; slots with the id do not remain |
| TimetableStore.FirstCollision | src/stores/timetableStore.ts:191-198 | `find`: None iff no slot collides in that sense, else the first that does |
| TimetableStore.Matching | src/stores/timetableStore.ts:251-261 | a slot is kept iff every truthy filter field agrees with it |
| TimetableStore.MatchingAppend | src/stores/timetableStore.ts:251-261 | filtering distributes over concatenation, so the kept slots keep their order |
| TimetableStore.MatchingMultiset | src/stores/timetableStore.ts:251-261 | each matching slot is kept as often as it occurs; the others not at all |
| TimetableStore.ClassSlots | src/stores/timetableStore.ts:107-109 | a slot is kept iff it has the grade and class, and the list gets no longer |
| TimetableStore.ClassSlotsAppend | src/stores/timetableStore.ts:107-109 | the class filter distributes over concatenation, so the class's slots keep their order |
| TimetableStore.ClassSlotsMultiset | src/stores/timetableStore.ts:107-109 | each slot of the class is kept as often as it occurs; the others not at all |
| TimetableStore.ClassFilterIsClassSlots | src/stores/timetableStore.ts:102-111 | filterSlots with a named grade and class alone gives the class timetable's slots |
| TimetableStore.FirstAt | src/stores/timetableStore.ts:116-122 | None iff the class has no lesson at that hour, else the first such lesson |
| TimetableStore.FirstTeacherAt | src/stores/timetableStore.ts:128-133 | None iff the teacher has no lesson at that hour, else the first such lesson |
| TimetableStore.ConflictKinds | src/stores/timetableStore.ts:186-248 | a kind of conflict is reported iff some slot other than the excluded one collides in that sense; room only when the draft names a room |
| TimetableStore.ConflictSlots | src/stores/timetableStore.ts:191-241 | each reported conflict names the first slot in the way for its kind |
| TimetableStore.ConflictOrder | src/stores/timetableStore.ts:188-242 | each kind is reported at most once, class before teacher before room |
| TimetableStore.Store.constructor | src/stores/timetableStore.ts:58-61 | no slots, no sync time, not syncing, not editing |
| TimetableStore.Store.SetSlots | src/stores/timetableStore.ts:64 | replaces the slots and nothing else |
| TimetableStore.Store.AddSlot | src/stores/timetableStore.ts:66-68 | appends the slot and changes nothing else |
| TimetableStore.Store.UpdateSlot | src/stores/timetableStore.ts:70-74 | patches the slots of the id in place and changes nothing else |
| TimetableStore.Store.RemoveSlot | src/stores/timetableStore.ts:76-78 | drops the slots of the id and changes nothing else |
| TimetableStore.Store.ClearSlots | src/stores/timetableStore.ts:80 | empties the slots and keeps the flags |
| TimetableStore.Store.SetSyncing | src/stores/timetableStore.ts:83 | sets only the syncing flag |
| TimetableStore.Store.SetLastSyncTime | src/stores/timetableStore.ts:84 | sets only the sync time |
| TimetableStore.Store.SetEditing | src/stores/timetableStore.ts:85 | sets only the editing flag |
| TimetableStore.Store.GetTeacherTimetable | src/stores/timetableStore.ts:88-99 | null iff the teacher has no slot; otherwise the teacher's slots as SlotsOf filters them, named after the teacher's first slot in list order |
| TimetableStore.Store.GetClassTimetable | src/stores/timetableStore.ts:102-111 | the grade, the class and the class's slots as ClassSlots filters them |
| TimetableStore.Store.GetSlotAt | src/stores/timetableStore.ts:114-123 | undefined iff the class has no lesson at that hour, else the first such lesson in list order |
| TimetableStore.Store.GetTeacherSlotAt | src/stores/timetableStore.ts:126-134 | undefined iff the teacher has no lesson at that hour, else the first such lesson in list order |
| TimetableStore.Store.CheckConflicts | src/stores/timetableStore.ts:186-248 | hasConflict iff some counted slot collides; the kinds reported are exactly those that collide, each with its first slot, in class-teacher-room order |
| TimetableStore.Store.FilterSlots | src/stores/timetableStore.ts:251-261 | the slots every truthy field of the filter agrees with, as Matching filters them |
| TimetableStore.Store.GetTeacherStats | src/stores/timetableStore.ts:137-159 | the statistics of the teacher's slots |
| TimetableStore.Store.GetTotalStats | src/stores/timetableStore.ts:162-183 | the statistics of all slots |
| TimetableStore.Tabulate | src/stores/timetableStore.ts:171-175 | the forEach fills the day, period and grade counts of the slots |
| TimetableStore.StatsConsistent | src/stores/timetableStore.ts:162-183 | the day counts, the period counts and the grade counts each add up to totalSlots, and each value counts its key |
| TimetableStore.NoFilterKeepsAll | src/stores/timetableStore.ts:253-260 | an empty filter keeps every slot, in order |
| TimetableStore.TeacherFilterIsTeacherSlots | src/stores/timetableStore.ts:254 | filtering on a named teacher alone gives the teacher's slots |
| TimetableStore.WithoutIdempotent | src/stores/timetableStore.ts:76-78 | removing an id twice is removing it once |
| TimetableStore.UniqueIdsKept | src/stores/timetableStore.ts:66-74 | distinct ids stay distinct after adding a fresh id or patching without changing the id |
| TimetableStore.WithoutUnique | src/stores/timetableStore.ts:76-78 | removing keeps the remaining ids distinct |
| TimetableStore.WithoutAbsent | src/stores/timetableStore.ts:76-78 | removing an id that no slot has changes nothing |
| TimetableStore.WithoutRemovesOne | src/stores/timetableStore.ts:76-78 | with distinct ids, removing a present id removes exactly one slot |
| TimetableStore.AddThenRemove | src/stores/timetableStore.ts:66-78 | adding a slot with a fresh id and then removing that id restores the list |
| TeacherStore.MarkPending | src/stores/teacherStore.ts:62-66 | status becomes pending with one more pending change; the rest is kept |
| TeacherStore.ApplyTeacherPatch | src/stores/teacherStore.ts:73 | the patched teacher has updatedAt = now and keeps its id unless the patch sets one |
| TeacherStore.TeachersUpdated | src/stores/teacherStore.ts:72-74 | every teacher with the id is patched in place; the others are unchanged |
| TeacherStore.TeachersWithout | src/stores/teacherStore.ts:85 | a teacher remains iff its id differs, and the roster does not grow; order and counts by the two lemmas below |
| TeacherStore.TeachersWithoutAppend | src/stores/teacherStore.ts:85 | removal distributes over concatenation, so the remaining teachers keep their order |
| TeacherStore.TeachersWithoutMultiset | src/stores/teacherStore.ts:85 | each teacher with another id keeps its count; those with the id drop to zero |
| TeacherStore.AssignmentsWithout | src/stores/teacherStore.ts:86 | an assignment remains iff it belongs to another teacher, and the list does not grow; order and counts by the two lemmas below |
| TeacherStore.AssignmentsWithoutAppend | src/stores/teacherStore.ts:86 | removal distributes over concatenation, so the remaining assignments keep their order |
| TeacherStore.AssignmentsWithoutMultiset | src/stores/teacherStore.ts:86 | each assignment of another teacher keeps its count; the teacher's own drop to zero |
| TeacherStore.AssignmentIndex | src/stores/teacherStore.ts:100 | `findIndex`: None iff the teacher has no assignment, else an index holding one of theirs |
| TeacherStore.FindAssignment | src/stores/teacherStore.ts:133 | `find`: None iff the teacher has no assignment, else the first of theirs in list order |
| TeacherStore.Store.constructor | src/stores/teacherStore.ts:38-51 | empty roster and assignments, no selection, never synced, empty sheet settings |
| TeacherStore.Store.AddTeacher | src/stores/teacherStore.ts:53-68 | appends the new teacher, with its creation and update stamps taken from two separate clock readings, and marks one pending change; nothing else changes |
| TeacherStore.Store.UpdateTeacher | src/stores/teacherStore.ts:70-81 | patches the teacher of the id and marks one pending change |
| TeacherStore.Store.DeleteTeacher | src/stores/teacherStore.ts:83-94 | removes the teacher and their assignments, clears the selection iff it was theirs, and marks one pending change |
| TeacherStore.Store.SelectTeacher | src/stores/teacherStore.ts:96 | sets only the selection |
| TeacherStore.Store.UpdateAssignment | src/stores/teacherStore.ts:98-130 | overwrites the teacher's first assignment in place or appends one, and marks one pending change |
| TeacherStore.Store.GetAssignment | src/stores/teacherStore.ts:132-134 | None iff the teacher has no assignment, else the first of theirs |
| TeacherStore.Store.UpdateSheetsConfig | src/stores/teacherStore.ts:136-140 | overrides only the supplied settings fields |
| TeacherStore.Store.ClearAllData | src/stores/teacherStore.ts:232-239 | empties the roster, the assignments and the selection and resets the sync status; the sheet settings stay |
| TeacherStore.UpsertFinds | src/stores/teacherStore.ts:98-130 | after an upsert, the teacher's lookup gives the new assignment and every other teacher's lookup is unchanged |
| TeacherStore.AssignmentIndexOf | src/stores/teacherStore.ts:100 | `findIndex` gives the first matching index |
| TeacherStore.UpsertLength | src/stores/teacherStore.ts:108-128 | an upsert grows the list by one iff the teacher had no assignment; a second one for the same teacher does not grow it |
| Simulator.ComplianceOf | src/lib/simulatorCalculations.ts:42-62 | safe iff at most 20 hours, warning iff 21..24, over iff more than 24 |
| Simulator.ComplianceMonotone | src/lib/simulatorCalculations.ts:42-62 | more hours never give a milder band |
| Simulator.DistributionOf | src/lib/simulatorCalculations.ts:67-86 | all zero iff the total is 0, otherwise shares of the total |
| Simulator.SharesCoverTotal | src/lib/simulatorCalculations.ts:80-85 | of a week's hours, the four shares add up to the whole |
| Simulator.CalculateStats | src/lib/simulatorCalculations.ts:91-105 | the total is the sum of the five kinds, the month is four weeks, the band is that of the total, and the distribution is that of the input over the total: none iff the total is 0, else four shares that add up to the total |
| Simulator.ClampHours | src/lib/simulatorCalculations.ts:110-112 | a value in [min, max] is kept, one below becomes min, one above becomes max, and with min > max the result is min |
| Simulator.ClampIdempotent | src/lib/simulatorCalculations.ts:110-112 | clamping twice is clamping once |
| DashboardStats.StandardHours | src/lib/dashboardStats.ts:43-57 | the dashboard's standard agrees with the school store's rule for every tag |
| DashboardStats.StatusFor | src/lib/dashboardStats.ts:100-112 | over iff the difference exceeds the tolerance, under iff it falls below its negation, normal otherwise |
| DashboardStats.StatusOf | src/lib/dashboardStats.ts:86-126 | a teacher's row: hours of their first assignment or 0, the standard for their tag (reduced for a master teacher, one whose name contains "수석"), the difference from that standard, and its status |
| DashboardStats.StatusesOf | src/lib/dashboardStats.ts:85-127 | one row per teacher |
| DashboardStats.StatusesOfRows | src/lib/dashboardStats.ts:85-127 | row i is the row of teacher i |
| DashboardStats.KindCount | src/lib/dashboardStats.ts:78-79 | a filter count is at most the number of teachers |
| DashboardStats.AssignedCount | src/lib/dashboardStats.ts:94-98 | the teachers with an assignment are at most all teachers |
| DashboardStats.TeacherRow | src/lib/dashboardStats.ts:86-112 | the loop body computes the teacher's row and whether they have an assignment |
| DashboardStats.AddRow | src/lib/dashboardStats.ts:95-117 | one row adds its contribution to each counter (one to the over or under count, its excess or shortfall, its hours to the homeroom or other total, one to the assigned count when it has an assignment), so the totals stay the sums over the rows |
| DashboardStats.TallyTeachers | src/lib/dashboardStats.ts:67-127 | the loop's six counters are the sums over the rows of the over/under counts, excesses, shortfalls and homeroom/other hours |
| DashboardStats.CalculateDashboardStats | src/lib/dashboardStats.ts:62-169 | counters as sums over the rows, school hours = homeroom + specialist, tag counts, the rows sorted under-over-normal by larger gap, and the rounded assignment rate |
| DashboardStats.SumByPermutation | src/lib/dashboardStats.ts:130-136 | reordering the rows does not change any sum over them |
| DashboardStats.SortedRowsKeepFigures | src/lib/dashboardStats.ts:114-138 | the sorted list is a sorted permutation of the rows with every sum unchanged, and each teacher's hours are in exactly one of the two totals |
| DashboardStats.AssignmentRateRange | src/lib/dashboardStats.ts:139-141 | the rate is 0 with no teachers and otherwise lies within 0..100 |
| SchoolStore.RoundDiv | src/stores/schoolStore.ts:112 | `Math.round(n / d)`: the nearest integer, with halves rounded up |
| SchoolStore.StandardHoursOf | src/stores/schoolStore.ts:105-116 | the tag's standard, or the base hours when it is 0, reduced by the master rate when that is positive |
| SchoolStore.ReductionWithinBase | src/stores/schoolStore.ts:111-113 | a rate within 0..100 never raises a non-negative standard and never takes it below 0 |
| SchoolStore.SubjectHoursOf | src/stores/schoolStore.ts:125-130 | 0 when the subject is unknown or the grade is outside 1..6, else the table entry |
| SchoolStore.SubjectHoursAgainstScheduler | src/stores/schoolStore.ts:125-130 | where the store says 0 hours the scheduler asks for 1; otherwise they agree |
| SchoolStore.ClassesUpToTable | src/stores/schoolStore.ts:119-122 | the class counts of grades 1..6 add up to the sum of the table |
| SchoolStore.Store.constructor | src/stores/schoolStore.ts:67-74 | default settings, an empty school of the year, no subjects or rooms, the six default periods; the year is kept for every later reset |
| SchoolStore.Store.SetAllData | src/stores/schoolStore.ts:77-86 | takes the sheet's data, with the default periods when it has none, and stamps the sync time |
| SchoolStore.Store.ResetAll | src/stores/schoolStore.ts:95-102 | back to the defaults, with the year fixed when the store was built, no sync time; the syncing flag is kept |
| SchoolStore.Store.GetStandardHours | src/stores/schoolStore.ts:105-116 | the fallback and master-reduction rule on the stored settings |
| SchoolStore.Store.GetTotalClasses | src/stores/schoolStore.ts:119-122 | the classes of grades 1..6, which is what the scheduler iterates over |
| SchoolStore.Store.GetSubjectHours | src/stores/schoolStore.ts:125-130 | 0 for an unknown subject or a grade outside 1..6, else the grade's table entry |
| Validation.TrimStart | src/lib/validation.ts:17 | drops exactly the leading white space |
| Validation.TrimEnd | src/lib/validation.ts:17 | drops exactly the trailing white space |
| Validation.Trim | src/lib/validation.ts:17 | the result neither starts nor ends with white space |
| Validation.TrimIdempotent | src/lib/validation.ts:17 | trimming twice is trimming once |
| Validation.ValidateTeacherName | src/lib/validation.ts:16-32 | valid iff the trimmed name has 2..20 characters; otherwise missing, too short or too long, exactly as the length says |
| Validation.NameVerdictIgnoresPadding | src/lib/validation.ts:16-32 | surrounding white space never changes the verdict |
| Validation.ValidateHoursValue | src/lib/validation.ts:39-57 | valid iff a whole number in 0..40; NaN, a fraction, a negative number and one over 40 each get their own rule |
| Validation.OptionalInRange | src/lib/validation.ts:63-73 | absent is valid; otherwise valid iff a whole number in range, with the given rule as the only error |
| Validation.ValidateGrade | src/lib/validation.ts:63-73 | valid iff absent or a whole number in 1..6 |
| Validation.ValidateClassNumber | src/lib/validation.ts:79-89 | valid iff absent or a whole number in 1..20 |
| Validation.HoursCheckMatchesClamp | src/lib/validation.ts:39-57 | the form's hours check accepts exactly the whole numbers the simulator's clamp with bounds 0 and 40 keeps, and accepts every value that clamp returns |
| TeacherUtils.NatToString | src/lib/teacherUtils.ts:9 | `${n}` writes decimal digits with no leading zero |
| TeacherUtils.NatToStringValue | src/lib/teacherUtils.ts:9 | the digits read back as the number |
| TeacherUtils.IntToStringValue | src/lib/teacherUtils.ts:9 | `${n}` of any whole number, minus sign included, reads back as n |
| TeacherUtils.IntToStringInjective | src/lib/teacherUtils.ts:9 | different numbers are written differently |
| TeacherUtils.Join | src/lib/teacherUtils.ts:14 | `join` of no item is empty and of one item is that item |
| TeacherUtils.JoinLength | src/lib/teacherUtils.ts:14 | a join's length is the items' lengths plus one separator between each pair |
| TeacherUtils.RoleLabel | src/lib/teacherUtils.ts:6-18 | "담임 g-c" when grade and class are truthy, else "담임"; "전담 " + the joined subjects when there are any, else "전담" |
| TeacherUtils.FullLabel | src/lib/teacherUtils.ts:23-26 | the label starts with the name and " - " and ends with the role label |
| TeacherUtils.FullLabelSameName | src/lib/teacherUtils.ts:23-26 | for two teachers of one name, the full labels are equal iff the role labels are |
| TeacherUtils.TypeLabel | src/lib/teacherUtils.ts:31-33 | "담임" iff homeroom, "전담" for every other tag |
| TeacherUtils.RoleLabelStartsWithType | src/lib/teacherUtils.ts:6-18 | every role label begins with the label of the teacher's tag |
| TeacherUtils.HomeroomLabelDeterminesClass | src/lib/teacherUtils.ts:8-9 | two homeroom labels with positive grades are equal iff grade and class are equal |
| GoogleSheetsApi.SaveRow | src/lib/googleSheetsApi.ts:162-189 | a teacher's row copies the teacher; hours from their first assignment or all zero; lastModified is the assignment's when non-zero, else updatedAt |
| GoogleSheetsApi.SaveRows | src/lib/googleSheetsApi.ts:162-189 | one row per teacher, in roster order |
| GoogleSheetsApi.ParsedTeachers | src/lib/googleSheetsApi.ts:258-269 | one teacher per row, in row order, read from that row |
| GoogleSheetsApi.ParseSheetData | src/lib/googleSheetsApi.ts:251-296 | the forEach yields the rows' teachers and the assignments of the rows with hours |
| GoogleSheetsApi.ParsedAssignmentsAppend | src/lib/googleSheetsApi.ts:271-292 | reading rows part by part reads the assignments in row order |
| GoogleSheetsApi.ParsedAssignmentsFromRows | src/lib/googleSheetsApi.ts:271-292 | an assignment is read iff it is the one of a row with some positive hour field |
| GoogleSheetsApi.AssignmentsHaveTeachers | src/lib/googleSheetsApi.ts:258-292 | every assignment read names a teacher read from the same rows |
| GoogleSheetsApi.SaveThenParseTeachers | src/lib/googleSheetsApi.ts:172-269 | saving then reading back gives the same teachers iff none has a grade list and no tag text spells a known role under another name |
| GoogleSheetsApi.SaveThenParseAssignment | src/lib/googleSheetsApi.ts:162-292 | with distinct ids, a teacher's assignment survives saving and reading back iff it has a positive hour, with lastModified 0 replaced by updatedAt; otherwise it is lost |

## Left out

- Network and sync: `fetchWithTimeout`, `fetchData`, the HTTP part of `saveData`, `testConnection`, `validateResponseData`, and the stores' `syncPush`, `syncPull` and `syncWithGoogleSheets`. They are asynchronous I/O.
- Persistence: the local-storage layer of the three stores and its version migration. It is I/O.
- Message texts: every error, reason and status message. Each is replaced by the value it reports, such as a rule, a shortfall or a count.
- Floating point: `calculateDailyAverage`, the compliance percentage, the distribution percentages with `toFixed(1)`, and the dashboard averages. The distribution is kept as numerators over the total.
- SchoolStore.RoundDiv: `Math.round` over a floating-point quotient is modelled as exact rational rounding with halves up. It can differ from the source only where the float product lands beside an exact half.
- Without: its own contract states membership and a length bound. The order of the remaining slots is stated by WithoutAppend, and how often each remains by WithoutMultiset.
- ClassSlots: its own contract states membership and a length bound. The order is stated by ClassSlotsAppend, and how often each slot is kept by ClassSlotsMultiset.
- Specialists: its own contract states membership. The roster order is stated by SpecialistsAppend, and how often each teacher is kept by SpecialistsMultiset.
- TeachersWithout: its own contract states membership and a length bound. The order is stated by TeachersWithoutAppend, and how often each teacher remains by TeachersWithoutMultiset.
- AssignmentsWithout: its own contract states membership and a length bound. The order is stated by AssignmentsWithoutAppend, and how often each assignment remains by AssignmentsWithoutMultiset.
- Matching: its own contract states membership and a length bound. The order is stated by MatchingAppend, and how often each slot is kept by MatchingMultiset.
- Hours are whole numbers throughout the model: the simulator's hour fields, assignment hours, the sheet's hour columns and the settings. A sheet row or a form value with a fractional hour is not modelled.
- Simulator.ClampHours: `validateHours` is modelled on whole numbers only. The `Math.round` of a fraction is not modelled.
- Validation.ValidateTeacherName: lengths count characters, not UTF-16 code units. They differ for characters outside the Basic Multilingual Plane.
- The URL check `validateWebAppUrl`: string-pattern validation outside the core.
- `generateSlotId`, `crypto.randomUUID` and `Date.now`: randomness and the clock. They are parameters instead.
- The `period` of a teacher blackout and `subjectRoomRequirements`: declared in the constraints record but never consulted.
- The `settings` argument of `runAutoSchedule` and the school-info argument of `generateAssignmentRequests`: unused by the source.
- The school store's one-field setters (`setSettings`, `setSchoolInfo`, `setSubjects`, `setRooms`, `setPeriods`, `setSyncing`): plain assignments outside the modelled core.

/** The core data model of the timetable planner and its helper functions: the conflict check,
    the course filters, value de-duplication and the period-by-day grid. */
module Types {
  import opened Wrappers
  import opened Seqs
  import opened Text

  // ==================== entities ====================

  datatype GradeInfo = GradeInfo(id: string, name: string, order: int, description: Option<string>)

  datatype ClassInfo = ClassInfo(
    id: string,
    name: string,          // e.g. 高一(1)班
    grade: string,         // the grade's name, e.g. 高一
    gradeId: string,
    classNumber: int,
    studentCount: int,
    classTeacher: Option<string>,
    description: Option<string>)

  /** A class's display name, `${grade}(${n})班`. */
  function ClassLabel(grade: string, n: int): string {
    grade + "(" + IntToString(n) + ")班"
  }

  datatype Teacher = Teacher(id: string, name: string, subjects: seq<string>, maxHoursPerWeek: int)

  datatype Subject = Subject(
    id: string, name: string, code: string, color: string, category: string,
    defaultDuration: int, requiresLab: bool)

  datatype Room = Room(id: string, name: string, kind: string, capacity: int)

  /** One placed session. `day` is 1..7 with Monday = 1 (ISO 8601 weekday numbering);
      `period` is the start period. The last four fields are display copies. */
  datatype Course = Course(
    id: string,
    subjectId: string,
    teacherId: string,
    classId: string,
    roomId: string,
    day: int,
    period: int,
    duration: int,
    week: Option<int>,
    name: Option<string>,
    teacher: Option<string>,
    className: Option<string>,
    room: Option<string>)

  datatype BreakTime = BreakTime(afterPeriod: int, duration: int, name: string)

  datatype TimetableFormat = TimetableFormat(
    id: string, name: string, daysPerWeek: int, periodsPerDay: int, periodDuration: int,
    startTime: string, breakTimes: seq<BreakTime>)

  datatype CourseRequirement = CourseRequirement(
    id: string, subjectId: string, classId: string, teacherId: string, hoursPerWeek: int)

  /** A project. `currentStep` is the step's enum string, as stored; `timetableFormat` is
      `None` when a stored project lacks one. Timestamps are not modelled. */
  datatype ProjectState = ProjectState(
    id: string,
    name: string,
    currentStep: string,
    grades: seq<GradeInfo>,
    classes: seq<ClassInfo>,
    teachers: seq<Teacher>,
    subjects: seq<Subject>,
    rooms: seq<Room>,
    timetableFormat: Option<TimetableFormat>,
    courseRequirements: seq<CourseRequirement>,
    courses: seq<Course>)

  // ==================== project steps ====================

  datatype ProjectStep =
    | SetupClasses | SetupFormat | SetupSubjects | SetupTeachers | SetupRooms
    | SetupRequirements | AutoSchedule | ManualAdjust | Export
  {
    /** The enum's string value. */
    function Value(): string {
      match this
      case SetupClasses => "setup_classes"
      case SetupFormat => "setup_format"
      case SetupSubjects => "setup_subjects"
      case SetupTeachers => "setup_teachers"
      case SetupRooms => "setup_rooms"
      case SetupRequirements => "setup_requirements"
      case AutoSchedule => "auto_schedule"
      case ManualAdjust => "manual_adjust"
      case Export => "export"
    }
  }

  /** `Object.values(ProjectStep)`, in declaration order. */
  const Steps: seq<ProjectStep> := [
    SetupClasses, SetupFormat, SetupSubjects, SetupTeachers, SetupRooms,
    SetupRequirements, AutoSchedule, ManualAdjust, Export]

  /** `Object.values(ProjectStep).indexOf(value)`: -1 when `value` names no step. */
  function StepIndex(value: string): (i: int)
    ensures -1 <= i < |Steps|
    ensures 0 <= i ==> Steps[i].Value() == value
    ensures i == -1 <==> forall k :: 0 <= k < |Steps| ==> Steps[k].Value() != value
  {
    StepIndexFrom(value, 0)
  }

  function StepIndexFrom(value: string, k: nat): (i: int)
    requires k <= |Steps|
    ensures i == -1 || k <= i < |Steps|
    ensures 0 <= i ==> Steps[i].Value() == value && forall m :: k <= m < i ==> Steps[m].Value() != value
    ensures i == -1 <==> forall m :: k <= m < |Steps| ==> Steps[m].Value() != value
    decreases |Steps| - k
  {
    if k == |Steps| then -1
    else if Steps[k].Value() == value then k
    else StepIndexFrom(value, k + 1)
  }

  /** The search passes over positions that do not hold the value. */
  lemma {:induction false} StepIndexFromSkips(value: string, k: nat, target: nat)
    requires k <= target < |Steps| && Steps[target].Value() == value
    requires forall m :: k <= m < target ==> Steps[m].Value() != value
    ensures StepIndexFrom(value, k) == target
    decreases target - k
  {
    if k < target {
      StepIndexFromSkips(value, k + 1, target);
    }
  }

  /** Every step is found at its own position. */
  lemma StepIndexOfValue(k: nat)
    requires k < |Steps|
    ensures StepIndex(Steps[k].Value()) == k
  {
    var v := Steps[k].Value();
    forall m | 0 <= m < k ensures Steps[m].Value() != v {
      // the nine values differ in length, in their first or in their seventh character
      var w := Steps[m].Value();
      assert |v| != |w| || v[0] != w[0] || (|v| > 6 && v[6] != w[6]);
    }
    StepIndexFromSkips(v, 0, k);
  }

  // ==================== views and export ====================

  datatype TimetableViewType = All | Overview | ByClass | ByTeacher | ByRoom | BySubject

  /** A view; `targetId` is used by the project views, `target` (a display name) by the
      course views. */
  datatype TimetableViewConfig = TimetableViewConfig(
    kind: TimetableViewType, targetId: Option<string>, target: Option<string>, title: string)

  datatype ExportType = ClassTimetable | TeacherTimetable | RoomTimetable | MasterTimetable | Statistics

  datatype ExportFormat = Pdf | Excel | Csv

  datatype ExportConfig = ExportConfig(
    kind: ExportType, format: ExportFormat, targets: seq<string>, includeEmpty: bool,
    customTitle: Option<string>)

  // ==================== validation ====================

  datatype ConflictKind = TimeConflict | RoomConflict | TeacherConflict

  datatype ConflictInfo = ConflictInfo(kind: ConflictKind, message: string, courses: seq<Course>)

  datatype WarningKind = Workload | Preference | Constraint

  datatype WarningInfo = WarningInfo(kind: WarningKind, message: string)

  datatype ValidationResult = ValidationResult(
    isValid: bool, conflicts: seq<ConflictInfo>, warnings: seq<WarningInfo>)

  /** JavaScript truthiness of an optional string and an optional number. */
  predicate TruthyText(s: Option<string>) { s.Some? && s.value != "" }

  predicate TruthyNumber(n: Option<int>) { n.Some? && n.value != 0 }

  /** The clash the conflict check looks for: same day, same start period, another id.
      Duration, teacher, room and class play no part. */
  predicate Clashes(existing: Course, candidate: Course) {
    existing.day == candidate.day && existing.period == candidate.period && existing.id != candidate.id
  }

  function TimeConflicts(candidate: Course, existing: seq<Course>): seq<Course> {
    Filter(existing, e => Clashes(e, candidate))
  }

  /** `checkCourseConflicts`. */
  function CheckCourseConflicts(candidate: Course, existing: seq<Course>): (r: ValidationResult)
    ensures r.isValid <==> forall i :: 0 <= i < |existing| ==> !Clashes(existing[i], candidate)
    ensures r.isValid <==> r.conflicts == []
    ensures |r.conflicts| <= 1 && r.warnings == []
    ensures |r.conflicts| == 1 ==>
      && r.conflicts[0].kind == TimeConflict
      && r.conflicts[0].message == "时间冲突"
      && r.conflicts[0].courses == TimeConflicts(candidate, existing)
      && forall c :: c in r.conflicts[0].courses <==> c in existing && Clashes(c, candidate)
  {
    var clashing := TimeConflicts(candidate, existing);
    var conflicts := if |clashing| > 0 then [ConflictInfo(TimeConflict, "时间冲突", clashing)] else [];
    assert |clashing| == 0 ==> forall i :: 0 <= i < |existing| ==> !Clashes(existing[i], candidate) by {
      forall i | 0 <= i < |existing| && Clashes(existing[i], candidate)
        ensures existing[i] in clashing
      {
        assert existing[i] in existing;
      }
    }
    assert |clashing| > 0 ==> exists i :: 0 <= i < |existing| && Clashes(existing[i], candidate) by {
      if |clashing| > 0 {
        assert clashing[0] in existing && Clashes(clashing[0], candidate);
      }
    }
    ValidationResult(|conflicts| == 0, conflicts, [])
  }

  /** A course never conflicts with an entry carrying its own id. */
  lemma NoSelfConflict(c: Course)
    ensures CheckCourseConflicts(c, [c]).isValid
  {
  }

  /** The literal check is symmetric in its two courses. */
  lemma ConflictSymmetric(a: Course, b: Course)
    ensures CheckCourseConflicts(a, [b]).isValid <==> CheckCourseConflicts(b, [a]).isValid
  {
  }

  /** Only the start period counts: a double lesson starting at period 3 does not conflict
      with a course at period 4 of the same day. */
  lemma OverlapByDurationNotDetected(a: Course, b: Course)
    requires a.id != b.id && a.day == b.day && a.period == 3 && a.duration == 2 && b.period == 4
    ensures CheckCourseConflicts(b, [a]).isValid
  {
  }

  // ==================== search filters ====================

  datatype SearchFilters = SearchFilters(
    keyword: Option<string>, subject: Option<string>, teacher: Option<string>,
    className: Option<string>, room: Option<string>, day: Option<int>, period: Option<int>)

  predicate PassesFilters(c: Course, f: SearchFilters) {
    TruthyText(f.keyword)
    || ((!TruthyNumber(f.day) || c.day == f.day.value)
        && (!TruthyNumber(f.period) || c.period == f.period.value))
  }

  /** `filterCourses`: a set keyword keeps every course; otherwise a set day or period
      removes the courses that differ from it. Subject, teacher, class and room are ignored. */
  function FilterCourses(courses: seq<Course>, f: SearchFilters): (r: seq<Course>)
    ensures TruthyText(f.keyword) ==> r == courses
    ensures forall c :: c in r <==> c in courses && PassesFilters(c, f)
    ensures !TruthyText(f.keyword) && !TruthyNumber(f.day) && !TruthyNumber(f.period) ==> r == courses
  {
    var r := Filter(courses, c => PassesFilters(c, f));
    if TruthyText(f.keyword) || (!TruthyNumber(f.day) && !TruthyNumber(f.period)) then
      FilterAll(courses, c => PassesFilters(c, f));
      r
    else r
  }

  /** Filtering by search filters keeps the kept courses in their original order. */
  lemma FilterCoursesConcat(a: seq<Course>, b: seq<Course>, f: SearchFilters)
    ensures FilterCourses(a + b, f) == FilterCourses(a, f) + FilterCourses(b, f)
  {
    FilterConcat(a, b, c => PassesFilters(c, f));
  }

  predicate MatchesView(c: Course, kind: TimetableViewType, target: string) {
    match kind
    case ByClass => c.classId == target
    case ByTeacher => c.teacherId == target
    case ByRoom => c.roomId == target
    case BySubject => c.subjectId == target
    case _ => true
  }

  /** `filterCoursesByView`. */
  function FilterCoursesByView(courses: seq<Course>, config: TimetableViewConfig): (r: seq<Course>)
    ensures config.kind == All || !TruthyText(config.targetId) || config.kind == Overview ==> r == courses
    ensures TruthyText(config.targetId) ==>
      forall c :: c in r <==> c in courses && MatchesView(c, config.kind, config.targetId.value)
    ensures |r| <= |courses|
  {
    if config.kind == All then courses
    else if !TruthyText(config.targetId) then courses
    else
      var t := config.targetId.value;
      var r := Filter(courses, c => MatchesView(c, config.kind, t));
      if config.kind == Overview then
        FilterAll(courses, c => MatchesView(c, config.kind, t));
        r
      else r
  }

  // ==================== unique values ====================

  /** The keys of `Course`, as passed to `getUniqueValues`. */
  datatype CourseField =
    | Id | SubjectId | TeacherId | ClassId | RoomId | Day | Period | Duration | Week
    | Name | TeacherName | ClassName | RoomName

  /** `String(optional)`: an absent value reads as "undefined". */
  function OptionalText(s: Option<string>): string {
    match s
    case Some(v) => v
    case None => "undefined"
  }

  /** `String(course[field])`. */
  function FieldText(c: Course, field: CourseField): string {
    match field
    case Id => c.id
    case SubjectId => c.subjectId
    case TeacherId => c.teacherId
    case ClassId => c.classId
    case RoomId => c.roomId
    case Day => IntToString(c.day)
    case Period => IntToString(c.period)
    case Duration => IntToString(c.duration)
    case Week => if c.week.Some? then IntToString(c.week.value) else "undefined"
    case Name => OptionalText(c.name)
    case TeacherName => OptionalText(c.teacher)
    case ClassName => OptionalText(c.className)
    case RoomName => OptionalText(c.room)
  }

  function FieldValues(courses: seq<Course>, field: CourseField): (r: seq<string>)
    ensures |r| == |courses| && forall i :: 0 <= i < |courses| ==> r[i] == FieldText(courses[i], field)
  {
    Map(courses, (c: Course) => FieldText(c, field))
  }

  /** `getUniqueValues`: the distinct non-empty values of one field, in order of first occurrence. */
  function GetUniqueValues(courses: seq<Course>, field: CourseField): (r: seq<string>)
    ensures Distinct(r)
    ensures forall x :: x in r <==> x != "" && exists i :: 0 <= i < |courses| && FieldText(courses[i], field) == x
    ensures FirstOccurrenceOrder(r, FieldValues(courses, field))
  {
    var values := FieldValues(courses, field);
    var d := Dedup(values);
    var r := Filter(d, (s: string) => s != "");
    FilterKeepsFirstOccurrenceOrder(d, values, (s: string) => s != "");
    r
  }

  /** A display field, as read by `getAllUniqueValues` and the course counters. */
  datatype DisplayField = TeacherField | ClassField | SubjectField | RoomField

  function Display(c: Course, f: DisplayField): Option<string> {
    match f
    case TeacherField => c.teacher
    case ClassField => c.className
    case SubjectField => c.name
    case RoomField => c.room
  }

  /** `courses.map(c => c[f]).filter(Boolean)`, as strings. */
  function PresentValues(courses: seq<Course>, f: DisplayField): (r: seq<string>)
    ensures forall x :: x in r <==> x != "" && exists i :: 0 <= i < |courses| && Display(courses[i], f) == Some(x)
  {
    if |courses| == 0 then []
    else
      var rest := PresentValues(courses[1..], f);
      assert forall i :: 1 <= i < |courses| ==> courses[i] == courses[1..][i - 1];
      if TruthyText(Display(courses[0], f)) then [Display(courses[0], f).value] + rest else rest
  }

  datatype UniqueValues = UniqueValues(teachers: seq<string>, classes: seq<string>, subjects: seq<string>, rooms: seq<string>)

  function UniqueDisplay(courses: seq<Course>, f: DisplayField): (r: seq<string>)
    ensures Distinct(r)
    ensures forall x :: x in r <==> x != "" && exists i :: 0 <= i < |courses| && Display(courses[i], f) == Some(x)
    ensures FirstOccurrenceOrder(r, PresentValues(courses, f))
  {
    Dedup(PresentValues(courses, f))
  }

  /** `getAllUniqueValues`. */
  function GetAllUniqueValues(courses: seq<Course>): (r: UniqueValues)
    ensures r.teachers == UniqueDisplay(courses, TeacherField)
    ensures r.classes == UniqueDisplay(courses, ClassField)
    ensures r.subjects == UniqueDisplay(courses, SubjectField)
    ensures r.rooms == UniqueDisplay(courses, RoomField)
  {
    UniqueValues(
      UniqueDisplay(courses, TeacherField), UniqueDisplay(courses, ClassField),
      UniqueDisplay(courses, SubjectField), UniqueDisplay(courses, RoomField))
  }

  // ==================== timetable grid ====================

  datatype TimetableCell = TimetableCell(rowSpan: int, course: Course, isEmpty: bool)

  /** The cell a course fills: its row span is `duration || 1`. */
  function CellOf(c: Course): TimetableCell {
    TimetableCell(if c.duration == 0 then 1 else c.duration, c, false)
  }

  /** The content of grid cell [p][d]: the last course whose period and day are p+1 and d+1. */
  function CellAt(courses: seq<Course>, p: int, d: int): Option<TimetableCell>
  {
    if |courses| == 0 then None
    else
      var c := courses[|courses| - 1];
      if c.period - 1 == p && c.day - 1 == d then Some(CellOf(c))
      else CellAt(courses[..|courses| - 1], p, d)
  }

  /** A later course in the same cell overwrites an earlier one. */
  lemma {:induction false} LaterCourseWins(courses: seq<Course>, c: Course)
    ensures CellAt(courses + [c], c.period - 1, c.day - 1) == Some(CellOf(c))
  {
  }

  /** A course outside the grid changes no cell of it. */
  lemma {:induction false} OutOfRangeIgnored(courses: seq<Course>, c: Course, days: nat, periods: nat, p: nat, d: nat)
    requires !(1 <= c.day <= days && 1 <= c.period <= periods)
    requires p < periods && d < days
    ensures CellAt(courses + [c], p, d) == CellAt(courses, p, d)
  {
    assert (courses + [c])[..|courses|] == courses;
  }

  /** A cell holds a course exactly when some course starts there. */
  lemma {:induction false} CellAtSome(courses: seq<Course>, p: int, d: int)
    ensures CellAt(courses, p, d).Some? <==>
      exists i :: 0 <= i < |courses| && courses[i].period - 1 == p && courses[i].day - 1 == d
    ensures CellAt(courses, p, d).Some? ==> CellAt(courses, p, d).value.course in courses
  {
    if |courses| > 0 {
      var init := courses[..|courses| - 1];
      CellAtSome(init, p, d);
      assert forall i :: 0 <= i < |init| ==> init[i] == courses[i];
    }
  }

  /** `coursesToTimetableData`: a grid of `periodsPerDay` rows and `daysPerWeek` columns;
      each course is written into [period-1][day-1] when that is inside the grid. */
  method CoursesToTimetableData(courses: seq<Course>, daysPerWeek: nat, periodsPerDay: nat)
    returns (data: array2<Option<TimetableCell>>)
    ensures fresh(data)
    ensures data.Length0 == periodsPerDay && data.Length1 == daysPerWeek
    ensures forall p, d :: 0 <= p < periodsPerDay && 0 <= d < daysPerWeek ==> data[p, d] == CellAt(courses, p, d)
  {
    data := new Option<TimetableCell>[periodsPerDay, daysPerWeek]((p, d) => None);
    for i := 0 to |courses|
      invariant forall p, d :: 0 <= p < periodsPerDay && 0 <= d < daysPerWeek ==> data[p, d] == CellAt(courses[..i], p, d)
    {
      var course := courses[i];
      var dayIndex := course.day - 1;
      var periodIndex := course.period - 1;
      assert courses[..i + 1][..i] == courses[..i];
      if 0 <= dayIndex < daysPerWeek && 0 <= periodIndex < periodsPerDay {
        data[periodIndex, dayIndex] := Some(CellOf(course));
      }
    }
    assert courses[..|courses|] == courses;
  }

  /** The defaults of `coursesToTimetableData`, which the timetable page relies on. */
  const DefaultDaysPerWeek: nat := 7
  const DefaultPeriodsPerDay: nat := 10

  /** `coursesToTimetableData(courses)` with its default sizes, as the timetable page calls it. */
  method CoursesToDefaultTimetableData(courses: seq<Course>) returns (data: array2<Option<TimetableCell>>)
    ensures fresh(data)
    ensures data.Length0 == 10 && data.Length1 == 7
    ensures forall p, d :: 0 <= p < 10 && 0 <= d < 7 ==> data[p, d] == CellAt(courses, p, d)
  {
    data := CoursesToTimetableData(courses, DefaultDaysPerWeek, DefaultPeriodsPerDay);
  }

  /** A course starting outside days 1..7 or periods 1..10 shows nowhere in the default grid. */
  lemma OutsideDefaultGrid(courses: seq<Course>, c: Course, p: int, d: int)
    requires c.day < 1 || c.day > DefaultDaysPerWeek || c.period < 1 || c.period > DefaultPeriodsPerDay
    requires 0 <= p < DefaultPeriodsPerDay && 0 <= d < DefaultDaysPerWeek
    ensures CellAt(courses + [c], p, d) == CellAt(courses, p, d)
  {
    assert (courses + [c])[..|courses|] == courses;
  }
}

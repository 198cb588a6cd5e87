/** The project list screen: step progress and colour for each project, the name rule of the
    project dialog, and the projects it creates and edits. */
module ProjectManager {
  import opened Wrappers
  import opened Types
  import ProjectService
  import ProjectWizard

  // ==================== progress ====================

  datatype StepProgress = StepProgress(current: int, total: int, percentage: int)

  /** `getStepProgress`: the 1-based step number out of nine and `Math.round(current / 9 * 100)`.
      No quotient current / 9 lies halfway between two integers, so rounding is exact here. */
  function GetStepProgress(p: ProjectState): (r: StepProgress)
    ensures r.current == StepIndex(p.currentStep) + 1 && r.total == |Steps|
    ensures -9 < 18 * r.percentage - 200 * r.current < 9
    ensures 0 <= r.percentage <= 100
  {
    var current := StepIndex(p.currentStep) + 1;
    StepProgress(current, 9, Percentage(current))
  }

  /** `Math.round(current / 9 * 100)` for a step number 0..9. */
  function Percentage(current: int): (r: int)
    requires 0 <= current <= 9
    ensures -9 < 18 * r - 200 * current < 9
    ensures 0 <= r <= 100
  {
    (current * 200 + 9) / 18
  }

  /** `getStepProgress` computes 0% for an unknown step, 100% for the last, and more for a
      later step. */
  lemma ProgressBounds(p: ProjectState, p': ProjectState)
    ensures StepIndex(p.currentStep) == -1 ==> GetStepProgress(p).percentage == 0
    ensures StepIndex(p.currentStep) == |Steps| - 1 ==> GetStepProgress(p).percentage == 100
    ensures StepIndex(p.currentStep) < StepIndex(p'.currentStep) ==>
      GetStepProgress(p).percentage < GetStepProgress(p').percentage
  {
  }

  // ==================== colours ====================

  const StepColors: seq<string> :=
    ["blue", "cyan", "green", "orange", "purple", "red", "magenta", "volcano", "gold"]

  /** `getStepColor(project.currentStep)`: the step's colour, "default" for an unknown step. */
  function GetStepColor(value: string): (r: string)
    ensures StepIndex(value) >= 0 ==> r == StepColors[StepIndex(value)]
    ensures StepIndex(value) == -1 ==> r == "default"
  {
    var i := StepIndex(value);
    if i >= 0 then StepColors[i] else "default"
  }

  /** Different steps show different colours, none of them "default". */
  lemma StepColorsDistinct(j: nat, k: nat)
    requires j < |Steps| && k < |Steps| && j != k
    ensures GetStepColor(Steps[j].Value()) != GetStepColor(Steps[k].Value())
    ensures GetStepColor(Steps[j].Value()) != "default"
  {
    StepIndexOfValue(j);
    StepIndexOfValue(k);
    ColorsDistinct(j, k);
  }

  lemma ColorsDistinct(j: nat, k: nat)
    requires j < |StepColors| && k < |StepColors| && j != k
    ensures StepColors[j] != StepColors[k] && StepColors[j] != "default"
  {
    var a, b := StepColors[j], StepColors[k];
    // the nine colours differ in their first character or in length
    assert a[0] != b[0] || |a| != |b|;
    assert a[0] != 'd';
  }

  // ==================== the project card ====================

  /** The `title` of each step in `stepConfig`, in step order. */
  const StepTitles: seq<string> :=
    ["设置班级", "课表格式", "设置科目", "设置教师", "设置教室", "课程需求", "自动排课", "手动调整", "导出课表"]

  const CardTypeError: string := "TypeError: Cannot read properties of undefined (reading 'title')"

  /** The card's step tag, `stepConfig[project.currentStep].title`. For a step string that names
      no step the lookup is `undefined`, reading its `title` throws, and the card, progress line
      included, does not render. */
  function CardTag(p: ProjectState): (r: Result<string, string>)
    ensures r.Success? <==> StepIndex(p.currentStep) >= 0
    ensures r.Success? ==> r.value == StepTitles[StepIndex(p.currentStep)]
    ensures r.Failure? ==> r.error == CardTypeError
  {
    var i := StepIndex(p.currentStep);
    if i >= 0 then Success(StepTitles[i]) else Failure(CardTypeError)
  }

  /** Different steps carry different tag titles. */
  lemma StepTitlesDistinct(p: ProjectState, p': ProjectState, j: nat, k: nat)
    requires j < |Steps| && k < |Steps| && j != k
    requires p.currentStep == Steps[j].Value() && p'.currentStep == Steps[k].Value()
    ensures CardTag(p).Success? && CardTag(p').Success? && CardTag(p) != CardTag(p')
  {
    StepIndexOfValue(j);
    StepIndexOfValue(k);
    TitlesDistinct(j, k);
  }

  lemma TitlesDistinct(j: nat, k: nat)
    requires j < |StepTitles| && k < |StepTitles| && j != k
    ensures StepTitles[j] != StepTitles[k]
  {
    var a, b := StepTitles[j], StepTitles[k];
    // the nine titles differ in their first, third or fourth character
    assert a[0] != b[0] || a[2] != b[2] || a[3] != b[3];
  }

  /** A file whose step string is non-empty but names no step imports without error; the card
      of the imported project then throws, while `getStepProgress` would compute 0 % for it. */
  lemma ImportedUnknownStepCardThrows(sp: ProjectService.StoredProject)
    requires sp.id != "" && sp.name != "" && sp.currentStep != ""
    requires StepIndex(sp.currentStep) == -1
    ensures var r := ProjectService.ImportProject(ProjectService.Text(Some(sp)));
      r.Success? && CardTag(r.value) == Failure(CardTypeError)
      && GetStepProgress(r.value).percentage == 0
  {
  }

  // ==================== the project dialog ====================

  /** The name rules: required, at least 2 and at most 50 characters. */
  predicate ValidName(name: string) {
    2 <= |name| <= 50
  }

  datatype Saved = Created(project: ProjectState) | Edited(project: ProjectState)

  const Breaks: seq<BreakTime> := [BreakTime(2, 30, "大课间"), BreakTime(4, 90, "午休")]

  /** The standard format every new project starts with. */
  function StandardFormat(id: string): (f: TimetableFormat)
    ensures f.daysPerWeek == 5 && f.periodsPerDay == 8 && f.periodDuration == 45
    ensures f.startTime == "08:00" && f.breakTimes == Breaks && f.id == id
  {
    TimetableFormat(id, "标准格式", 5, 8, 45, "08:00", Breaks)
  }

  /** A new project: the first fresh id names it, the second its format. */
  function NewProject(name: string, uuids: nat -> string, u: nat): (r: ProjectState)
    ensures r.id == uuids(u) && r.name == name
    ensures StepIndex(r.currentStep) == 0
    ensures r.timetableFormat == Some(StandardFormat(uuids(u + 1)))
    ensures r.grades == [] && r.classes == [] && r.teachers == [] && r.subjects == []
    ensures r.rooms == [] && r.courseRequirements == [] && r.courses == []
  {
    StepIndexOfValue(0);
    ProjectState(uuids(u), name, SetupClasses.Value(), [], [], [], [], [],
      Some(StandardFormat(uuids(u + 1))), [], [])
  }

  /** `handleModalOk`: nothing when the name fails its rules, otherwise the edited project
      (only its name changed) or a new one. */
  function ModalOk(editing: Option<ProjectState>, name: string, uuids: nat -> string, u: nat): (r: Option<Saved>)
    ensures r.Some? <==> ValidName(name)
    ensures r.Some? && editing.Some? ==>
      r.value.Edited? && r.value.project.name == name && r.value.project.(name := editing.value.name) == editing.value
    ensures r.Some? && editing.None? ==> r.value == Created(NewProject(name, uuids, u))
  {
    if !ValidName(name) then None
    else if editing.Some? then Some(Edited(editing.value.(name := name)))
    else Some(Created(NewProject(name, uuids, u)))
  }

  /** Every break of the standard format falls strictly inside the day. */
  lemma BreaksInsideDay(id: string)
    ensures forall b :: b in StandardFormat(id).breakTimes ==>
      1 <= b.afterPeriod < StandardFormat(id).periodsPerDay
  {
  }

  /** A new project opens in the wizard on its first step with the next button disabled, since
      it has no classes yet. */
  lemma NewProjectOpensOnFirstStep(name: string, uuids: nat -> string, u: nat)
    ensures var p := NewProject(name, uuids, u);
      StepIndex(p.currentStep) == 0 && !ProjectWizard.IsStepValid(p, ProjectWizard.StepAt(0))
  {
  }

  /** The placeholder scheduler fits the standard format: every course it places for a project
      with that format lies within its days and periods. */
  lemma AutoScheduleFitsStandardFormat(p: ProjectState, id: string, i: nat)
    requires p.timetableFormat == Some(StandardFormat(id))
    requires i < |p.courseRequirements|
    ensures var c := ProjectService.AutoSchedule(p).courses[i];
      1 <= c.day <= StandardFormat(id).daysPerWeek && 1 <= c.period <= StandardFormat(id).periodsPerDay
  {
  }
}

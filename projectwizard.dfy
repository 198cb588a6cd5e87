/** The nine-step project wizard: the current step index, moved by next, previous and a click on
    a step, and the per-step check that enables the next button. Each move hands the parent an
    updated project whose `currentStep` records the new step. */
module ProjectWizard {
  import opened Wrappers
  import opened Types

  /** `steps[index]`: no step outside 0..8 (JavaScript's `undefined`). */
  function StepAt(index: int): (r: Option<ProjectStep>)
    ensures r.Some? <==> 0 <= index < |Steps|
    ensures r.Some? ==> r.value == Steps[index]
  {
    if 0 <= index < |Steps| then Some(Steps[index]) else None
  }

  /** The list a setup step must have filled, when it has one. */
  function Required(p: ProjectState, step: ProjectStep): Option<nat> {
    match step
    case SetupClasses => Some(|p.classes|)
    case SetupSubjects => Some(|p.subjects|)
    case SetupTeachers => Some(|p.teachers|)
    case SetupRooms => Some(|p.rooms|)
    case SetupRequirements => Some(|p.courseRequirements|)
    case AutoSchedule => Some(|p.courses|)
    case _ => None
  }

  /** `isStepValid`: a list step needs a non-empty list, the format step a format; manual
      adjustment, export and an unknown step are always valid. */
  function IsStepValid(p: ProjectState, step: Option<ProjectStep>): (r: bool)
    ensures step.None? ==> r
    ensures step == Some(SetupFormat) ==> (r <==> p.timetableFormat.Some?)
    ensures step.Some? && Required(p, step.value).Some? ==> (r <==> Required(p, step.value).value > 0)
    ensures step == Some(ManualAdjust) || step == Some(Export) ==> r
  {
    match step
    case None => true
    case Some(s) =>
      match s
      case SetupClasses => |p.classes| > 0
      case SetupFormat => p.timetableFormat.Some?
      case SetupSubjects => |p.subjects| > 0
      case SetupTeachers => |p.teachers| > 0
      case SetupRooms => |p.rooms| > 0
      case SetupRequirements => |p.courseRequirements| > 0
      case AutoSchedule => |p.courses| > 0
      case _ => true
  }

  /** The status shown for step `k`. */
  datatype StepStatus = Finish | Process | Wait

  function Status(p: ProjectState, current: int, k: nat): (r: StepStatus)
    requires k < |Steps|
    ensures r == Finish <==> IsStepValid(p, Some(Steps[k]))
    ensures r == Process ==> k == current
  {
    if IsStepValid(p, Some(Steps[k])) then Finish
    else if k == current then Process
    else Wait
  }

  /** The index after next: one further unless already at the last step. */
  function NextIndex(i: int): (r: int)
    ensures i < |Steps| - 1 ==> r == i + 1
    ensures i >= |Steps| - 1 ==> r == i
  {
    if i < |Steps| - 1 then i + 1 else i
  }

  /** The index after previous: one back unless at (or before) the first step. */
  function PrevIndex(i: int): (r: int)
    ensures i > 0 ==> r == i - 1
    ensures i <= 0 ==> r == i
  {
    if i > 0 then i - 1 else i
  }

  /** The step indices a wizard can hold: -1 for an unknown stored step, then 0..8. */
  predicate InRange(i: int) {
    -1 <= i < |Steps|
  }

  /** Previous undoes next below the last step; next undoes previous above the first. */
  lemma NavigationInverse(i: int)
    requires InRange(i)
    ensures 0 <= i < |Steps| - 1 ==> PrevIndex(NextIndex(i)) == i
    ensures 0 < i ==> NextIndex(PrevIndex(i)) == i
    ensures InRange(NextIndex(i)) && InRange(PrevIndex(i))
    ensures NextIndex(i) >= 0
  {
  }

  /** Next from an unknown step lands on the first step, and previous leaves it unknown. */
  lemma UnknownStepNavigation()
    ensures NextIndex(-1) == 0 && PrevIndex(-1) == -1
  {
  }

  /** The step recorded in an update is read back as the same index when the wizard is
      opened again on the updated project. */
  lemma ReopenAtRecordedStep(p: ProjectState, k: nat)
    requires k < |Steps|
    ensures StepIndex(p.(currentStep := Steps[k].Value()).currentStep) == k
  {
    StepIndexOfValue(k);
  }

  /** What a handler hands the parent: the updated project, and whether `onComplete` ran. */
  datatype Outcome = Outcome(update: Option<ProjectState>, completed: bool)

  class Wizard {
    // The `project` prop. The parent passes a new one after each `onProjectUpdate`; no contract
    // here depends on that, because `IsStepValid` never reads the current step.
    const project: ProjectState
    var index: int

    predicate Valid()
      reads this
    {
      InRange(index)
    }

    /** The initial index: the stored step's position, -1 when it names no step. */
    constructor (p: ProjectState)
      ensures project == p && index == StepIndex(p.currentStep) && Valid()
    {
      project := p;
      index := StepIndex(p.currentStep);
    }

    /** `handleNext`. */
    method HandleNext() returns (r: Outcome)
      requires Valid()
      modifies this
      ensures Valid() && index == NextIndex(old(index))
      ensures old(index) < |Steps| - 1 ==>
        r == Outcome(Some(project.(currentStep := Steps[index].Value())), false)
      ensures old(index) >= |Steps| - 1 ==> r == Outcome(None, true)
    {
      if index < |Steps| - 1 {
        var nextStep := Steps[index + 1];
        index := index + 1;
        r := Outcome(Some(project.(currentStep := nextStep.Value())), false);
      } else {
        r := Outcome(None, true);
      }
    }

    /** `handlePrev`. */
    method HandlePrev() returns (r: Outcome)
      requires Valid()
      modifies this
      ensures Valid() && index == PrevIndex(old(index))
      ensures old(index) > 0 ==> r == Outcome(Some(project.(currentStep := Steps[index].Value())), false)
      ensures old(index) <= 0 ==> r == Outcome(None, false)
    {
      if index > 0 {
        var prevStep := Steps[index - 1];
        index := index - 1;
        r := Outcome(Some(project.(currentStep := prevStep.Value())), false);
      } else {
        r := Outcome(None, false);
      }
    }

    /** `handleStepClick`: the step bar passes the index of a rendered step. */
    method HandleStepClick(k: nat) returns (r: Outcome)
      requires k < |Steps|
      modifies this
      ensures Valid() && index == k
      ensures r == Outcome(Some(project.(currentStep := Steps[k].Value())), false)
    {
      var targetStep := Steps[k];
      index := k;
      r := Outcome(Some(project.(currentStep := targetStep.Value())), false);
    }

    /** The previous button is disabled on the first step only. */
    function PrevDisabled(): bool
      reads this
    {
      index == 0
    }

    /** The next button is disabled while the current step is not valid. */
    function NextDisabled(): bool
      reads this
    {
      !IsStepValid(project, StepAt(index))
    }
  }

  /** Next is never disabled on an unknown step, nor on manual adjustment or export; previous
      is enabled on an unknown step although it then does nothing. */
  lemma ButtonsOnUnknownStep(w: Wizard)
    requires w.index == -1
    ensures !w.NextDisabled() && !w.PrevDisabled() && PrevIndex(w.index) == w.index
  {
  }

  /** Next is enabled exactly when the current step is valid. */
  lemma NextEnabledIffValid(w: Wizard)
    requires 0 <= w.index < |Steps|
    ensures !w.NextDisabled() <==> IsStepValid(w.project, Some(Steps[w.index]))
  {
  }

  /** A project with nothing set up passes only the format step (when it has a format),
      manual adjustment and export. */
  lemma EmptyProjectValidity(p: ProjectState, k: nat)
    requires k < |Steps|
    requires p.classes == [] && p.subjects == [] && p.teachers == [] && p.rooms == []
    requires p.courseRequirements == [] && p.courses == []
    ensures IsStepValid(p, Some(Steps[k])) <==>
      Steps[k] == ManualAdjust || Steps[k] == Export || (Steps[k] == SetupFormat && p.timetableFormat.Some?)
  {
  }
}

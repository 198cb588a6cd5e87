/** The course form: its live conflict check while values change, the final check on submit,
    and the state of the submit button. */
module CourseForm {
  import opened Wrappers
  import opened Types

  /** The form's values; every field may still be empty while the user types. */
  datatype FormValues = FormValues(
    name: Option<string>,
    teacher: Option<string>,
    className: Option<string>,
    room: Option<string>,
    day: Option<int>,
    period: Option<int>,
    duration: Option<int>)

  /** `x || ''` for an optional text. */
  function TextOr(s: Option<string>, default: string): string {
    if TruthyText(s) then s.value else default
  }

  /** The id the live check gives its candidate: the edited course's id, or 'temp'. */
  function CandidateId(editingId: Option<string>): (id: string)
    ensures TruthyText(editingId) ==> id == editingId.value
    ensures !TruthyText(editingId) ==> id == "temp"
  {
    TextOr(editingId, "temp")
  }

  /** Whether the live check runs at all: day, period and duration all truthy. */
  predicate ReadyToCheck(v: FormValues) {
    TruthyNumber(v.day) && TruthyNumber(v.period) && TruthyNumber(v.duration)
  }

  /** The temporary course the live check tests. */
  function TempCourse(v: FormValues, editingId: Option<string>): (c: Course)
    requires ReadyToCheck(v)
    ensures c.id == CandidateId(editingId)
    ensures c.day == v.day.value && c.period == v.period.value && c.duration == v.duration.value
  {
    Course(
      CandidateId(editingId), "", "", "", "", v.day.value, v.period.value, v.duration.value, None,
      Some(TextOr(v.name, "")), Some(TextOr(v.teacher, "")), Some(TextOr(v.className, "")),
      Some(TextOr(v.room, "")))
  }

  /** `validateCourse`: the new validation state, `None` standing for `null`. */
  function ValidateCourse(v: FormValues, editingId: Option<string>, existing: seq<Course>)
    : (r: Option<ValidationResult>)
    ensures r.Some? <==> ReadyToCheck(v)
    ensures r.Some? ==>
      (r.value.isValid <==>
        forall i :: 0 <= i < |existing| ==>
          !(existing[i].day == v.day.value && existing[i].period == v.period.value
            && existing[i].id != CandidateId(editingId)))
  {
    if ReadyToCheck(v) then Some(CheckCourseConflicts(TempCourse(v, editingId), existing)) else None
  }

  /** The submit button is disabled exactly when a validation result exists and is invalid. */
  predicate SubmitDisabled(validation: Option<ValidationResult>) {
    validation.Some? && !validation.value.isValid
  }

  /** Only a live check that found a clash disables submission: with incomplete values, or with
      no existing course on the candidate's day and period, the button stays enabled. */
  lemma DisabledOnlyByClash(v: FormValues, editingId: Option<string>, existing: seq<Course>)
    ensures SubmitDisabled(ValidateCourse(v, editingId, existing)) <==>
      ReadyToCheck(v)
      && exists i :: 0 <= i < |existing| && Clashes(existing[i], TempCourse(v, editingId))
  {
    if ReadyToCheck(v) {
      var r := ValidateCourse(v, editingId, existing);
      if !r.value.isValid {
        var i :| 0 <= i < |existing| && existing[i].day == v.day.value && existing[i].period == v.period.value
            && existing[i].id != CandidateId(editingId);
        assert Clashes(existing[i], TempCourse(v, editingId));
      }
    }
  }

  /** Submitted values: the form's rules require every field, so all are present. */
  predicate Complete(v: FormValues) {
    v.name.Some? && v.teacher.Some? && v.className.Some? && v.room.Some?
    && v.day.Some? && v.period.Some? && v.duration.Some?
  }

  /** The course `handleSubmit` builds: the existing id or a fresh one, then the form's values. */
  function SubmittedCourse(v: FormValues, editingId: Option<string>, freshId: string): (c: Course)
    requires Complete(v)
    ensures c.id == TextOr(editingId, freshId)
    ensures c.name == v.name && c.teacher == v.teacher && c.className == v.className && c.room == v.room
    ensures c.day == v.day.value && c.period == v.period.value && c.duration == v.duration.value
  {
    Course(
      TextOr(editingId, freshId), "", "", "", "", v.day.value, v.period.value, v.duration.value, None,
      v.name, v.teacher, v.className, v.room)
  }

  /** The conflict-check gate around `onSubmit`. */
  class CourseFormState {
    /** The `validation` state shown above the form. */
    var validation: Option<ValidationResult>

    constructor ()
      ensures validation == None
    {
      validation := None;
    }

    /** `handleValuesChange`: re-run the live check on all current values. */
    method HandleValuesChange(v: FormValues, editingId: Option<string>, existing: seq<Course>)
      modifies this
      ensures validation == ValidateCourse(v, editingId, existing)
    {
      validation := ValidateCourse(v, editingId, existing);
    }

    /** `handleSubmit`: `submitted` is the course passed to `onSubmit`, or `None` when the final
        check fails; a failed check is shown, a passing one leaves the shown state alone. */
    method HandleSubmit(v: FormValues, editingId: Option<string>, freshId: string, existing: seq<Course>)
      returns (submitted: Option<Course>)
      requires Complete(v)
      modifies this
      ensures var c := SubmittedCourse(v, editingId, freshId);
        && (submitted.Some? <==> forall i :: 0 <= i < |existing| ==> !Clashes(existing[i], c))
        && (submitted.Some? ==> submitted.value == c && validation == old(validation))
        && (submitted.None? ==> validation == Some(CheckCourseConflicts(c, existing)))
    {
      var course := SubmittedCourse(v, editingId, freshId);
      var finalValidation := CheckCourseConflicts(course, existing);
      if !finalValidation.isValid {
        validation := Some(finalValidation);
        return None;
      }
      submitted := Some(course);
    }
  }
}

/** The course-list view selector: the view-type labels, the views it emits when the type or
    the target changes, the number of courses the current view shows, and its target lists,
    which as written throw for every per-field view. Targets here are display names (class
    name, teacher name, room name, course name), not ids. */
module ViewSelector {
  import opened Wrappers
  import opened Seqs
  import opened Types

  /** `getViewTypeLabel`: the label of the type's option; the overview has no option. */
  function Label(t: TimetableViewType): (r: string)
    ensures r == "" <==> t == Overview
  {
    match t
    case All => "全校课程表"
    case ByClass => "班级课程表"
    case ByTeacher => "教师课程表"
    case ByRoom => "教室课程表"
    case BySubject => "科目课程表"
    case Overview => ""
  }

  /** The display field a view type compares its target with. */
  function FieldOf(t: TimetableViewType): Option<DisplayField> {
    match t
    case ByClass => Some(ClassField)
    case ByTeacher => Some(TeacherField)
    case ByRoom => Some(RoomField)
    case BySubject => Some(SubjectField)
    case _ => None
  }

  /** `handleViewTypeChange`: the total view gets its fixed title, every other type its label
      and no target. */
  function ViewTypeChange(t: TimetableViewType): (r: TimetableViewConfig)
    ensures r.kind == t && r.target.None? && r.targetId.None?
    ensures r.title == Label(t)
    ensures t == Overview ==> r.title == ""
  {
    if t == All then TimetableViewConfig(All, None, None, "全校课程表")
    else TimetableViewConfig(t, None, None, Label(t))
  }

  /** `handleTargetChange`: same type, the chosen name as target, `${label} - ${target}`. */
  function TargetChange(view: TimetableViewConfig, target: string): (r: TimetableViewConfig)
    ensures r.kind == view.kind && r.target == Some(target) && r.targetId.None?
    ensures r.title == Label(view.kind) + " - " + target
  {
    TimetableViewConfig(view.kind, None, Some(target), Label(view.kind) + " - " + target)
  }

  /** `handleTargetChange(undefined)`, what clearing the target select (`allowClear`) calls: the
      target is unset and the template literal writes `undefined` into the title. */
  function ClearedTarget(view: TimetableViewConfig): (r: TimetableViewConfig)
    ensures r.kind == view.kind && r.target.None? && r.targetId.None?
    ensures r.title == Label(view.kind) + " - undefined"
  {
    TimetableViewConfig(view.kind, None, None, Label(view.kind) + " - undefined")
  }

  /** The comparison in `getFilteredCoursesCount` (also used by the quick-access counters):
      strict equality of the display field with the target, so an absent target matches the
      courses that lack the field; view types without a field match every course. */
  predicate Matches(c: Course, t: TimetableViewType, target: Option<string>) {
    FieldOf(t).None? || Display(c, FieldOf(t).value) == target
  }

  /** `getFilteredCoursesCount`. */
  function FilteredCount(courses: seq<Course>, view: TimetableViewConfig): (r: nat)
    ensures r <= |courses|
    ensures FieldOf(view.kind).None? ==> r == |courses|
    ensures FieldOf(view.kind).Some? ==>
      r == |Filter(courses, (c: Course) => Matches(c, view.kind, view.target))|
  {
    if view.kind == All then |courses|
    else
      var shown := Filter(courses, (c: Course) => Matches(c, view.kind, view.target));
      if FieldOf(view.kind).None? then
        FilterAll(courses, (c: Course) => Matches(c, view.kind, view.target));
        |shown|
      else |shown|
  }

  /** Right after a type change no target is set, so a per-field view counts the courses that
      have no value in that field, not all courses. */
  lemma {:induction false} CountAfterTypeChange(courses: seq<Course>, t: TimetableViewType)
    requires FieldOf(t).Some?
    ensures FilteredCount(courses, ViewTypeChange(t)) ==
      |Filter(courses, (c: Course) => Display(c, FieldOf(t).value).None?)|
  {
    var view := ViewTypeChange(t);
    FilterEquiv(courses, (c: Course) => Matches(c, view.kind, view.target),
      (c: Course) => Display(c, FieldOf(t).value).None?);
  }

  /** Clearing the target counts the same courses as choosing the view type afresh (those
      with no value in the field), although the title differs. */
  lemma ClearedCountsAsTypeChange(courses: seq<Course>, view: TimetableViewConfig)
    requires FieldOf(view.kind).Some?
    ensures FilteredCount(courses, ClearedTarget(view)) == FilteredCount(courses, ViewTypeChange(view.kind))
    ensures ClearedTarget(view).title != ViewTypeChange(view.kind).title
  {
    var a, b := ClearedTarget(view), ViewTypeChange(view.kind);
    assert a.kind == b.kind && a.target == b.target;
    assert |a.title| == |b.title| + 12;
  }

  /** Every label but the overview's is distinct. */
  lemma LabelsDistinct(a: TimetableViewType, b: TimetableViewType)
    requires a != b
    ensures Label(a) != Label(b)
  {
    var x, y := Label(a), Label(b);
    if x != "" && y != "" {
      // the five labels differ in their first or their second character
      assert x[0] != y[0] || x[1] != y[1];
    }
  }

  // ==================== target options ====================

  /** What `const { teachers, classes, subjects, rooms } = …` destructures: an array of strings,
      which has no properties of those names, or the record `getAllUniqueValues` returns. */
  datatype ListsValue = StringArray(items: seq<string>) | Record(lists: UniqueValues)

  /** The list bound to the name of field `f`; `None` is `undefined`. */
  function Destructured(v: ListsValue, f: DisplayField): (r: Option<seq<string>>)
    ensures r.None? <==> v.StringArray?
    ensures v.Record? && f == ClassField ==> r == Some(v.lists.classes)
    ensures v.Record? && f == TeacherField ==> r == Some(v.lists.teachers)
    ensures v.Record? && f == RoomField ==> r == Some(v.lists.rooms)
    ensures v.Record? && f == SubjectField ==> r == Some(v.lists.subjects)
  {
    match v
    case StringArray(_) => None
    case Record(u) =>
      match f
      case TeacherField => Some(u.teachers)
      case ClassField => Some(u.classes)
      case SubjectField => Some(u.subjects)
      case RoomField => Some(u.rooms)
  }

  /** The error of calling `map` on `undefined`. */
  const TypeError: string := "TypeError: Cannot read properties of undefined (reading 'map')"

  /** `getTargetOptions`: the values of the view's field, or the error its `map` throws when
      that list is `undefined`; view types without a field get no options. */
  function TargetOptions(v: ListsValue, t: TimetableViewType): (r: Result<seq<string>, string>)
    ensures FieldOf(t).None? ==> r == Success([])
    ensures FieldOf(t).Some? ==>
      (r.Failure? <==> Destructured(v, FieldOf(t).value).None?)
      && (r.Failure? ==> r.error == TypeError)
      && (r.Success? ==> r.value == Destructured(v, FieldOf(t).value).value)
  {
    match FieldOf(t)
    case None => Success([])
    case Some(f) =>
      match Destructured(v, f)
      case None => Failure(TypeError)
      case Some(xs) => Success(xs)
  }

  /** The count tag of one render, or the error the render throws: every type but the total
      builds the target list while rendering. */
  function RenderedCount(v: ListsValue, courses: seq<Course>, view: TimetableViewConfig): (r: Result<nat, string>)
    ensures view.kind == All ==> r == Success(|courses|)
    ensures view.kind != All ==> (r.Failure? <==> TargetOptions(v, view.kind).Failure?)
    ensures r.Failure? ==> r.error == TypeError
    ensures r.Success? ==> r.value == FilteredCount(courses, view)
  {
    if view.kind == All then Success(FilteredCount(courses, view))
    else
      match TargetOptions(v, view.kind)
      case Failure(e) => Failure(e)
      case Success(_) => Success(FilteredCount(courses, view))
  }

  /** The lists as line 19 builds them: `getUniqueValues` called without a field reads
      `course["undefined"]`, so it returns `["undefined"]` for a non-empty list, an array. */
  function ListsAsWritten(courses: seq<Course>): (r: ListsValue)
    ensures r.StringArray?
  {
    StringArray(if |courses| == 0 then [] else ["undefined"])
  }

  /** As written, a class, teacher, room or subject view throws on every render, so neither its
      target list nor its count tag ever shows. */
  lemma AsWrittenRenderThrows(courses: seq<Course>, view: TimetableViewConfig)
    requires FieldOf(view.kind).Some?
    ensures TargetOptions(ListsAsWritten(courses), view.kind) == Failure(TypeError)
    ensures RenderedCount(ListsAsWritten(courses), courses, view) == Failure(TypeError)
  {
  }

  /** The lists as intended: the record of `getAllUniqueValues`. */
  function ListsIntended(courses: seq<Course>): (r: ListsValue)
    ensures r.Record? && r.lists == GetAllUniqueValues(courses)
  {
    Record(GetAllUniqueValues(courses))
  }

  /** With the intended lists a per-field view renders: its options are the distinct non-empty
      values of its field, and choosing any of them shows at least one course. */
  lemma {:induction false} IntendedTargetOptions(courses: seq<Course>, view: TimetableViewConfig)
    requires FieldOf(view.kind).Some?
    ensures TargetOptions(ListsIntended(courses), view.kind) == Success(UniqueDisplay(courses, FieldOf(view.kind).value))
    ensures RenderedCount(ListsIntended(courses), courses, view) == Success(FilteredCount(courses, view))
    ensures forall x | x in UniqueDisplay(courses, FieldOf(view.kind).value) ::
      FilteredCount(courses, TargetChange(view, x)) >= 1
  {
    var f := FieldOf(view.kind).value;
    forall x | x in UniqueDisplay(courses, f) ensures FilteredCount(courses, TargetChange(view, x)) >= 1 {
      var i :| 0 <= i < |courses| && Display(courses[i], f) == Some(x);
      var v := TargetChange(view, x);
      assert Matches(courses[i], v.kind, v.target);
      assert courses[i] in Filter(courses, (c: Course) => Matches(c, v.kind, v.target));
    }
  }
}

/** The quick-access panel: one section per kind of display name, listing the first ten names
    with a badge counting their courses, and the view a click on a name opens. */
module QuickAccess {
  import opened Wrappers
  import opened Seqs
  import opened Types
  import ViewSelector

  /** The title table of `handleQuickAccess`. */
  function QuickTitle(t: TimetableViewType): string {
    match t
    case All => "全校课程表"
    case Overview => "总览"
    case ByClass => "班级课程表"
    case ByTeacher => "教师课程表"
    case ByRoom => "教室课程表"
    case BySubject => "科目课程表"
  }

  /** `handleQuickAccess`: the view for one listed name. */
  function QuickAccessView(t: TimetableViewType, target: string): (r: TimetableViewConfig)
    ensures r.kind == t && r.target == Some(target) && r.targetId.None?
    ensures r.title == QuickTitle(t) + " - " + target
  {
    TimetableViewConfig(t, None, Some(target), QuickTitle(t) + " - " + target)
  }

  /** The quick-access titles are the selector's labels, except for the overview, which the
      selector leaves unlabelled. */
  lemma TitlesMatchSelector(t: TimetableViewType)
    ensures t != Overview ==> QuickTitle(t) == ViewSelector.Label(t)
    ensures ViewSelector.Label(Overview) == "" && QuickTitle(Overview) == "总览"
  {
  }

  /** `getItemCount`: the courses whose display field for the type is the name; a type without
      a field counts every course. */
  function ItemCount(courses: seq<Course>, t: TimetableViewType, target: string): (r: nat)
    ensures r <= |courses|
    ensures ViewSelector.FieldOf(t).None? ==> r == |courses|
  {
    var counted := Filter(courses, (c: Course) => ViewSelector.Matches(c, t, Some(target)));
    if ViewSelector.FieldOf(t).None? then
      FilterAll(courses, (c: Course) => ViewSelector.Matches(c, t, Some(target)));
      |counted|
    else |counted|
  }

  /** A badge shows the number the selector shows once that name is opened. */
  lemma BadgeMatchesSelector(courses: seq<Course>, t: TimetableViewType, target: string)
    requires t != All
    ensures ItemCount(courses, t, target) == ViewSelector.FilteredCount(courses, QuickAccessView(t, target))
  {
    var view := QuickAccessView(t, target);
    FilterEquiv(courses, (c: Course) => ViewSelector.Matches(c, t, Some(target)),
      (c: Course) => ViewSelector.Matches(c, view.kind, view.target));
  }

  /** `items.slice(0, 10)`. */
  function Listed(items: seq<string>): (r: seq<string>)
    ensures |r| <= 10 && r <= items
    ensures |items| <= 10 ==> r == items
  {
    if |items| <= 10 then items else items[..10]
  }

  /** The "还有 n 个..." note: shown with n = length - 10 when more than ten names exist. */
  function Remaining(items: seq<string>): (r: Option<nat>)
    ensures r.Some? <==> |items| > 10
  {
    if |items| > 10 then Some(|items| - 10) else None
  }

  /** The listed names and the note account for every name exactly once. */
  lemma ListedAndRemaining(items: seq<string>)
    ensures |Listed(items)| + Remaining(items).GetOr(0) == |items|
    ensures Listed(items) + items[|Listed(items)|..] == items
  {
  }

  /** The badges over a list of distinct names. */
  function BadgeSum(courses: seq<Course>, t: TimetableViewType, names: seq<string>): nat {
    if |names| == 0 then 0 else ItemCount(courses, t, names[0]) + BadgeSum(courses, t, names[1..])
  }

  /** Whether a course's field holds one of the names. */
  predicate Named(c: Course, f: DisplayField, names: seq<string>) {
    Display(c, f).Some? && Display(c, f).value in names
  }

  /** A course adds one to the badge sum when its name is listed, since the names differ. */
  lemma {:induction false} BadgeSumCons(c: Course, rest: seq<Course>, t: TimetableViewType, names: seq<string>)
    requires ViewSelector.FieldOf(t).Some? && Distinct(names)
    ensures BadgeSum([c] + rest, t, names) ==
      BadgeSum(rest, t, names) + (if Named(c, ViewSelector.FieldOf(t).value, names) then 1 else 0)
  {
    if |names| > 0 {
      var f := ViewSelector.FieldOf(t).value;
      assert Distinct(names[1..]);
      BadgeSumCons(c, rest, t, names[1..]);
      var p := (x: Course) => ViewSelector.Matches(x, t, Some(names[0]));
      FilterCons([c] + rest, p);
      assert ([c] + rest)[1..] == rest;
      assert Named(c, f, names) <==> Display(c, f) == Some(names[0]) || Named(c, f, names[1..]);
      assert !(Display(c, f) == Some(names[0]) && Named(c, f, names[1..]));
    }
  }

  /** Over distinct names, the badges add up to the courses whose field holds one of them. */
  lemma {:induction false} BadgeSumCounts(courses: seq<Course>, t: TimetableViewType, names: seq<string>)
    requires ViewSelector.FieldOf(t).Some? && Distinct(names)
    ensures BadgeSum(courses, t, names) ==
      |Filter(courses, (c: Course) => Named(c, ViewSelector.FieldOf(t).value, names))|
  {
    var f := ViewSelector.FieldOf(t).value;
    if |courses| == 0 {
      assert forall k :: 0 <= k < |names| ==> ItemCount(courses, t, names[k]) == 0;
      BadgeSumZero(courses, t, names);
    } else {
      BadgeSumCounts(courses[1..], t, names);
      assert [courses[0]] + courses[1..] == courses;
      BadgeSumCons(courses[0], courses[1..], t, names);
      FilterCons(courses, (c: Course) => Named(c, f, names));
    }
  }

  lemma {:induction false} BadgeSumZero(courses: seq<Course>, t: TimetableViewType, names: seq<string>)
    requires courses == []
    ensures BadgeSum(courses, t, names) == 0
  {
    if |names| > 0 {
      BadgeSumZero(courses, t, names[1..]);
    }
  }

  /** All badges of a section together count the courses that carry a non-empty name of that
      kind: each such course is counted under its own name and under no other. */
  lemma {:induction false} SectionBadgesCoverNamedCourses(courses: seq<Course>, t: TimetableViewType)
    requires ViewSelector.FieldOf(t).Some?
    ensures var f := ViewSelector.FieldOf(t).value;
      BadgeSum(courses, t, UniqueDisplay(courses, f)) ==
        |Filter(courses, (c: Course) => TruthyText(Display(c, f)))|
  {
    var f := ViewSelector.FieldOf(t).value;
    var names := UniqueDisplay(courses, f);
    BadgeSumCounts(courses, t, names);
    forall k | 0 <= k < |courses|
      ensures Named(courses[k], f, names) == TruthyText(Display(courses[k], f))
    {
      if TruthyText(Display(courses[k], f)) {
        assert Display(courses[k], f) == Some(Display(courses[k], f).value);
      }
    }
    FilterEquiv(courses, (c: Course) => Named(c, f, names), (c: Course) => TruthyText(Display(c, f)));
  }
}

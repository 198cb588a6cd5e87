/** The batch class dialog: a list of class templates the user edits, auto-numbering of the
    templates and the validation that turns them into classes of one grade. */
module BatchClassModal {
  import opened Wrappers
  import opened Seqs
  import opened Types

  datatype ClassTemplate = ClassTemplate(
    id: string, classNumber: int, studentCount: int,
    classTeacher: Option<string>, description: Option<string>)

  function TemplateIds(ts: seq<ClassTemplate>): seq<string> {
    Map(ts, (t: ClassTemplate) => t.id)
  }

  function TemplateNumbers(ts: seq<ClassTemplate>): (r: seq<int>)
    ensures |r| == |ts| && forall k :: 0 <= k < |ts| ==> r[k] == ts[k].classNumber
  {
    Map(ts, (t: ClassTemplate) => t.classNumber)
  }

  /** The class numbers already used in grade `gradeId`. */
  function GradeNumbers(classes: seq<ClassInfo>, gradeId: string): (r: seq<int>)
    ensures forall n :: n in r <==> exists c :: c in classes && c.gradeId == gradeId && c.classNumber == n
  {
    var inGrade := Filter(classes, (c: ClassInfo) => c.gradeId == gradeId);
    var r := Map(inGrade, (c: ClassInfo) => c.classNumber);
    assert forall n :: n in r ==> exists c :: c in classes && c.gradeId == gradeId && c.classNumber == n by {
      forall n | n in r ensures exists c :: c in classes && c.gradeId == gradeId && c.classNumber == n {
        var k :| 0 <= k < |r| && r[k] == n;
        assert inGrade[k] in inGrade;
      }
    }
    assert forall c :: c in classes && c.gradeId == gradeId ==> c.classNumber in r by {
      forall c | c in classes && c.gradeId == gradeId ensures c.classNumber in r {
        var k :| 0 <= k < |inGrade| && inGrade[k] == c;
        assert r[k] == c.classNumber;
      }
    }
    r
  }

  /** The fresh template list the dialog starts with and returns to. */
  function InitialTemplates(freshId: string): seq<ClassTemplate> {
    [ClassTemplate(freshId, 1, 40, None, None)]
  }

  // ==================== handleOk ====================

  datatype BatchError = DuplicateNumbers | NumbersExist(numbers: seq<int>)

  /** The class built from template `t` for `grade`, with id `id`. */
  function ClassFromTemplate(grade: GradeInfo, t: ClassTemplate, id: string): ClassInfo {
    ClassInfo(id, ClassLabel(grade.name, t.classNumber), grade.name, grade.id, t.classNumber,
      t.studentCount, t.classTeacher, t.description)
  }

  /** `classNumbers.length !== new Set(classNumbers).size`. */
  predicate HasRepeats(numbers: seq<int>)
    ensures HasRepeats(numbers) <==> !Distinct(numbers)
  {
    CardinalityIffDistinct(numbers);
    |numbers| != |set n | n in numbers|
  }

  /** The template numbers already used in the grade, in template order. */
  function Conflicts(numbers: seq<int>, used: seq<int>): (r: seq<int>)
    ensures forall n :: n in r <==> n in numbers && n in used
    ensures r == [] <==> forall k :: 0 <= k < |numbers| ==> numbers[k] !in used
  {
    var r := Filter(numbers, (n: int) => n in used);
    assert r != [] ==> exists k :: 0 <= k < |numbers| && numbers[k] in used by {
      if r != [] {
        assert r[0] in r;
      }
    }
    assert (exists k :: 0 <= k < |numbers| && numbers[k] in used) ==> r != [] by {
      if k :| 0 <= k < |numbers| && numbers[k] in used {
        assert numbers[k] in r;
      }
    }
    r
  }

  /** One class per template, in template order, the k-th taking the k-th fresh id. */
  function BatchClasses(grade: GradeInfo, ts: seq<ClassTemplate>, uuids: nat -> string, u0: nat)
    : (r: seq<ClassInfo>)
    ensures |r| == |ts| && forall k :: 0 <= k < |ts| ==> r[k] == ClassFromTemplate(grade, ts[k], uuids(u0 + k))
  {
    seq(|ts|, k requires 0 <= k < |ts| => ClassFromTemplate(grade, ts[k], uuids(u0 + k)))
  }

  /** `handleOk`: rejected when two templates share a number, then when some number is already
      used in the grade (listing those numbers in template order); otherwise the batch's
      classes. */
  function CheckBatch(grade: GradeInfo, existing: seq<ClassInfo>, ts: seq<ClassTemplate>,
                      uuids: nat -> string, u0: nat): (r: Result<seq<ClassInfo>, BatchError>)
    ensures r == Failure(DuplicateNumbers) <==> !Distinct(TemplateNumbers(ts))
    ensures r.Success? <==>
      Distinct(TemplateNumbers(ts))
      && forall k :: 0 <= k < |ts| ==> ts[k].classNumber !in GradeNumbers(existing, grade.id)
    ensures r.Failure? && r.error.NumbersExist? ==>
      && |r.error.numbers| > 0
      && forall n :: n in r.error.numbers <==> n in TemplateNumbers(ts) && n in GradeNumbers(existing, grade.id)
    ensures r.Success? ==> r.value == BatchClasses(grade, ts, uuids, u0)
  {
    var numbers := TemplateNumbers(ts);
    if HasRepeats(numbers) then Failure(DuplicateNumbers)
    else
      var conflicts := Conflicts(numbers, GradeNumbers(existing, grade.id));
      if |conflicts| > 0 then Failure(NumbersExist(conflicts))
      else Success(BatchClasses(grade, ts, uuids, u0))
  }

  /** The numbers used in the grade after appending classes of that grade. */
  lemma GradeNumbersAppend(existing: seq<ClassInfo>, added: seq<ClassInfo>, gradeId: string)
    requires forall k :: 0 <= k < |added| ==> added[k].gradeId == gradeId
    ensures GradeNumbers(existing + added, gradeId)
      == GradeNumbers(existing, gradeId) + Map(added, (c: ClassInfo) => c.classNumber)
  {
    var p := (c: ClassInfo) => c.gradeId == gradeId;
    FilterConcat(existing, added, p);
    FilterAll(added, p);
    MapConcat(Filter(existing, p), added, (c: ClassInfo) => c.classNumber);
  }

  /** Appending an accepted batch keeps the grade's class numbers free of repetitions. */
  lemma BatchKeepsNumbersUnique(grade: GradeInfo, existing: seq<ClassInfo>, ts: seq<ClassTemplate>,
                                uuids: nat -> string, u0: nat)
    requires Distinct(GradeNumbers(existing, grade.id))
    requires CheckBatch(grade, existing, ts, uuids, u0).Success?
    ensures Distinct(GradeNumbers(existing + CheckBatch(grade, existing, ts, uuids, u0).value, grade.id))
  {
    var added := CheckBatch(grade, existing, ts, uuids, u0).value;
    var numbers := TemplateNumbers(ts);
    GradeNumbersAppend(existing, added, grade.id);
    assert Map(added, (c: ClassInfo) => c.classNumber) == numbers;
    assert forall k :: 0 <= k < |numbers| ==> numbers[k] !in GradeNumbers(existing, grade.id);
    DistinctConcat(GradeNumbers(existing, grade.id), numbers);
  }

  // ==================== auto-fill ====================

  /** The templates renumbered with the k smallest positive numbers `used` does not contain, in
      increasing order; nothing but the numbers changes. */
  ghost predicate AutoFillResult(ts: seq<ClassTemplate>, used: seq<int>, r: seq<ClassTemplate>) {
    && |r| == |ts|
    && (forall k :: 0 <= k < |ts| ==> r[k] == ts[k].(classNumber := r[k].classNumber))
    && (forall k :: 0 <= k < |r| ==> r[k].classNumber >= 1 && r[k].classNumber !in used)
    && (forall j, k :: 0 <= j < k < |r| ==> r[j].classNumber < r[k].classNumber)
    && (forall k, m :: 0 <= k < |r| && 1 <= m < r[k].classNumber && m !in used ==>
          m in TemplateNumbers(r[..k]))
  }

  /** A number above every used one. */
  function Ceiling(used: seq<int>): (c: int)
    ensures forall x :: x in used ==> x < c
  {
    if |used| == 0 then 0
    else
      var rest := Ceiling(used[1..]);
      assert used == [used[0]] + used[1..];
      if used[0] < rest then rest else used[0] + 1
  }

  /** The first number from `start` on that `used` does not contain. */
  method NextFree(used: seq<int>, start: int) returns (n: int)
    ensures start <= n && n !in used
    ensures forall m :: start <= m < n ==> m in used
  {
    n := start;
    while n in used
      invariant start <= n
      invariant forall m :: start <= m < n ==> m in used
      decreases Ceiling(used) - n
    {
      n := n + 1;
    }
  }

  /** Auto-fill after its first |r| templates, `next` being the next candidate number. */
  ghost predicate FillProgress(ts: seq<ClassTemplate>, used: seq<int>, r: seq<ClassTemplate>, next: int) {
    && |r| <= |ts|
    && (forall k :: 0 <= k < |r| ==> r[k] == ts[k].(classNumber := r[k].classNumber))
    && (forall k :: 0 <= k < |r| ==> 1 <= r[k].classNumber < next && r[k].classNumber !in used)
    && (forall j, k :: 0 <= j < k < |r| ==> r[j].classNumber < r[k].classNumber)
    && (forall k, m :: 0 <= k < |r| && 1 <= m < r[k].classNumber && m !in used ==>
          m in TemplateNumbers(r[..k]))
    && next >= 1 && (forall m :: 1 <= m < next && m !in used ==> m in TemplateNumbers(r))
  }

  /** Giving the next template the first free number from `next` on keeps the progress. */
  lemma FillStep(ts: seq<ClassTemplate>, used: seq<int>, r: seq<ClassTemplate>, next: int, n: int)
    requires FillProgress(ts, used, r, next) && |r| < |ts|
    requires next <= n && n !in used && forall m :: next <= m < n ==> m in used
    ensures FillProgress(ts, used, r + [ts[|r|].(classNumber := n)], n + 1)
  {
    var t := ts[|r|].(classNumber := n);
    var r' := r + [t];
    assert r'[..|r|] == r;
    assert forall k :: 0 <= k < |r| ==> r'[..k] == r[..k];
    TemplateNumbersSnoc(r, t);
  }

  /** `handleAutoFillNumbers` on the numbers used in the grade. */
  method AutoFillNumbers(ts: seq<ClassTemplate>, used: seq<int>) returns (r: seq<ClassTemplate>)
    ensures AutoFillResult(ts, used, r)
  {
    var next := 1;
    r := [];
    for i := 0 to |ts|
      invariant |r| == i && FillProgress(ts, used, r, next)
    {
      var n := NextFree(used, next);
      FillStep(ts, used, r, next, n);
      r := r + [ts[i].(classNumber := n)];
      next := n + 1;
    }
  }

  lemma TemplateNumbersSnoc(ts: seq<ClassTemplate>, t: ClassTemplate)
    ensures TemplateNumbers(ts + [t]) == TemplateNumbers(ts) + [t.classNumber]
  {
  }

  /** Two auto-fill results that agree before position i agree at i: each takes the smallest
      free number above the shared prefix. */
  lemma AutoFillAgreesAt(ts: seq<ClassTemplate>, used: seq<int>, r1: seq<ClassTemplate>,
                         r2: seq<ClassTemplate>, i: nat)
    requires AutoFillResult(ts, used, r1) && AutoFillResult(ts, used, r2)
    requires i < |r1| && r1[..i] == r2[..i]
    ensures r1[i] == r2[i]
  {
    var a, b := r1[i].classNumber, r2[i].classNumber;
    var prefix := TemplateNumbers(r1[..i]);
    forall x | x in prefix ensures x < a && x < b {
      var k :| 0 <= k < i && prefix[k] == x;
      assert r1[k].classNumber == x && r2[k].classNumber == x;
    }
    assert forall m :: 1 <= m < a && m !in used ==> m in prefix;
    assert forall m :: 1 <= m < b && m !in used ==> m in TemplateNumbers(r2[..i]);
  }

  /** The auto-fill result is determined by the templates and the used numbers. */
  lemma AutoFillUnique(ts: seq<ClassTemplate>, used: seq<int>, r1: seq<ClassTemplate>, r2: seq<ClassTemplate>)
    requires AutoFillResult(ts, used, r1) && AutoFillResult(ts, used, r2)
    ensures r1 == r2
  {
    AutoFillPrefixesAgree(ts, used, r1, r2, |r1|);
    assert r1 == r1[..|r1|] && r2 == r2[..|r2|];
  }

  lemma {:induction false} AutoFillPrefixesAgree(
    ts: seq<ClassTemplate>, used: seq<int>, r1: seq<ClassTemplate>, r2: seq<ClassTemplate>, n: nat)
    requires AutoFillResult(ts, used, r1) && AutoFillResult(ts, used, r2)
    requires n <= |r1|
    ensures r1[..n] == r2[..n]
  {
    if n > 0 {
      AutoFillPrefixesAgree(ts, used, r1, r2, n - 1);
      AutoFillAgreesAt(ts, used, r1, r2, n - 1);
      PrefixSnoc(r1, n - 1);
      PrefixSnoc(r2, n - 1);
    }
  }

  lemma PrefixSnoc<T>(s: seq<T>, i: nat)
    requires i < |s|
    ensures s[..i + 1] == s[..i] + [s[i]]
  {
  }


  /** After auto-fill the batch passes both checks of `handleOk`. */
  lemma AutoFilledBatchAccepted(grade: GradeInfo, existing: seq<ClassInfo>, ts: seq<ClassTemplate>,
                                r: seq<ClassTemplate>, uuids: nat -> string, u0: nat)
    requires AutoFillResult(ts, GradeNumbers(existing, grade.id), r)
    ensures CheckBatch(grade, existing, r, uuids, u0).Success?
  {
    var numbers := TemplateNumbers(r);
    assert Distinct(numbers) by {
      forall i, j | 0 <= i < j < |numbers| ensures numbers[i] != numbers[j] {
        assert r[i].classNumber < r[j].classNumber;
      }
    }
  }

  // ==================== the dialog's template list ====================

  /** `handleRemoveTemplate`: the last remaining template is never removed. */
  function RemoveTemplate(ts: seq<ClassTemplate>, id: string): (r: seq<ClassTemplate>)
    ensures |ts| <= 1 ==> r == ts
    ensures |ts| > 1 ==> forall t :: multiset(r)[t] == if t.id == id then 0 else multiset(ts)[t]
    ensures |ts| >= 1 && Distinct(TemplateIds(ts)) ==> |r| >= 1
  {
    if |ts| > 1 then
      var r := Filter(ts, (t: ClassTemplate) => t.id != id);
      assert forall t :: multiset(r)[t] == if t.id == id then 0 else multiset(ts)[t] by {
        forall t ensures multiset(r)[t] == if t.id == id then 0 else multiset(ts)[t] {
          FilterMultiset(ts, (t: ClassTemplate) => t.id != id, t);
        }
      }
      assert Distinct(TemplateIds(ts)) ==> |r| >= 1 by {
        if Distinct(TemplateIds(ts)) {
          var ids := TemplateIds(ts);
          assert ids[0] != ids[1];
          if ts[0].id != id {
            assert ts[0] in r;
          } else {
            assert ts[1] in r;
          }
        }
      }
      r
    else ts
  }

  /** One edit of `handleTemplateChange`. */
  datatype TemplateEdit =
    | SetNumber(n: int) | SetStudentCount(n: int)
    | SetClassTeacher(s: Option<string>) | SetDescription(s: Option<string>)

  function ApplyEdit(t: ClassTemplate, e: TemplateEdit): ClassTemplate {
    match e
    case SetNumber(n) => t.(classNumber := n)
    case SetStudentCount(n) => t.(studentCount := n)
    case SetClassTeacher(s) => t.(classTeacher := s)
    case SetDescription(s) => t.(description := s)
  }

  /** `handleTemplateChange`: only the templates with the id change, and ids never do. */
  function ChangeTemplate(ts: seq<ClassTemplate>, id: string, e: TemplateEdit): (r: seq<ClassTemplate>)
    ensures |r| == |ts| && TemplateIds(r) == TemplateIds(ts)
    ensures forall k :: 0 <= k < |ts| ==> r[k] == if ts[k].id == id then ApplyEdit(ts[k], e) else ts[k]
  {
    Map(ts, (t: ClassTemplate) => if t.id == id then ApplyEdit(t, e) else t)
  }

  /** The dialog's template list; it is never empty and its ids are distinct. */
  class BatchClassDialog {
    var templates: seq<ClassTemplate>

    ghost predicate Valid()
      reads this
    {
      |templates| >= 1 && Distinct(TemplateIds(templates))
    }

    constructor (freshId: string)
      ensures templates == InitialTemplates(freshId) && Valid()
    {
      templates := InitialTemplates(freshId);
    }

    /** `handleAddTemplate`: a template numbered one past the list's length, with 40 students. */
    method AddTemplate(freshId: string)
      requires Valid() && freshId !in TemplateIds(templates)
      modifies this
      ensures templates == old(templates) + [ClassTemplate(freshId, |old(templates)| + 1, 40, None, None)]
      ensures Valid()
    {
      var t := ClassTemplate(freshId, |templates| + 1, 40, None, None);
      assert TemplateIds(templates + [t]) == TemplateIds(templates) + [freshId];
      DistinctConcat(TemplateIds(templates), [freshId]);
      templates := templates + [t];
    }

    /** `handleRemoveTemplate`. */
    method RemoveTemplateById(id: string)
      requires Valid()
      modifies this
      ensures templates == RemoveTemplate(old(templates), id) && Valid()
    {
      var r := RemoveTemplate(templates, id);
      if |templates| > 1 {
        FilterKeepsDistinctIds(templates, id);
      }
      templates := r;
    }

    /** `handleTemplateChange`. */
    method ChangeTemplateById(id: string, e: TemplateEdit)
      requires Valid()
      modifies this
      ensures templates == ChangeTemplate(old(templates), id, e) && Valid()
    {
      templates := ChangeTemplate(templates, id, e);
    }

    /** `handleAutoFillNumbers`. */
    method AutoFill(grade: GradeInfo, existing: seq<ClassInfo>)
      requires Valid()
      modifies this
      ensures AutoFillResult(old(templates), GradeNumbers(existing, grade.id), templates) && Valid()
    {
      var r := AutoFillNumbers(templates, GradeNumbers(existing, grade.id));
      assert TemplateIds(r) == TemplateIds(templates) by {
        forall k | 0 <= k < |r| ensures TemplateIds(r)[k] == TemplateIds(templates)[k] {
          assert r[k] == templates[k].(classNumber := r[k].classNumber);
        }
      }
      templates := r;
    }

    /** `handleOk`: on success the classes go to `onOk` and the list starts over with one fresh
        template (taking the next fresh id); on failure nothing changes. */
    method HandleOk(grade: GradeInfo, existing: seq<ClassInfo>, uuids: nat -> string, u0: nat)
      returns (r: Result<seq<ClassInfo>, BatchError>)
      requires Valid()
      modifies this
      ensures r == CheckBatch(grade, existing, old(templates), uuids, u0)
      ensures r.Success? ==> templates == InitialTemplates(uuids(u0 + |old(templates)|))
      ensures r.Failure? ==> templates == old(templates)
      ensures Valid()
    {
      r := CheckBatch(grade, existing, templates, uuids, u0);
      if r.Success? {
        templates := InitialTemplates(uuids(u0 + |templates|));
      }
    }

    /** `handleCancel`: the list starts over. */
    method HandleCancel(freshId: string)
      modifies this
      ensures templates == InitialTemplates(freshId) && Valid()
    {
      templates := InitialTemplates(freshId);
    }
  }

  /** Removing templates by id keeps the remaining ids distinct. */
  lemma FilterKeepsDistinctIds(ts: seq<ClassTemplate>, id: string)
    requires Distinct(TemplateIds(ts))
    ensures Distinct(TemplateIds(Filter(ts, (t: ClassTemplate) => t.id != id)))
  {
    var p := (t: ClassTemplate) => t.id != id;
    var r := Filter(ts, p);
    forall i, j | 0 <= i < j < |r| ensures TemplateIds(r)[i] != TemplateIds(r)[j] {
      var ki, kj := FilterIndices(ts, p, i, j);
      assert TemplateIds(ts)[ki] != TemplateIds(ts)[kj];
    }
  }
}

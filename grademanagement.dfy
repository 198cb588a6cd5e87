/** Grade and class maintenance: cascading delete, moving a grade up or down, editing and
    adding grades and classes. The component owns neither list: every handler hands new lists
    to its parent through the update callbacks, modelled as a list of `Update`s. */
module GradeManagement {
  import opened Wrappers
  import opened Seqs
  import opened Types

  datatype Collections = Collections(grades: seq<GradeInfo>, classes: seq<ClassInfo>)

  /** One call of `onGradesUpdate`, `onClassesUpdate` or `onBothUpdate`. */
  datatype Update =
    | GradesUpdate(grades: seq<GradeInfo>)
    | ClassesUpdate(classes: seq<ClassInfo>)
    | BothUpdate(grades: seq<GradeInfo>, classes: seq<ClassInfo>)

  function ApplyUpdate(s: Collections, u: Update): Collections {
    match u
    case GradesUpdate(gs) => s.(grades := gs)
    case ClassesUpdate(cs) => s.(classes := cs)
    case BothUpdate(gs, cs) => Collections(gs, cs)
  }

  /** The parent's collections after it has received the updates in order. */
  function ApplyAll(s: Collections, us: seq<Update>): Collections
    decreases |us|
  {
    if |us| == 0 then s else ApplyAll(ApplyUpdate(s, us[0]), us[1..])
  }

  /** How a handler publishes new grades and classes: one combined update when `onBothUpdate`
      is given, otherwise the grades first and then the classes. Either way the parent ends up
      with exactly the published collections. */
  function Publish(hasBoth: bool, r: Collections): (us: seq<Update>)
    ensures |us| == if hasBoth then 1 else 2
    ensures forall s :: ApplyAll(s, us) == r
  {
    var us := if hasBoth then [BothUpdate(r.grades, r.classes)]
      else [GradesUpdate(r.grades), ClassesUpdate(r.classes)];
    assert forall s :: ApplyAll(s, us) == r by {
      forall s ensures ApplyAll(s, us) == r {
        var s1 := ApplyUpdate(s, us[0]);
        assert ApplyAll(s, us) == ApplyAll(s1, us[1..]);
        if !hasBoth {
          var rest := us[1..];
          assert rest == [ClassesUpdate(r.classes)] && rest[1..] == [];
          assert ApplyAll(s1, rest) == ApplyAll(ApplyUpdate(s1, rest[0]), rest[1..]);
        } else {
          assert us[1..] == [];
        }
      }
    }
    us
  }

  /** Every class belongs to a grade that exists. */
  predicate Integrity(s: Collections) {
    forall c | c in s.classes :: exists g | g in s.grades :: g.id == c.gradeId
  }

  /** Every class's grade name is its grade's name. */
  predicate NamesAgree(s: Collections) {
    forall c, g | c in s.classes && g in s.grades :: c.gradeId == g.id ==> c.grade == g.name
  }

  predicate HasGrade(grades: seq<GradeInfo>, id: string) {
    exists i :: 0 <= i < |grades| && grades[i].id == id
  }

  predicate HasClass(classes: seq<ClassInfo>, id: string) {
    exists i :: 0 <= i < |classes| && classes[i].id == id
  }

  // ==================== deleting a grade ====================

  /** The collections without grade `id` and without every class of that grade. */
  function GradeDeleted(s: Collections, id: string): (r: Collections)
    ensures forall g :: multiset(r.grades)[g] == if g.id == id then 0 else multiset(s.grades)[g]
    ensures forall c :: multiset(r.classes)[c] == if c.gradeId == id then 0 else multiset(s.classes)[c]
  {
    var gs := Filter(s.grades, (g: GradeInfo) => g.id != id);
    var cs := Filter(s.classes, (c: ClassInfo) => c.gradeId != id);
    assert forall g :: multiset(gs)[g] == if g.id == id then 0 else multiset(s.grades)[g] by {
      forall g ensures multiset(gs)[g] == if g.id == id then 0 else multiset(s.grades)[g] {
        FilterMultiset(s.grades, (g: GradeInfo) => g.id != id, g);
      }
    }
    assert forall c :: multiset(cs)[c] == if c.gradeId == id then 0 else multiset(s.classes)[c] by {
      forall c ensures multiset(cs)[c] == if c.gradeId == id then 0 else multiset(s.classes)[c] {
        FilterMultiset(s.classes, (c: ClassInfo) => c.gradeId != id, c);
      }
    }
    Collections(gs, cs)
  }

  /** `handleDeleteGrade`: nothing is published for an absent id; otherwise the grade and its
      classes are removed, the kept entries staying in their relative order. */
  function HandleDeleteGrade(hasBoth: bool, s: Collections, id: string): (us: seq<Update>)
    ensures us == [] <==> !HasGrade(s.grades, id)
    ensures us != [] ==> ApplyAll(s, us) == GradeDeleted(s, id)
  {
    if HasGrade(s.grades, id) then Publish(hasBoth, GradeDeleted(s, id)) else []
  }

  /** Removing a grade together with its classes leaves no class without a grade. */
  lemma DeletedKeepsIntegrity(s: Collections, id: string)
    requires Integrity(s)
    ensures Integrity(GradeDeleted(s, id))
  {
    var r := GradeDeleted(s, id);
    forall c | c in r.classes ensures exists g | g in r.grades :: g.id == c.gradeId {
      assert multiset(r.classes)[c] > 0;
      var g :| g in s.grades && g.id == c.gradeId;
      assert multiset(r.grades)[g] > 0;
    }
  }

  /** With `onBothUpdate` the parent never sees a class whose grade is gone. */
  lemma {:induction false} CombinedDeleteKeepsIntegrity(s: Collections, id: string)
    requires Integrity(s)
    ensures var us := HandleDeleteGrade(true, s, id);
      forall k | 0 <= k <= |us| :: Integrity(ApplyAll(s, us[..k]))
  {
    var us := HandleDeleteGrade(true, s, id);
    if us != [] {
      DeletedKeepsIntegrity(s, id);
    }
    forall k | 0 <= k <= |us| ensures Integrity(ApplyAll(s, us[..k])) {
      if k == 0 {
        assert us[..k] == [];
      } else {
        assert us[..k] == us;
      }
    }
  }

  /** Without it, between the two updates the parent holds the deleted grade's classes under
      no grade at all. */
  lemma {:induction false} SeparateDeleteExposesOrphans(s: Collections, id: string, c: ClassInfo)
    requires HasGrade(s.grades, id) && c in s.classes && c.gradeId == id
    ensures !Integrity(ApplyAll(s, HandleDeleteGrade(false, s, id)[..1]))
  {
    var us := HandleDeleteGrade(false, s, id);
    var mid := ApplyAll(s, us[..1]);
    var first := us[..1];
    assert first == [GradesUpdate(GradeDeleted(s, id).grades)] && first[1..] == [];
    assert ApplyAll(s, first) == ApplyAll(ApplyUpdate(s, first[0]), first[1..]);
    assert mid == Collections(GradeDeleted(s, id).grades, s.classes);
    forall g | g in mid.grades ensures g.id != id {
      assert multiset(mid.grades)[g] > 0;
    }
  }

  // ==================== moving a grade ====================

  /** `grades.findIndex(g => g.id === id)`, searching from position `k`. */
  function IndexOfGradeFrom(grades: seq<GradeInfo>, id: string, k: nat): (i: int)
    requires k <= |grades|
    ensures i == -1 || k <= i < |grades|
    ensures i == -1 <==> forall j :: k <= j < |grades| ==> grades[j].id != id
    ensures i != -1 ==> grades[i].id == id && forall j :: k <= j < i ==> grades[j].id != id
    decreases |grades| - k
  {
    if k == |grades| then -1
    else if grades[k].id == id then k
    else IndexOfGradeFrom(grades, id, k + 1)
  }

  function IndexOfGrade(grades: seq<GradeInfo>, id: string): (i: int)
    ensures i == -1 || 0 <= i < |grades|
    ensures i == -1 <==> !HasGrade(grades, id)
    ensures i != -1 ==> grades[i].id == id && forall j :: 0 <= j < i ==> grades[j].id != id
  {
    IndexOfGradeFrom(grades, id, 0)
  }

  /** Every grade's `order` is its position, counting from 1. */
  predicate Contiguous(grades: seq<GradeInfo>) {
    forall k :: 0 <= k < |grades| ==> grades[k].order == k + 1
  }

  /** Positions i and j exchanged, then every `order` rewritten to the position. */
  function MovedGrades(grades: seq<GradeInfo>, i: nat, j: nat): (r: seq<GradeInfo>)
    requires i < |grades| && j < |grades|
    ensures |r| == |grades| && Contiguous(r)
    ensures r[i] == grades[j].(order := i + 1) && r[j] == grades[i].(order := j + 1)
    ensures forall k :: 0 <= k < |r| && k != i && k != j ==> r[k] == grades[k].(order := k + 1)
  {
    var swapped := grades[i := grades[j]][j := grades[i]];
    seq(|grades|, k requires 0 <= k < |grades| => swapped[k].(order := k + 1))
  }

  /** `handleMoveGrade`: `None` when the first grade moves up or the last moves down (nothing is
      published); otherwise the grade and its neighbour change places and every `order` is
      rewritten to the new position. */
  method MoveGrade(grades: seq<GradeInfo>, id: string, up: bool) returns (r: Option<seq<GradeInfo>>)
    requires HasGrade(grades, id)
    ensures var i := IndexOfGrade(grades, id);
      && (r.None? <==> (up && i == 0) || (!up && i == |grades| - 1))
      && (r.Some? ==> 0 <= i && r.value == MovedGrades(grades, i, if up then i - 1 else i + 1))
  {
    var current := IndexOfGrade(grades, id);
    if (up && current == 0) || (!up && current == |grades| - 1) {
      return None;
    }
    var target := if up then current - 1 else current + 1;
    var a := new GradeInfo[|grades|](k requires 0 <= k < |grades| => grades[k]);
    a[current], a[target] := a[target], a[current];
    assert a[..] == grades[current := grades[target]][target := grades[current]];
    Renumber(a);
    assert a[..] == MovedGrades(grades, current, target);
    r := Some(a[..]);
  }

  /** The `forEach` that sets each grade's `order` to its position plus one. */
  method Renumber(a: array<GradeInfo>)
    modifies a
    ensures forall m :: 0 <= m < a.Length ==> a[m] == old(a[m]).(order := m + 1)
  {
    for k := 0 to a.Length
      invariant forall m :: 0 <= m < k ==> a[m] == old(a[m]).(order := m + 1)
      invariant forall m :: k <= m < a.Length ==> a[m] == old(a[m])
    {
      a[k] := a[k].(order := k + 1);
    }
  }

  /** Moving a grade up and then moving it down again gives back a list whose orders were
      already its positions. */
  lemma MoveUpThenDown(grades: seq<GradeInfo>, i: nat)
    requires 0 < i < |grades| && Contiguous(grades)
    ensures MovedGrades(MovedGrades(grades, i, i - 1), i - 1, i) == grades
  {
    var once := MovedGrades(grades, i, i - 1);
    var twice := MovedGrades(once, i - 1, i);
    assert forall k :: 0 <= k < |grades| ==> twice[k] == grades[k];
  }

  /** With distinct ids, the moved grade is then found at its new position. */
  lemma MovedGradeFound(grades: seq<GradeInfo>, i: nat, j: nat)
    requires i < |grades| && j < |grades| && Distinct(Map(grades, (g: GradeInfo) => g.id))
    ensures IndexOfGrade(MovedGrades(grades, i, j), grades[i].id) == j
  {
    var ids := Map(grades, (g: GradeInfo) => g.id);
    var r := MovedGrades(grades, i, j);
    forall k | 0 <= k < j ensures r[k].id != grades[i].id {
      assert ids[k] == grades[k].id && ids[i] == grades[i].id && ids[j] == grades[j].id;
    }
  }

  // ==================== editing and adding a grade ====================

  /** The grade form's fields. */
  datatype GradeValues = GradeValues(name: string, description: Option<string>)

  /** Editing grade `editing`: every grade with its id becomes `editing` with the form's name and
      description (so its id and order are kept), and exactly the classes of that grade take
      the new grade name. */
  function EditGrade(s: Collections, editing: GradeInfo, v: GradeValues): (r: Collections)
    ensures |r.grades| == |s.grades| && |r.classes| == |s.classes|
    ensures forall k :: 0 <= k < |s.grades| ==>
      if s.grades[k].id == editing.id
      then r.grades[k] == editing.(name := v.name, description := v.description)
      else r.grades[k] == s.grades[k]
    ensures forall k :: 0 <= k < |s.classes| ==>
      if s.classes[k].gradeId == editing.id
      then r.classes[k] == s.classes[k].(grade := v.name)
      else r.classes[k] == s.classes[k]
  {
    Collections(
      Map(s.grades, (g: GradeInfo) => if g.id == editing.id then editing.(name := v.name, description := v.description) else g),
      Map(s.classes, (c: ClassInfo) => if c.gradeId == editing.id then c.(grade := v.name) else c))
  }

  /** `handleGradeModalOk` while editing. */
  function HandleEditGrade(hasBoth: bool, s: Collections, editing: GradeInfo, v: GradeValues): (us: seq<Update>)
    ensures ApplyAll(s, us) == EditGrade(s, editing, v)
  {
    Publish(hasBoth, EditGrade(s, editing, v))
  }

  /** Renaming a grade keeps every class's grade name in step with its grade. */
  lemma EditGradeKeepsNames(s: Collections, editing: GradeInfo, v: GradeValues)
    requires NamesAgree(s)
    ensures NamesAgree(EditGrade(s, editing, v))
  {
    var r := EditGrade(s, editing, v);
    forall c, g | c in r.classes && g in r.grades && c.gradeId == g.id ensures c.grade == g.name {
      var a :| 0 <= a < |r.classes| && r.classes[a] == c;
      var b :| 0 <= b < |r.grades| && r.grades[b] == g;
      assert s.classes[a] in s.classes && s.grades[b] in s.grades;
    }
  }

  /** Renaming a grade keeps every class's grade. */
  lemma EditGradeKeepsIntegrity(s: Collections, editing: GradeInfo, v: GradeValues)
    requires Integrity(s)
    ensures Integrity(EditGrade(s, editing, v))
  {
    var r := EditGrade(s, editing, v);
    forall c | c in r.classes ensures exists g | g in r.grades :: g.id == c.gradeId {
      var a :| 0 <= a < |r.classes| && r.classes[a] == c;
      assert s.classes[a] in s.classes;
      var g :| g in s.grades && g.id == s.classes[a].gradeId;
      var b :| 0 <= b < |s.grades| && s.grades[b] == g;
      assert r.grades[b] in r.grades;
    }
  }

  /** `handleGradeModalOk` when adding: a new grade with a fresh id goes last, its order one
      more than the number of grades before it. */
  function AddGrade(grades: seq<GradeInfo>, freshId: string, v: GradeValues): (r: seq<GradeInfo>)
    ensures |r| == |grades| + 1 && r[..|grades|] == grades
    ensures r[|grades|] == GradeInfo(freshId, v.name, |grades| + 1, v.description)
    ensures Contiguous(grades) ==> Contiguous(r)
  {
    grades + [GradeInfo(freshId, v.name, |grades| + 1, v.description)]
  }

  /** Orders are not renumbered on delete, so a grade added after a deletion can repeat an
      order still in use. */
  lemma DeleteThenAddRepeatsOrder()
    ensures var grades := [GradeInfo("a", "高一", 1, None), GradeInfo("b", "高二", 2, None)];
      var left := GradeDeleted(Collections(grades, []), "a").grades;
      var added := AddGrade(left, "c", GradeValues("高三", None));
      |added| == 2 && added[0].order == added[1].order == 2
  {
    var grades := [GradeInfo("a", "高一", 1, None), GradeInfo("b", "高二", 2, None)];
    var left := GradeDeleted(Collections(grades, []), "a").grades;
    assert multiset(left)[grades[1]] == 1 && multiset(left)[grades[0]] == 0;
    assert |left| == 1 by {
      assert Filter(grades, (g: GradeInfo) => g.id != "a") == [grades[1]];
    }
    assert left[0] in multiset(left);
  }

  // ==================== classes ====================

  /** `handleDeleteClass`: `None` (nothing published) for an absent id, otherwise the classes
      without every class carrying that id. */
  function DeleteClass(classes: seq<ClassInfo>, id: string): (r: Option<seq<ClassInfo>>)
    ensures r.None? <==> !HasClass(classes, id)
    ensures r.Some? ==> forall c :: multiset(r.value)[c] == if c.id == id then 0 else multiset(classes)[c]
  {
    if !HasClass(classes, id) then None
    else
      var cs := Filter(classes, (c: ClassInfo) => c.id != id);
      assert forall c :: multiset(cs)[c] == if c.id == id then 0 else multiset(classes)[c] by {
        forall c ensures multiset(cs)[c] == if c.id == id then 0 else multiset(classes)[c] {
          FilterMultiset(classes, (c: ClassInfo) => c.id != id, c);
        }
      }
      Some(cs)
  }

  /** The class form's fields: `gradeId` is a hidden field the form fills from the grade. */
  datatype ClassValues = ClassValues(
    gradeId: string, grade: string, classNumber: int, studentCount: int,
    classTeacher: Option<string>, description: Option<string>)

  /** `handleClassModalOk` when adding: a new class with a fresh id and the name
      `${grade}(${classNumber})班`, appended after the existing classes. */
  function AddClass(classes: seq<ClassInfo>, freshId: string, v: ClassValues): (r: seq<ClassInfo>)
    ensures |r| == |classes| + 1 && r[..|classes|] == classes
    ensures var c := r[|classes|];
      && c.id == freshId && c.name == ClassLabel(v.grade, v.classNumber)
      && c.grade == v.grade && c.gradeId == v.gradeId && c.classNumber == v.classNumber
      && c.studentCount == v.studentCount && c.classTeacher == v.classTeacher
      && c.description == v.description
  {
    classes + [ClassInfo(freshId, ClassLabel(v.grade, v.classNumber), v.grade, v.gradeId,
      v.classNumber, v.studentCount, v.classTeacher, v.description)]
  }

  /** A class added under a grade with the grade's own name keeps names in agreement. */
  lemma AddClassKeepsNames(s: Collections, freshId: string, v: ClassValues)
    requires NamesAgree(s)
    requires forall g | g in s.grades :: g.id == v.gradeId ==> g.name == v.grade
    ensures NamesAgree(s.(classes := AddClass(s.classes, freshId, v)))
  {
    var r := AddClass(s.classes, freshId, v);
    forall c | c in r ensures c in s.classes || c == r[|s.classes|] {
      var a :| 0 <= a < |r| && r[a] == c;
      if a < |s.classes| {
        assert r[a] == s.classes[a];
      }
    }
  }

  /** `handleClassModalOk` while editing: every class with the edited class's id becomes the
      edited class overwritten by the form's fields; its id and its name are kept, so the name
      is not rebuilt when the class number or grade changes. */
  function EditClass(classes: seq<ClassInfo>, editing: ClassInfo, v: ClassValues): (r: seq<ClassInfo>)
    ensures |r| == |classes|
    ensures forall k :: 0 <= k < |classes| ==>
      if classes[k].id == editing.id
      then r[k] == ClassInfo(editing.id, editing.name, v.grade, v.gradeId, v.classNumber,
        v.studentCount, v.classTeacher, v.description)
      else r[k] == classes[k]
  {
    Map(classes, (c: ClassInfo) =>
      if c.id == editing.id then ClassInfo(editing.id, editing.name, v.grade, v.gradeId, v.classNumber,
        v.studentCount, v.classTeacher, v.description)
      else c)
  }

  /** `handleBatchClassOk`: the new classes go after the existing ones, in their order. */
  function AppendBatch(classes: seq<ClassInfo>, newClasses: seq<ClassInfo>): (r: seq<ClassInfo>)
    ensures |r| == |classes| + |newClasses|
    ensures r[..|classes|] == classes && r[|classes|..] == newClasses
  {
    classes + newClasses
  }
}

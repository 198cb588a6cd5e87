/** The Excel import dialog: sheet rows become imported class records, which `handleOk` groups
    into grades (in first-appearance order of their names) and classes. The workbook reader is
    not modelled: its output, the rows of the first sheet as arrays of cells, is the input. */
module ExcelImport {
  import opened Wrappers
  import opened Seqs
  import opened Text
  import opened Types

  // ==================== cells and rows ====================

  /** A cell of `sheet_to_json(sheet, { header: 1 })`; `Missing` is `undefined`, also for an
      index past the row's end. Numbers are integers in this model. */
  datatype Cell = Missing | Str(s: string) | Num(n: int) | Bool(b: bool)

  function CellAt(row: seq<Cell>, i: nat): Cell {
    if i < |row| then row[i] else Missing
  }

  predicate Truthy(c: Cell) {
    match c
    case Missing => false
    case Str(s) => s != ""
    case Num(n) => n != 0
    case Bool(b) => b
  }

  /** `String(c)`. */
  function CellString(c: Cell): string {
    match c
    case Missing => "undefined"
    case Str(s) => s
    case Num(n) => IntToString(n)
    case Bool(b) => if b then "true" else "false"
  }

  /** `Number(c)`; `None` is NaN. */
  function CellNumber(c: Cell): Option<int> {
    match c
    case Missing => None
    case Str(s) => JsNumber(s)
    case Num(n) => Some(n)
    case Bool(b) => Some(if b then 1 else 0)
  }

  /** `Number(c) || d`: NaN and 0 both fall back to `d`, any other number is kept. */
  function NumberOr(c: Cell, d: int): (r: int)
    ensures r != d ==> CellNumber(c) == Some(r) && r != 0
    ensures (CellNumber(c).None? || CellNumber(c) == Some(0)) ==> r == d
    ensures CellNumber(c).Some? && CellNumber(c).value != 0 ==> r == CellNumber(c).value
  {
    match CellNumber(c)
    case None => d
    case Some(n) => if n != 0 then n else d
  }

  /** `c ? String(c).trim() : undefined`. */
  function OptionalText(c: Cell): (r: Option<string>)
    ensures r.None? <==> !Truthy(c)
    ensures r.Some? ==> r.value == Trim(CellString(c))
  {
    if Truthy(c) then Some(Trim(CellString(c))) else None
  }

  datatype ImportedClass = ImportedClass(
    grade: string, classNumber: int, className: string, studentCount: int,
    classTeacher: Option<string>, description: Option<string>)

  /** A row is taken when it has at least three cells and the first three are truthy. */
  predicate Accepted(row: seq<Cell>) {
    |row| >= 3 && Truthy(row[0]) && Truthy(row[1]) && Truthy(row[2])
  }

  /** The record a row gives: trimmed texts, class number default 1, student count default 40,
      and an absent teacher or description for a falsy cell. */
  function ParseRow(row: seq<Cell>): (r: ImportedClass)
    ensures r.grade == Trim(CellString(CellAt(row, 0))) && r.className == Trim(CellString(CellAt(row, 2)))
    ensures r.classNumber != 0 && r.studentCount != 0
    ensures (CellNumber(CellAt(row, 1)).None? || CellNumber(CellAt(row, 1)) == Some(0)) ==> r.classNumber == 1
    ensures (CellNumber(CellAt(row, 3)).None? || CellNumber(CellAt(row, 3)) == Some(0)) ==> r.studentCount == 40
    ensures CellNumber(CellAt(row, 1)).Some? && CellNumber(CellAt(row, 1)).value != 0 ==>
      r.classNumber == CellNumber(CellAt(row, 1)).value
    ensures CellNumber(CellAt(row, 3)).Some? && CellNumber(CellAt(row, 3)).value != 0 ==>
      r.studentCount == CellNumber(CellAt(row, 3)).value
    ensures r.classTeacher.None? <==> !Truthy(CellAt(row, 4))
    ensures r.description.None? <==> !Truthy(CellAt(row, 5))
    ensures r.classTeacher.Some? ==> r.classTeacher.value == Trim(CellString(CellAt(row, 4)))
    ensures r.description.Some? ==> r.description.value == Trim(CellString(CellAt(row, 5)))
  {
    ImportedClass(
      Trim(CellString(CellAt(row, 0))),
      NumberOr(CellAt(row, 1), 1),
      Trim(CellString(CellAt(row, 2))),
      NumberOr(CellAt(row, 3), 40),
      OptionalText(CellAt(row, 4)),
      OptionalText(CellAt(row, 5)))
  }

  /** The records of the accepted rows among `rows`, in order. */
  function ParsedRows(rows: seq<seq<Cell>>): seq<ImportedClass> {
    if |rows| == 0 then []
    else
      var last := rows[|rows| - 1];
      ParsedRows(rows[..|rows| - 1]) + (if Accepted(last) then [ParseRow(last)] else [])
  }

  /** The rows after the title row. */
  function Body(rows: seq<seq<Cell>>): seq<seq<Cell>> {
    if |rows| == 0 then [] else rows[1..]
  }

  /** The parse loop of `handleFileUpload`: from the second row on, each accepted row is pushed. */
  method ParseSheet(rows: seq<seq<Cell>>) returns (parsed: seq<ImportedClass>)
    ensures parsed == ParsedRows(Body(rows))
  {
    parsed := [];
    if |rows| == 0 {
      return;
    }
    for i := 1 to |rows|
      invariant parsed == ParsedRows(rows[1..i])
    {
      assert rows[1..i + 1][..i - 1] == rows[1..i];
      var row := rows[i];
      if |row| >= 3 && Truthy(row[0]) && Truthy(row[1]) && Truthy(row[2]) {
        parsed := parsed + [ParseRow(row)];
      }
    }
    assert rows[1..|rows|] == rows[1..];
  }

  /** Parsing is filtering for accepted rows, then reading each. */
  lemma {:induction false} ParsedRowsIsFilterMap(rows: seq<seq<Cell>>)
    ensures ParsedRows(rows) == Map(Filter(rows, Accepted), ParseRow)
  {
    if |rows| > 0 {
      var init, last := rows[..|rows| - 1], rows[|rows| - 1];
      var kept: seq<seq<Cell>> := if Accepted(last) then [last] else [];
      assert rows == init + [last];
      ParsedRowsIsFilterMap(init);
      FilterSnoc(init, last, Accepted);
      MapConcat(Filter(init, Accepted), kept, ParseRow);
      assert Map(kept, ParseRow) == (if Accepted(last) then [ParseRow(last)] else []);
    }
  }

  /** The parsed count never exceeds the number of rows after the title row. */
  lemma ParsedCount(rows: seq<seq<Cell>>)
    ensures |ParsedRows(Body(rows))| <= |Body(rows)|
  {
    ParsedRowsIsFilterMap(Body(rows));
  }

  // ==================== grouping ====================

  datatype Imported = Imported(grades: seq<GradeInfo>, classes: seq<ClassInfo>)

  function Names(data: seq<ImportedClass>): (r: seq<string>)
    ensures |r| == |data| && forall i :: 0 <= i < |data| ==> r[i] == data[i].grade
  {
    Map(data, (d: ImportedClass) => d.grade)
  }

  /** The keys of the grade map: the grade names in first-appearance order. */
  function Keys(data: seq<ImportedClass>): seq<string> {
    Dedup(Names(data))
  }

  /** The grade map's list for `g`: the records of that grade, in order. */
  function Group(data: seq<ImportedClass>, g: string): seq<ImportedClass> {
    Filter(data, (d: ImportedClass) => d.grade == g)
  }

  /** The class a record becomes in grade `gradeName` (id `gradeId`), with fresh id `id`. */
  function ClassFrom(d: ImportedClass, gradeName: string, gradeId: string, id: string): ClassInfo {
    ClassInfo(id, d.className, gradeName, gradeId, d.classNumber, d.studentCount, d.classTeacher, d.description)
  }

  /** The classes of one group, the i-th taking fresh id `uuids(u + i)`. */
  function ClassesOf(group: seq<ImportedClass>, gradeName: string, gradeId: string,
                     uuids: nat -> string, u: nat): (r: seq<ClassInfo>)
    ensures |r| == |group|
    ensures forall i :: 0 <= i < |r| ==> r[i] == ClassFrom(group[i], gradeName, gradeId, uuids(u + i))
  {
    seq(|group|, i requires 0 <= i < |group| => ClassFrom(group[i], gradeName, gradeId, uuids(u + i)))
  }

  /** A key of the grade map with its list of records. */
  datatype Batch = Batch(name: string, members: seq<ImportedClass>)

  /** The grade map as `handleOk` builds it: every grade name, in first-appearance order, with
      the records of that grade. */
  function Batches(data: seq<ImportedClass>): seq<Batch> {
    Map(Keys(data), (g: string) => Batch(g, Group(data, g)))
  }

  /** The fresh ids the grades of `batches` consume: one per grade and one per class. */
  function Used(batches: seq<Batch>): nat {
    if |batches| == 0 then 0
    else Used(batches[..|batches| - 1]) + 1 + |batches[|batches| - 1].members|
  }

  /** The grades and classes for `batches`: each grade takes the next fresh id and its classes
      the ones after it; orders count up from `order`. */
  function Entries(batches: seq<Batch>, uuids: nat -> string, u: nat, order: int): Imported {
    if |batches| == 0 then Imported([], [])
    else
      var init := batches[..|batches| - 1];
      var b := batches[|batches| - 1];
      var prev := Entries(init, uuids, u, order);
      var id := uuids(u + Used(init));
      Imported(prev.grades + [GradeInfo(id, b.name, order + |init|, None)],
        prev.classes + ClassesOf(b.members, b.name, id, uuids, u + Used(init) + 1))
  }

  /** `handleOk`: nothing for an empty import; otherwise the grades and classes of every group. */
  method GroupImport(data: seq<ImportedClass>, uuids: nat -> string, u0: nat) returns (r: Option<Imported>)
    ensures r.None? <==> data == []
    ensures r.Some? ==> r.value == Entries(Batches(data), uuids, u0, 1)
  {
    if |data| == 0 {
      return None;
    }
    var keys, groups := GroupByGrade(data);
    assert BatchesOf(keys, groups) == Batches(data);
    var entries := EmitGrades(keys, groups, uuids, u0);
    r := Some(entries);
  }

  /** The map's entries in key order. */
  function BatchesOf(keys: seq<string>, groups: map<string, seq<ImportedClass>>): (r: seq<Batch>)
    requires forall g :: g in keys ==> g in groups
    ensures |r| == |keys| && forall k :: 0 <= k < |keys| ==> r[k] == Batch(keys[k], groups[keys[k]])
  {
    seq(|keys|, k requires 0 <= k < |keys| => Batch(keys[k], groups[keys[k]]))
  }

  /** The second loop of `handleOk`: one grade per key, in order, each followed by its classes. */
  method EmitGrades(keys: seq<string>, groups: map<string, seq<ImportedClass>>, uuids: nat -> string, u0: nat)
    returns (r: Imported)
    requires forall g :: g in keys ==> g in groups
    ensures r == Entries(BatchesOf(keys, groups), uuids, u0, 1)
  {
    ghost var batches := BatchesOf(keys, groups);
    var grades: seq<GradeInfo> := [];
    var classes: seq<ClassInfo> := [];
    var u: nat := u0;
    var gradeOrder := 1;
    ghost var done: seq<Batch> := [];
    for k := 0 to |keys|
      invariant done == batches[..k]
      invariant gradeOrder == |done| + 1 && u == u0 + Used(done)
      invariant Imported(grades, classes) == Entries(done, uuids, u0, 1)
    {
      var gradeName := keys[k];
      var gradeId := uuids(u);
      var gradeInfo := GradeInfo(gradeId, gradeName, gradeOrder, None);
      var gradeClasses := GradeClasses(groups[gradeName], gradeName, gradeId, uuids, u + 1);
      ghost var b := Batch(gradeName, groups[gradeName]);
      assert batches[k] == b;
      assert batches[..k + 1] == done + [b];
      EmitStep(grades, classes, done, b, gradeInfo, gradeClasses, uuids, u0);
      grades := grades + [gradeInfo];
      classes := classes + gradeClasses;
      u := u + 1 + |groups[gradeName]|;
      gradeOrder := gradeOrder + 1;
      done := done + [b];
    }
    assert batches[..|keys|] == batches;
    r := Imported(grades, classes);
  }

  /** The first loop of `handleOk`: the grade map, its keys in insertion order. */
  method GroupByGrade(data: seq<ImportedClass>) returns (keys: seq<string>, groups: map<string, seq<ImportedClass>>)
    ensures keys == Keys(data)
    ensures forall g :: g in groups <==> g in keys
    ensures forall g :: g in keys ==> groups[g] == Group(data, g)
  {
    keys := [];
    groups := map[];
    for i := 0 to |data|
      invariant keys == Dedup(Names(data[..i]))
      invariant forall g :: g in groups <==> g in keys
      invariant forall g :: g in keys ==> groups[g] == Group(data[..i], g)
    {
      var item := data[i];
      ghost var prev := groups;
      NamesStep(data, i);
      if item.grade !in groups {
        groups := groups[item.grade := []];
        keys := keys + [item.grade];
      }
      groups := groups[item.grade := groups[item.grade] + [item]];
      forall g | g in keys ensures groups[g] == Group(data[..i + 1], g) {
        GroupStep(data, i, g);
        if g != item.grade {
          assert groups[g] == prev[g];
        } else if g !in prev {
          NoGroupYet(data[..i], g);
        }
      }
    }
    assert data[..|data|] == data;
  }

  /** The inner loop of `handleOk`: one class per record of a group, each with the next id. */
  method GradeClasses(group: seq<ImportedClass>, gradeName: string, gradeId: string,
                      uuids: nat -> string, u: nat) returns (classes: seq<ClassInfo>)
    ensures classes == ClassesOf(group, gradeName, gradeId, uuids, u)
  {
    classes := [];
    for j := 0 to |group|
      invariant classes == ClassesOf(group[..j], gradeName, gradeId, uuids, u)
    {
      var d := group[j];
      classes := classes + [ClassInfo(uuids(u + j), d.className, gradeName, gradeId, d.classNumber,
        d.studentCount, d.classTeacher, d.description)];
    }
    assert group[..|group|] == group;
  }

  /** One step of the grouping loop, for the keys. */
  lemma NamesStep(data: seq<ImportedClass>, i: nat)
    requires i < |data|
    ensures Names(data[..i + 1]) == Names(data[..i]) + [data[i].grade]
  {
  }

  /** One step of the grouping loop, for the group of `g`. */
  lemma GroupStep(data: seq<ImportedClass>, i: nat, g: string)
    requires i < |data|
    ensures Group(data[..i + 1], g) == Group(data[..i], g) + (if data[i].grade == g then [data[i]] else [])
  {
    assert data[..i + 1] == data[..i] + [data[i]];
    FilterSnoc(data[..i], data[i], (d: ImportedClass) => d.grade == g);
  }

  /** A grade name that does not occur yet has an empty group. */
  lemma NoGroupYet(data: seq<ImportedClass>, g: string)
    requires g !in Dedup(Names(data))
    ensures Group(data, g) == []
  {
    forall j | 0 <= j < |data| ensures data[j].grade != g {
      assert Names(data)[j] == data[j].grade;
    }
    FilterNone(data, (d: ImportedClass) => d.grade == g);
  }

  /** `Entries` and `Used` for one more batch. */
  lemma {:induction false} EntriesSnoc(bs: seq<Batch>, b: Batch, uuids: nat -> string, u: nat, order: int)
    ensures Used(bs + [b]) == Used(bs) + 1 + |b.members|
    ensures var prev := Entries(bs, uuids, u, order);
      var id := uuids(u + Used(bs));
      Entries(bs + [b], uuids, u, order)
        == Imported(prev.grades + [GradeInfo(id, b.name, order + |bs|, None)],
             prev.classes + ClassesOf(b.members, b.name, id, uuids, u + Used(bs) + 1))
  {
    var all := bs + [b];
    assert all[..|all| - 1] == bs && all[|all| - 1] == b;
  }

  /** The second loop's step: emitting one more grade and its classes. */
  lemma {:induction false} EmitStep(grades: seq<GradeInfo>, classes: seq<ClassInfo>, done: seq<Batch>, b: Batch,
                 gradeInfo: GradeInfo, gradeClasses: seq<ClassInfo>, uuids: nat -> string, u0: nat)
    requires Imported(grades, classes) == Entries(done, uuids, u0, 1)
    requires gradeInfo == GradeInfo(uuids(u0 + Used(done)), b.name, |done| + 1, None)
    requires gradeClasses == ClassesOf(b.members, b.name, uuids(u0 + Used(done)), uuids, u0 + Used(done) + 1)
    ensures Imported(grades + [gradeInfo], classes + gradeClasses) == Entries(done + [b], uuids, u0, 1)
    ensures Used(done + [b]) == Used(done) + 1 + |b.members|
  {
    EntriesSnoc(done, b, uuids, u0, 1);
  }

  // ==================== properties of the grouping ====================

  /** The number of records in `batches`. */
  function Total(batches: seq<Batch>): nat {
    if |batches| == 0 then 0
    else Total(batches[..|batches| - 1]) + |batches[|batches| - 1].members|
  }

  /** One grade per batch, named after it, with consecutive orders and no description; one class
      per record; one fresh id per grade and per class. */
  lemma {:induction false} EntriesShape(bs: seq<Batch>, uuids: nat -> string, u: nat, order: int)
    ensures var e := Entries(bs, uuids, u, order);
      && |e.grades| == |bs| && |e.classes| == Total(bs) && Used(bs) == |bs| + Total(bs)
      && forall k :: 0 <= k < |bs| ==>
           e.grades[k].name == bs[k].name && e.grades[k].order == order + k && e.grades[k].description.None?
  {
    if |bs| > 0 {
      var init := bs[..|bs| - 1];
      EntriesShape(init, uuids, u, order);
      assert forall k :: 0 <= k < |init| ==> init[k] == bs[k];
    }
  }

  /** Every class names, by id and by name, one of the grades. */
  ghost predicate ClassesNameTheirGrade(e: Imported) {
    forall i :: 0 <= i < |e.classes| ==>
      exists k :: 0 <= k < |e.grades| && e.classes[i].gradeId == e.grades[k].id && e.classes[i].grade == e.grades[k].name
  }

  /** The classes of each grade name sit next to each other. */
  ghost predicate Contiguous(cs: seq<ClassInfo>) {
    forall i, j, l :: 0 <= i < j < l < |cs| && cs[i].grade == cs[l].grade ==> cs[j].grade == cs[i].grade
  }

  lemma {:induction false} EntriesClassesBelong(bs: seq<Batch>, uuids: nat -> string, u: nat, order: int)
    ensures ClassesNameTheirGrade(Entries(bs, uuids, u, order))
  {
    if |bs| > 0 {
      var init := bs[..|bs| - 1];
      var prev := Entries(init, uuids, u, order);
      var e := Entries(bs, uuids, u, order);
      EntriesClassesBelong(init, uuids, u, order);
      EntriesShape(init, uuids, u, order);
      EntriesShape(bs, uuids, u, order);
      forall i | 0 <= i < |e.classes|
        ensures exists k :: 0 <= k < |e.grades| && e.classes[i].gradeId == e.grades[k].id && e.classes[i].grade == e.grades[k].name
      {
        if i < |prev.classes| {
          var k :| 0 <= k < |prev.grades| && prev.classes[i].gradeId == prev.grades[k].id && prev.classes[i].grade == prev.grades[k].name;
          assert e.classes[i] == prev.classes[i] && e.grades[k] == prev.grades[k];
        } else {
          assert e.classes[i].gradeId == e.grades[|init|].id && e.classes[i].grade == e.grades[|init|].name;
        }
      }
    }
  }

  /** With distinct batch names, the classes of each grade sit next to each other. */
  lemma {:induction false} EntriesContiguous(bs: seq<Batch>, uuids: nat -> string, u: nat, order: int)
    requires forall k, m :: 0 <= k < m < |bs| ==> bs[k].name != bs[m].name
    ensures Contiguous(Entries(bs, uuids, u, order).classes)
  {
    if |bs| > 0 {
      var init, b := bs[..|bs| - 1], bs[|bs| - 1];
      var prev := Entries(init, uuids, u, order);
      var cs := Entries(bs, uuids, u, order).classes;
      EntriesContiguous(init, uuids, u, order);
      EntriesClassesBelong(init, uuids, u, order);
      EntriesShape(init, uuids, u, order);
      assert forall i :: 0 <= i < |prev.classes| ==> cs[i] == prev.classes[i];
      assert forall i :: |prev.classes| <= i < |cs| ==> cs[i].grade == b.name;
      forall i | 0 <= i < |prev.classes| ensures cs[i].grade != b.name {
        var k :| 0 <= k < |prev.grades| && prev.classes[i].grade == prev.grades[k].name;
        assert prev.grades[k].name == bs[k].name;
      }
    }
  }

  /** The number of times `g` occurs in `keys`. */
  function Count(keys: seq<string>, g: string): nat {
    if |keys| == 0 then 0
    else Count(keys[..|keys| - 1], g) + (if keys[|keys| - 1] == g then 1 else 0)
  }

  lemma {:induction false} CountDistinct(keys: seq<string>, g: string)
    requires Distinct(keys)
    ensures Count(keys, g) == if g in keys then 1 else 0
  {
    if |keys| > 0 {
      var init := keys[..|keys| - 1];
      assert keys == init + [keys[|keys| - 1]];
      CountDistinct(init, g);
    }
  }

  /** The number of records in the groups of `keys`. */
  function GroupTotal(keys: seq<string>, data: seq<ImportedClass>): nat {
    if |keys| == 0 then 0
    else GroupTotal(keys[..|keys| - 1], data) + |Group(data, keys[|keys| - 1])|
  }

  lemma {:induction false} GroupTotalSnoc(keys: seq<string>, data: seq<ImportedClass>, x: ImportedClass)
    ensures GroupTotal(keys, data + [x]) == GroupTotal(keys, data) + Count(keys, x.grade)
  {
    if |keys| > 0 {
      var g := keys[|keys| - 1];
      GroupTotalSnoc(keys[..|keys| - 1], data, x);
      FilterSnoc(data, x, (d: ImportedClass) => d.grade == g);
    }
  }

  /** The groups of all grade names together hold every record. */
  lemma {:induction false} GroupTotalAll(data: seq<ImportedClass>)
    ensures GroupTotal(Keys(data), data) == |data|
  {
    if |data| > 0 {
      var init, x := data[..|data| - 1], data[|data| - 1];
      assert data == init + [x];
      var names := Names(data);
      assert names[..|names| - 1] == Names(init);
      var ks := Keys(init);
      GroupTotalAll(init);
      GroupTotalSnoc(ks, init, x);
      CountDistinct(ks, x.grade);
      if x.grade !in ks {
        assert Keys(data) == ks + [x.grade];
        assert (ks + [x.grade])[..|ks|] == ks;
        NoGroupYet(init, x.grade);
        FilterSnoc(init, x, (d: ImportedClass) => d.grade == x.grade);
      }
    }
  }

  lemma {:induction false} TotalOfBatches(keys: seq<string>, data: seq<ImportedClass>)
    ensures Total(Map(keys, (g: string) => Batch(g, Group(data, g)))) == GroupTotal(keys, data)
  {
    if |keys| > 0 {
      var f := (g: string) => Batch(g, Group(data, g));
      var init := keys[..|keys| - 1];
      TotalOfBatches(init, data);
      assert Map(keys, f)[..|keys| - 1] == Map(init, f);
    }
  }

  /** `handleOk` turns every imported record into exactly one class, and creates one grade per
      distinct grade name, numbered from 1 in first-appearance order. */
  lemma {:induction false} ImportKeepsEveryRecord(data: seq<ImportedClass>, uuids: nat -> string, u: nat)
    ensures var e := Entries(Batches(data), uuids, u, 1);
      && |e.classes| == |data|
      && |e.grades| == |Keys(data)|
      && forall k :: 0 <= k < |e.grades| ==> e.grades[k].name == Keys(data)[k] && e.grades[k].order == k + 1
  {
    EntriesShape(Batches(data), uuids, u, 1);
    TotalOfBatches(Keys(data), data);
    GroupTotalAll(data);
  }

  /** Every record's grade name has its grade, and the grade names are distinct. */
  lemma {:induction false} ImportedGradesCoverNames(data: seq<ImportedClass>, uuids: nat -> string, u: nat)
    ensures var gs := Entries(Batches(data), uuids, u, 1).grades;
      && (forall i :: 0 <= i < |data| ==> exists k :: 0 <= k < |gs| && gs[k].name == data[i].grade)
      && (forall k, m :: 0 <= k < m < |gs| ==> gs[k].name != gs[m].name)
  {
    ImportKeepsEveryRecord(data, uuids, u);
    var ks := Keys(data);
    forall i | 0 <= i < |data| ensures data[i].grade in ks {
      assert Names(data)[i] == data[i].grade;
    }
  }

  /** The classes of each imported grade are contiguous, and each names its grade by id. */
  lemma {:induction false} ImportGroupsByGrade(data: seq<ImportedClass>, uuids: nat -> string, u: nat)
    ensures ClassesNameTheirGrade(Entries(Batches(data), uuids, u, 1))
    ensures Contiguous(Entries(Batches(data), uuids, u, 1).classes)
  {
    var bs := Batches(data);
    assert forall k :: 0 <= k < |bs| ==> bs[k].name == Keys(data)[k];
    EntriesClassesBelong(bs, uuids, u, 1);
    EntriesContiguous(bs, uuids, u, 1);
  }

  // ==================== the dialog ====================

  /** The dialog's `importedData` state across upload, confirm and cancel. */
  class ImportDialog {
    var importedData: seq<ImportedClass>

    constructor ()
      ensures importedData == []
    {
      importedData := [];
    }

    /** `handleFileUpload` once the sheet is read: the parsed records replace the state, except
        that an upload with no valid row reports an error and keeps the previous records. */
    method HandleFileUpload(rows: seq<seq<Cell>>) returns (parsedCount: nat)
      modifies this
      ensures parsedCount == |ParsedRows(Body(rows))|
      ensures importedData == if parsedCount == 0 then old(importedData) else ParsedRows(Body(rows))
    {
      var parsed := ParseSheet(rows);
      parsedCount := |parsed|;
      if parsedCount != 0 {
        importedData := parsed;
      }
    }

    /** `handleOk`: with nothing imported, an error and no change; otherwise the grades and
        classes passed to `onOk`, after which the state is cleared. */
    method HandleOk(uuids: nat -> string, u0: nat) returns (result: Option<Imported>)
      modifies this
      ensures old(importedData) == [] ==> result.None? && importedData == old(importedData)
      ensures old(importedData) != [] ==>
        result == Some(Entries(Batches(old(importedData)), uuids, u0, 1)) && importedData == []
    {
      result := GroupImport(importedData, uuids, u0);
      if result.Some? {
        importedData := [];
      }
    }

    /** `handleCancel`: the state is cleared. */
    method HandleCancel()
      modifies this
      ensures importedData == []
    {
      importedData := [];
    }
  }

  // ==================== filled-in rows ====================

  /** A text cell without surrounding white space. */
  predicate Tidy(s: string) {
    |s| > 0 && !IsJsSpace(s[0]) && !IsJsSpace(s[|s| - 1])
  }

  /** A tidy text cell reads, trimmed, as its text. */
  lemma TidyCell(s: string)
    requires Tidy(s)
    ensures Truthy(Str(s)) && Trim(CellString(Str(s))) == s && OptionalText(Str(s)) == Some(s)
  {
    TrimOfNonSpaceEnds(s);
  }

  /** A fully filled-in row of tidy texts and non-zero numbers is taken as written; an empty
      remark reads as none. */
  lemma FilledRow(g: string, n: int, c: string, m: int, t: string, d: string)
    requires Tidy(g) && Tidy(c) && Tidy(t) && (d == "" || Tidy(d)) && n != 0 && m != 0
    ensures var row := [Str(g), Num(n), Str(c), Num(m), Str(t), Str(d)];
      Accepted(row) && ParseRow(row) == ImportedClass(g, n, c, m, Some(t), if d == "" then None else Some(d))
  {
    var row := [Str(g), Num(n), Str(c), Num(m), Str(t), Str(d)];
    TidyCell(g);
    TidyCell(c);
    TidyCell(t);
    if d != "" {
      TidyCell(d);
    }
    assert CellAt(row, 0) == Str(g) && CellAt(row, 1) == Num(n) && CellAt(row, 2) == Str(c);
    assert CellAt(row, 3) == Num(m) && CellAt(row, 4) == Str(t) && CellAt(row, 5) == Str(d);
  }
}

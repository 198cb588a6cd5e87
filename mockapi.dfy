/** The browser-side mock of the course API: a module-level course list changed in place, and
    the CSV text it offers for download. Delays, the Tauri switch and the download are not
    modelled. */
module MockApi {
  import opened Wrappers
  import opened Seqs
  import opened Text
  import opened Types
  import DemoData
  import RustStore

  // ==================== the store ====================

  /** `findIndex(c => c.id === id)`: the first position holding the id, or -1. */
  function FindIndex(cs: seq<Course>, id: string): (r: int)
    ensures -1 <= r < |cs|
    ensures r == -1 <==> forall j :: 0 <= j < |cs| ==> cs[j].id != id
    ensures r >= 0 ==> cs[r].id == id && forall j :: 0 <= j < r ==> cs[j].id != id
  {
    if |cs| == 0 then -1
    else if cs[0].id == id then 0
    else
      var k := FindIndex(cs[1..], id);
      if k == -1 then -1 else k + 1
  }

  /** The list `updateCourse` leaves: the first course with the id replaced, or no change. */
  function Updated(cs: seq<Course>, c: Course): (r: seq<Course>)
    ensures |r| == |cs|
    ensures (forall j :: 0 <= j < |cs| ==> cs[j].id != c.id) ==> r == cs
    ensures FindIndex(cs, c.id) >= 0 ==> r == cs[FindIndex(cs, c.id) := c]
  {
    var index := FindIndex(cs, c.id);
    if index != -1 then cs[index := c] else cs
  }

  /** The list `deleteCourse` leaves: every course with another id, in order. */
  function Deleted(cs: seq<Course>, id: string): (r: seq<Course>)
    ensures forall i :: 0 <= i < |r| ==> r[i].id != id
    ensures forall c :: c in cs && c.id != id ==> c in r
  {
    Filter(cs, (c: Course) => c.id != id)
  }

  /** The number of courses with the id. */
  function Occurrences(cs: seq<Course>, id: string): nat {
    |Filter(cs, (c: Course) => c.id == id)|
  }

  /** Deleting removes exactly the courses that have the id. */
  lemma {:induction false} DeletedCount(cs: seq<Course>, id: string)
    ensures |Deleted(cs, id)| == |cs| - Occurrences(cs, id)
  {
    if |cs| > 0 {
      DeletedCount(cs[1..], id);
      FilterCons(cs, (c: Course) => c.id != id);
      FilterCons(cs, (c: Course) => c.id == id);
    }
  }

  /** A delete changes the list exactly when some course has the id. */
  lemma DeleteChangesIffPresent(cs: seq<Course>, id: string)
    ensures Deleted(cs, id) == cs <==> forall j :: 0 <= j < |cs| ==> cs[j].id != id
  {
    DeletedCount(cs, id);
    if forall j :: 0 <= j < |cs| ==> cs[j].id != id {
      FilterAll(cs, (c: Course) => c.id != id);
    } else {
      var j :| 0 <= j < |cs| && cs[j].id == id;
      assert cs[j] in Filter(cs, (c: Course) => c.id == id);
    }
  }

  /** The module-level `mockCourses` list. */
  class MockStore {
    var mockCourses: seq<Course>

    constructor ()
      ensures mockCourses == []
    {
      mockCourses := [];
    }

    /** `getCourses`: a copy; sequences are values, so later changes to the store leave it. */
    method GetCourses() returns (r: seq<Course>)
      ensures r == mockCourses
    {
      r := mockCourses;
    }

    /** `addCourse`: `push`. */
    method AddCourse(c: Course)
      modifies this
      ensures mockCourses == old(mockCourses) + [c]
    {
      mockCourses := mockCourses + [c];
    }

    /** `updateCourse`: assign at the first index with the id; silently nothing without one. */
    method UpdateCourse(c: Course)
      modifies this
      ensures mockCourses == Updated(old(mockCourses), c)
    {
      var index := FindIndex(mockCourses, c.id);
      if index != -1 {
        mockCourses := mockCourses[index := c];
      }
    }

    /** `deleteCourse`: reassign to the filtered list. */
    method DeleteCourse(id: string)
      modifies this
      ensures mockCourses == Deleted(old(mockCourses), id)
    {
      mockCourses := Filter(mockCourses, (c: Course) => c.id != id);
    }

    /** `batchAddCourses`: `push(...courses)`. */
    method BatchAddCourses(cs: seq<Course>)
      modifies this
      ensures mockCourses == old(mockCourses) + cs
    {
      mockCourses := mockCourses + cs;
    }
  }

  /** `importFromCsv` in the browser: the first ten demo courses. */
  method ImportFromCsv(samples: nat -> real, uuids: nat -> string) returns (r: seq<Course>)
    requires DemoData.Unit(samples)
    ensures |r| <= 10
    ensures forall i | 0 <= i < |r| :: DemoData.DemoCourse(r[i], i, uuids)
    ensures forall i, j | 0 <= i < j < |r| && r[i].className == r[j].className ::
      DemoData.Slot(r[i]) != DemoData.Slot(r[j])
  {
    var demo := DemoData.GenerateDemoData(samples, uuids);
    r := if |demo| <= 10 then demo else demo[..10];
  }

  // ==================== the two stores compared ====================

  /** Where the desktop store and the mock store hold courses with the same ids in the same
      order, a delete of an absent id is an error on the desktop and a silent no-op in the mock;
      a delete of a present id removes one course on the desktop and all of its copies in the mock. */
  lemma DeleteDiffers(rs: seq<RustStore.StoredCourse>, ms: seq<Course>, id: string)
    requires |rs| == |ms| && forall i :: 0 <= i < |rs| ==> rs[i].id == ms[i].id
    ensures RustStore.Deleted(rs, id).Failure? <==> Deleted(ms, id) == ms
    ensures RustStore.Deleted(rs, id).Success? ==>
      |RustStore.Deleted(rs, id).value| == |rs| - 1 && |Deleted(ms, id)| == |ms| - Occurrences(ms, id)
  {
    DeleteChangesIffPresent(ms, id);
    DeletedCount(ms, id);
  }

  /** An update of an absent id is an error on the desktop and a silent no-op in the mock. */
  lemma {:induction false} UpdateDiffers(rs: seq<RustStore.StoredCourse>, ms: seq<Course>, rc: RustStore.StoredCourse, c: Course)
    requires |rs| == |ms| && forall i :: 0 <= i < |rs| ==> rs[i].id == ms[i].id
    requires rc.id == c.id
    ensures RustStore.Updated(rs, rc).Failure? <==> FindIndex(ms, c.id) == -1
    ensures RustStore.Updated(rs, rc).Failure? ==> Updated(ms, c) == ms
  {
  }

  // ==================== CSV text ====================

  const CsvHeader: seq<string> := ["ID", "课程名称", "教师", "班级", "星期", "节次", "持续节数", "教室"]

  /** A course's CSV fields: missing names written as empty, numbers in decimal. */
  function CsvRow(c: Course): (r: seq<string>)
    ensures |r| == |CsvHeader|
    ensures r[0] == c.id && r[1] == c.name.GetOr("") && r[2] == c.teacher.GetOr("")
      && r[3] == c.className.GetOr("") && r[7] == c.room.GetOr("")
    ensures r[4] == IntToString(c.day) && r[5] == IntToString(c.period) && r[6] == IntToString(c.duration)
  {
    [c.id, c.name.GetOr(""), c.teacher.GetOr(""), c.className.GetOr(""),
     IntToString(c.day), IntToString(c.period), IntToString(c.duration), c.room.GetOr("")]
  }

  /** The day, period and duration fields read back with `Number` as the numbers written. */
  lemma CsvNumbersReadBack(c: Course)
    ensures JsNumber(CsvRow(c)[4]) == Some(c.day)
    ensures JsNumber(CsvRow(c)[5]) == Some(c.period)
    ensures JsNumber(CsvRow(c)[6]) == Some(c.duration)
  {
    JsNumberOfIntToString(c.day);
    JsNumberOfIntToString(c.period);
    JsNumberOfIntToString(c.duration);
  }

  function JoinFields(row: seq<string>): string {
    Join(row, ',')
  }

  /** The lines of the CSV text: the header, then one per course. */
  function CsvLines(courses: seq<Course>): (r: seq<string>)
    ensures |r| == |courses| + 1 && r[0] == JoinFields(CsvHeader)
    ensures forall i :: 0 <= i < |courses| ==> r[i + 1] == JoinFields(CsvRow(courses[i]))
  {
    var rows := Map(courses, (c: Course) => JoinFields(CsvRow(c)));
    var lines := [JoinFields(CsvHeader)] + rows;
    assert forall i :: 0 <= i < |courses| ==> lines[i + 1] == rows[i];
    lines
  }

  /** `generateCsvContent`: fields joined by ',', lines by '\n', with no quoting. */
  function GenerateCsvContent(courses: seq<Course>): string {
    Join(CsvLines(courses), '\n')
  }

  /** A field that does not contain a character keeps it out of the fields' join. */
  lemma {:induction false} NotInJoin(parts: seq<string>, sep: char, x: char)
    requires x != sep && forall i :: 0 <= i < |parts| ==> x !in parts[i]
    ensures x !in Join(parts, sep)
  {
    if |parts| > 1 {
      NotInJoin(parts[1..], sep, x);
    }
  }

  /** Decimal numbers hold neither separator. */
  lemma NoSeparatorInNumber(i: int, x: char)
    requires x == ',' || x == '\n'
    ensures x !in IntToString(i)
  {
    var s := IntToString(i);
    var digits := NatToString(if i < 0 then -i else i);
    assert forall k :: 0 <= k < |digits| ==> digits[k] != x;
    if i < 0 {
      assert s == "-" + digits;
    }
  }

  /** Text fields free of both separators. */
  predicate PlainText(s: string) {
    ',' !in s && '\n' !in s
  }

  predicate PlainCourse(c: Course) {
    PlainText(c.id) && PlainText(c.name.GetOr("")) && PlainText(c.teacher.GetOr(""))
    && PlainText(c.className.GetOr("")) && PlainText(c.room.GetOr(""))
  }

  lemma PlainRow(c: Course, x: char)
    requires PlainCourse(c) && (x == ',' || x == '\n')
    ensures forall k :: 0 <= k < |CsvRow(c)| ==> x !in CsvRow(c)[k]
  {
    NoSeparatorInNumber(c.day, x);
    NoSeparatorInNumber(c.period, x);
    NoSeparatorInNumber(c.duration, x);
  }

  /** No line of the CSV text holds a line break when no text field does. */
  lemma LinesUnbroken(courses: seq<Course>)
    requires forall i :: 0 <= i < |courses| ==> PlainCourse(courses[i])
    ensures forall k :: 0 <= k < |CsvLines(courses)| ==> '\n' !in CsvLines(courses)[k]
  {
    var lines := CsvLines(courses);
    forall k | 0 <= k < |lines| ensures '\n' !in lines[k] {
      if k == 0 {
        HeaderPlain('\n');
        NotInJoin(CsvHeader, ',', '\n');
      } else {
        PlainRow(courses[k - 1], '\n');
        NotInJoin(CsvRow(courses[k - 1]), ',', '\n');
      }
    }
  }

  lemma HeaderPlain(x: char)
    requires x == ',' || x == '\n'
    ensures forall k :: 0 <= k < |CsvHeader| ==> x !in CsvHeader[k]
  {
  }

  /** When no text field holds a comma or a line break, the CSV text splits back into the
      header and one line per course, and each course line into that course's eight fields. */
  lemma CsvSplitsBack(courses: seq<Course>)
    requires forall i :: 0 <= i < |courses| ==> PlainCourse(courses[i])
    ensures var lines := Split(GenerateCsvContent(courses), '\n');
      && lines == CsvLines(courses)
      && Split(lines[0], ',') == CsvHeader
      && forall i :: 0 <= i < |courses| ==> Split(lines[i + 1], ',') == CsvRow(courses[i])
  {
    var lines := CsvLines(courses);
    LinesUnbroken(courses);
    SplitJoin(lines, '\n');
    HeaderPlain(',');
    SplitJoin(CsvHeader, ',');
    forall i | 0 <= i < |courses| ensures Split(lines[i + 1], ',') == CsvRow(courses[i]) {
      PlainRow(courses[i], ',');
      SplitJoin(CsvRow(courses[i]), ',');
    }
  }

  /** With no quoting, a comma inside a course name adds a column to that course's line. */
  lemma CommaInNameAddsColumn(c: Course, a: string, b: string)
    requires PlainCourse(c.(name := None)) && PlainText(a) && PlainText(b)
    requires c.name == Some(a + [','] + b)
    ensures |Split(JoinFields(CsvRow(c)), ',')| == |CsvHeader| + 1
  {
    var row := CsvRow(c);
    var parts := [row[0], a, b] + row[2..];
    assert |parts| == 9;
    assert Join(parts, ',') == Join(row, ',') by {
      JoinSplitField(row, a, b);
    }
    PlainRow(c.(name := None), ',');
    assert forall k :: 2 <= k < 8 ==> row[k] == CsvRow(c.(name := None))[k];
    SplitJoin(parts, ',');
  }

  /** Replacing the field `a + "," + b` at position 1 by the two fields `a` and `b`. */
  lemma {:induction false} JoinSplitField(row: seq<string>, a: string, b: string)
    requires |row| >= 4 && row[1] == a + [','] + b
    ensures Join([row[0], a, b] + row[2..], ',') == Join(row, ',')
  {
    var rest := row[2..];
    var t := Join(rest, ',');
    FieldListShapes(row, a, b);
    JoinSplitPair(a, b, rest);
    JoinCons(row[0], [a, b] + rest);
    assert Join([row[0], a, b] + rest, ',') == row[0] + [','] + (row[1] + [','] + t);
    JoinCons(row[1], rest);
    JoinCons(row[0], row[1..]);
  }

  lemma FieldListShapes(row: seq<string>, a: string, b: string)
    requires |row| >= 2
    ensures [row[0]] + ([a, b] + row[2..]) == [row[0], a, b] + row[2..]
    ensures [row[1]] + row[2..] == row[1..] && [row[0]] + row[1..] == row
  {
  }

  /** Two fields joined ahead of a non-empty rest read as their own join followed by the rest. */
  lemma {:induction false} JoinSplitPair(a: string, b: string, rest: seq<string>)
    requires |rest| > 0
    ensures Join([a, b] + rest, ',') == (a + [','] + b) + [','] + Join(rest, ',')
  {
    var t := Join(rest, ',');
    var x := a + [','];
    JoinCons(b, rest);
    assert [a] + ([b] + rest) == [a, b] + rest;
    JoinCons(a, [b] + rest);
    assert Join([a, b] + rest, ',') == x + ((b + [',']) + t);
    AppendAssoc(x, b + [','], t);
    AppendAssoc(x, b, [',']);
  }

  lemma AppendAssoc(x: string, y: string, z: string)
    ensures (x + y) + z == x + (y + z)
  {
  }

  /** Joining a first field onto a non-empty rest puts one separator between them. */
  lemma {:induction false} JoinCons(x: string, rest: seq<string>)
    requires |rest| > 0
    ensures Join([x] + rest, ',') == x + [','] + Join(rest, ',')
  {
    assert ([x] + rest)[1..] == rest;
  }
}

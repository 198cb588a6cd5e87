/** The desktop back end's course store: a `Vec<Course>` behind the Tauri commands, and the CSV
    record decoding and encoding of its import and export commands. File, dialog and lock
    handling are not modelled; the outcome of writing the store to disk is a parameter. */
module RustStore {
  import opened Wrappers
  import opened Text

  /** Rust's `u8`. */
  newtype U8 = x: int | 0 <= x < 256

  /** The back end's `Course`: texts and three `u8` numbers. */
  datatype StoredCourse = StoredCourse(
    id: string, name: string, teacher: string, className: string,
    day: U8, period: U8, duration: U8, room: string)

  const NotFound: string := "课程不存在"

  /** `iter().position(|c| c.id == id)`. */
  function Position(cs: seq<StoredCourse>, id: string): (r: Option<nat>)
    ensures r.Some? ==> r.value < |cs| && cs[r.value].id == id && forall j :: 0 <= j < r.value ==> cs[j].id != id
    ensures r.None? <==> forall j :: 0 <= j < |cs| ==> cs[j].id != id
  {
    if |cs| == 0 then None
    else if cs[0].id == id then Some(0)
    else match Position(cs[1..], id)
      case None => None
      case Some(k) => Some(k + 1)
  }

  /** The first position holding the id is the position found. */
  lemma {:induction false} PositionIs(cs: seq<StoredCourse>, id: string, i: nat)
    requires i < |cs| && cs[i].id == id && forall j :: 0 <= j < i ==> cs[j].id != id
    ensures Position(cs, id) == Some(i)
  {
    var r := Position(cs, id);
    assert r.Some? by { assert cs[i].id == id; }
  }

  /** The list `update_course` leaves: the first course with that id replaced, or the error. */
  function Updated(cs: seq<StoredCourse>, c: StoredCourse): (r: Result<seq<StoredCourse>, string>)
    ensures r.Failure? <==> forall j :: 0 <= j < |cs| ==> cs[j].id != c.id
    ensures r.Failure? ==> r.error == NotFound
    ensures r.Success? ==>
      |r.value| == |cs|
      && exists i :: 0 <= i < |cs| && cs[i].id == c.id && (forall j :: 0 <= j < i ==> cs[j].id != c.id)
           && r.value[i] == c && forall j :: 0 <= j < |cs| && j != i ==> r.value[j] == cs[j]
  {
    match Position(cs, c.id)
    case None => Failure(NotFound)
    case Some(i) => Success(cs[i := c])
  }

  /** The list `delete_course` leaves: the first course with that id removed, or the error. */
  function Deleted(cs: seq<StoredCourse>, id: string): (r: Result<seq<StoredCourse>, string>)
    ensures r.Failure? <==> forall j :: 0 <= j < |cs| ==> cs[j].id != id
    ensures r.Failure? ==> r.error == NotFound
    ensures r.Success? ==>
      |r.value| == |cs| - 1
      && exists i :: 0 <= i < |cs| && cs[i].id == id && (forall j :: 0 <= j < i ==> cs[j].id != id)
           && r.value == cs[..i] + cs[i + 1..]
  {
    match Position(cs, id)
    case None => Failure(NotFound)
    case Some(i) => Success(cs[..i] + cs[i + 1..])
  }

  /** The shared course list behind the commands. */
  class CourseStore {
    var courses: seq<StoredCourse>

    /** `AppState::new` with the courses read from disk (an empty list when there are none). */
    constructor (loaded: seq<StoredCourse>)
      ensures courses == loaded
    {
      courses := loaded;
    }

    /** `get_courses`: a copy of the list. */
    method GetCourses() returns (r: seq<StoredCourse>)
      ensures r == courses
    {
      r := courses;
    }

    /** `add_course`: append, then save; `saved` is the outcome of writing the file. */
    method AddCourse(c: StoredCourse, saved: Result<(), string>) returns (r: Result<(), string>)
      modifies this
      ensures courses == old(courses) + [c] && r == saved
    {
      courses := courses + [c];
      r := saved;
    }

    /** `update_course`: replace the first course with the same id and save, or report that
        there is none and change nothing. */
    method UpdateCourse(c: StoredCourse, saved: Result<(), string>) returns (r: Result<(), string>)
      modifies this
      ensures match Updated(old(courses), c)
        case Failure(e) => courses == old(courses) && r == Failure(e)
        case Success(cs) => courses == cs && r == saved
    {
      var index := Position(courses, c.id);
      if index.Some? {
        courses := courses[index.value := c];
        r := saved;
      } else {
        r := Failure(NotFound);
      }
    }

    /** `delete_course`: remove the first course with the id and save, or report that there is
        none and change nothing. */
    method DeleteCourse(id: string, saved: Result<(), string>) returns (r: Result<(), string>)
      modifies this
      ensures match Deleted(old(courses), id)
        case Failure(e) => courses == old(courses) && r == Failure(e)
        case Success(cs) => courses == cs && r == saved
    {
      var index := Position(courses, id);
      if index.Some? {
        courses := courses[..index.value] + courses[index.value + 1..];
        r := saved;
      } else {
        r := Failure(NotFound);
      }
    }

    /** `batch_add_courses`: extend with all the given courses, in order, then save. */
    method BatchAddCourses(cs: seq<StoredCourse>, saved: Result<(), string>) returns (r: Result<(), string>)
      modifies this
      ensures courses == old(courses) + cs && r == saved
    {
      courses := courses + cs;
      r := saved;
    }
  }

  /** Updating twice with the same course is updating once. */
  lemma UpdateIdempotent(cs: seq<StoredCourse>, c: StoredCourse)
    ensures Updated(cs, c).Success? ==> Updated(Updated(cs, c).value, c) == Updated(cs, c)
  {
    match Position(cs, c.id)
    case None =>
    case Some(i) =>
      var us := cs[i := c];
      assert forall j :: 0 <= j < i ==> us[j] == cs[j];
      PositionIs(us, c.id, i);
      assert us[i := c] == us;
  }

  /** A course added under a new id is the one the next delete of that id removes. */
  lemma DeleteUndoesAdd(cs: seq<StoredCourse>, c: StoredCourse)
    requires forall j :: 0 <= j < |cs| ==> cs[j].id != c.id
    ensures Deleted(cs + [c], c.id) == Success(cs)
  {
    var s := cs + [c];
    assert forall j :: 0 <= j < |cs| ==> s[j] == cs[j];
    PositionIs(s, c.id, |cs|);
    assert s[..|cs|] + s[|cs| + 1..] == cs;
  }

  /** Delete removes one course per call: a second copy of an id survives the first delete. */
  lemma DeleteRemovesOnlyFirst(cs: seq<StoredCourse>, id: string, i: nat, j: nat)
    requires i < j < |cs| && cs[i].id == id && cs[j].id == id
    ensures Deleted(cs, id).Success? && Deleted(Deleted(cs, id).value, id).Success?
  {
    var k := Position(cs, id).value;
    var rest := cs[..k] + cs[k + 1..];
    assert rest[j - 1] == cs[j];
  }

  // ==================== CSV records ====================

  /** The export header. */
  const Header: seq<string> := ["课程ID", "课程名称", "教师", "班级", "星期", "第几节", "持续节数", "教室"]

  /** `s.parse::<u8>()`: an optional `+`, then one or more ASCII digits of value at most 255. */
  function ParseU8(s: string): (r: Option<U8>)
    ensures r.Some? ==> |s| > 0
    ensures AllDigits(s) && |s| > 0 && DigitsValue(s) < 256 ==> r == Some(DigitsValue(s) as U8)
  {
    var digits := if |s| > 0 && s[0] == '+' then s[1..] else s;
    if |digits| > 0 && AllDigits(digits) && DigitsValue(digits) < 256 then Some(DigitsValue(digits) as U8)
    else None
  }

  /** A record of at least eight fields becomes a course; an unparsable number reads as 1. */
  function DecodeRecord(record: seq<string>): (r: Option<StoredCourse>)
    ensures r.Some? <==> |record| >= 8
    ensures r.Some? ==>
      r.value.id == record[0] && r.value.name == record[1] && r.value.teacher == record[2]
      && r.value.className == record[3] && r.value.room == record[7]
      && r.value.day == ParseU8(record[4]).GetOr(1)
      && r.value.period == ParseU8(record[5]).GetOr(1)
      && r.value.duration == ParseU8(record[6]).GetOr(1)
  {
    if |record| < 8 then None
    else
      Some(StoredCourse(record[0], record[1], record[2], record[3],
        ParseU8(record[4]).GetOr(1), ParseU8(record[5]).GetOr(1), ParseU8(record[6]).GetOr(1), record[7]))
  }

  /** The courses of all complete records, in order. */
  function Decoded(records: seq<seq<string>>): seq<StoredCourse> {
    if |records| == 0 then []
    else
      var init := records[..|records| - 1];
      Decoded(init) + match DecodeRecord(records[|records| - 1]) { case None => [] case Some(c) => [c] }
  }

  /** The message `import_from_csv` returns when the reader rejects a record. */
  const ParseRecordError: string := "Failed to parse CSV record: "

  /** The reader's complaint about a record whose length differs from the header's. */
  function UnequalLengths(found: nat, expected: nat): string {
    "CSV error: found record with " + NatToString(found) + " fields, but the previous record has "
      + NatToString(expected) + " fields"
  }

  /** The first data record whose field count differs from the header's. The reader is not
      flexible: it turns every such record into an error. */
  function FirstUnequal(header: seq<string>, records: seq<seq<string>>): (r: Option<nat>)
    ensures r.Some? ==>
      r.value < |records| && |records[r.value]| != |header|
      && forall j :: 0 <= j < r.value ==> |records[j]| == |header|
    ensures r.None? <==> forall j :: 0 <= j < |records| ==> |records[j]| == |header|
  {
    if |records| == 0 then None
    else if |records[0]| != |header| then Some(0)
    else match FirstUnequal(header, records[1..])
      case None => None
      case Some(k) => Some(k + 1)
  }

  lemma {:induction false} FirstUnequalIs(header: seq<string>, records: seq<seq<string>>, i: nat)
    requires i < |records| && |records[i]| != |header|
    requires forall j :: 0 <= j < i ==> |records[j]| == |header|
    ensures FirstUnequal(header, records) == Some(i)
  {
    var r := FirstUnequal(header, records);
    assert r.Some? by { assert |records[i]| != |header|; }
  }

  /** What `import_from_csv` returns for a file read as `header` then `records`: the first record
      of the wrong length aborts with its error, otherwise every complete record is a course. */
  function Imported(header: seq<string>, records: seq<seq<string>>): (r: Result<seq<StoredCourse>, string>)
    ensures r.Success? <==> forall j :: 0 <= j < |records| ==> |records[j]| == |header|
    ensures r.Success? ==> r.value == Decoded(records)
    ensures r.Failure? ==>
      exists i :: 0 <= i < |records| && |records[i]| != |header|
        && (forall j :: 0 <= j < i ==> |records[j]| == |header|)
        && r.error == ParseRecordError + UnequalLengths(|records[i]|, |header|)
  {
    match FirstUnequal(header, records)
    case None => Success(Decoded(records))
    case Some(i) => Failure(ParseRecordError + UnequalLengths(|records[i]|, |header|))
  }

  /** The record loop of `import_from_csv`: the `?` on each record returns the reader's error,
      a record of fewer than eight fields is skipped, every other one is pushed. */
  method ImportRecords(header: seq<string>, records: seq<seq<string>>) returns (r: Result<seq<StoredCourse>, string>)
    ensures r == Imported(header, records)
  {
    var courses := [];
    for i := 0 to |records|
      invariant courses == Decoded(records[..i])
      invariant forall j :: 0 <= j < i ==> |records[j]| == |header|
    {
      assert records[..i + 1][..i] == records[..i];
      var record := records[i];
      if |record| != |header| {
        FirstUnequalIs(header, records, i);
        return Failure(ParseRecordError + UnequalLengths(|record|, |header|));
      }
      if |record| < 8 {
        continue;
      }
      var course := StoredCourse(record[0], record[1], record[2], record[3],
        ParseU8(record[4]).GetOr(1), ParseU8(record[5]).GetOr(1), ParseU8(record[6]).GetOr(1), record[7]);
      courses := courses + [course];
    }
    assert records[..|records|] == records;
    return Success(courses);
  }

  /** When every record has at least eight fields none is skipped. */
  lemma {:induction false} DecodedKeepsComplete(records: seq<seq<string>>)
    requires forall j :: 0 <= j < |records| ==> |records[j]| >= 8
    ensures |Decoded(records)| == |records|
  {
    if |records| > 0 {
      DecodedKeepsComplete(records[..|records| - 1]);
    }
  }

  /** Under a header of eight or more fields the skip of short records never happens: a short
      record is already an error of the reader, so a successful import has one course per record. */
  lemma ShortRecordsFail(header: seq<string>, records: seq<seq<string>>)
    requires |header| >= 8
    ensures Imported(header, records).Success? ==> |Imported(header, records).value| == |records|
    ensures (exists j :: 0 <= j < |records| && |records[j]| < 8) ==> Imported(header, records).Failure?
  {
    if Imported(header, records).Success? {
      DecodedKeepsComplete(records);
    }
  }

  /** `n.to_string()` for a `u8`. */
  function U8ToString(n: U8): string {
    NatToString(n as nat)
  }

  /** The export record of a course, in header order. */
  function EncodeRecord(c: StoredCourse): (r: seq<string>)
    ensures |r| == |Header|
  {
    [c.id, c.name, c.teacher, c.className, U8ToString(c.day), U8ToString(c.period), U8ToString(c.duration), c.room]
  }

  /** The records `export_to_csv` writes: the header, then one record per course. */
  method ExportRecords(courses: seq<StoredCourse>) returns (records: seq<seq<string>>)
    ensures |records| == |courses| + 1 && records[0] == Header
    ensures forall i :: 0 <= i < |courses| ==> records[i + 1] == EncodeRecord(courses[i])
  {
    records := [Header];
    for i := 0 to |courses|
      invariant |records| == i + 1 && records[0] == Header
      invariant forall k :: 0 <= k < i ==> records[k + 1] == EncodeRecord(courses[k])
    {
      records := records + [EncodeRecord(courses[i])];
    }
  }

  /** Parsing the decimal form of a `u8` gives it back. */
  lemma ParseU8OfToString(n: U8)
    ensures ParseU8(U8ToString(n)) == Some(n)
  {
    DigitsValueOfNatToString(n as nat);
  }

  /** Every exported course is imported back unchanged. */
  lemma DecodeEncode(c: StoredCourse)
    ensures DecodeRecord(EncodeRecord(c)) == Some(c)
  {
    ParseU8OfToString(c.day);
    ParseU8OfToString(c.period);
    ParseU8OfToString(c.duration);
  }

  /** The data records of an export decode back to the whole list. */
  lemma {:induction false} DecodedOfExport(courses: seq<StoredCourse>, records: seq<seq<string>>)
    requires |records| == |courses|
    requires forall i :: 0 <= i < |courses| ==> records[i] == EncodeRecord(courses[i])
    ensures Decoded(records) == courses
  {
    if |courses| > 0 {
      var n := |courses| - 1;
      assert courses == courses[..n] + [courses[n]];
      var init := records[..n];
      DecodedOfExport(courses[..n], init);
      DecodeEncode(courses[n]);
      assert DecodeRecord(records[n]) == Some(courses[n]);
      assert Decoded(records) == Decoded(init) + [courses[n]];
    }
  }

  /** Importing a file the export wrote gives back the whole list. */
  lemma ImportOfExport(courses: seq<StoredCourse>, records: seq<seq<string>>)
    requires |records| == |courses| + 1 && records[0] == Header
    requires forall i :: 0 <= i < |courses| ==> records[i + 1] == EncodeRecord(courses[i])
    ensures Imported(records[0], records[1..]) == Success(courses)
  {
    DecodedOfExport(courses, records[1..]);
  }
}

/** The browser side of the project service: projects kept in local storage as JSON, upserted
    and deleted by id, validated on import, and given placeholder courses by the simplified
    auto-scheduler. Storage is a field holding what `localStorage` holds, already parsed. */
module ProjectService {
  import opened Wrappers
  import opened Seqs
  import opened Text
  import opened Types

  // ==================== stored projects ====================

  /** A project as it comes back from `JSON.parse`: `grades` is `None` when the stored object
      has no (or a falsy) `grades` field. */
  datatype StoredProject = StoredProject(
    id: string,
    name: string,
    currentStep: string,
    grades: Option<seq<GradeInfo>>,
    classes: seq<ClassInfo>,
    teachers: seq<Teacher>,
    subjects: seq<Subject>,
    rooms: seq<Room>,
    timetableFormat: Option<TimetableFormat>,
    courseRequirements: seq<CourseRequirement>,
    courses: seq<Course>)

  /** What `localStorage.getItem('timetable_projects')` yields: nothing (null or the empty
      string), text that does not parse as an array of project objects, or parsed projects. */
  datatype Storage = Nothing | Unparsable | Parsed(projects: seq<StoredProject>)

  /** `{...p, grades: p.grades || []}`. */
  function Normalized(p: StoredProject): (r: ProjectState)
    ensures r.grades == p.grades.GetOr([])
    ensures r.id == p.id && r.name == p.name && r.currentStep == p.currentStep
  {
    ProjectState(p.id, p.name, p.currentStep, p.grades.GetOr([]), p.classes, p.teachers,
      p.subjects, p.rooms, p.timetableFormat, p.courseRequirements, p.courses)
  }

  /** `JSON.parse(JSON.stringify(p))`: every field survives, `grades` included. */
  function Stored(p: ProjectState): StoredProject {
    StoredProject(p.id, p.name, p.currentStep, Some(p.grades), p.classes, p.teachers,
      p.subjects, p.rooms, p.timetableFormat, p.courseRequirements, p.courses)
  }

  /** Writing a project and reading it back gives the same project. */
  lemma NormalizedStored(p: ProjectState)
    ensures Normalized(Stored(p)) == p
  {
  }

  /** `getProjects` outside Tauri: the stored projects with `grades` defaulted, none when the
      stored text does not parse, and the module-level list when storage holds nothing. */
  function Loaded(storage: Storage, mock: seq<ProjectState>): (r: seq<ProjectState>)
    ensures storage.Nothing? ==> r == mock
    ensures storage.Unparsable? ==> r == []
    ensures storage.Parsed? ==>
      (|r| == |storage.projects| && forall i :: 0 <= i < |r| ==> r[i] == Normalized(storage.projects[i]))
  {
    match storage
    case Nothing => mock
    case Unparsable => []
    case Parsed(ps) => Map(ps, Normalized)
  }

  /** Reading back what `saveProject` and `deleteProject` write gives the list they wrote. */
  lemma LoadedOfWritten(ps: seq<ProjectState>, mock: seq<ProjectState>)
    ensures Loaded(Parsed(Map(ps, Stored)), mock) == ps
  {
    var r := Loaded(Parsed(Map(ps, Stored)), mock);
    assert |r| == |ps|;
    forall i | 0 <= i < |ps| ensures r[i] == ps[i] {
      NormalizedStored(ps[i]);
    }
  }

  // ==================== upsert and delete ====================

  /** `findIndex(p => p.id === id)`. */
  function IndexOf(ps: seq<ProjectState>, id: string): (r: int)
    ensures -1 <= r < |ps|
    ensures r == -1 <==> forall j :: 0 <= j < |ps| ==> ps[j].id != id
    ensures r >= 0 ==> ps[r].id == id && forall j :: 0 <= j < r ==> ps[j].id != id
  {
    if |ps| == 0 then -1
    else if ps[0].id == id then 0
    else
      var k := IndexOf(ps[1..], id);
      if k == -1 then -1 else k + 1
  }

  /** The list `saveProject` writes: the first project with the id replaced, or `p` appended. */
  function Upserted(ps: seq<ProjectState>, p: ProjectState): (r: seq<ProjectState>)
    ensures |ps| <= |r| <= |ps| + 1
    ensures (forall j :: 0 <= j < |ps| ==> ps[j].id != p.id) ==> r == ps + [p]
    ensures IndexOf(ps, p.id) >= 0 ==> r == ps[IndexOf(ps, p.id) := p]
  {
    var index := IndexOf(ps, p.id);
    if index >= 0 then ps[index := p] else ps + [p]
  }

  /** The list `deleteProject` writes. */
  function Removed(ps: seq<ProjectState>, id: string): (r: seq<ProjectState>)
    ensures forall i :: 0 <= i < |r| ==> r[i].id != id
    ensures forall q :: q in ps && q.id != id ==> q in r
    ensures forall q :: q in r ==> q in ps
  {
    Filter(ps, (q: ProjectState) => q.id != id)
  }

  function Ids(ps: seq<ProjectState>): seq<string> {
    Map(ps, (q: ProjectState) => q.id)
  }

  /** After saving, the project is present and the ids are the old ones plus its own. */
  lemma UpsertedIds(ps: seq<ProjectState>, p: ProjectState)
    ensures p in Upserted(ps, p)
    ensures forall x :: x in Ids(Upserted(ps, p)) <==> x in Ids(ps) || x == p.id
  {
    var r := Upserted(ps, p);
    var index := IndexOf(ps, p.id);
    if index >= 0 {
      assert r[index] == p;
      forall x ensures x in Ids(r) <==> x in Ids(ps) || x == p.id {
        if x in Ids(ps) {
          var j :| 0 <= j < |ps| && Ids(ps)[j] == x;
          assert Ids(r)[j] == x;
        }
        if x in Ids(r) {
          var j :| 0 <= j < |r| && Ids(r)[j] == x;
          assert j != index ==> Ids(ps)[j] == x;
        }
      }
    } else {
      assert r[|ps|] == p;
      forall x ensures x in Ids(r) <==> x in Ids(ps) || x == p.id {
        if x in Ids(ps) {
          var j :| 0 <= j < |ps| && Ids(ps)[j] == x;
          assert Ids(r)[j] == x;
        }
        if x in Ids(r) {
          var j :| 0 <= j < |r| && Ids(r)[j] == x;
          assert j < |ps| ==> Ids(ps)[j] == x;
        }
        if x == p.id {
          assert Ids(r)[|ps|] == x;
        }
      }
    }
  }

  /** Saving keeps the stored ids distinct when they were distinct before. */
  lemma UpsertedKeepsIdsDistinct(ps: seq<ProjectState>, p: ProjectState)
    requires Distinct(Ids(ps))
    ensures Distinct(Ids(Upserted(ps, p)))
  {
    var r := Upserted(ps, p);
    var index := IndexOf(ps, p.id);
    forall i, j | 0 <= i < j < |r| ensures Ids(r)[i] != Ids(r)[j] {
      if index < 0 && j == |ps| {
        assert Ids(ps)[i] == ps[i].id;
      } else if i == index {
        assert Ids(ps)[j] == ps[j].id && Ids(ps)[i] == ps[index].id;
      } else if j == index {
        assert Ids(ps)[i] == ps[i].id && Ids(ps)[j] == ps[index].id;
      } else {
        assert Ids(ps)[i] == r[i].id && Ids(ps)[j] == r[j].id;
      }
    }
  }

  /** Saving the same project twice leaves the list of the first save. */
  lemma UpsertedIdempotent(ps: seq<ProjectState>, p: ProjectState)
    ensures Upserted(Upserted(ps, p), p) == Upserted(ps, p)
  {
    var r := Upserted(ps, p);
    var index := IndexOf(ps, p.id);
    if index >= 0 {
      assert IndexOf(r, p.id) == index by {
        assert r[index].id == p.id;
        assert forall j :: 0 <= j < index ==> r[j].id != p.id;
      }
    } else {
      assert IndexOf(r, p.id) == |ps| by {
        assert r[|ps|].id == p.id;
        assert forall j :: 0 <= j < |ps| ==> r[j].id != p.id;
      }
    }
  }

  /** Deleting an id that no project has leaves the list as it was. */
  lemma RemovedAbsent(ps: seq<ProjectState>, id: string)
    requires forall j :: 0 <= j < |ps| ==> ps[j].id != id
    ensures Removed(ps, id) == ps
  {
    FilterAll(ps, (q: ProjectState) => q.id != id);
  }

  /** Deleting a project's id after saving it is deleting that id from the list before. */
  lemma RemovedAfterUpsert(ps: seq<ProjectState>, p: ProjectState)
    ensures Removed(Upserted(ps, p), p.id) == Removed(ps, p.id)
  {
    var keep := (q: ProjectState) => q.id != p.id;
    var index := IndexOf(ps, p.id);
    if index >= 0 {
      FilterUpdateRejected(ps, index, p, keep);
    } else {
      FilterSnoc(ps, p, keep);
    }
  }

  /** `mockProjects` and what local storage holds. */
  class ProjectStore {
    var storage: Storage
    var mockProjects: seq<ProjectState>

    constructor (initial: Storage)
      ensures storage == initial && mockProjects == []
    {
      storage := initial;
      mockProjects := [];
    }

    /** `getProjects`. */
    method GetProjects() returns (r: seq<ProjectState>)
      ensures r == Loaded(storage, mockProjects)
    {
      match storage
      case Nothing => r := mockProjects;
      case Unparsable => r := [];
      case Parsed(ps) => r := Map(ps, Normalized);
    }

    /** `saveProject`: load, replace at the first index with the id or push, write back. */
    method SaveProject(p: ProjectState)
      modifies this
      ensures mockProjects == Upserted(old(Loaded(storage, mockProjects)), p)
      ensures storage == Parsed(Map(mockProjects, Stored))
    {
      var projects := GetProjects();
      var existingIndex := IndexOf(projects, p.id);
      if existingIndex >= 0 {
        projects := projects[existingIndex := p];
      } else {
        projects := projects + [p];
      }
      storage := Parsed(Map(projects, Stored));
      mockProjects := projects;
    }

    /** `deleteProject`: load, filter, write back. */
    method DeleteProject(id: string)
      modifies this
      ensures mockProjects == Removed(old(Loaded(storage, mockProjects)), id)
      ensures storage == Parsed(Map(mockProjects, Stored))
    {
      var projects := GetProjects();
      var filtered := Filter(projects, (q: ProjectState) => q.id != id);
      storage := Parsed(Map(filtered, Stored));
      mockProjects := filtered;
    }
  }

  /** After a save, loading gives the saved list: it both sits in the module-level list and
      reads back unchanged from storage. */
  lemma LoadAfterSave(ps: seq<ProjectState>, p: ProjectState)
    ensures Loaded(Parsed(Map(Upserted(ps, p), Stored)), Upserted(ps, p)) == Upserted(ps, p)
  {
    LoadedOfWritten(Upserted(ps, p), Upserted(ps, p));
  }

  // ==================== import ====================

  /** What the file reader delivers: a read error, or text that parsed to a project object
      (`Some`) or did not (`None`). */
  datatype FileRead = ReadFailed | Text(parsed: Option<StoredProject>)

  const ReadError := "读取文件失败"
  const ParseError := "解析项目文件失败"

  /** `importProject`. The validation error is thrown inside the `try`, so it reaches the
      caller as the parse error. */
  function ImportProject(f: FileRead): (r: Result<ProjectState, string>)
    ensures f.ReadFailed? ==> r == Failure(ReadError)
    ensures f.Text? ==> (r.Success? <==>
      f.parsed.Some? && f.parsed.value.id != "" && f.parsed.value.name != ""
      && f.parsed.value.currentStep != "")
    ensures f.Text? && r.Failure? ==> r.error == ParseError
    ensures r.Success? ==> r.value == Normalized(f.parsed.value) && r.value.grades == f.parsed.value.grades.GetOr([])
  {
    match f
    case ReadFailed => Failure(ReadError)
    case Text(None) => Failure(ParseError)
    case Text(Some(p)) =>
      if p.id == "" || p.name == "" || p.currentStep == "" then Failure(ParseError)
      else Success(Normalized(p))
  }

  /** A project file written by `exportProject` imports back as the same project exactly when
      its id, name and step are non-empty, whatever the step string. */
  lemma ImportOfExport(p: ProjectState)
    ensures ImportProject(Text(Some(Stored(p)))).Success? <==> p.id != "" && p.name != "" && p.currentStep != ""
    ensures ImportProject(Text(Some(Stored(p)))).Success? ==> ImportProject(Text(Some(Stored(p)))).value == p
  {
    NormalizedStored(p);
  }

  // ==================== the placeholder scheduler ====================

  /** `course_${index}`. */
  function CourseId(i: nat): string {
    "course_" + NatToString(i)
  }

  /** Different requirements get different course ids. */
  lemma CourseIdInjective(i: nat, j: nat)
    requires CourseId(i) == CourseId(j)
    ensures i == j
  {
    assert CourseId(i)[7..] == NatToString(i);
    assert CourseId(j)[7..] == NatToString(j);
    DigitsValueOfNatToString(i);
    DigitsValueOfNatToString(j);
  }

  /** The course placed for requirement `i`. */
  function Placed(p: ProjectState, i: nat, req: CourseRequirement): Course {
    Course(CourseId(i), req.subjectId, req.teacherId, req.classId,
      if |p.rooms| > 0 then p.rooms[0].id else "",
      i % 5 + 1, i % 8 + 1, 1, None, None, None, None, None)
  }

  /** `autoSchedule`: one course per requirement, days cycling through 1..5 and periods
      through 1..8, all in the first room; every other field of the project is kept. */
  function AutoSchedule(p: ProjectState): (r: ProjectState)
    ensures r.(courses := p.courses) == p
    ensures |r.courses| == |p.courseRequirements|
    ensures forall i :: 0 <= i < |r.courses| ==>
      var c := r.courses[i];
      var req := p.courseRequirements[i];
      && c.id == CourseId(i)
      && c.subjectId == req.subjectId && c.teacherId == req.teacherId && c.classId == req.classId
      && c.roomId == (if |p.rooms| > 0 then p.rooms[0].id else "")
      && 1 <= c.day <= 5 && c.day == i % 5 + 1
      && 1 <= c.period <= 8 && c.period == i % 8 + 1
      && c.duration == 1
  {
    var reqs := p.courseRequirements;
    p.(courses := seq(|reqs|, (i: int) requires 0 <= i < |reqs| => Placed(p, i, reqs[i])))
  }

  lemma ModSplit5(z: int, r: int)
    ensures (5 * z + r) % 5 == r % 5
  {
  }

  lemma ModSplit8(z: int, r: int)
    ensures (8 * z + r) % 8 == r % 8
  {
  }

  /** Reducing modulo 40 keeps the remainders modulo 5 and 8. */
  lemma Residues(i: nat)
    ensures i % 40 % 5 == i % 5 && i % 40 % 8 == i % 8
  {
    var q, r := i / 40, i % 40;
    assert i == 5 * (8 * q) + r && i == 8 * (5 * q) + r;
    ModSplit5(8 * q, r);
    ModSplit8(5 * q, r);
  }

  /** Below 40, the remainders modulo 5 and 8 determine the number. */
  lemma ResiduesDetermine(x: nat, y: nat)
    requires x < 40 && y < 40 && x % 5 == y % 5 && x % 8 == y % 8
    ensures x == y
  {
    var a, c := x / 8, y / 8;
    assert x == 8 * a + x % 8 && y == 8 * c + x % 8;
    assert 0 <= a < 5 && 0 <= c < 5;
    // 8 * a leaves remainder 3 * a modulo 5, and 0, 3, 1, 4, 2 differ for a = 0..4
    if a == 0 { assert x == x % 8; }
    else if a == 1 { assert x == 8 + x % 8; }
    else if a == 2 { assert x == 16 + x % 8; }
    else if a == 3 { assert x == 24 + x % 8; }
    else { assert x == 32 + x % 8; }
  }

  /** Days and periods repeat together every 40 requirements. */
  lemma SlotsRepeatEvery40(i: nat, j: nat)
    ensures (i % 5 == j % 5 && i % 8 == j % 8) <==> i % 40 == j % 40
  {
    Residues(i);
    Residues(j);
    if i % 5 == j % 5 && i % 8 == j % 8 {
      ResiduesDetermine(i % 40, j % 40);
    }
  }

  /** Two placed courses clash in the conflict check exactly when their requirement indices
      differ by a multiple of 40; fewer than 41 requirements never clash. */
  lemma AutoScheduleClashes(p: ProjectState, i: nat, j: nat)
    requires i < |p.courseRequirements| && j < |p.courseRequirements|
    ensures Clashes(AutoSchedule(p).courses[i], AutoSchedule(p).courses[j]) <==> i != j && i % 40 == j % 40
  {
    SlotsRepeatEvery40(i, j);
    if AutoSchedule(p).courses[i].id == AutoSchedule(p).courses[j].id {
      CourseIdInjective(i, j);
    }
  }
}

/** The project timetable screen: the current view (type, chosen entity and title), the target
    options for the view type, and the export configuration built from the view. */
module TimetableView {
  import opened Wrappers
  import opened Seqs
  import opened Types

  /** `getViewTypeTitle`. */
  function ViewTypeTitle(t: TimetableViewType): string {
    match t
    case All => "全校课程表"
    case Overview => "课程表总览"
    case ByClass => "班级课程表"
    case ByTeacher => "教师课程表"
    case ByRoom => "教室课程表"
    case BySubject => "科目课程表"
  }

  /** One entry of the target selector: `{value: id, label: name}`. */
  datatype TargetOption = TargetOption(value: string, caption: string)

  /** `getTargetOptions`: the classes, teachers, rooms or subjects of the project, in order;
      nothing for the other view types. */
  function TargetOptions(p: ProjectState, t: TimetableViewType): (r: seq<TargetOption>)
    ensures t == ByClass ==> (|r| == |p.classes| &&
      forall i :: 0 <= i < |r| ==> r[i] == TargetOption(p.classes[i].id, p.classes[i].name))
    ensures t == ByTeacher ==> (|r| == |p.teachers| &&
      forall i :: 0 <= i < |r| ==> r[i] == TargetOption(p.teachers[i].id, p.teachers[i].name))
    ensures t == ByRoom ==> (|r| == |p.rooms| &&
      forall i :: 0 <= i < |r| ==> r[i] == TargetOption(p.rooms[i].id, p.rooms[i].name))
    ensures t == BySubject ==> (|r| == |p.subjects| &&
      forall i :: 0 <= i < |r| ==> r[i] == TargetOption(p.subjects[i].id, p.subjects[i].name))
    ensures t == All || t == Overview ==> r == []
  {
    match t
    case ByClass => Map(p.classes, (c: ClassInfo) => TargetOption(c.id, c.name))
    case ByTeacher => Map(p.teachers, (x: Teacher) => TargetOption(x.id, x.name))
    case ByRoom => Map(p.rooms, (x: Room) => TargetOption(x.id, x.name))
    case BySubject => Map(p.subjects, (x: Subject) => TargetOption(x.id, x.name))
    case _ => []
  }

  /** `getTargetById(id)?.name`: the name of the first entity with the id, if any. */
  function TargetName(options: seq<TargetOption>, id: string): (r: Option<string>)
    ensures r.None? <==> forall i :: 0 <= i < |options| ==> options[i].value != id
    ensures r.Some? ==> exists i :: (0 <= i < |options| && options[i].value == id && options[i].caption == r.value
      && forall j :: 0 <= j < i ==> options[j].value != id)
  {
    if |options| == 0 then None
    else if options[0].value == id then Some(options[0].caption)
    else
      var r := TargetName(options[1..], id);
      assert r.Some? ==> exists i :: (1 <= i < |options| && options[i].value == id && options[i].caption == r.value
        && forall j :: 0 <= j < i ==> options[j].value != id) by {
        if r.Some? {
          var k :| 0 <= k < |options[1..]| && options[1..][k].value == id && options[1..][k].caption == r.value
            && forall j :: 0 <= j < k ==> options[1..][j].value != id;
          assert options[k + 1] == options[1..][k];
          assert forall j :: 1 <= j < k + 1 ==> options[j] == options[1..][j - 1];
        }
      }
      r
  }

  /** The title after choosing target `id`: `${typeTitle} - ${target?.name || targetId}`. */
  function TargetTitle(p: ProjectState, t: TimetableViewType, id: string): (r: string)
    ensures var name := TargetName(TargetOptions(p, t), id);
      r == ViewTypeTitle(t) + " - " + (if name.Some? && name.value != "" then name.value else id)
  {
    var name := TargetName(TargetOptions(p, t), id);
    ViewTypeTitle(t) + " - " + (if name.Some? && name.value != "" then name.value else id)
  }

  /** The ids of one kind of entity, in project order. */
  function EntityIds(p: ProjectState, t: TimetableViewType): (r: seq<string>)
    ensures |r| == |TargetOptions(p, t)|
    ensures forall i :: 0 <= i < |r| ==> r[i] == TargetOptions(p, t)[i].value
  {
    Map(TargetOptions(p, t), (o: TargetOption) => o.value)
  }

  /** The export type a view type maps to. */
  function ExportKind(t: TimetableViewType): ExportType {
    match t
    case ByClass => ClassTimetable
    case ByTeacher => TeacherTimetable
    case ByRoom => RoomTimetable
    case _ => MasterTimetable
  }

  predicate PerEntity(t: TimetableViewType) {
    t == ByClass || t == ByTeacher || t == ByRoom
  }

  class TimetableViewState {
    const project: ProjectState
    var viewConfig: TimetableViewConfig

    constructor (p: ProjectState)
      ensures project == p
      ensures viewConfig == TimetableViewConfig(Overview, None, None, ViewTypeTitle(Overview))
    {
      project := p;
      viewConfig := TimetableViewConfig(Overview, None, None, "课程表总览");
    }

    /** `handleViewTypeChange`: the target is cleared and the title is the type's title. */
    method HandleViewTypeChange(t: TimetableViewType)
      modifies this
      ensures viewConfig == TimetableViewConfig(t, None, None, ViewTypeTitle(t))
    {
      viewConfig := TimetableViewConfig(t, None, None, ViewTypeTitle(t));
    }

    /** `handleTargetChange`: the type stays, the target and the title change. */
    method HandleTargetChange(id: string)
      modifies this
      ensures viewConfig == old(viewConfig).(targetId := Some(id), title := TargetTitle(project, old(viewConfig).kind, id))
    {
      var name := TargetName(TargetOptions(project, viewConfig.kind), id);
      var shown := if name.Some? && name.value != "" then name.value else id;
      viewConfig := viewConfig.(targetId := Some(id), title := ViewTypeTitle(viewConfig.kind) + " - " + shown);
    }

    /** `handleExport`: class, teacher and room views export the chosen entity or, with none
        chosen, every entity of the kind; every other view exports the master timetable of
        'all'. Empty slots are included and the view's title is the export title. */
    method HandleExport(format: ExportFormat) returns (config: ExportConfig)
      ensures config.kind == ExportKind(viewConfig.kind) && config.format == format
      ensures config.includeEmpty && config.customTitle == Some(viewConfig.title)
      ensures PerEntity(viewConfig.kind) && TruthyText(viewConfig.targetId) ==>
        config.targets == [viewConfig.targetId.value]
      ensures PerEntity(viewConfig.kind) && !TruthyText(viewConfig.targetId) ==>
        config.targets == EntityIds(project, viewConfig.kind)
      ensures !PerEntity(viewConfig.kind) ==> config.targets == ["all"]
    {
      var exportType: ExportType;
      var targets: seq<string> := [];
      var chosen := TruthyText(viewConfig.targetId);
      match viewConfig.kind {
        case ByClass =>
          exportType := ClassTimetable;
          targets := if chosen then [viewConfig.targetId.value] else Map(project.classes, (c: ClassInfo) => c.id);
        case ByTeacher =>
          exportType := TeacherTimetable;
          targets := if chosen then [viewConfig.targetId.value] else Map(project.teachers, (x: Teacher) => x.id);
        case ByRoom =>
          exportType := RoomTimetable;
          targets := if chosen then [viewConfig.targetId.value] else Map(project.rooms, (x: Room) => x.id);
        case _ =>
          exportType := MasterTimetable;
          targets := ["all"];
      }
      config := ExportConfig(exportType, format, targets, true, Some(viewConfig.title));
    }
  }

  /** Choosing a listed target titles the view with the label the selector showed for it
      (the first entry with that id), unless that label is empty. */
  lemma TitleShowsListedLabel(p: ProjectState, t: TimetableViewType, id: string, i: nat)
    requires i < |TargetOptions(p, t)| && TargetOptions(p, t)[i].value == id
    requires forall j :: 0 <= j < i ==> TargetOptions(p, t)[j].value != id
    requires TargetOptions(p, t)[i].caption != ""
    ensures TargetTitle(p, t, id) == ViewTypeTitle(t) + " - " + TargetOptions(p, t)[i].caption
  {
    var options := TargetOptions(p, t);
    var name := TargetName(options, id);
    var k :| 0 <= k < |options| && options[k].value == id && options[k].caption == name.value
      && forall j :: 0 <= j < k ==> options[j].value != id;
    assert k == i;
  }

  /** A target the view type has no entity for, as in the total and overview views, is shown
      by its id. */
  lemma UnlistedTargetShowsId(p: ProjectState, t: TimetableViewType, id: string)
    requires forall i :: 0 <= i < |TargetOptions(p, t)| ==> TargetOptions(p, t)[i].value != id
    ensures TargetTitle(p, t, id) == ViewTypeTitle(t) + " - " + id
  {
  }

  /** A subject view exports the master timetable, even with a subject chosen. */
  lemma SubjectViewExportsMaster()
    ensures ExportKind(BySubject) == MasterTimetable && !PerEntity(BySubject)
  {
  }

  /** Every view type has its own title. */
  lemma TitlesDistinct(a: TimetableViewType, b: TimetableViewType)
    requires a != b
    ensures ViewTypeTitle(a) != ViewTypeTitle(b)
  {
    var x, y := ViewTypeTitle(a), ViewTypeTitle(b);
    // the six titles differ in their first or their second character
    assert x[0] != y[0] || x[1] != y[1];
  }
}

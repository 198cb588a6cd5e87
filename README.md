# Timetable scheduler — a Dafny model of its planning rules

TimetableScheduler is a desktop and web app for planning a school timetable. A project
walks through nine setup steps: classes, timetable format, subjects, teachers, rooms, course
requirements, automatic scheduling, manual adjustment and export. On the way the user keeps
a list of grades and their classes, places courses into a day-by-period grid and exports the
result. The desktop build keeps its course list in a Rust process. The browser build keeps
it in a module-level mock store and `localStorage`.

No real scheduler exists. The app's logic is a set of small, exact rules, and this project
models them:

- the course conflict check, the course filters, value de-duplication and the grid builder
  (`Types`);
- the randomised demo generator, with its bounded per-class slot retry (`DemoData`);
- grade and class maintenance, covering cascading delete, moving, renaming and adding
  (`GradeManagement`);
- the batch class dialog, with its duplicate and collision checks and auto-numbering
  (`BatchClassModal`);
- the Excel row parser and the grouping of imported classes into grades (`ExcelImport`);
- the Rust course store and its CSV record codec (`RustStore`);
- the browser mock store and its CSV text (`MockApi`);
- the project store, project import and the placeholder auto-scheduler (`ProjectService`);
- the course form's validation gate (`CourseForm`);
- the wizard's navigation and step checks (`ProjectWizard`);
- step progress, colours, the project card's step tag and new-project defaults (`ProjectManager`);
- the timetable screen's view and export configuration (`TimetableView`);
- the selector's course counts, titles and target lists, and the crash of its per-field views (`ViewSelector`);
- the quick-access panel (`QuickAccess`);
- the search form's value cleaning (`SearchForm`).

Three helper modules support the models:

- `Wrappers` holds `Option` and `Result`.
- `Text` holds the JavaScript string operations the code relies on: `trim`, `String(n)`,
  `Number(s)`, `join`, `split` and `includes`.
- `Seqs` holds filtering, mapping and de-duplication.

Some external things become parameters:

- `Math.random` is an injected sample stream `samples: nat -> real`, every value in [0, 1).
  Methods thread an explicit cursor through it.
- `uuidv4` is an id stream `uuids: nat -> string`, read at an explicit counter.
- The outcome of writing a file is a parameter (`saved`).
- `localStorage` and a project file are parsed values (`Storage`, `FileRead`).

Components that hold state become classes whose methods update their fields. The pure
decision tables are functions.

Days are numbered 1..7 with Monday = 1, the ISO 8601 weekday numbering.

## Model

| member | source | states |
|---|---|---|
| Types.StepIndex | src/types/index.ts:134-144 | `Object.values(ProjectStep).indexOf(v)`: -1 exactly when no step has that string, otherwise a position holding it |
| Types.StepIndexOfValue | src/types/index.ts:134-144 | every step's string is found at that step's own position, so the nine values are distinct |
| Types.CheckCourseConflicts | src/types/index.ts:346-370 | valid iff no existing course has the same day, the same start period and another id; valid iff no conflicts; at most one conflict, of kind time with message 时间冲突, holding exactly the clashing courses in input order; warnings always empty |
| Types.NoSelfConflict | src/types/index.ts:351-355 | a course never conflicts with an entry carrying its own id |
| Types.ConflictSymmetric | src/types/index.ts:351-355 | the pairwise check gives the same answer with the two courses swapped |
| Types.OverlapByDurationNotDetected | src/types/index.ts:351-355 | a double lesson at period 3 and a course at period 4 of the same day are not reported: only the start period counts |
| Types.FilterCourses | src/types/index.ts:332-343 | a set keyword keeps every course; otherwise the result is exactly the courses matching a truthy day and a truthy period filter; with neither set the input is returned |
| Types.FilterCoursesConcat | src/types/index.ts:332-343 | filtering distributes over concatenation, so kept courses stay in input order |
| Types.FilterCoursesByView | src/types/index.ts:373-396 | unchanged for ALL, for OVERVIEW and for a falsy targetId; otherwise exactly the courses whose classId, teacherId, roomId or subjectId equals the target; never longer than the input |
| Types.FieldValues | src/types/index.ts:308-314 | one `String(course[field])` per course, in order |
| Types.GetUniqueValues | src/types/index.ts:308-314 | distinct values; a string is in the result iff it is non-empty and some course has it in the field; the order is the order of first occurrence |
| Types.PresentValues | src/types/index.ts:317-329 | a string is listed iff it is non-empty and some course has it as its display value |
| Types.UniqueDisplay | src/types/index.ts:317-329 | distinct, non-empty display values of one kind, each present in some course, in first-occurrence order |
| Types.GetAllUniqueValues | src/types/index.ts:317-329 | the teacher, class, subject and room lists are each the de-duplicated display values of that kind |
| Types.LaterCourseWins | src/types/index.ts:405-413 | a later course in the same cell overwrites an earlier one |
| Types.OutOfRangeIgnored | src/types/index.ts:405-413 | a course whose day or period lies outside the grid changes no cell |
| Types.CellAtSome | src/types/index.ts:399-418 | a cell is filled iff some course starts there, and its course is one of the input courses |
| Types.CoursesToTimetableData | src/types/index.ts:399-418 | a fresh `periodsPerDay` by `daysPerWeek` grid; each cell holds the last course starting there, with row span `duration` or 1 when duration is 0, and is empty otherwise |
| Types.CoursesToDefaultTimetableData | src/types/index.ts:399-400 | with the default sizes used by src/components/Timetable.tsx:22, a fresh grid of 10 periods by 7 days holding the same cells |
| Types.OutsideDefaultGrid | src/types/index.ts:399-410 | a course starting outside days 1..7 or periods 1..10 changes no cell of the default grid |
| DemoData.Scale | src/utils/demoData.ts:40 | `Math.floor(r * n)` of a sample in [0, 1) is a valid index below n |
| DemoData.Pick | src/utils/demoData.ts:40 | `xs[Math.floor(r * xs.length)]` is a member of the list |
| DemoData.Draw | src/utils/demoData.ts:48-49 | each attempt draws a day in 1..5 and a period in 1..8 |
| DemoData.AttemptsFrom | src/utils/demoData.ts:45-51 | once some attempts are behind it, the loop makes at least one more and never more than 50 in all |
| DemoData.Attempts | src/utils/demoData.ts:45-51 | the do-while loop makes between 1 and 50 attempts |
| DemoData.AttemptsFromFacts | src/utils/demoData.ts:47-51 | every attempt before the last drew a used slot, and a count below 50 ends on a free slot |
| DemoData.SessionKeptIff | src/utils/demoData.ts:47-53 | a session is kept exactly when one of the first 49 draws is a free slot |
| DemoData.FiftiethDrawDropped | src/utils/demoData.ts:51-53 | a free slot found only on the 50th draw still fails `attempts < 50`, so the session is dropped |
| DemoData.DrawSlot | src/utils/demoData.ts:44-51 | the slot of the last attempt, inside Monday to Friday and periods 1..8; free when fewer than 50 attempts were made; every earlier attempt hit a used slot |
| DemoData.GetSubjectRoom | src/utils/demoData.ts:154-180 | a mapped subject gets one of its mapped rooms; any other subject gets a room of the list whose name mentions none of 实验室, 计算机, 音乐, 美术 and 体育馆, and gets nothing exactly when no such room exists |
| DemoData.DemoRoomFound | src/utils/demoData.ts:19-25 | the demo's own room list always gives a room |
| DemoData.SessionsPerWeek | src/utils/demoData.ts:41-115 | main subjects ask for 3–4 sessions, minor ones for 2, special ones for 1–2 |
| DemoData.ScheduleSession | src/utils/demoData.ts:43-71 | one course more exactly when the retry finds a free slot in time; that course takes the next five ids, has the subject's teacher, a slot not used before, and its slot is marked used; otherwise nothing changes |
| DemoData.ScheduleSessions | src/utils/demoData.ts:43-72 | at most the requested number of sessions are appended after the earlier courses; they are generated courses of that class and subject with pairwise distinct slots unused before, all with the same teacher, and the used set grows by exactly their slots |
| DemoData.ScheduleSubject | src/utils/demoData.ts:39-73 | a subject adds at most its group's maximum of courses, with fresh distinct slots and one teacher drawn once for all of them |
| DemoData.ScheduleGroup | src/utils/demoData.ts:39-147 | a group of subjects is scheduled onto the shared used slots: fresh distinct slots, one teacher per subject, at most the group's maximum of courses per subject |
| DemoData.NamedCountConcat | src/utils/demoData.ts:56-70 | counting courses of a subject adds up over concatenation |
| DemoData.NamedCountOutside | src/utils/demoData.ts:56-70 | a part generated for other subjects counts zero courses of a subject |
| DemoData.SubjectsDistinct | src/utils/demoData.ts:32-34 | no subject is listed twice, within a group or across the groups |
| DemoData.GroupsDisjoint | src/utils/demoData.ts:32-34 | the main, minor and special groups share no subject |
| DemoData.SegmentsJoin | src/utils/demoData.ts:30-148 | two adjacent parts generated for one class form one generated part |
| DemoData.FreshSlotsJoin | src/utils/demoData.ts:36-128 | slots fresh in two adjacent parts, the second fresh against the first, are fresh together |
| DemoData.SameTeacherJoin | src/utils/demoData.ts:40-114 | two parts with one teacher per subject and disjoint subjects keep that together |
| DemoData.GroupsJoin | src/utils/demoData.ts:36-147 | the three group parts of a class form the class's part: all its start slots differ and each subject has one teacher |
| DemoData.ClassCounts | src/utils/demoData.ts:41-115 | within one class every subject has at most its group's maximum of courses |
| DemoData.ClassFromGroups | src/utils/demoData.ts:30-148 | a class adds at most 36 courses, with pairwise distinct start slots, one teacher per subject and each subject within its session maximum |
| DemoData.GenerateForClass | src/utils/demoData.ts:30-148 | one class's schedule: main, then minor, then special subjects sharing one used-slot set; at most 36 courses, distinct start slots, one teacher per subject, per-subject counts within 4, 2 and 2 |
| DemoData.ClassesDistinct | src/utils/demoData.ts:13-17 | the twelve class names are distinct |
| DemoData.ClassStep | src/utils/demoData.ts:30-148 | appending the next class's schedule keeps the whole list a demo schedule |
| DemoData.ClassCountStep | src/utils/demoData.ts:30-148 | appending at most 36 courses of a class absent so far keeps every class at 36 courses or fewer |
| DemoData.GenerateDemoData | src/utils/demoData.ts:5-151 | the i-th course takes ids 5i..5i+4, lies in Monday to Friday and periods 1..8, lasts 2 periods only for 体育, names a listed subject, teacher and class with a suitable room; no two courses of one class share a start slot; one teacher per subject within a class; at most 36 courses of any one class, so at most 36 times the number of classes in all |
| DemoData.GradeOf | src/utils/demoData.ts:189-196 | the grade whose block of classes contains position i |
| DemoData.DemoClassBuilt | src/utils/demoData.ts:196-206 | a class built as the loop builds class n of grade g has the generator's id, grade id, name `${grade}(${n})班`, 35..49 students, a listed head teacher and the description for its number |
| DemoData.GenerateGradeClasses | src/utils/demoData.ts:196-209 | the classes of grade g follow those of the earlier grades, each consuming one id and two samples |
| DemoData.GenerateDemoGradesAndClasses | src/utils/demoData.ts:183-223 | three grades 高一, 高二 and 高三 with order 1..3, their generated ids and descriptions; 15 classes; each class belongs by id and by name to the grade of its block and has a number within that grade's class count |
| DemoData.DemoClassesInGrades | src/utils/demoData.ts:192-220 | each generated class names its grade's id and name, and its number lies within that grade's 6, 5 or 4 classes |
| CourseForm.CandidateId | src/components/CourseForm.tsx:30 | the live-check candidate uses the edited course's id, or `temp` when there is none |
| CourseForm.TempCourse | src/components/CourseForm.tsx:29-38 | the candidate course has that id and the form's day, period and duration |
| CourseForm.ValidateCourse | src/components/CourseForm.tsx:27-45 | a validation result exists iff day, period and duration are all truthy; it is valid iff no existing course has that day and period under another id |
| CourseForm.DisabledOnlyByClash | src/components/CourseForm.tsx:213 | the submit button is disabled iff the live check of lines 27-45 ran and some existing course clashes with the candidate |
| CourseForm.SubmittedCourse | src/components/CourseForm.tsx:53-56 | the submitted course carries the edited id or the fresh id, then the form's values |
| CourseForm.CourseFormState.constructor | src/components/CourseForm.tsx:15 | no validation result at first |
| CourseForm.CourseFormState.HandleValuesChange | src/components/CourseForm.tsx:48-50 | the state becomes the live check of all current values |
| CourseForm.CourseFormState.HandleSubmit | src/components/CourseForm.tsx:52-72 | the course is submitted iff the final check finds no clash; a failed check is shown, a passing one leaves the shown state alone |
| GradeManagement.Publish | src/components/GradeManagement.tsx:92-98 | one combined update with `onBothUpdate`, otherwise two, and either brings the parent to exactly the published collections |
| GradeManagement.GradeDeleted | src/components/GradeManagement.tsx:83-88 | the grade with the id and every class with that gradeId are gone; every other grade and class is kept, as often as before |
| GradeManagement.HandleDeleteGrade | src/components/GradeManagement.tsx:72-101 | nothing is published for an absent grade id; otherwise the parent ends with the grade and its classes removed |
| GradeManagement.DeletedKeepsIntegrity | src/components/GradeManagement.tsx:83-88 | if every class had an existing grade, it still does after the cascading delete |
| GradeManagement.CombinedDeleteKeepsIntegrity | src/components/GradeManagement.tsx:92-93 | with `onBothUpdate` no state the parent passes through has a class without its grade |
| GradeManagement.SeparateDeleteExposesOrphans | src/components/GradeManagement.tsx:94-97 | without it, between the two updates the parent holds the deleted grade's classes under no grade |
| GradeManagement.IndexOfGradeFrom | src/components/GradeManagement.tsx:104 | the search from a position: -1 iff no later grade has the id, otherwise the first such position |
| GradeManagement.IndexOfGrade | src/components/GradeManagement.tsx:104 | `findIndex`: -1 iff no grade has the id, otherwise the first position holding it |
| GradeManagement.MovedGrades | src/components/GradeManagement.tsx:112-121 | the two positions exchanged, every other grade in place, and every order equal to its position plus one |
| GradeManagement.MoveGrade | src/components/GradeManagement.tsx:103-125 | moving the first grade up or the last grade down publishes nothing; otherwise the grade is swapped with its neighbour in that direction and the list is renumbered |
| GradeManagement.Renumber | src/components/GradeManagement.tsx:119-121 | the in-place loop sets each grade's order to its position plus one and changes nothing else |
| GradeManagement.MoveUpThenDown | src/components/GradeManagement.tsx:112-121 | moving a grade up and then back down restores a list whose orders were its positions |
| GradeManagement.MovedGradeFound | src/components/GradeManagement.tsx:112-116 | with distinct ids the moved grade is then found at its new position |
| GradeManagement.EditGrade | src/components/GradeManagement.tsx:133-140 | the edited grade keeps its id and order and takes the new name and description; exactly the classes with its id take the new grade name; nothing else changes |
| GradeManagement.HandleEditGrade | src/components/GradeManagement.tsx:131-150 | the published updates bring the parent to the edited collections |
| GradeManagement.EditGradeKeepsNames | src/components/GradeManagement.tsx:137-140 | renaming a grade keeps every class's grade name equal to its grade's name |
| GradeManagement.EditGradeKeepsIntegrity | src/components/GradeManagement.tsx:133-140 | renaming keeps every class attached to an existing grade |
| GradeManagement.AddGrade | src/components/GradeManagement.tsx:154-159 | the new grade goes last with a fresh id and order = previous length + 1; orders that were positions stay positions |
| GradeManagement.DeleteThenAddRepeatsOrder | src/components/GradeManagement.tsx:153-159 | delete does not renumber (line 83), so a grade added after a deletion can repeat an order still in use |
| GradeManagement.DeleteClass | src/components/GradeManagement.tsx:190-202 | nothing is published for an absent class id; otherwise every class with the id is removed and every other one kept |
| GradeManagement.AddClass | src/components/GradeManagement.tsx:217-224 | a new class with a fresh id and the name `${grade}(${classNumber})班` goes after the existing classes, carrying the form's fields |
| GradeManagement.AddClassKeepsNames | src/components/GradeManagement.tsx:217-224 | a class added under a grade with that grade's name keeps the names in agreement |
| GradeManagement.EditClass | src/components/GradeManagement.tsx:208-215 | every class with the edited id becomes the edited class's id and name with the form's other fields, so the name is not rebuilt; others are unchanged |
| GradeManagement.AppendBatch | src/components/GradeManagement.tsx:235-236 | the batch classes go after the existing ones, in their order |
| BatchClassModal.TemplateNumbers | src/components/BatchClassModal.tsx:59 | the templates' class numbers, in template order |
| BatchClassModal.GradeNumbers | src/components/BatchClassModal.tsx:67-68 | exactly the class numbers of the existing classes of the grade; classes of other grades are ignored |
| BatchClassModal.HasRepeats | src/components/BatchClassModal.tsx:60-61 | the size test fails iff the numbers are not distinct |
| BatchClassModal.Conflicts | src/components/BatchClassModal.tsx:69-70 | the template numbers already used, and empty iff no template number is used |
| BatchClassModal.BatchClasses | src/components/BatchClassModal.tsx:76-85 | one class per template, in template order, the k-th with the k-th fresh id, the grade's id and name and the name `${grade}(${n})班` |
| BatchClassModal.CheckBatch | src/components/BatchClassModal.tsx:56-96 | rejected as duplicate iff two templates share a number; otherwise rejected iff some number is already used in the grade, naming exactly those numbers; on success the one-class-per-template list |
| BatchClassModal.BatchKeepsNumbersUnique | src/components/BatchClassModal.tsx:56-87 | appending an accepted batch keeps the grade's class numbers free of repetition |
| BatchClassModal.NextFree | src/components/BatchClassModal.tsx:111-113 | the inner `while` stops at the first number from the start on that the grade does not use |
| BatchClassModal.FillStep | src/components/BatchClassModal.tsx:110-117 | giving the next template the next free number keeps the auto-fill invariant |
| BatchClassModal.AutoFillNumbers | src/components/BatchClassModal.tsx:105-121 | the templates receive the k smallest positive numbers the grade does not use, strictly increasing in template order; nothing but the numbers changes |
| BatchClassModal.AutoFillAgreesAt | src/components/BatchClassModal.tsx:110-117 | two auto-fill results that agree on the earlier templates give the next template the same number |
| BatchClassModal.AutoFillUnique | src/components/BatchClassModal.tsx:105-121 | that description has exactly one result, so the specification fixes the auto-fill output |
| BatchClassModal.AutoFilledBatchAccepted | src/components/BatchClassModal.tsx:56-121 | after auto-fill the batch passes both checks of `handleOk` |
| BatchClassModal.RemoveTemplate | src/components/BatchClassModal.tsx:44-48 | a single template is never removed; otherwise every template with the id goes and the rest stay; with distinct ids the list never empties |
| BatchClassModal.ChangeTemplate | src/components/BatchClassModal.tsx:50-54 | only templates with the id change, and no id changes |
| BatchClassModal.FilterKeepsDistinctIds | src/components/BatchClassModal.tsx:46 | removing templates keeps the remaining ids distinct |
| BatchClassModal.BatchClassDialog.constructor | src/components/BatchClassModal.tsx:31-33 | the dialog starts with one template numbered 1 with 40 students |
| BatchClassModal.BatchClassDialog.AddTemplate | src/components/BatchClassModal.tsx:35-42 | appends a template numbered length + 1 with 40 students |
| BatchClassModal.BatchClassDialog.RemoveTemplateById | src/components/BatchClassModal.tsx:44-48 | the list becomes the removal result and keeps at least one template |
| BatchClassModal.BatchClassDialog.ChangeTemplateById | src/components/BatchClassModal.tsx:50-54 | the list becomes the edited list |
| BatchClassModal.BatchClassDialog.AutoFill | src/components/BatchClassModal.tsx:105-121 | the templates become the auto-fill result for the grade's used numbers |
| BatchClassModal.BatchClassDialog.HandleOk | src/components/BatchClassModal.tsx:56-96 | the result is the batch check; on success the list starts over with one fresh template, on failure it is unchanged |
| BatchClassModal.BatchClassDialog.HandleCancel | src/components/BatchClassModal.tsx:98-102 | the list starts over with one fresh template |
| ExcelImport.NumberOr | src/components/ExcelImportModal.tsx:52-54 | `Number(c) or d`: NaN and 0 fall back to d, and any other number is the result |
| ExcelImport.OptionalText | src/components/ExcelImportModal.tsx:55-56 | absent exactly when the cell is falsy; otherwise the trimmed text of the cell |
| ExcelImport.ParseRow | src/components/ExcelImportModal.tsx:50-57 | grade and class name are the trimmed cell texts; a class number or student count that is NaN or 0 reads as 1 or 40, any other number is kept, so neither is ever 0; teacher and description are absent exactly for a falsy cell, and otherwise are the trimmed cell texts |
| ExcelImport.ParseSheet | src/components/ExcelImportModal.tsx:44-59 | the title row is skipped and every later row with at least three cells, the first three truthy, gives one record, in order |
| ExcelImport.ParsedRowsIsFilterMap | src/components/ExcelImportModal.tsx:47-59 | parsing is filtering for accepted rows and then reading each one |
| ExcelImport.ParsedCount | src/components/ExcelImportModal.tsx:47-59 | there are never more records than rows after the title row |
| ExcelImport.FilledRow | src/components/ExcelImportModal.tsx:49-57 | a fully filled row of tidy texts and non-zero numbers is taken as written, and an empty remark reads as none |
| ExcelImport.GroupByGrade | src/components/ExcelImportModal.tsx:86-92 | the grade map: its keys are the grade names in first-appearance order, and each holds that grade's records in order |
| ExcelImport.ClassesOf | src/components/ExcelImportModal.tsx:107-120 | one class per record of a group, the i-th with the i-th fresh id after the grade's |
| ExcelImport.GradeClasses | src/components/ExcelImportModal.tsx:107-120 | the inner loop builds exactly those classes |
| ExcelImport.BatchesOf | src/components/ExcelImportModal.tsx:99 | the map's entries in key order |
| ExcelImport.EmitGrades | src/components/ExcelImportModal.tsx:95-123 | one grade per key, in order, with orders from 1 and the next fresh id, each followed by its classes |
| ExcelImport.GroupImport | src/components/ExcelImportModal.tsx:79-125 | nothing for an empty import; otherwise the grades and classes of every group |
| ExcelImport.EntriesShape | src/components/ExcelImportModal.tsx:95-123 | one grade per group, named after it, with consecutive orders and no description; one class per record; one fresh id per grade and per class |
| ExcelImport.EntriesClassesBelong | src/components/ExcelImportModal.tsx:108-117 | every class names one of the grades, by id and by name |
| ExcelImport.EntriesContiguous | src/components/ExcelImportModal.tsx:99-123 | with distinct grade names, each grade's classes sit next to each other |
| ExcelImport.GroupTotalAll | src/components/ExcelImportModal.tsx:86-92 | the groups of all grade names together hold every record |
| ExcelImport.ImportKeepsEveryRecord | src/components/ExcelImportModal.tsx:86-123 | every record becomes exactly one class; one grade per distinct grade name, in first-appearance order, with orders 1..k |
| ExcelImport.ImportedGradesCoverNames | src/components/ExcelImportModal.tsx:86-105 | every record's grade name has a grade, and no two grades share a name |
| ExcelImport.ImportGroupsByGrade | src/components/ExcelImportModal.tsx:99-123 | every class names its grade by id and name, and the classes come out grouped by grade |
| ExcelImport.ImportDialog.constructor | src/components/ExcelImportModal.tsx:28 | nothing imported at first |
| ExcelImport.ImportDialog.HandleFileUpload | src/components/ExcelImportModal.tsx:44-66 | the parsed records replace the state; an upload with no valid row keeps the previous records |
| ExcelImport.ImportDialog.HandleOk | src/components/ExcelImportModal.tsx:79-127 | with nothing imported, no result and no change; otherwise the grouped grades and classes, after which the state is cleared |
| ExcelImport.ImportDialog.HandleCancel | src/components/ExcelImportModal.tsx:129-132 | the state is cleared |
| RustStore.Position | src-tauri/src/lib.rs:79-92 | `iter().position`: none iff no course has the id, otherwise the first position holding it |
| RustStore.Updated | src-tauri/src/lib.rs:77-86 | with no course of that id, the error 课程不存在; otherwise the first course with the id is replaced, the length is kept and all else is unchanged |
| RustStore.Deleted | src-tauri/src/lib.rs:90-99 | with no course of that id, the error 课程不存在; otherwise only the first course with the id is removed and the rest keep their order |
| RustStore.CourseStore.constructor | src-tauri/src/lib.rs:29-46 | the store starts with the loaded courses |
| RustStore.CourseStore.GetCourses | src-tauri/src/lib.rs:61-64 | a copy of the list |
| RustStore.CourseStore.AddCourse | src-tauri/src/lib.rs:67-73 | appends one course at the end and reports the save outcome |
| RustStore.CourseStore.UpdateCourse | src-tauri/src/lib.rs:76-86 | on a missing id the list is unchanged and the error is returned; otherwise the list becomes the update and the save outcome is returned |
| RustStore.CourseStore.DeleteCourse | src-tauri/src/lib.rs:89-99 | on a missing id the list is unchanged and the error is returned; otherwise the first match is removed and the save outcome is returned |
| RustStore.CourseStore.BatchAddCourses | src-tauri/src/lib.rs:219-225 | appends all the given courses in order |
| RustStore.UpdateIdempotent | src-tauri/src/lib.rs:77-86 | updating twice with the same course is updating once |
| RustStore.DeleteUndoesAdd | src-tauri/src/lib.rs:68-99 | deleting the id of a course just added under a new id gives back the list before |
| RustStore.DeleteRemovesOnlyFirst | src-tauri/src/lib.rs:92-93 | with two copies of an id, the second survives the first delete and a further delete succeeds |
| RustStore.ParseU8 | src-tauri/src/lib.rs:206-208 | `parse::<u8>`: success needs a non-empty string, and decimal digits of value at most 255 parse to that value |
| RustStore.DecodeRecord | src-tauri/src/lib.rs:197-210 | a record with fewer than 8 fields is skipped; otherwise the text fields are copied and an unparsable day, period or duration reads as 1 |
| RustStore.FirstUnequal | src-tauri/src/lib.rs:193-195 | the first data record whose field count differs from the header's, or none when all agree |
| RustStore.Imported | src-tauri/src/lib.rs:193-215 | success exactly when every record has the header's field count, and then the courses of the complete records in order; otherwise the error `Failed to parse CSV record: ` with the first record of the wrong length |
| RustStore.ImportRecords | src-tauri/src/lib.rs:193-215 | the import loop returns what `Imported` states: it stops at the first record the reader rejects |
| RustStore.DecodedKeepsComplete | src-tauri/src/lib.rs:197-199 | when every record has at least 8 fields, none is skipped |
| RustStore.ShortRecordsFail | src-tauri/src/lib.rs:193-199 | under a header of 8 or more fields a short record is an error, so the skip never happens and a successful import has one course per record |
| RustStore.EncodeRecord | src-tauri/src/lib.rs:119-128 | eight fields, as many as the header |
| RustStore.ExportRecords | src-tauri/src/lib.rs:113-129 | the header record, then one record per course in order |
| RustStore.ParseU8OfToString | src-tauri/src/lib.rs:206-208 | parsing the decimal form of a `u8`, as the export writes it, gives it back |
| RustStore.DecodeEncode | src-tauri/src/lib.rs:119-128 | every exported course record decodes, as the import at lines 197-210 does, back to the same course: the field order matches the header |
| RustStore.DecodedOfExport | src-tauri/src/lib.rs:197-210 | the data records the export writes decode back to the whole list |
| RustStore.ImportOfExport | src-tauri/src/lib.rs:193-215 | importing a file the export at lines 113-129 wrote, header first, succeeds with the whole list |
| MockApi.FindIndex | src/services/api.ts:27 | -1 iff no course has the id, otherwise the first position holding it |
| MockApi.Updated | src/services/api.ts:25-31 | with no course of that id the list is unchanged; otherwise the first match is replaced at its index |
| MockApi.Deleted | src/services/api.ts:33-36 | no course with the id remains and every course with another id does |
| MockApi.DeletedCount | src/services/api.ts:35 | the delete removes exactly as many courses as carry the id |
| MockApi.DeleteChangesIffPresent | src/services/api.ts:35 | a delete leaves the list as it was iff no course has the id |
| MockApi.MockStore.constructor | src/services/api.ts:10 | the mock list starts empty |
| MockApi.MockStore.GetCourses | src/services/api.ts:14-18 | a copy of the list |
| MockApi.MockStore.AddCourse | src/services/api.ts:20-23 | `push` of one course |
| MockApi.MockStore.UpdateCourse | src/services/api.ts:25-31 | the list becomes the update, silently unchanged for a missing id |
| MockApi.MockStore.DeleteCourse | src/services/api.ts:33-36 | the list becomes the filtered list |
| MockApi.MockStore.BatchAddCourses | src/services/api.ts:52-55 | `push(...courses)`: all appended in order |
| MockApi.ImportFromCsv | src/services/api.ts:45-50 | at most ten courses, each a demo course, no two of one class on the same start slot |
| MockApi.DeleteDiffers | src/services/api.ts:35 | against src-tauri/src/lib.rs:90-99: over the same ids, the desktop delete fails exactly where the mock delete changes nothing; a desktop delete removes one course, a mock delete every copy |
| MockApi.UpdateDiffers | src/services/api.ts:27-30 | against src-tauri/src/lib.rs:77-86: an update of an absent id is an error on the desktop and a silent no-op in the mock |
| MockApi.CsvRow | src/services/api.ts:59-68 | as many fields as the header: id, then name, teacher and class with a missing value written as empty, then day, period and duration in decimal, and the room last |
| MockApi.CsvNumbersReadBack | src/services/api.ts:64-66 | the day, period and duration fields read back with `Number` as the numbers written |
| MockApi.CsvLines | src/services/api.ts:70 | the header line, then one line per course, each its fields joined by a comma |
| MockApi.LinesUnbroken | src/services/api.ts:57-71 | no line holds a line break when no text field does |
| MockApi.CsvSplitsBack | src/services/api.ts:57-71 | when no text field holds a comma or a line break, the text splits back into the header and one line per course, and each line into that course's eight fields |
| MockApi.CommaInNameAddsColumn | src/services/api.ts:61-70 | fields are not quoted, so a comma inside a course name gives its line nine columns |
| ProjectService.Normalized | src/services/projectService.ts:24-29 | `{...p, grades: p.grades or []}`: id, name and current step kept, `grades` defaulted to an empty list |
| ProjectService.NormalizedStored | src/services/projectService.ts:24-29 | writing a project with `JSON.stringify` (line 53) and reading it back gives the same project |
| ProjectService.Loaded | src/services/projectService.ts:14-37 | storage holding nothing gives the module-level list; unparsable storage gives none; parsed storage gives each stored project normalised |
| ProjectService.LoadedOfWritten | src/services/projectService.ts:14-37 | reading back a list as `saveProject` and `deleteProject` write it (lines 53 and 65) gives that list |
| ProjectService.IndexOf | src/services/projectService.ts:45 | -1 iff no project has the id, otherwise the first position holding it |
| ProjectService.Upserted | src/services/projectService.ts:44-52 | the first project with the id is replaced, otherwise the project is appended; the length grows by at most one |
| ProjectService.Removed | src/services/projectService.ts:63-64 | no project with the id remains, every other project does, and nothing new appears |
| ProjectService.UpsertedIds | src/services/projectService.ts:44-52 | after saving, the project is present and the ids are the old ones plus its own |
| ProjectService.UpsertedKeepsIdsDistinct | src/services/projectService.ts:44-52 | saving keeps distinct ids distinct |
| ProjectService.UpsertedIdempotent | src/services/projectService.ts:44-52 | saving the same project twice gives the list of the first save |
| ProjectService.RemovedAbsent | src/services/projectService.ts:63-64 | deleting an id no project has changes nothing |
| ProjectService.RemovedAfterUpsert | src/services/projectService.ts:40-68 | deleting a project's id after saving it equals deleting that id from the list before |
| ProjectService.ProjectStore.constructor | src/services/projectService.ts:9 | the store sees the given storage, and the module-level list starts empty |
| ProjectService.ProjectStore.GetProjects | src/services/projectService.ts:14-37 | the loaded list |
| ProjectService.ProjectStore.SaveProject | src/services/projectService.ts:40-56 | the loaded list with the project upserted becomes the module-level list and is written to storage |
| ProjectService.ProjectStore.DeleteProject | src/services/projectService.ts:59-68 | the loaded list without the id becomes the module-level list and is written to storage |
| ProjectService.LoadAfterSave | src/services/projectService.ts:44-54 | after a save, loading gives the saved list |
| ProjectService.ImportProject | src/services/projectService.ts:90-119 | a read failure gives the read error; a parsed file is accepted iff its id, name and current step are non-empty; any rejection gives the parse error; an accepted project is normalised, with `grades` defaulted |
| ProjectService.ImportOfExport | src/services/projectService.ts:72-112 | an exported project imports back as the same project exactly when its id, name and step are non-empty |
| ProjectService.CourseIdInjective | src/services/projectService.ts:184 | different requirements get different `course_${index}` ids |
| ProjectService.AutoSchedule | src/services/projectService.ts:177-199 | one course per requirement i, with id `course_i`, the requirement's subject, teacher and class, the first room's id or '' without rooms, day i mod 5 + 1, period i mod 8 + 1 and duration 1; every other project field is kept |
| ProjectService.SlotsRepeatEvery40 | src/services/projectService.ts:189-190 | days and periods repeat together every 40 requirements |
| ProjectService.AutoScheduleClashes | src/services/projectService.ts:183-192 | two placed courses clash in the conflict check exactly when their indices differ by a non-zero multiple of 40 |
| ProjectWizard.StepAt | src/views/ProjectWizard.tsx:34-35 | `steps[index]` is a step exactly for 0..8 |
| ProjectWizard.IsStepValid | src/views/ProjectWizard.tsx:105-125 | a list step needs its list non-empty, the format step a format; manual adjustment, export and an unknown step are always valid |
| ProjectWizard.Status | src/views/ProjectWizard.tsx:136-137 | a step shows finish iff it is valid, and process only on the current step |
| ProjectWizard.NextIndex | src/views/ProjectWizard.tsx:37-49 | one further unless already on the last step |
| ProjectWizard.PrevIndex | src/views/ProjectWizard.tsx:51-61 | one back unless on (or before) the first step |
| ProjectWizard.NavigationInverse | src/views/ProjectWizard.tsx:37-61 | previous undoes next below the last step and next undoes previous above the first; both keep the index in -1..8 |
| ProjectWizard.UnknownStepNavigation | src/views/ProjectWizard.tsx:30-61 | from an unknown stored step (index -1) next lands on the first step and previous stays unknown |
| ProjectWizard.ReopenAtRecordedStep | src/views/ProjectWizard.tsx:30-45 | the step recorded in an update is read back as the same index when the wizard reopens on it |
| ProjectWizard.Wizard.constructor | src/views/ProjectWizard.tsx:30-32 | the index is the stored step's position, -1 when it names none |
| ProjectWizard.Wizard.HandleNext | src/views/ProjectWizard.tsx:37-49 | below the last step the index goes up and the parent gets the project with the next step; on the last step `onComplete` runs and nothing else changes |
| ProjectWizard.Wizard.HandlePrev | src/views/ProjectWizard.tsx:51-61 | above the first step the index goes down and the parent gets the project with that step; otherwise nothing happens |
| ProjectWizard.Wizard.HandleStepClick | src/views/ProjectWizard.tsx:63-71 | the index jumps to the clicked step and the project records it |
| ProjectWizard.ButtonsOnUnknownStep | src/views/ProjectWizard.tsx:156-171 | on an unknown step next is enabled, and previous is enabled although it does nothing |
| ProjectWizard.NextEnabledIffValid | src/views/ProjectWizard.tsx:171 | next is enabled exactly when the current step is valid |
| ProjectWizard.EmptyProjectValidity | src/views/ProjectWizard.tsx:105-125 | a project with nothing set up passes only manual adjustment, export and, when it has a format, the format step |
| ProjectManager.Percentage | src/views/ProjectManager.tsx:104 | `Math.round(current / 9 * 100)` for steps 0..9: within half a unit of the exact quotient, and between 0 and 100 |
| ProjectManager.GetStepProgress | src/views/ProjectManager.tsx:98-106 | current = step index + 1, total = 9, and the rounded percentage |
| ProjectManager.ProgressBounds | src/views/ProjectManager.tsx:98-106 | `getStepProgress` computes 0 % for an unknown step (the card never shows it, see ProjectManager.CardTag), the last step 100 %, and a later step strictly more |
| ProjectManager.CardTag | src/views/ProjectManager.tsx:194-196 | a known step's tag is its `stepConfig` title; an unknown step's lookup is `undefined`, so reading `title` throws a `TypeError` and the card does not render |
| ProjectManager.StepTitlesDistinct | src/types/index.ts:211-257 | different steps carry different tag titles |
| ProjectManager.ImportedUnknownStepCardThrows | src/services/projectService.ts:89-110 | a file whose step string is non-empty but names no step imports, and the imported project's card throws, though its computed progress is 0 % |
| ProjectManager.GetStepColor | src/views/ProjectManager.tsx:108-121 | each step's own colour, and `default` for an unknown step |
| ProjectManager.StepColorsDistinct | src/views/ProjectManager.tsx:109-119 | different steps show different colours, none of them `default` |
| ProjectManager.StandardFormat | src/views/ProjectManager.tsx:64-75 | 5 days, 8 periods of 45 minutes from 08:00, breaks after periods 2 (30 minutes) and 4 (90 minutes) |
| ProjectManager.NewProject | src/views/ProjectManager.tsx:55-80 | a fresh id and the name; the first step; empty collections; the standard format with the next fresh id |
| ProjectManager.ModalOk | src/views/ProjectManager.tsx:40-90 | nothing unless the name has 2 to 50 characters (the form rules at lines 231-235); an edit changes only the name; otherwise a new project |
| ProjectManager.BreaksInsideDay | src/views/ProjectManager.tsx:68-74 | every break of the standard format falls strictly inside the day |
| ProjectManager.NewProjectOpensOnFirstStep | src/views/ProjectManager.tsx:58-60 | against src/views/ProjectWizard.tsx:105-125: a new project opens on its first step with next disabled, since it has no classes |
| ProjectManager.AutoScheduleFitsStandardFormat | src/views/ProjectManager.tsx:64-75 | against src/services/projectService.ts:189-190: with the standard format every placed course lies within its days and periods |
| TimetableView.TargetOptions | src/views/TimetableView.tsx:80-93 | the classes, teachers, rooms or subjects as id and name pairs, in project order; none for the other view types |
| TimetableView.TargetName | src/views/TimetableView.tsx:65-78 | none iff no option has the id, otherwise the label of the first option with it |
| TimetableView.TargetTitle | src/views/TimetableView.tsx:44-51 | `${typeTitle} - ${name or id}` |
| TimetableView.TitleShowsListedLabel | src/views/TimetableView.tsx:44-51 | choosing a listed target titles the view with the label shown for it, unless that label is empty |
| TimetableView.UnlistedTargetShowsId | src/views/TimetableView.tsx:44-76 | a target with no entity of the view type is shown by its id |
| TimetableView.EntityIds | src/views/TimetableView.tsx:102-110 | the ids of the kind's entities, in project order |
| TimetableView.TimetableViewState.constructor | src/views/TimetableView.tsx:31-34 | the overview with its title and no target |
| TimetableView.TimetableViewState.HandleViewTypeChange | src/views/TimetableView.tsx:36-42 | the target is cleared and the title is the type's title |
| TimetableView.TimetableViewState.HandleTargetChange | src/views/TimetableView.tsx:44-51 | the type stays; the target is set and the title is the target title |
| TimetableView.TimetableViewState.HandleExport | src/views/TimetableView.tsx:95-126 | class, teacher and room views export the chosen entity, or every entity of the kind when none is chosen; every other view exports the master timetable of `all`; empty slots included and the view's title as the export title |
| TimetableView.SubjectViewExportsMaster | src/views/TimetableView.tsx:112-115 | a subject view exports the master timetable even with a subject chosen |
| TimetableView.TitlesDistinct | src/views/TimetableView.tsx:53-63 | every view type has its own title |
| ViewSelector.Label | src/components/TimetableViewSelector.tsx:21-81 | '' exactly for the overview, which has no option |
| ViewSelector.LabelsDistinct | src/components/TimetableViewSelector.tsx:21-52 | different view types have different labels |
| ViewSelector.ViewTypeChange | src/components/TimetableViewSelector.tsx:54-68 | the same type with no target, titled with the type's label, which is empty only for the overview |
| ViewSelector.TargetChange | src/components/TimetableViewSelector.tsx:70-77 | the same type, the chosen name as target, `${label} - ${target}`; as written no per-field view renders its target list, so this handler is reached only with the corrected lists (see Findings) |
| ViewSelector.ClearedTarget | src/components/TimetableViewSelector.tsx:70-168 | clearing the target select keeps the type, unsets the target and titles the view `${label} - undefined` |
| ViewSelector.ClearedCountsAsTypeChange | src/components/TimetableViewSelector.tsx:54-168 | a cleared per-field view counts the same courses as a fresh type change, under a different title |
| ViewSelector.FilteredCount | src/components/TimetableViewSelector.tsx:108-127 | all courses for view types without a display field; otherwise the number of courses whose class name, teacher, room or course name equals the target; as written only the total and overview counts ever show, because a per-field render throws first (see Findings) |
| ViewSelector.CountAfterTypeChange | src/components/TimetableViewSelector.tsx:62-126 | right after a type change no target is set, so the count is of the courses lacking that field, not all courses; with the lists as written this count is never shown (see Findings) |
| ViewSelector.Destructured | src/components/TimetableViewSelector.tsx:19 | an array yields `undefined` for every list name; the record of `getAllUniqueValues` yields its list of that name |
| ViewSelector.TargetOptions | src/components/TimetableViewSelector.tsx:83-96 | no options for view types without a field; otherwise the field's list, or the `TypeError` exactly when that list is `undefined` |
| ViewSelector.RenderedCount | src/components/TimetableViewSelector.tsx:161-183 | the total view always shows its count; any other view throws exactly when its target list throws, and otherwise shows `FilteredCount` |
| ViewSelector.ListsAsWritten | src/components/TimetableViewSelector.tsx:19 | `getUniqueValues(courses)` without a field returns an array of strings |
| ViewSelector.AsWrittenRenderThrows | src/components/TimetableViewSelector.tsx:19-96 | as written, every class, teacher, room or subject view throws `TypeError` when its target list is built, so its count tag never shows |
| ViewSelector.ListsIntended | src/types/index.ts:317-329 | the record `getAllUniqueValues` returns |
| ViewSelector.IntendedTargetOptions | src/components/TimetableViewSelector.tsx:83-96 | with the lists of `getAllUniqueValues`, a per-field view offers the distinct non-empty values of its field, renders its count, and every offered target shows at least one course |
| QuickAccess.QuickAccessView | src/components/QuickTimetableAccess.tsx:17-32 | the view of that type with the name as target, titled `${title} - ${target}` |
| QuickAccess.TitlesMatchSelector | src/components/QuickTimetableAccess.tsx:18-25 | against src/components/TimetableViewSelector.tsx:79-81: the titles equal the selector's labels except for the overview, titled 总览 here and left unlabelled there |
| QuickAccess.ItemCount | src/components/QuickTimetableAccess.tsx:34-49 | never more than the courses, and a type without a display field counts every course |
| QuickAccess.BadgeMatchesSelector | src/components/QuickTimetableAccess.tsx:34-88 | against src/components/TimetableViewSelector.tsx:108-127: a badge shows the count the selector computes once that name is opened; as written the selector throws before showing it, so the match holds for the corrected selector (see Findings) |
| QuickAccess.Listed | src/components/QuickTimetableAccess.tsx:70 | at most the first ten names, all of them when there are no more |
| QuickAccess.Remaining | src/components/QuickTimetableAccess.tsx:95-99 | the note is shown exactly when there are more than ten names |
| QuickAccess.ListedAndRemaining | src/components/QuickTimetableAccess.tsx:70-99 | the listed names and the note's count account for every name exactly once |
| QuickAccess.BadgeSumCounts | src/components/QuickTimetableAccess.tsx:34-49 | over distinct names, the badges add up to the courses whose field holds one of them |
| QuickAccess.SectionBadgesCoverNamedCourses | src/components/QuickTimetableAccess.tsx:15-88 | all badges of a section together count the courses with a non-empty name of that kind |
| SearchForm.Cleaned | src/components/SearchFilters.tsx:16-23 | exactly the keys whose value is text with non-blank trim or a non-zero number, with the values copied unchanged |
| SearchForm.HandleSearch | src/components/SearchFilters.tsx:14-25 | the key-by-key loop builds exactly the cleaned filters |
| SearchForm.CleanedIdempotent | src/components/SearchFilters.tsx:16-23 | cleaning the filters again changes nothing |
| SearchForm.SpacesDropped | src/components/SearchFilters.tsx:18-19 | blank text is dropped, and kept text keeps its spaces |
| SearchForm.OnlyDayNarrows | src/components/SearchFilters.tsx:14-25 | against src/types/index.ts:332-343: the form's keys are not the filter's keys, so of the form's fields only the day narrows the course list |
| SearchForm.SearchFormState.constructor | src/components/SearchFilters.tsx:12 | the form starts with no values |
| SearchForm.SearchFormState.Submit | src/components/SearchFilters.tsx:14-25 | the parent receives the cleaned filters |
| SearchForm.SearchFormState.HandleClear | src/components/SearchFilters.tsx:27-30 | every field becomes unset, then `onClear` |
| SearchForm.SearchAfterClear | src/components/SearchFilters.tsx:27-30 | a submit straight after clearing yields no filters |
| Text.Trim | src/components/SearchFilters.tsx:18 | `trim()`: a slice of the input with only white space cut off before and after it, and no white space at either of its ends |
| Text.TrimEmptyIff | src/components/SearchFilters.tsx:18 | a string trims to empty exactly when it is all white space |
| Text.IntToString | src/services/api.ts:64-66 | `toString()` of an integer is non-empty and starts with '-' exactly for a negative value |
| Text.JsNumber | src/components/ExcelImportModal.tsx:52-54 | `Number(s)`: blank text is 0, a string of decimal digits is their value, and a `-` or `+` before the digits gives the negated or the same value |
| Text.JsNumberOfIntToString | src/components/ExcelImportModal.tsx:52-54 | `Number(String(i))` is i |
| Text.SplitJoin | src/services/api.ts:70 | splitting a join by a separator no part contains gives the parts back |
| Seqs.Dedup | src/types/index.ts:308-314 | distinct values holding exactly the input's, in order of first occurrence |
| Seqs.Filter | src/types/index.ts:332-343 | `Array.filter`: never longer than the input; every element kept satisfies the predicate and comes from the input, and every input element satisfying it is kept |
| Seqs.FilterConcat | src/types/index.ts:332-343 | filtering distributes over concatenation, so kept elements keep their relative order |
| Seqs.CardinalityIffDistinct | src/components/BatchClassModal.tsx:60-61 | `xs.length === new Set(xs).size` holds exactly for a list without repetitions |

## Left out

- Persistence on disk is not modelled, because these are I/O. This covers `AppState::new`'s file read, `save_courses`, Tauri `invoke`, `localStorage` text and `FileReader`. What they read or write is a parameter (`saved`, `Storage`, `FileRead`, sheet rows).
- Unparsable storage covers `localStorage` text that does not parse, parses to `null`, or parses to a non-array. All three yield no projects.
- The `Mutex` in src-tauri/src/lib.rs is left out because it exists for concurrency. The store's operations are sequential.
- The PowerShell file dialogs, the `csv` crate's reader and writer, and `XLSX.read`, `sheet_to_json` and `writeFile` are foreign libraries. Only the record and row logic around them is modelled. The `csv` reader is modelled by what it yields: the header, which it reads as the first record, then each data record, and an error for a record whose field count differs from the header's, since the reader is not flexible. Quoting, blank lines and invalid UTF-8 inside the `csv` crate are not modelled.
- Simulated delays (`setTimeout`), Blob and URL downloads, `downloadTemplate`, `exportProject`, `exportTimetable` and the fixed sample text of `generateCSVContent` in src/services/projectService.ts are left out. They only produce files or wait.
- `Date` timestamps (`createdAt`, `updatedAt`) are not fields of the model. Where the source sets `updatedAt`, the model keeps every other field.
- The Tauri branch of the project service returns nothing or does nothing; only the browser branch is modelled.
- `Text.JsNumber`: models `Number(s)` on the integer forms only: optional white space, an optional sign and decimal digits. Fractions, exponents, hex and `Infinity` read as NaN here. Excel cells are modelled as text, integer, boolean or missing.
- `RustStore.Imported`: the reader's error text leaves out the record number, line and byte position, which depend on the file's bytes.
- `RustStore.ParseU8`: only one direction is stated. Any decimal string of value at most 255 parses to that value, and success needs a non-empty string. Other inputs, such as `+`-signed text or values above 255, follow the body, not a stated contract.
- `GradeManagement.MoveGrade`: requires the grade id to be present, since the list only renders buttons for existing grades. For an absent id the source renumbers (`up`) or throws (`down`), and neither is modelled.
- `GradeManagement.MoveGrade`: the model works on values. The source copies the array shallowly, so its `grade.order` assignments at src/components/GradeManagement.tsx:119-121 also change the grade objects of the list it was given. That aliasing is not captured; nothing in the source reads the old list afterwards.
- The project card at src/views/ProjectManager.tsx:194-196 throws for a project whose step string names no step, which an import lets through (src/services/projectService.ts:99). `ProjectManager.CardTag` models that throw. No corrected card is modelled, because the source gives no fallback title to compare against. The rest of the card is presentation.
- Form field registration, modal visibility and rendering are not modelled, since they are presentation only. This covers antd components, tags, icons and colours.
- `MockApi.Deleted`: its contract speaks of membership only. That the kept courses stay in order follows from its definition by filtering. `MockApi.DeletedCount` gives the exact number removed.
- `GradeManagement.GradeDeleted`: its contract counts elements as multisets. That order is kept follows from its definition by filtering.
- `DemoData.GenerateDemoData`: bounds every class at 36 courses, the sum of the session maxima. The exact number depends on the samples.
- Ids, names and steps from an imported project file are modelled as strings, and "" stands for every falsy value (`null`, `0`, a missing key).

## Findings

| source | as written | input that shows it | evidently intended | confidence | as-written member | corrected member |
|---|---|---|---|---|---|---|
| src/components/TimetableViewSelector.tsx:19 | `getUniqueValues(courses)` returns an array, and destructuring `teachers`, `classes`, `subjects` and `rooms` from it gives `undefined`; `getTargetOptions` then calls `map` on `undefined` | any course list with the view type set to 班级课程表, 教师课程表, 教室课程表 or 科目课程表 | `getAllUniqueValues(courses)` (src/types/index.ts:317-329), whose record has those four lists | high, not executed | ViewSelector.AsWrittenRenderThrows | ViewSelector.IntendedTargetOptions |

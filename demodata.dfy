/** The demo data generator: random per-class slot assignment with a bounded retry, the
    subject-to-room choice and the grade/class generator.
    `Math.random` is the sample stream `samples`, each value in [0, 1), read from an explicit
    cursor; `uuidv4` is the id stream `uuids`, read from an explicit counter. */
module DemoData {
  import opened Wrappers
  import opened Seqs
  import opened Text
  import opened Types

  const Teachers: seq<string> := [
    "张老师", "李老师", "王老师", "刘老师", "陈老师", "杨老师",
    "赵老师", "黄老师", "周老师", "吴老师", "徐老师", "孙老师",
    "马老师", "朱老师", "胡老师", "林老师", "何老师", "郭老师"]

  const Classes: seq<string> := [
    "高一(1)班", "高一(2)班", "高一(3)班", "高一(4)班",
    "高二(1)班", "高二(2)班", "高二(3)班", "高二(4)班",
    "高三(1)班", "高三(2)班", "高三(3)班", "高三(4)班"]

  const Rooms: seq<string> := [
    "101教室", "102教室", "103教室", "104教室", "105教室",
    "201教室", "202教室", "203教室", "204教室", "205教室",
    "301教室", "302教室", "303教室", "304教室", "305教室",
    "物理实验室", "化学实验室", "生物实验室", "计算机教室",
    "音乐教室", "美术教室", "体育馆"]

  const MainSubjects: seq<string> := ["语文", "数学", "英语", "物理", "化学"]
  const MinorSubjects: seq<string> := ["历史", "地理", "政治", "生物"]
  const SpecialSubjects: seq<string> := ["体育", "音乐", "美术", "信息技术"]
  const AllSubjects: seq<string> := MainSubjects + MinorSubjects + SpecialSubjects

  /** The bound of the retry loop: a draw counts only while fewer than this many were made. */
  const MaxAttempts: nat := 50

  // ==================== random samples ====================

  /** Every sample lies in [0, 1), as `Math.random` promises. */
  ghost predicate Unit(samples: nat -> real) {
    forall k: nat :: 0.0 <= samples(k) < 1.0
  }

  /** `Math.floor(r * n)`. */
  function Scale(r: real, n: nat): (k: nat)
    requires 0.0 <= r < 1.0 && n > 0
    ensures k < n
  {
    assert 0.0 <= r * n as real < n as real;
    (r * n as real).Floor
  }

  /** `xs[Math.floor(r * xs.length)]`. */
  function Pick<T>(xs: seq<T>, r: real): (x: T)
    requires |xs| > 0 && 0.0 <= r < 1.0
    ensures x in xs
  {
    xs[Scale(r, |xs|)]
  }

  // ==================== slot draws ====================

  /** The slot drawn by attempt `a` of a retry loop whose first sample is at cursor `k`:
      the day from one sample, the period from the next. */
  function Draw(samples: nat -> real, k: nat, a: nat): (slot: (int, int))
    requires Unit(samples)
    ensures 1 <= slot.0 <= 5 && 1 <= slot.1 <= 8
  {
    (1 + Scale(samples(k + 2 * a), 5), 1 + Scale(samples(k + 2 * a + 1), 8))
  }

  /** The do-while loop's attempt count once `made` attempts are behind it: it draws once more,
      and goes on while the slot is used and fewer than `MaxAttempts` draws were made. */
  function AttemptsFrom(samples: nat -> real, k: nat, used: set<(int, int)>, made: nat): (n: nat)
    requires Unit(samples) && made < MaxAttempts
    ensures made < n <= MaxAttempts
    decreases MaxAttempts - made
  {
    if Draw(samples, k, made) in used && made + 1 < MaxAttempts then AttemptsFrom(samples, k, used, made + 1)
    else made + 1
  }

  function Attempts(samples: nat -> real, k: nat, used: set<(int, int)>): (n: nat)
    requires Unit(samples)
    ensures 1 <= n <= MaxAttempts
  {
    AttemptsFrom(samples, k, used, 0)
  }

  /** Every attempt before the last drew a used slot, and a count below the bound ends on a
      free slot. */
  lemma {:induction false} AttemptsFromFacts(samples: nat -> real, k: nat, used: set<(int, int)>, made: nat)
    requires Unit(samples) && made < MaxAttempts
    ensures forall a :: made <= a < AttemptsFrom(samples, k, used, made) - 1 ==> Draw(samples, k, a) in used
    ensures AttemptsFrom(samples, k, used, made) < MaxAttempts ==>
      Draw(samples, k, AttemptsFrom(samples, k, used, made) - 1) !in used
    decreases MaxAttempts - made
  {
    if Draw(samples, k, made) in used && made + 1 < MaxAttempts {
      AttemptsFromFacts(samples, k, used, made + 1);
    }
  }

  /** A session is kept exactly when one of the first 49 draws finds a free slot. */
  lemma SessionKeptIff(samples: nat -> real, k: nat, used: set<(int, int)>)
    requires Unit(samples)
    ensures Attempts(samples, k, used) < MaxAttempts <==>
      exists a :: 0 <= a < MaxAttempts - 1 && Draw(samples, k, a) !in used
  {
    AttemptsFromFacts(samples, k, used, 0);
    var n := Attempts(samples, k, used);
    if n < MaxAttempts {
      assert Draw(samples, k, n - 1) !in used;
    }
  }

  /** A free slot found only by the 50th draw is still dropped. */
  lemma FiftiethDrawDropped(samples: nat -> real, k: nat, used: set<(int, int)>)
    requires Unit(samples)
    requires forall a :: 0 <= a < MaxAttempts - 1 ==> Draw(samples, k, a) in used
    requires Draw(samples, k, MaxAttempts - 1) !in used
    ensures Attempts(samples, k, used) == MaxAttempts
  {
    SessionKeptIff(samples, k, used);
  }

  /** The do-while retry loop. The session it serves is kept when `attempts < MaxAttempts`. */
  method DrawSlot(samples: nat -> real, k: nat, used: set<(int, int)>) returns (day: int, period: int, attempts: nat)
    requires Unit(samples)
    ensures attempts == Attempts(samples, k, used)
    ensures (day, period) == Draw(samples, k, attempts - 1)
    ensures 1 <= day <= 5 && 1 <= period <= 8
    ensures attempts < MaxAttempts ==> (day, period) !in used
    ensures forall a :: 0 <= a < attempts - 1 ==> Draw(samples, k, a) in used
  {
    var slot := Draw(samples, k, 0);
    attempts := 1;
    while slot in used && attempts < MaxAttempts
      invariant 1 <= attempts <= MaxAttempts
      invariant slot == Draw(samples, k, attempts - 1)
      invariant AttemptsFrom(samples, k, used, attempts - 1) == Attempts(samples, k, used)
      invariant UsedBefore(samples, k, used, attempts - 1)
      decreases MaxAttempts - attempts
    {
      UsedBeforeStep(samples, k, used, attempts - 1);
      slot := Draw(samples, k, attempts);
      attempts := attempts + 1;
    }
    day, period := slot.0, slot.1;
  }

  /** The first `n` attempts all drew used slots. */
  ghost predicate UsedBefore(samples: nat -> real, k: nat, used: set<(int, int)>, n: nat)
    requires Unit(samples)
  {
    forall a :: 0 <= a < n ==> Draw(samples, k, a) in used
  }

  lemma UsedBeforeStep(samples: nat -> real, k: nat, used: set<(int, int)>, n: nat)
    requires Unit(samples) && UsedBefore(samples, k, used, n) && Draw(samples, k, n) in used
    ensures UsedBefore(samples, k, used, n + 1)
  {
  }

  // ==================== rooms ====================

  /** The rooms mapped to a subject; empty for a subject without a mapping. */
  function PreferredRooms(subject: string): seq<string> {
    if subject == "物理" then ["物理实验室", "301教室", "302教室"]
    else if subject == "化学" then ["化学实验室", "303教室", "304教室"]
    else if subject == "生物" then ["生物实验室", "305教室"]
    else if subject == "信息技术" then ["计算机教室"]
    else if subject == "音乐" then ["音乐教室"]
    else if subject == "美术" then ["美术教室"]
    else if subject == "体育" then ["体育馆"]
    else []
  }

  /** An ordinary classroom: its name mentions no laboratory, computer room, music room,
      art room or gymnasium. */
  predicate IsNormalRoom(room: string) {
    !Contains(room, "实验室") && !Contains(room, "计算机") && !Contains(room, "音乐")
    && !Contains(room, "美术") && !Contains(room, "体育馆")
  }

  /** `getSubjectRoom`, with its one sample `r`; `None` stands for the `undefined` that
      indexing an empty list of ordinary rooms gives. */
  function GetSubjectRoom(subject: string, rooms: seq<string>, r: real): (room: Option<string>)
    requires 0.0 <= r < 1.0
    ensures PreferredRooms(subject) != [] ==> room.Some? && room.value in PreferredRooms(subject)
    ensures PreferredRooms(subject) == [] && room.Some? ==> room.value in rooms && IsNormalRoom(room.value)
    ensures PreferredRooms(subject) == [] ==> (room.None? <==> forall x :: x in rooms ==> !IsNormalRoom(x))
  {
    var preferred := PreferredRooms(subject);
    if preferred != [] then Some(Pick(preferred, r))
    else
      var normal := Filter(rooms, IsNormalRoom);
      if |normal| == 0 then None else Some(Pick(normal, r))
  }

  /** The demo's room list always has an ordinary room, so every demo course gets a room. */
  lemma DemoRoomFound(subject: string, r: real)
    requires 0.0 <= r < 1.0
    ensures GetSubjectRoom(subject, Rooms, r).Some?
  {
    var room := Rooms[0];
    NotContainsWithoutFirst(room, "实验室");
    NotContainsWithoutFirst(room, "计算机");
    NotContainsWithoutFirst(room, "音乐");
    NotContainsWithoutFirst(room, "美术");
    NotContainsWithoutFirst(room, "体育馆");
  }

  /** The room a demo course may carry. */
  predicate RoomSuits(subject: string, room: Option<string>) {
    if PreferredRooms(subject) != [] then room.Some? && room.value in PreferredRooms(subject)
    else room.Some? ==> room.value in Rooms && IsNormalRoom(room.value)
  }

  // ==================== the demo course schedule ====================

  function Slot(c: Course): (int, int) { (c.day, c.period) }

  /** What every generated course is: the i-th course takes ids 5i .. 5i+4 of the id stream,
      starts inside Monday–Friday and periods 1..8, lasts two periods only for 体育, and names
      a listed subject and teacher with a suitable room. */
  predicate DemoCourse(c: Course, i: nat, uuids: nat -> string) {
    && c.id == uuids(5 * i) && c.subjectId == uuids(5 * i + 1) && c.teacherId == uuids(5 * i + 2)
    && c.classId == uuids(5 * i + 3) && c.roomId == uuids(5 * i + 4)
    && 1 <= c.day <= 5 && 1 <= c.period <= 8 && c.week == None
    && c.name.Some? && c.name.value in AllSubjects
    && c.duration == (if c.name.value == "体育" then 2 else 1)
    && c.teacher.Some? && c.teacher.value in Teachers
    && c.className.Some?
    && RoomSuits(c.name.value, c.room)
  }

  /** Courses `cs[b..]` are all generated courses of class `className` with subjects from `names`. */
  predicate Segment(cs: seq<Course>, b: nat, uuids: nat -> string, className: string, names: seq<string>) {
    b <= |cs| && forall i | b <= i < |cs| :: InSegment(cs[i], i, uuids, className, names)
  }

  predicate InSegment(c: Course, i: nat, uuids: nat -> string, className: string, names: seq<string>) {
    DemoCourse(c, i, uuids) && c.className == Some(className) && c.name.value in names
  }

  /** The start slots of `cs[b..]` are pairwise different and none of them is in `used`. */
  predicate FreshSlots(cs: seq<Course>, b: nat, used: set<(int, int)>) {
    b <= |cs|
    && (forall i, j | b <= i < j < |cs| :: Slot(cs[i]) != Slot(cs[j]))
    && (forall i | b <= i < |cs| :: Slot(cs[i]) !in used)
  }

  function SlotsFrom(cs: seq<Course>, b: nat): set<(int, int)>
    requires b <= |cs|
  {
    set i | b <= i < |cs| :: Slot(cs[i])
  }

  /** Two courses of `cs[b..]` with the same subject have the same teacher. */
  predicate SameTeacher(cs: seq<Course>, b: nat) {
    b <= |cs| &&
    forall i, j | b <= i < j < |cs| && cs[i].name == cs[j].name :: cs[i].teacher == cs[j].teacher
  }

  /** The number of courses with subject `name`. */
  function NamedCount(cs: seq<Course>, name: string): (n: nat)
    ensures n <= |cs|
  {
    if |cs| == 0 then 0
    else NamedCount(cs[..|cs| - 1], name) + (if cs[|cs| - 1].name == Some(name) then 1 else 0)
  }

  lemma {:induction false} NamedCountConcat(a: seq<Course>, b: seq<Course>, name: string)
    ensures NamedCount(a + b, name) == NamedCount(a, name) + NamedCount(b, name)
    decreases |b|
  {
    if |b| == 0 {
      assert a + b == a;
    } else {
      assert (a + b)[..|a + b| - 1] == a + b[..|b| - 1];
      assert (a + b)[|a + b| - 1] == b[|b| - 1];
      NamedCountConcat(a, b[..|b| - 1], name);
    }
  }

  /** Counting a subject over courses all of one subject. */
  lemma {:induction false} NamedCountUniform(cs: seq<Course>, subject: string, name: string)
    requires forall i | 0 <= i < |cs| :: cs[i].name == Some(subject)
    ensures NamedCount(cs, name) == if name == subject then |cs| else 0
  {
    if |cs| > 0 {
      NamedCountUniform(cs[..|cs| - 1], subject, name);
    }
  }

  /** The largest number of weekly sessions a subject of each group asks for. */
  function MaxSessions(subject: string): nat {
    if subject in MainSubjects then 4 else 2
  }

  /** Appending one generated course extends a segment. */
  lemma SegmentSnoc(prev: seq<Course>, course: Course, b: nat, uuids: nat -> string, className: string, names: seq<string>)
    requires Segment(prev, b, uuids, className, names)
    requires InSegment(course, |prev|, uuids, className, names)
    ensures Segment(prev + [course], b, uuids, className, names)
  {
    var cs := prev + [course];
    forall i | b <= i < |cs|
      ensures InSegment(cs[i], i, uuids, className, names)
    {
      if i < |prev| {
        assert cs[i] == prev[i];
      }
    }
  }

  /** Appending a course whose slot is fresh keeps the slots fresh. */
  lemma FreshSlotsSnoc(prev: seq<Course>, course: Course, b: nat, used0: set<(int, int)>)
    requires FreshSlots(prev, b, used0)
    requires Slot(course) !in used0 + SlotsFrom(prev, b)
    ensures FreshSlots(prev + [course], b, used0)
    ensures SlotsFrom(prev + [course], b) == SlotsFrom(prev, b) + {Slot(course)}
  {
    var cs := prev + [course];
    forall i | b <= i < |prev| ensures Slot(cs[i]) != Slot(course) {
      assert cs[i] == prev[i];
      assert Slot(prev[i]) in SlotsFrom(prev, b);
    }
    forall i, j | b <= i < j < |cs| ensures Slot(cs[i]) != Slot(cs[j]) {
      if j < |prev| {
        assert cs[i] == prev[i] && cs[j] == prev[j];
      }
    }
    forall i | b <= i < |cs| ensures Slot(cs[i]) !in used0 {
      if i < |prev| {
        assert cs[i] == prev[i];
      }
    }
    forall x | x in SlotsFrom(cs, b) ensures x in SlotsFrom(prev, b) + {Slot(course)} {
      var i :| b <= i < |cs| && x == Slot(cs[i]);
      if i < |prev| {
        assert cs[i] == prev[i];
      }
    }
    forall x | x in SlotsFrom(prev, b) ensures x in SlotsFrom(cs, b) {
      var i :| b <= i < |prev| && x == Slot(prev[i]);
      assert cs[i] == prev[i];
    }
    assert cs[|prev|] == course;
  }

  /** A course built from the next five ids, a slot inside the grid, the subject's duration
      and a suitable room is a generated course. */
  lemma GeneratedCourse(
    uuids: nat -> string, n: nat, day: int, period: int, duration: int, subject: string,
    teacher: string, className: string, room: Option<string>)
    requires 1 <= day <= 5 && 1 <= period <= 8
    requires subject in AllSubjects && teacher in Teachers
    requires duration == if subject == "体育" then 2 else 1
    requires RoomSuits(subject, room)
    ensures InSegment(
      Course(uuids(5 * n), uuids(5 * n + 1), uuids(5 * n + 2), uuids(5 * n + 3), uuids(5 * n + 4),
        day, period, duration, None, Some(subject), Some(teacher), Some(className), room),
      n, uuids, className, [subject])
  {
  }

  /** One session: a slot draw, and on success one more course with that slot and the next
      five ids, with the room drawn after it. */
  method ScheduleSession(
    samples: nat -> real, uuids: nat -> string, className: string, subject: string, teacher: string,
    duration: int, used0: set<(int, int)>, courses0: seq<Course>, k0: nat)
    returns (used: set<(int, int)>, courses: seq<Course>, k: nat)
    requires Unit(samples)
    requires subject in AllSubjects && teacher in Teachers
    requires duration == if subject == "体育" then 2 else 1
    ensures |courses| == |courses0| || |courses| == |courses0| + 1
    ensures |courses| == |courses0| + 1 <==> Attempts(samples, k0, used0) < MaxAttempts
    ensures |courses| == |courses0| ==> courses == courses0 && used == used0
    ensures |courses| == |courses0| + 1 ==>
      var c := courses[|courses0|];
      && courses == courses0 + [c]
      && InSegment(c, |courses0|, uuids, className, [subject])
      && c.teacher == Some(teacher)
      && Slot(c) !in used0 && used == used0 + {Slot(c)}
  {
    used, courses := used0, courses0;
    var day, period, attempts := DrawSlot(samples, k0, used);
    k := k0 + 2 * attempts;
    if attempts < MaxAttempts {
      used := used + {(day, period)};
      var n := |courses|;
      var room := GetSubjectRoom(subject, Rooms, samples(k));
      assert RoomSuits(subject, room);
      k := k + 1;
      var course := Course(
        uuids(5 * n), uuids(5 * n + 1), uuids(5 * n + 2), uuids(5 * n + 3), uuids(5 * n + 4),
        day, period, duration, None, Some(subject), Some(teacher), Some(className), room);
      GeneratedCourse(uuids, n, day, period, duration, subject, teacher, className, room);
      courses := courses + [course];
    }
  }

  /** The sessions of one subject for one class: each session retries for a free slot and is
      dropped when none was found in time. */
  method ScheduleSessions(
    samples: nat -> real, uuids: nat -> string, className: string, subject: string, teacher: string,
    duration: int, sessions: nat, used0: set<(int, int)>, courses0: seq<Course>, k0: nat)
    returns (used: set<(int, int)>, courses: seq<Course>, k: nat)
    requires Unit(samples)
    requires subject in AllSubjects && teacher in Teachers
    requires duration == if subject == "体育" then 2 else 1
    ensures |courses0| <= |courses| <= |courses0| + sessions && courses[..|courses0|] == courses0
    ensures Segment(courses, |courses0|, uuids, className, [subject])
    ensures FreshSlots(courses, |courses0|, used0)
    ensures used == used0 + SlotsFrom(courses, |courses0|)
    ensures forall i | |courses0| <= i < |courses| :: courses[i].teacher == Some(teacher)
  {
    used, courses, k := used0, courses0, k0;
    for session := 0 to sessions
      invariant |courses0| <= |courses| <= |courses0| + session && courses[..|courses0|] == courses0
      invariant Segment(courses, |courses0|, uuids, className, [subject])
      invariant FreshSlots(courses, |courses0|, used0)
      invariant used == used0 + SlotsFrom(courses, |courses0|)
      invariant forall i | |courses0| <= i < |courses| :: courses[i].teacher == Some(teacher)
    {
      var prev := courses;
      used, courses, k := ScheduleSession(samples, uuids, className, subject, teacher, duration, used, courses, k);
      if |courses| == |prev| + 1 {
        var c := courses[|prev|];
        SegmentSnoc(prev, c, |courses0|, uuids, className, [subject]);
        FreshSlotsSnoc(prev, c, |courses0|, used0);
        assert forall i | 0 <= i < |prev| :: courses[i] == prev[i];
      }
    }
  }

  /** Two adjacent segments of one class form one segment. */
  lemma SegmentsJoin(
    prev: seq<Course>, cs: seq<Course>, b: nat, uuids: nat -> string, className: string,
    names1: seq<string>, names2: seq<string>)
    requires |prev| <= |cs| && cs[..|prev|] == prev
    requires Segment(prev, b, uuids, className, names1) && Segment(cs, |prev|, uuids, className, names2)
    ensures Segment(cs, b, uuids, className, names1 + names2)
  {
    forall i | b <= i < |cs| ensures InSegment(cs[i], i, uuids, className, names1 + names2) {
      if i < |prev| {
        assert cs[i] == prev[i];
        assert InSegment(prev[i], i, uuids, className, names1);
      } else {
        assert InSegment(cs[i], i, uuids, className, names2);
      }
    }
  }

  /** Slots fresh in two adjacent parts, the second fresh against the first, are fresh. */
  lemma FreshSlotsJoin(prev: seq<Course>, cs: seq<Course>, b: nat, used0: set<(int, int)>, used1: set<(int, int)>)
    requires b <= |prev| <= |cs| && cs[..|prev|] == prev
    requires FreshSlots(prev, b, used0) && used1 == used0 + SlotsFrom(prev, b) && FreshSlots(cs, |prev|, used1)
    ensures FreshSlots(cs, b, used0)
    ensures SlotsFrom(cs, b) == SlotsFrom(prev, b) + SlotsFrom(cs, |prev|)
  {
    assert forall i | 0 <= i < |prev| :: cs[i] == prev[i];
    forall i | b <= i < |prev| ensures Slot(cs[i]) in SlotsFrom(prev, b) {
      assert Slot(prev[i]) in SlotsFrom(prev, b);
    }
    forall x | x in SlotsFrom(cs, b) ensures x in SlotsFrom(prev, b) + SlotsFrom(cs, |prev|) {
      var i :| b <= i < |cs| && x == Slot(cs[i]);
      if i < |prev| {
        assert Slot(prev[i]) in SlotsFrom(prev, b);
      } else {
        assert Slot(cs[i]) in SlotsFrom(cs, |prev|);
      }
    }
    forall x | x in SlotsFrom(prev, b) + SlotsFrom(cs, |prev|) ensures x in SlotsFrom(cs, b) {
      if x in SlotsFrom(prev, b) {
        var i :| b <= i < |prev| && x == Slot(prev[i]);
        assert Slot(cs[i]) in SlotsFrom(cs, b);
      } else {
        var i :| |prev| <= i < |cs| && x == Slot(cs[i]);
        assert Slot(cs[i]) in SlotsFrom(cs, b);
      }
    }
  }

  /** Adjacent parts with the same-teacher property and disjoint subjects keep it together. */
  lemma SameTeacherJoin(
    prev: seq<Course>, cs: seq<Course>, b: nat, uuids: nat -> string, className: string,
    names1: seq<string>, names2: seq<string>)
    requires |prev| <= |cs| && cs[..|prev|] == prev
    requires Segment(prev, b, uuids, className, names1) && Segment(cs, |prev|, uuids, className, names2)
    requires SameTeacher(prev, b) && SameTeacher(cs, |prev|)
    requires forall x | x in names1 :: x !in names2
    ensures SameTeacher(cs, b)
  {
    assert forall i | 0 <= i < |prev| :: cs[i] == prev[i];
    forall i, j | b <= i < |prev| <= j < |cs| ensures cs[i].name != cs[j].name {
      assert InSegment(prev[i], i, uuids, className, names1);
      assert InSegment(cs[j], j, uuids, className, names2);
    }
  }

  /** A subject outside a segment's subjects is counted zero times in it. */
  lemma {:induction false} NamedCountOutside(
    cs: seq<Course>, b: nat, uuids: nat -> string, className: string, names: seq<string>, name: string)
    requires Segment(cs, b, uuids, className, names) && name !in names
    ensures NamedCount(cs[b..], name) == 0
    decreases |cs|
  {
    if b < |cs| {
      var init := cs[..|cs| - 1];
      assert cs[b..][..|cs[b..]| - 1] == init[b..];
      assert cs[b..][|cs[b..]| - 1] == cs[|cs| - 1];
      assert InSegment(cs[|cs| - 1], |cs| - 1, uuids, className, names);
      assert Segment(init, b, uuids, className, names) by {
        forall i | b <= i < |init| ensures InSegment(init[i], i, uuids, className, names) {
          assert init[i] == cs[i];
        }
      }
      NamedCountOutside(init, b, uuids, className, names, name);
    }
  }

  /** The three groups of subjects and how many weekly sessions each asks for. */
  datatype SubjectGroup = Main | Minor | Special

  function GroupSubjects(g: SubjectGroup): seq<string> {
    match g
    case Main => MainSubjects
    case Minor => MinorSubjects
    case Special => SpecialSubjects
  }

  /** No subject is listed twice, within a group or across groups. */
  lemma SubjectsDistinct()
    ensures Distinct(AllSubjects)
    ensures forall g: SubjectGroup :: Distinct(GroupSubjects(g))
  {
  }

  function GroupMax(g: SubjectGroup): nat {
    if g == Main then 4 else 2
  }

  /** Main subjects ask for 3–4 sessions, minor ones for 2, special ones for 1–2; the number of
      sessions is drawn only for main and special subjects. */
  function SessionsPerWeek(g: SubjectGroup, r: real): (n: nat)
    requires 0.0 <= r < 1.0
    ensures g == Main ==> 3 <= n <= 4
    ensures g == Minor ==> n == 2
    ensures g == Special ==> 1 <= n <= 2
    ensures n <= GroupMax(g)
  {
    match g
    case Main => 3 + Scale(r, 2)
    case Minor => 2
    case Special => 1 + Scale(r, 2)
  }

  /** One subject for one class (the body of the per-subject loop): the teacher is drawn once,
      then the number of sessions, then the sessions. */
  method ScheduleSubject(
    samples: nat -> real, uuids: nat -> string, className: string, group: SubjectGroup, subject: string,
    used0: set<(int, int)>, courses0: seq<Course>, k0: nat)
    returns (used: set<(int, int)>, courses: seq<Course>, k: nat)
    requires Unit(samples) && subject in GroupSubjects(group)
    ensures |courses0| <= |courses| <= |courses0| + GroupMax(group) && courses[..|courses0|] == courses0
    ensures Segment(courses, |courses0|, uuids, className, [subject])
    ensures FreshSlots(courses, |courses0|, used0)
    ensures used == used0 + SlotsFrom(courses, |courses0|)
    ensures SameTeacher(courses, |courses0|)
  {
    k := k0;
    var teacher := Pick(Teachers, samples(k));
    k := k + 1;
    var sessions: nat;
    if group == Minor {
      sessions := 2;
    } else {
      sessions := SessionsPerWeek(group, samples(k));
      k := k + 1;
    }
    var duration := if group == Special && subject == "体育" then 2 else 1;
    used, courses, k := ScheduleSessions(samples, uuids, className, subject, teacher, duration, sessions, used0, courses0, k);
  }

  /** Appending courses of one subject `subject` to a part adds their number to its count and
      leaves other subjects' counts alone. */
  lemma {:induction false} NamedCountSnocSubject(prev: seq<Course>, cs: seq<Course>, b: nat, subject: string, name: string)
    requires b <= |prev| <= |cs| && cs[..|prev|] == prev
    requires forall i | 0 <= i < |cs[|prev|..]| :: cs[|prev|..][i].name == Some(subject)
    ensures NamedCount(cs[b..], name) == NamedCount(prev[b..], name) + if name == subject then |cs| - |prev| else 0
  {
    assert cs[b..] == prev[b..] + cs[|prev|..];
    NamedCountConcat(prev[b..], cs[|prev|..], name);
    NamedCountUniform(cs[|prev|..], subject, name);
  }

  /** Every course of a one-subject segment carries that subject's name. */
  lemma SingleSubjectNames(cs: seq<Course>, b: nat, uuids: nat -> string, className: string, subject: string)
    requires Segment(cs, b, uuids, className, [subject])
    ensures forall i | 0 <= i < |cs[b..]| :: cs[b..][i].name == Some(subject)
  {
    forall i | 0 <= i < |cs[b..]| ensures cs[b..][i].name == Some(subject) {
      assert InSegment(cs[b + i], b + i, uuids, className, [subject]);
    }
  }

  /** What holds after the first `s` subjects of a group were scheduled onto `courses0`. */
  predicate GroupProgress(
    cs: seq<Course>, courses0: seq<Course>, uuids: nat -> string, className: string,
    group: SubjectGroup, s: nat, used0: set<(int, int)>, used: set<(int, int)>)
  {
    var b := |courses0|;
    var subjects := GroupSubjects(group);
    && s <= |subjects|
    && b <= |cs| && cs[..b] == courses0
    && Segment(cs, b, uuids, className, subjects[..s])
    && FreshSlots(cs, b, used0)
    && used == used0 + SlotsFrom(cs, b)
    && SameTeacher(cs, b)
    && (forall m | 0 <= m < |subjects| :: NamedCount(cs[b..], subjects[m]) <= if m < s then GroupMax(group) else 0)
    && |cs| - b <= s * GroupMax(group)
  }

  /** Scheduling the next subject of the group advances the progress by one subject. */
  lemma GroupStep(
    prev: seq<Course>, cs: seq<Course>, courses0: seq<Course>, uuids: nat -> string, className: string,
    group: SubjectGroup, s: nat, used0: set<(int, int)>, usedBefore: set<(int, int)>, used: set<(int, int)>)
    requires s < |GroupSubjects(group)|
    requires GroupProgress(prev, courses0, uuids, className, group, s, used0, usedBefore)
    requires |prev| <= |cs| <= |prev| + GroupMax(group) && cs[..|prev|] == prev
    requires Segment(cs, |prev|, uuids, className, [GroupSubjects(group)[s]])
    requires FreshSlots(cs, |prev|, usedBefore) && used == usedBefore + SlotsFrom(cs, |prev|)
    requires SameTeacher(cs, |prev|)
    ensures GroupProgress(cs, courses0, uuids, className, group, s + 1, used0, used)
  {
    var subjects := GroupSubjects(group);
    var subject := subjects[s];
    var b := |courses0|;
    assert cs[..b] == courses0 by {
      assert cs[..b] == cs[..|prev|][..b];
    }
    assert subjects[..s + 1] == subjects[..s] + [subject];
    EarlierSubjectsDiffer(group, s);
    SegmentsJoin(prev, cs, b, uuids, className, subjects[..s], [subject]);
    FreshSlotsJoin(prev, cs, b, used0, usedBefore);
    UsedJoin(used0, usedBefore, used, SlotsFrom(prev, b), SlotsFrom(cs, |prev|), SlotsFrom(cs, b));
    SameTeacherJoin(prev, cs, b, uuids, className, subjects[..s], [subject]);
    GroupCountStep(prev, cs, b, uuids, className, group, s);
    MulStep(s, GroupMax(group));
  }

  lemma UsedJoin<T>(used0: set<T>, used1: set<T>, used: set<T>, a: set<T>, c: set<T>, ac: set<T>)
    requires used1 == used0 + a && used == used1 + c && ac == a + c
    ensures used == used0 + ac
  {
  }

  lemma MulStep(s: nat, g: nat)
    ensures (s + 1) * g == s * g + g
  {
  }

  lemma GroupCountStep(
    prev: seq<Course>, cs: seq<Course>, b: nat, uuids: nat -> string, className: string, group: SubjectGroup, s: nat)
    requires s < |GroupSubjects(group)|
    requires b <= |prev| <= |cs| <= |prev| + GroupMax(group) && cs[..|prev|] == prev
    requires forall m | 0 <= m < |GroupSubjects(group)| ::
      NamedCount(prev[b..], GroupSubjects(group)[m]) <= if m < s then GroupMax(group) else 0
    requires Segment(cs, |prev|, uuids, className, [GroupSubjects(group)[s]])
    ensures forall m | 0 <= m < |GroupSubjects(group)| ::
      NamedCount(cs[b..], GroupSubjects(group)[m]) <= if m < s + 1 then GroupMax(group) else 0
  {
    var subjects := GroupSubjects(group);
    SingleSubjectNames(cs, |prev|, uuids, className, subjects[s]);
    forall m | 0 <= m < |subjects|
      ensures NamedCount(cs[b..], subjects[m]) <= if m < s + 1 then GroupMax(group) else 0
    {
      NamedCountSnocSubject(prev, cs, b, subjects[s], subjects[m]);
      GroupSubjectsDiffer(group, m, s);
    }
  }

  /** The subjects of a group before the `s`-th all differ from it. */
  lemma EarlierSubjectsDiffer(group: SubjectGroup, s: nat)
    requires s < |GroupSubjects(group)|
    ensures forall x | x in GroupSubjects(group)[..s] :: x !in [GroupSubjects(group)[s]]
  {
    forall x | x in GroupSubjects(group)[..s] ensures x !in [GroupSubjects(group)[s]] {
      var m :| 0 <= m < s && GroupSubjects(group)[m] == x;
      GroupSubjectsDiffer(group, m, s);
    }
  }

  lemma GroupSubjectsDiffer(group: SubjectGroup, m: nat, s: nat)
    requires m < |GroupSubjects(group)| && s < |GroupSubjects(group)|
    ensures GroupSubjects(group)[m] == GroupSubjects(group)[s] <==> m == s
  {
    SubjectsDistinct();
  }

  /** What scheduling a whole group onto `courses0` gives. */
  predicate GroupDone(
    courses0: seq<Course>, cs: seq<Course>, uuids: nat -> string, className: string,
    group: SubjectGroup, used0: set<(int, int)>, used: set<(int, int)>)
  {
    && |courses0| <= |cs| && cs[..|courses0|] == courses0
    && Segment(cs, |courses0|, uuids, className, GroupSubjects(group))
    && FreshSlots(cs, |courses0|, used0)
    && used == used0 + SlotsFrom(cs, |courses0|)
    && SameTeacher(cs, |courses0|)
    && (forall m | 0 <= m < |GroupSubjects(group)| ::
          NamedCount(cs[|courses0|..], GroupSubjects(group)[m]) <= GroupMax(group))
    && |cs| - |courses0| <= |GroupSubjects(group)| * GroupMax(group)
  }

  /** One group's subjects for one class, each with a teacher drawn once for all its sessions. */
  method ScheduleGroup(
    samples: nat -> real, uuids: nat -> string, className: string, group: SubjectGroup,
    used0: set<(int, int)>, courses0: seq<Course>, k0: nat)
    returns (used: set<(int, int)>, courses: seq<Course>, k: nat)
    requires Unit(samples)
    ensures GroupDone(courses0, courses, uuids, className, group, used0, used)
  {
    used, courses, k := used0, courses0, k0;
    var subjects := GroupSubjects(group);
    for s := 0 to |subjects|
      invariant GroupProgress(courses, courses0, uuids, className, group, s, used0, used)
    {
      var prev := courses;
      var usedBefore := used;
      used, courses, k := ScheduleSubject(samples, uuids, className, group, subjects[s], used, courses, k);
      GroupStep(prev, courses, courses0, uuids, className, group, s, used0, usedBefore, used);
    }
    assert subjects[..|subjects|] == subjects;
  }

  /** Where the m-th subject of the full list sits among the three groups. */
  lemma SubjectGroupOf(m: nat)
    requires m < |AllSubjects|
    ensures m < 5 ==> AllSubjects[m] in MainSubjects && AllSubjects[m] !in MinorSubjects && AllSubjects[m] !in SpecialSubjects
    ensures 5 <= m < 9 ==> AllSubjects[m] !in MainSubjects && AllSubjects[m] in MinorSubjects && AllSubjects[m] !in SpecialSubjects
    ensures 9 <= m ==> AllSubjects[m] !in MainSubjects && AllSubjects[m] !in MinorSubjects && AllSubjects[m] in SpecialSubjects
  {
    SubjectsDistinct();
    var x := AllSubjects[m];
    if m < 5 {
      assert x == MainSubjects[m];
      assert forall j | 0 <= j < |MinorSubjects| :: MinorSubjects[j] == AllSubjects[5 + j];
      assert forall j | 0 <= j < |SpecialSubjects| :: SpecialSubjects[j] == AllSubjects[9 + j];
    } else if m < 9 {
      assert x == MinorSubjects[m - 5];
      assert forall j | 0 <= j < |MainSubjects| :: MainSubjects[j] == AllSubjects[j];
      assert forall j | 0 <= j < |SpecialSubjects| :: SpecialSubjects[j] == AllSubjects[9 + j];
    } else {
      assert x == SpecialSubjects[m - 9];
      assert forall j | 0 <= j < |MainSubjects| :: MainSubjects[j] == AllSubjects[j];
      assert forall j | 0 <= j < |MinorSubjects| :: MinorSubjects[j] == AllSubjects[5 + j];
    }
  }

  /** A count over three adjacent parts is the sum of the three counts. */
  lemma {:induction false} NamedCountThree(c1: seq<Course>, c2: seq<Course>, c3: seq<Course>, b: nat, x: string)
    requires b <= |c1| <= |c2| <= |c3| && c2[..|c1|] == c1 && c3[..|c2|] == c2
    ensures NamedCount(c3[b..], x) == NamedCount(c1[b..], x) + NamedCount(c2[|c1|..], x) + NamedCount(c3[|c2|..], x)
  {
    assert c3[b..] == c1[b..] + c2[|c1|..] + c3[|c2|..] by {
      assert c3[..|c1|] == c1;
    }
    NamedCountConcat(c1[b..] + c2[|c1|..], c3[|c2|..], x);
    NamedCountConcat(c1[b..], c2[|c1|..], x);
  }

  /** The per-subject counts of a class's three group segments combine into its bound. */
  lemma ClassCounts(
    courses0: seq<Course>, c1: seq<Course>, c2: seq<Course>, c3: seq<Course>, uuids: nat -> string, className: string,
    used1: set<(int, int)>, used2: set<(int, int)>, used3: set<(int, int)>)
    requires GroupDone(courses0, c1, uuids, className, Main, {}, used1)
    requires GroupDone(c1, c2, uuids, className, Minor, used1, used2)
    requires GroupDone(c2, c3, uuids, className, Special, used2, used3)
    ensures forall m | 0 <= m < |AllSubjects| ::
      NamedCount(c3[|courses0|..], AllSubjects[m]) <= MaxSessions(AllSubjects[m])
  {
    assert GroupSubjects(Main) == MainSubjects && GroupMax(Main) == 4;
    assert GroupSubjects(Minor) == MinorSubjects && GroupMax(Minor) == 2;
    assert GroupSubjects(Special) == SpecialSubjects && GroupMax(Special) == 2;
    SubjectCountsIn(courses0, c1, c2, c3, uuids, className);
  }

  /** Every subject's count over a class's three group segments. */
  lemma SubjectCountsIn(
    courses0: seq<Course>, c1: seq<Course>, c2: seq<Course>, c3: seq<Course>, uuids: nat -> string, className: string)
    requires |courses0| <= |c1| <= |c2| <= |c3| && c2[..|c1|] == c1 && c3[..|c2|] == c2
    requires Segment(c1, |courses0|, uuids, className, MainSubjects)
    requires Segment(c2, |c1|, uuids, className, MinorSubjects)
    requires Segment(c3, |c2|, uuids, className, SpecialSubjects)
    requires forall j | 0 <= j < |MainSubjects| :: NamedCount(c1[|courses0|..], MainSubjects[j]) <= 4
    requires forall j | 0 <= j < |MinorSubjects| :: NamedCount(c2[|c1|..], MinorSubjects[j]) <= 2
    requires forall j | 0 <= j < |SpecialSubjects| :: NamedCount(c3[|c2|..], SpecialSubjects[j]) <= 2
    ensures forall m | 0 <= m < |AllSubjects| ::
      NamedCount(c3[|courses0|..], AllSubjects[m]) <= MaxSessions(AllSubjects[m])
  {
    forall m | 0 <= m < |AllSubjects|
      ensures NamedCount(c3[|courses0|..], AllSubjects[m]) <= MaxSessions(AllSubjects[m])
    {
      SubjectCountIn(courses0, c1, c2, c3, uuids, className, m);
    }
  }

  /** One subject's count over a class's three group segments. */
  lemma SubjectCountIn(
    courses0: seq<Course>, c1: seq<Course>, c2: seq<Course>, c3: seq<Course>, uuids: nat -> string, className: string,
    m: nat)
    requires |courses0| <= |c1| <= |c2| <= |c3| && c2[..|c1|] == c1 && c3[..|c2|] == c2
    requires Segment(c1, |courses0|, uuids, className, MainSubjects)
    requires Segment(c2, |c1|, uuids, className, MinorSubjects)
    requires Segment(c3, |c2|, uuids, className, SpecialSubjects)
    requires forall j | 0 <= j < |MainSubjects| :: NamedCount(c1[|courses0|..], MainSubjects[j]) <= 4
    requires forall j | 0 <= j < |MinorSubjects| :: NamedCount(c2[|c1|..], MinorSubjects[j]) <= 2
    requires forall j | 0 <= j < |SpecialSubjects| :: NamedCount(c3[|c2|..], SpecialSubjects[j]) <= 2
    requires m < |AllSubjects|
    ensures NamedCount(c3[|courses0|..], AllSubjects[m]) <= MaxSessions(AllSubjects[m])
  {
    var b := |courses0|;
    var x := AllSubjects[m];
    NamedCountThree(c1, c2, c3, b, x);
    SubjectGroupOf(m);
    if m < 5 {
      assert x == MainSubjects[m];
      NamedCountOutside(c2, |c1|, uuids, className, MinorSubjects, x);
      NamedCountOutside(c3, |c2|, uuids, className, SpecialSubjects, x);
    } else if m < 9 {
      assert x == MinorSubjects[m - 5];
      NamedCountOutside(c1, b, uuids, className, MainSubjects, x);
      NamedCountOutside(c3, |c2|, uuids, className, SpecialSubjects, x);
    } else {
      assert x == SpecialSubjects[m - 9];
      NamedCountOutside(c1, b, uuids, className, MainSubjects, x);
      NamedCountOutside(c2, |c1|, uuids, className, MinorSubjects, x);
    }
  }

  /** No subject belongs to two groups. */
  lemma GroupsDisjoint()
    ensures forall x | x in MainSubjects :: x !in MinorSubjects
    ensures forall x | x in MainSubjects + MinorSubjects :: x !in SpecialSubjects
  {
    forall x | x in MainSubjects ensures x !in MinorSubjects && x !in SpecialSubjects {
      var j :| 0 <= j < |MainSubjects| && MainSubjects[j] == x;
      assert AllSubjects[j] == x;
      SubjectGroupOf(j);
    }
    forall x | x in MinorSubjects ensures x !in SpecialSubjects {
      var j :| 0 <= j < |MinorSubjects| && MinorSubjects[j] == x;
      assert AllSubjects[5 + j] == x;
      SubjectGroupOf(5 + j);
    }
  }

  /** The three group segments of a class form the class's segment. */
  lemma GroupsJoin(
    courses0: seq<Course>, c1: seq<Course>, c2: seq<Course>, c3: seq<Course>, uuids: nat -> string, className: string,
    used1: set<(int, int)>, used2: set<(int, int)>)
    requires |courses0| <= |c1| && c1[..|courses0|] == courses0
    requires |c1| <= |c2| && c2[..|c1|] == c1
    requires |c2| <= |c3| && c3[..|c2|] == c2
    requires Segment(c1, |courses0|, uuids, className, MainSubjects)
    requires Segment(c2, |c1|, uuids, className, MinorSubjects)
    requires Segment(c3, |c2|, uuids, className, SpecialSubjects)
    requires FreshSlots(c1, |courses0|, {}) && used1 == SlotsFrom(c1, |courses0|)
    requires FreshSlots(c2, |c1|, used1) && used2 == used1 + SlotsFrom(c2, |c1|)
    requires FreshSlots(c3, |c2|, used2)
    requires SameTeacher(c1, |courses0|) && SameTeacher(c2, |c1|) && SameTeacher(c3, |c2|)
    ensures c3[..|courses0|] == courses0
    ensures Segment(c3, |courses0|, uuids, className, AllSubjects)
    ensures FreshSlots(c3, |courses0|, {})
    ensures SameTeacher(c3, |courses0|)
  {
    var b := |courses0|;
    assert c3[..b] == courses0 by {
      assert c3[..b] == c3[..|c2|][..|c1|][..b];
    }
    GroupsDisjoint();
    SegmentsJoin(c1, c2, b, uuids, className, MainSubjects, MinorSubjects);
    FreshSlotsJoin(c1, c2, b, {}, used1);
    SameTeacherJoin(c1, c2, b, uuids, className, MainSubjects, MinorSubjects);
    SegmentsJoin(c2, c3, b, uuids, className, MainSubjects + MinorSubjects, SpecialSubjects);
    FreshSlotsJoin(c2, c3, b, {}, used2);
    SameTeacherJoin(c2, c3, b, uuids, className, MainSubjects + MinorSubjects, SpecialSubjects);
  }

  /** What the three group calls of one class give, stated as the class's result. */
  lemma ClassFromGroups(
    courses0: seq<Course>, c1: seq<Course>, c2: seq<Course>, c3: seq<Course>, uuids: nat -> string, className: string,
    used1: set<(int, int)>, used2: set<(int, int)>, used3: set<(int, int)>)
    requires GroupDone(courses0, c1, uuids, className, Main, {}, used1)
    requires GroupDone(c1, c2, uuids, className, Minor, used1, used2)
    requires GroupDone(c2, c3, uuids, className, Special, used2, used3)
    ensures |courses0| <= |c3| <= |courses0| + 36 && c3[..|courses0|] == courses0
    ensures Segment(c3, |courses0|, uuids, className, AllSubjects)
    ensures FreshSlots(c3, |courses0|, {})
    ensures SameTeacher(c3, |courses0|)
    ensures forall m | 0 <= m < |AllSubjects| ::
      NamedCount(c3[|courses0|..], AllSubjects[m]) <= MaxSessions(AllSubjects[m])
  {
    assert c3[..|c1|] == c1 by {
      assert c3[..|c1|] == c3[..|c2|][..|c1|];
    }
    GroupsJoin(courses0, c1, c2, c3, uuids, className, used1, used2);
    ClassCounts(courses0, c1, c2, c3, uuids, className, used1, used2, used3);
  }

  /** One class's schedule: main, then minor, then special subjects, all sharing one set of
      used start slots. */
  method GenerateForClass(samples: nat -> real, uuids: nat -> string, className: string, courses0: seq<Course>, k0: nat)
    returns (courses: seq<Course>, k: nat)
    requires Unit(samples)
    ensures |courses0| <= |courses| <= |courses0| + 36 && courses[..|courses0|] == courses0
    ensures Segment(courses, |courses0|, uuids, className, AllSubjects)
    ensures FreshSlots(courses, |courses0|, {})
    ensures SameTeacher(courses, |courses0|)
    ensures forall m | 0 <= m < |AllSubjects| ::
      NamedCount(courses[|courses0|..], AllSubjects[m]) <= MaxSessions(AllSubjects[m])
  {
    var usedSlots: set<(int, int)> := {};
    var used1, c1, k1 := ScheduleGroup(samples, uuids, className, Main, usedSlots, courses0, k0);
    var used2, c2, k2 := ScheduleGroup(samples, uuids, className, Minor, used1, c1, k1);
    var used3, c3, k3 := ScheduleGroup(samples, uuids, className, Special, used2, c2, k2);
    courses, k := c3, k3;
    ClassFromGroups(courses0, c1, c2, c3, uuids, className, used1, used2, used3);
  }

  /** The whole generated list: generated courses of listed classes, no two courses of one
      class on the same start slot, one teacher per subject within a class. */
  predicate DemoSchedule(cs: seq<Course>, classes: seq<string>, uuids: nat -> string) {
    && (forall i | 0 <= i < |cs| :: DemoCourse(cs[i], i, uuids) && cs[i].className.value in classes)
    && (forall i, j | 0 <= i < j < |cs| && cs[i].className == cs[j].className :: Slot(cs[i]) != Slot(cs[j]))
    && (forall i, j | 0 <= i < j < |cs| && cs[i].className == cs[j].className && cs[i].name == cs[j].name ::
          cs[i].teacher == cs[j].teacher)
  }

  /** The class names are distinct. */
  lemma ClassesDistinct()
    ensures Distinct(Classes)
  {
  }

  /** Appending the schedule of the next class keeps the whole list a demo schedule. */
  lemma ClassStep(prev: seq<Course>, cs: seq<Course>, uuids: nat -> string, ci: nat)
    requires ci < |Classes|
    requires DemoSchedule(prev, Classes[..ci], uuids)
    requires |prev| <= |cs| && cs[..|prev|] == prev
    requires Segment(cs, |prev|, uuids, Classes[ci], AllSubjects)
    requires FreshSlots(cs, |prev|, {}) && SameTeacher(cs, |prev|)
    ensures DemoSchedule(cs, Classes[..ci + 1], uuids)
  {
    ClassesDistinct();
    assert forall i | 0 <= i < |prev| :: cs[i] == prev[i];
    assert Classes[..ci + 1] == Classes[..ci] + [Classes[ci]];
    forall i | 0 <= i < |cs| ensures DemoCourse(cs[i], i, uuids) && cs[i].className.value in Classes[..ci + 1] {
      if i >= |prev| {
        assert InSegment(cs[i], i, uuids, Classes[ci], AllSubjects);
      }
    }
    forall i, j | 0 <= i < |prev| <= j < |cs| ensures cs[i].className != cs[j].className {
      assert InSegment(cs[j], j, uuids, Classes[ci], AllSubjects);
      assert Classes[ci] !in Classes[..ci];
    }
  }

  /** How many courses of `cs` belong to class `cn`. */
  function ClassCount(cs: seq<Course>, cn: string): (n: nat)
    ensures n <= |cs|
  {
    if |cs| == 0 then 0
    else ClassCount(cs[..|cs| - 1], cn) + (if cs[|cs| - 1].className == Some(cn) then 1 else 0)
  }

  lemma {:induction false} ClassCountConcat(a: seq<Course>, b: seq<Course>, cn: string)
    ensures ClassCount(a + b, cn) == ClassCount(a, cn) + ClassCount(b, cn)
    decreases |b|
  {
    if |b| == 0 {
      assert a + b == a;
    } else {
      assert (a + b)[..|a + b| - 1] == a + b[..|b| - 1];
      assert (a + b)[|a + b| - 1] == b[|b| - 1];
      ClassCountConcat(a, b[..|b| - 1], cn);
    }
  }

  /** A class none of the courses belongs to counts zero. */
  lemma {:induction false} ClassCountAbsent(cs: seq<Course>, cn: string)
    requires forall i | 0 <= i < |cs| :: cs[i].className != Some(cn)
    ensures ClassCount(cs, cn) == 0
  {
    if |cs| > 0 {
      ClassCountAbsent(cs[..|cs| - 1], cn);
    }
  }

  /** The classes scheduled before the next one hold none of its courses. */
  lemma PrevLacksClass(prev: seq<Course>, uuids: nat -> string, ci: nat)
    requires ci < |Classes| && DemoSchedule(prev, Classes[..ci], uuids)
    ensures ClassCount(prev, Classes[ci]) == 0
  {
    ClassesDistinct();
    assert Classes[ci] !in Classes[..ci];
    forall i | 0 <= i < |prev| ensures prev[i].className != Some(Classes[ci]) {
      assert prev[i].className.value in Classes[..ci];
    }
    ClassCountAbsent(prev, Classes[ci]);
  }

  /** A class's segment holds no course of any other class. */
  lemma SegmentLacksOthers(cs: seq<Course>, b: nat, uuids: nat -> string, className: string)
    requires Segment(cs, b, uuids, className, AllSubjects)
    ensures forall cn | cn != className :: ClassCount(cs[b..], cn) == 0
  {
    forall cn | cn != className ensures ClassCount(cs[b..], cn) == 0 {
      forall i | 0 <= i < |cs[b..]| ensures cs[b..][i].className != Some(cn) {
        assert InSegment(cs[b + i], b + i, uuids, className, AllSubjects);
      }
      ClassCountAbsent(cs[b..], cn);
    }
  }

  /** Appending at most 36 courses of a class absent so far keeps every class at 36 or fewer. */
  lemma ClassCountStep(prev: seq<Course>, cs: seq<Course>, cn0: string)
    requires forall cn :: ClassCount(prev, cn) <= 36
    requires |prev| <= |cs| <= |prev| + 36 && cs[..|prev|] == prev
    requires ClassCount(prev, cn0) == 0
    requires forall cn | cn != cn0 :: ClassCount(cs[|prev|..], cn) == 0
    ensures forall cn :: ClassCount(cs, cn) <= 36
  {
    var seg := cs[|prev|..];
    assert cs == prev + seg;
    forall cn ensures ClassCount(cs, cn) <= 36 {
      ClassCountConcat(prev, seg, cn);
    }
  }

  /** `generateDemoData`. */
  method GenerateDemoData(samples: nat -> real, uuids: nat -> string) returns (courses: seq<Course>)
    requires Unit(samples)
    ensures forall i | 0 <= i < |courses| :: DemoCourse(courses[i], i, uuids) && courses[i].className.value in Classes
    ensures forall i, j | 0 <= i < j < |courses| && courses[i].className == courses[j].className ::
      Slot(courses[i]) != Slot(courses[j])
    ensures forall i, j | 0 <= i < j < |courses| && courses[i].className == courses[j].className
        && courses[i].name == courses[j].name ::
      courses[i].teacher == courses[j].teacher
    ensures |courses| <= 36 * |Classes|
    ensures forall cn :: ClassCount(courses, cn) <= 36
  {
    courses := [];
    var k := 0;
    for ci := 0 to |Classes|
      invariant DemoSchedule(courses, Classes[..ci], uuids)
      invariant |courses| <= 36 * ci
      invariant forall cn :: ClassCount(courses, cn) <= 36
    {
      var prev := courses;
      courses, k := GenerateForClass(samples, uuids, Classes[ci], courses, k);
      ClassStep(prev, courses, uuids, ci);
      PrevLacksClass(prev, uuids, ci);
      SegmentLacksOthers(courses, |prev|, uuids, Classes[ci]);
      ClassCountStep(prev, courses, Classes[ci]);
    }
    assert Classes[..|Classes|] == Classes;
  }

  // ==================== grades and classes ====================

  const GradeNames: seq<string> := ["高一", "高二", "高三"]
  const ClassCountPerGrade: seq<nat> := [6, 5, 4]
  const ClassTeachers: seq<string> := ["张老师", "李老师", "王老师", "赵老师", "陈老师", "刘老师", "杨老师", "黄老师"]

  /** The position of grade g's first class in the class list. */
  function ClassOffset(g: nat): nat
    requires g <= |ClassCountPerGrade|
  {
    if g == 0 then 0 else ClassOffset(g - 1) + ClassCountPerGrade[g - 1]
  }

  /** The grade of the i-th generated class. */
  function GradeOf(i: nat): (g: nat)
    requires i < ClassOffset(3)
    ensures g < 3 && ClassOffset(g) <= i < ClassOffset(g + 1)
  {
    if i < 6 then 0 else if i < 11 then 1 else 2
  }

  function ClassDescription(n: int): string {
    if n == 1 then "重点班" else if n == 2 then "实验班" else ""
  }

  function GradeDescription(grade: string, count: nat): string {
    grade + "年级，共" + NatToString(count) + "个班级"
  }

  /** The i-th generated class: class number n of grade g, whose id was drawn just before its
      classes' ids, with 35..49 students and one of the listed head teachers. */
  predicate DemoClass(c: ClassInfo, i: nat, uuids: nat -> string, u0: nat)
    requires i < ClassOffset(3)
  {
    var g := GradeOf(i);
    var n := i - ClassOffset(g) + 1;
    && c.id == uuids(u0 + i + g + 1)
    && c.gradeId == uuids(u0 + ClassOffset(g) + g)
    && c.grade == GradeNames[g]
    && c.classNumber == n
    && c.name == ClassLabel(GradeNames[g], n)
    && 35 <= c.studentCount <= 49
    && c.classTeacher.Some? && c.classTeacher.value in ClassTeachers
    && c.description == Some(ClassDescription(n))
  }

  /** A class built as the generator builds class `n` of grade `g` at position `i`. */
  lemma {:induction false} DemoClassBuilt(i: nat, g: nat, n: int, c: ClassInfo, uuids: nat -> string, u0: nat)
    requires g < 3 && i == ClassOffset(g) + n - 1 && 1 <= n <= ClassCountPerGrade[g]
    requires c.id == uuids(u0 + i + g + 1) && c.gradeId == uuids(u0 + ClassOffset(g) + g)
    requires c.grade == GradeNames[g] && c.classNumber == n && c.name == ClassLabel(GradeNames[g], n)
    requires 35 <= c.studentCount <= 49 && c.classTeacher.Some? && c.classTeacher.value in ClassTeachers
    requires c.description == Some(ClassDescription(n))
    ensures i < ClassOffset(3) && DemoClass(c, i, uuids, u0)
  {
    assert GradeOf(i) == g;
  }

  /** The inner loop of `generateDemoGradesAndClasses`: the classes of grade `g`, appended to the
      classes of the grades before it; each class takes one uuid and two samples. */
  method GenerateGradeClasses(samples: nat -> real, k0: nat, uuids: nat -> string, u0: nat, g: nat,
                              classes0: seq<ClassInfo>)
    returns (classes: seq<ClassInfo>, k: nat)
    requires Unit(samples) && g < 3 && |classes0| == ClassOffset(g)
    requires forall i | 0 <= i < |classes0| :: DemoClass(classes0[i], i, uuids, u0)
    ensures |classes| == ClassOffset(g + 1) && k == k0 + 2 * ClassCountPerGrade[g]
    ensures forall i | 0 <= i < |classes| :: DemoClass(classes[i], i, uuids, u0)
  {
    classes, k := classes0, k0;
    var gradeName := GradeNames[g];
    var gradeId := uuids(u0 + ClassOffset(g) + g);
    var u := u0 + ClassOffset(g) + g + 1;
    for classNum := 1 to ClassCountPerGrade[g] + 1
      invariant |classes| == ClassOffset(g) + classNum - 1
      invariant u == u0 + |classes| + g + 1 && k == k0 + 2 * (classNum - 1)
      invariant forall i | 0 <= i < |classes| :: DemoClass(classes[i], i, uuids, u0)
    {
      var id := uuids(u);
      u := u + 1;
      var studentCount := 35 + Scale(samples(k), 15);
      var classTeacher := Pick(ClassTeachers, samples(k + 1));
      k := k + 2;
      var classInfo := ClassInfo(
        id, ClassLabel(gradeName, classNum), gradeName, gradeId, classNum, studentCount,
        Some(classTeacher), Some(ClassDescription(classNum)));
      DemoClassBuilt(|classes|, g, classNum, classInfo, uuids, u0);
      var prev := classes;
      classes := prev + [classInfo];
      forall i | 0 <= i < |classes| ensures DemoClass(classes[i], i, uuids, u0) {
        if i < |prev| {
          assert classes[i] == prev[i];
        }
      }
    }
  }

  /** `generateDemoGradesAndClasses`: three grades of 6, 5 and 4 classes. */
  method GenerateDemoGradesAndClasses(samples: nat -> real, k0: nat, uuids: nat -> string, u0: nat)
    returns (grades: seq<GradeInfo>, classes: seq<ClassInfo>)
    requires Unit(samples)
    ensures |grades| == 3 && |classes| == ClassOffset(3) == 15
    ensures forall g | 0 <= g < 3 ::
      grades[g] == GradeInfo(uuids(u0 + ClassOffset(g) + g), GradeNames[g], g + 1,
        Some(GradeDescription(GradeNames[g], ClassCountPerGrade[g])))
    ensures forall i | 0 <= i < |classes| :: DemoClass(classes[i], i, uuids, u0)
    ensures forall i | 0 <= i < |classes| ::
      classes[i].gradeId == grades[GradeOf(i)].id && classes[i].grade == grades[GradeOf(i)].name
      && 1 <= classes[i].classNumber <= ClassCountPerGrade[GradeOf(i)]
  {
    grades, classes := [], [];
    var k := k0;
    for g := 0 to |GradeNames|
      invariant |grades| == g && |classes| == ClassOffset(g)
      invariant forall h | 0 <= h < g ::
        grades[h] == GradeInfo(uuids(u0 + ClassOffset(h) + h), GradeNames[h], h + 1,
          Some(GradeDescription(GradeNames[h], ClassCountPerGrade[h])))
      invariant forall i | 0 <= i < |classes| :: DemoClass(classes[i], i, uuids, u0)
    {
      var gradeId := uuids(u0 + ClassOffset(g) + g);
      classes, k := GenerateGradeClasses(samples, k, uuids, u0, g, classes);
      var grade := GradeInfo(gradeId, GradeNames[g], g + 1, Some(GradeDescription(GradeNames[g], ClassCountPerGrade[g])));
      assert forall h | 0 <= h < g :: (grades + [grade])[h] == grades[h];
      grades := grades + [grade];
    }
    DemoClassesInGrades(grades, classes, uuids, u0);
  }

  /** Every generated class belongs to the generated grade of its position, and its number lies
      within that grade's class count. */
  lemma DemoClassesInGrades(grades: seq<GradeInfo>, classes: seq<ClassInfo>, uuids: nat -> string, u0: nat)
    requires |grades| == 3 && |classes| == ClassOffset(3)
    requires forall g | 0 <= g < 3 :: grades[g].id == uuids(u0 + ClassOffset(g) + g) && grades[g].name == GradeNames[g]
    requires forall i | 0 <= i < |classes| :: DemoClass(classes[i], i, uuids, u0)
    ensures forall i | 0 <= i < |classes| ::
      classes[i].gradeId == grades[GradeOf(i)].id && classes[i].grade == grades[GradeOf(i)].name
      && 1 <= classes[i].classNumber <= ClassCountPerGrade[GradeOf(i)]
  {
  }
}

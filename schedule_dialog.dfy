/** The schedule-creation dialog: the weekday toggle, the date, time and
    capacity rules, the conflict check and the auto-filled form fields. */
module ScheduleDialog {
  import opened Wrappers
  import opened Strings
  import opened Sorting
  import opened Lookup
  import opened SchedulingModel

  // ------------------------------------------------------------ weekdays

  /** The order of `Array.prototype.sort()` without a comparator: numbers
      are compared as their decimal strings. */
  predicate DayLe(a: int, b: int) {
    StringLe(IntToString(a), IntToString(b))
  }

  lemma {:induction false} DayLeIsTotalPreorder()
    ensures TotalPreorder(DayLe)
  {
    StringLeIsTotalPreorder();
    forall a: int, b: int ensures DayLe(a, b) || DayLe(b, a) {
      assert StringLe(IntToString(a), IntToString(b)) || StringLe(IntToString(b), IntToString(a));
    }
    forall a: int, b: int, c: int | DayLe(a, b) && DayLe(b, c) ensures DayLe(a, c) {
      assert StringLe(IntToString(a), IntToString(b)) && StringLe(IntToString(b), IntToString(c));
    }
  }

  /** For single digits, as every weekday number 0 to 6 is, string order is
      numeric order. */
  lemma {:induction false} DayLeIsNumericForDigits(a: int, b: int)
    requires 0 <= a < 10 && 0 <= b < 10
    ensures DayLe(a, b) <==> a <= b
  {
    assert IntToString(a) == [DigitChar(a)] && IntToString(b) == [DigitChar(b)];
    assert LexLess([DigitChar(b)], [DigitChar(a)]) <==> b < a;
  }

  /** `handleDayToggle(day)`: a selected day is filtered out; an unselected
      one is appended and the list re-sorted. */
  function DayToggle(days: seq<int>, day: int): seq<int> {
    if day in days then Filter(days, (d: int) => d != day)
    else SortBy(days + [day], DayLe)
  }

  /** The toggled day changes membership; no other day does. */
  lemma {:induction false} DayToggleFlips(days: seq<int>, day: int)
    ensures day in DayToggle(days, day) <==> day !in days
    ensures forall d :: d != day ==> (d in DayToggle(days, day) <==> d in days)
  {
    var r := DayToggle(days, day);
    if day in days {
      var p := (d: int) => d != day;
      FilterKeepsOrder(days, p);
      forall d | d != day ensures d in r <==> d in days {
        if d in days {
          var k :| 0 <= k < |days| && days[k] == d;
          assert multiset(r)[days[k]] == multiset(days)[days[k]] > 0;
        }
      }
    } else {
      SortByMembers(days + [day], DayLe);
    }
  }

  /** Removing a day keeps the others in their order. */
  lemma {:induction false} DayToggleRemovalKeepsOrder(days: seq<int>, day: int)
    requires day in days
    ensures IsSubsequence(DayToggle(days, day), days)
  {
    FilterKeepsOrder(days, (d: int) => d != day);
  }

  /** Adding a weekday to weekdays yields them in ascending numeric order. */
  lemma {:induction false} DayToggleSortsWeekdays(days: seq<int>, day: int)
    requires day !in days && 0 <= day <= 6
    requires forall k :: 0 <= k < |days| ==> 0 <= days[k] <= 6
    ensures forall i, j :: 0 <= i < j < |DayToggle(days, day)| ==> DayToggle(days, day)[i] <= DayToggle(days, day)[j]
  {
    var s := days + [day];
    var r := SortBy(s, DayLe);
    DayLeIsTotalPreorder();
    SortBySorts(s, DayLe);
    SortByMembers(s, DayLe);
    forall i, j | 0 <= i < j < |r| ensures r[i] <= r[j] {
      assert r[i] in s && r[j] in s;
      DayLeIsNumericForDigits(r[i], r[j]);
    }
  }

  // ---------------------------------------------------------- validators

  /** The end-date rule: an error exactly when the end precedes the start. */
  function EndDateError(startDate: int, endDate: int): (e: Option<string>)
    ensures e.Some? <==> endDate < startDate
  {
    if endDate < startDate then Some("종료일은 시작일 이후여야 합니다.") else None
  }

  /** The end-time rule on the raw "HH:mm" strings: skipped while the start
      time is empty, otherwise an error when `endTime <= startTime` as
      strings. */
  function EndTimeError(startTime: string, endTime: string): (e: Option<string>)
    ensures startTime == "" ==> e.None?
    ensures startTime != "" ==> (e.Some? <==> !LexLess(startTime, endTime))
  {
    if startTime != "" && !LexLess(startTime, endTime) then Some("종료 시간은 시작 시간 이후여야 합니다.")
    else None
  }

  function DigitValue(c: char): nat
    requires IsDigit(c)
  {
    c as int - '0' as int
  }

  /** A well-formed "HH:mm" value of a time input. */
  predicate IsClockTime(s: string) {
    |s| == 5 && IsDigit(s[0]) && IsDigit(s[1]) && s[2] == ':' && IsDigit(s[3]) && '0' <= s[3] <= '5' && IsDigit(s[4])
  }

  /** Minutes since midnight of an "HH:mm" string. */
  function MinutesOf(s: string): nat
    requires IsClockTime(s)
  {
    DigitValue(s[0]) * 600 + DigitValue(s[1]) * 60 + DigitValue(s[3]) * 10 + DigitValue(s[4])
  }

  lemma {:induction false} LexStep(a: string, b: string)
    requires |a| > 0 && |b| > 0 && a[0] == b[0]
    ensures LexLess(a, b) == LexLess(a[1..], b[1..])
  {
  }

  /** On well-formed times string order is time order, so the end time is
      rejected exactly when it is not later than the start time. */
  lemma {:induction false} EndTimeRuleIsTimeOrder(startTime: string, endTime: string)
    requires IsClockTime(startTime) && IsClockTime(endTime)
    ensures EndTimeError(startTime, endTime).Some? <==> MinutesOf(endTime) <= MinutesOf(startTime)
  {
    var a, b := startTime, endTime;
    if a[0] == b[0] {
      LexStep(a, b);
      if a[1] == b[1] {
        LexStep(a[1..], b[1..]);
        LexStep(a[2..], b[2..]);
        assert a[1..][1..] == a[2..] && b[1..][1..] == b[2..];
        assert a[2..][1..] == a[3..] && b[2..][1..] == b[3..];
        if a[3] == b[3] {
          LexStep(a[3..], b[3..]);
          assert a[3..][1..] == a[4..] && b[3..][1..] == b[4..];
          assert LexLess(a[4..], b[4..]) <==> a[4] < b[4];
        }
      } else {
        assert a[1..][0] == a[1] && b[1..][0] == b[1];
      }
    }
  }

  /** The upper capacity bound: the chosen platform's `maxCapacity`, or 300
      when no platform matches (`?.maxCapacity || 300`, so a zero capacity
      also falls back). */
  function CapacityBound(platformId: string, platforms: seq<OnlinePlatform>): (bound: int)
    ensures FindPlatform(platforms, platformId).None? ==> bound == 300
    ensures FindPlatform(platforms, platformId).Some? ==>
      bound == if FindPlatform(platforms, platformId).value.maxCapacity != 0
               then FindPlatform(platforms, platformId).value.maxCapacity else 300
  {
    match FindPlatform(platforms, platformId)
    case None => 300
    case Some(p) => if p.maxCapacity != 0 then p.maxCapacity else 300
  }

  /** The capacity rules `min: 1` and `max: CapacityBound`. */
  predicate CapacityValid(capacity: int, platformId: string, platforms: seq<OnlinePlatform>) {
    1 <= capacity <= CapacityBound(platformId, platforms)
  }

  /** With the mock platforms: Teams allows 300, the custom platform 50, and
      an unknown platform falls back to 300. */
  lemma {:induction false} MockCapacityBounds()
    ensures CapacityBound("platform-2", Platforms) == 300
    ensures CapacityBound("platform-4", Platforms) == 50
    ensures CapacityBound("", Platforms) == 300
  {
    assert Platforms[0].id != "" && Platforms[1].id != "" && Platforms[2].id != "" && Platforms[3].id != "";
    assert Platforms[0].id != "platform-4" && Platforms[1].id != "platform-4" && Platforms[2].id != "platform-4";
  }

  datatype Conflict = Conflict(kind: string, message: string)

  /** `checkConflicts`: one platform conflict exactly when the chosen
      platform exists and is unavailable. */
  function CheckConflicts(platformId: string, platforms: seq<OnlinePlatform>): (r: seq<Conflict>)
    ensures |r| <= 1
    ensures |r| == 1 <==> FindPlatform(platforms, platformId).Some? && !FindPlatform(platforms, platformId).value.isAvailable
    ensures |r| == 1 ==> r[0].kind == "platform"
  {
    match FindPlatform(platforms, platformId)
    case None => []
    case Some(p) =>
      if !p.isAvailable then [Conflict("platform", p.name + "은(는) 현재 사용 불가능합니다.")]
      else []
  }

  /** Every mock platform is available, so the check never reports anything
      for them. */
  lemma {:induction false} MockPlatformsNeverConflict(platformId: string)
    ensures CheckConflicts(platformId, Platforms) == []
  {
    assert forall k :: 0 <= k < |Platforms| ==> Platforms[k].isAvailable;
  }

  // ------------------------------------------------------------- the form

  /** The course and instructor lists the dialog looks up. */
  datatype Course = Course(id: string, title: string, instructorId: string)
  datatype Instructor = Instructor(id: string, name: string)

  function FindCourse(courses: seq<Course>, id: string): (r: Option<Course>)
    ensures r.Some? ==> r.value in courses && r.value.id == id
    ensures r.None? <==> forall k :: 0 <= k < |courses| ==> courses[k].id != id
  {
    Find(courses, (c: Course) => c.id == id)
  }

  function FindInstructor(instructors: seq<Instructor>, id: string): (r: Option<Instructor>)
    ensures r.Some? ==> r.value in instructors && r.value.id == id
    ensures r.None? <==> forall k :: 0 <= k < |instructors| ==> instructors[k].id != id
  {
    Find(instructors, (i: Instructor) => i.id == id)
  }

  /** The course effect: for a known course, fill the title and instructor
      id, and the instructor name when that instructor is known. */
  function CourseFill(v: ScheduleFormData, courses: seq<Course>, instructors: seq<Instructor>): (r: ScheduleFormData)
    ensures v.courseId == "" || FindCourse(courses, v.courseId).None? ==> r == v
    ensures r.(courseTitle := v.courseTitle, instructorId := v.instructorId, instructorName := v.instructorName) == v
    ensures FindCourse(courses, v.courseId).Some? && v.courseId != "" ==>
      var c := FindCourse(courses, v.courseId).value;
      r.courseTitle == c.title && r.instructorId == c.instructorId
      && r.instructorName == match FindInstructor(instructors, c.instructorId)
                             case Some(i) => i.name
                             case None => v.instructorName
  {
    if v.courseId == "" then v
    else
      match FindCourse(courses, v.courseId)
      case None => v
      case Some(c) =>
        var w := v.(courseTitle := c.title, instructorId := c.instructorId);
        match FindInstructor(instructors, c.instructorId)
        case Some(i) => w.(instructorName := i.name)
        case None => w
  }

  /** The platform effect: a known platform fills the platform name. */
  function PlatformFill(v: ScheduleFormData, platforms: seq<OnlinePlatform>): (r: ScheduleFormData)
    ensures r.(platformName := v.platformName) == v
    ensures v.platformId != "" && FindPlatform(platforms, v.platformId).Some? ==>
      r.platformName == FindPlatform(platforms, v.platformId).value.name
    ensures v.platformId == "" || FindPlatform(platforms, v.platformId).None? ==> r == v
  {
    if v.platformId == "" then v
    else
      match FindPlatform(platforms, v.platformId)
      case None => v
      case Some(p) => v.(platformName := p.name)
  }

  /** The dialog's default values at instant `now`. */
  function DefaultForm(now: int): ScheduleFormData {
    ScheduleFormData("", "", "", "", "", "", now, now, "09:00", "12:00", [], 30, false)
  }

  /** The defaults pass the date, time and capacity rules for every mock
      platform. */
  lemma {:induction false} DefaultsAreValid(now: int, platformId: string)
    ensures EndDateError(DefaultForm(now).startDate, DefaultForm(now).endDate).None?
    ensures EndTimeError(DefaultForm(now).startTime, DefaultForm(now).endTime).None?
    ensures CapacityValid(DefaultForm(now).maxCapacity, platformId, Platforms)
  {
    assert LexLess("09:00", "12:00");
    var bound := CapacityBound(platformId, Platforms);
    assert forall k :: 0 <= k < |Platforms| ==> Platforms[k].maxCapacity >= 50;
  }

  /** The dialog's form state. */
  class ScheduleForm {
    var values: ScheduleFormData

    constructor(now: int)
      ensures values == DefaultForm(now)
    {
      values := DefaultForm(now);
    }

    method OnCourseChange(courses: seq<Course>, instructors: seq<Instructor>)
      modifies this
      ensures values == CourseFill(old(values), courses, instructors)
    {
      if values.courseId != "" {
        var course := FindCourse(courses, values.courseId);
        if course.Some? {
          values := values.(courseTitle := course.value.title);
          values := values.(instructorId := course.value.instructorId);
          var instructor := FindInstructor(instructors, course.value.instructorId);
          if instructor.Some? {
            values := values.(instructorName := instructor.value.name);
          }
        }
      }
    }

    method OnPlatformChange(platforms: seq<OnlinePlatform>)
      modifies this
      ensures values == PlatformFill(old(values), platforms)
    {
      if values.platformId != "" {
        var platform := FindPlatform(platforms, values.platformId);
        if platform.Some? {
          values := values.(platformName := platform.value.name);
        }
      }
    }

    method HandleDayToggle(day: int)
      modifies this
      ensures values == old(values).(dayOfWeek := DayToggle(old(values).dayOfWeek, day))
    {
      values := values.(dayOfWeek := DayToggle(values.dayOfWeek, day));
    }
  }
}

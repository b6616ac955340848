/** The scheduling page: the status filter, ten schedules per page with a
    five-button page window, the counters and the creation of a schedule
    from the dialog's data. */
module SchedulingPage {
  import opened Wrappers
  import opened Strings
  import opened Lookup
  import opened JsMath
  import opened SchedulingModel

  datatype StatusFilter = All | Only(status: ScheduleStatus)

  const ItemsPerPage: nat := 10

  /** `filteredSchedules`. */
  function Filtered(schedules: seq<CourseSchedule>, filter: StatusFilter): (r: seq<CourseSchedule>)
    ensures filter.All? ==> r == schedules
    ensures filter.Only? ==> forall k :: 0 <= k < |r| ==> r[k].status == filter.status && r[k] in schedules
  {
    Filter(schedules, (s: CourseSchedule) => filter.All? || s.status == filter.status)
  }

  /** A status filter keeps every schedule of that status, in order. */
  lemma {:induction false} FilteredKeepsMatches(schedules: seq<CourseSchedule>, st: ScheduleStatus)
    ensures IsSubsequence(Filtered(schedules, Only(st)), schedules)
    ensures forall k :: 0 <= k < |schedules| && schedules[k].status == st ==> schedules[k] in Filtered(schedules, Only(st))
  {
    var p := (s: CourseSchedule) => Only(st).All? || s.status == Only(st).status;
    FilterKeepsOrder(schedules, p);
    forall k | 0 <= k < |schedules| && schedules[k].status == st
      ensures schedules[k] in Filtered(schedules, Only(st))
    {
      assert multiset(Filter(schedules, p))[schedules[k]] == multiset(schedules)[schedules[k]] > 0;
    }
  }

  /** `Math.ceil(n / itemsPerPage)`: the fewest pages of ten that hold n. */
  function TotalPages(n: nat): (t: nat)
    ensures t * ItemsPerPage >= n
    ensures t == 0 || (t - 1) * ItemsPerPage < n
  {
    (n + ItemsPerPage - 1) / ItemsPerPage
  }

  /** `slice(startIndex, endIndex)` for page p (counted from 1). */
  function PageItems<T>(items: seq<T>, page: nat): (r: seq<T>)
    requires page >= 1
    ensures |r| == Max(0, Min(ItemsPerPage, |items| - (page - 1) * ItemsPerPage))
    ensures forall k :: 0 <= k < |r| ==> r[k] == items[(page - 1) * ItemsPerPage + k]
  {
    Slice(items, (page - 1) * ItemsPerPage, (page - 1) * ItemsPerPage + ItemsPerPage)
  }

  /** The pages split the list: every item sits on exactly one page, at its
      position within that page. */
  lemma {:induction false} EveryItemOnItsPage<T>(items: seq<T>, k: nat)
    requires k < |items|
    ensures var page := k / ItemsPerPage + 1;
      page <= TotalPages(|items|) && k % ItemsPerPage < |PageItems(items, page)|
      && PageItems(items, page)[k % ItemsPerPage] == items[k]
  {
  }

  /** The pagination bar is rendered only for more than one page of items. */
  predicate ShowsPagination(n: nat) {
    n > ItemsPerPage
  }

  /** The numbers of the "start-end" range text for page p. */
  function RangeBounds(page: nat, n: nat): (nat, nat)
    requires page >= 1
  {
    ((page - 1) * ItemsPerPage + 1, Min((page - 1) * ItemsPerPage + ItemsPerPage, n))
  }

  /** On a page that has items the range covers exactly them. */
  lemma {:induction false} RangeCoversPage<T>(items: seq<T>, page: nat)
    requires 1 <= page <= TotalPages(|items|)
    ensures var (first, last) := RangeBounds(page, |items|);
      first <= last && last - first + 1 == |PageItems(items, page)|
  {
  }

  /** The number on button i of the page window. */
  function WindowPage(totalPages: int, current: int, i: int): int {
    if totalPages <= 5 then i + 1
    else if current <= 3 then i + 1
    else if current >= totalPages - 2 then totalPages - 4 + i
    else current - 2 + i
  }

  /** The page buttons: `Math.min(5, totalPages)` of them. */
  function Window(totalPages: nat, current: int): (w: seq<int>)
    ensures |w| == Min(5, totalPages)
    ensures forall i :: 0 <= i < |w| ==> w[i] == WindowPage(totalPages, current, i)
  {
    seq(Min(5, totalPages), i => WindowPage(totalPages, current, i))
  }

  /** Up to five pages the window lists them all. */
  lemma {:induction false} SmallWindowListsAll(totalPages: nat, current: int)
    requires totalPages <= 5
    ensures forall i :: 0 <= i < |Window(totalPages, current)| ==> Window(totalPages, current)[i] == i + 1
  {
  }

  /** Beyond five pages the window is five consecutive existing pages, and it
      shows the current page when that page exists. */
  lemma {:induction false} WideWindowShape(totalPages: nat, current: int)
    requires totalPages > 5
    ensures var w := Window(totalPages, current);
      |w| == 5 && 1 <= w[0] && w[4] <= totalPages
      && (forall i :: 0 <= i < 5 ==> w[i] == w[0] + i)
      && (1 <= current <= totalPages ==> current in w)
  {
    var w := Window(totalPages, current);
    if 1 <= current <= totalPages {
      var i := current - w[0];
      assert 0 <= i < 5 && w[i] == current;
    }
  }

  datatype Stats = Stats(total: nat, confirmed: nat, draft: nat, conflicts: nat)

  predicate HasConflicts(s: CourseSchedule) {
    |s.conflicts| > 0
  }

  /** `stats`, over all schedules whatever the filter. */
  function StatsOf(schedules: seq<CourseSchedule>): (st: Stats)
    ensures st.total == |schedules|
    ensures st.confirmed + st.draft <= st.total && st.conflicts <= st.total
    decreases |schedules|
  {
    if schedules == [] then Stats(0, 0, 0, 0)
    else
      var s := schedules[0];
      var rest := StatsOf(schedules[1..]);
      Stats(rest.total + 1,
        rest.confirmed + (if s.status == Confirmed then 1 else 0),
        rest.draft + (if s.status == Draft then 1 else 0),
        rest.conflicts + (if HasConflicts(s) then 1 else 0))
  }

  /** The counters agree with the filter: the confirmed and draft counts
      are the sizes of those filtered lists. */
  lemma {:induction false} StatsMatchFilter(schedules: seq<CourseSchedule>)
    ensures StatsOf(schedules).confirmed == |Filtered(schedules, Only(Confirmed))|
    ensures StatsOf(schedules).draft == |Filtered(schedules, Only(Draft))|
    decreases |schedules|
  {
    if schedules != [] {
      StatsMatchFilter(schedules[1..]);
    }
  }

  // ------------------------------------------------------------ creation

  /** The random draws behind a new schedule's meeting: the meeting number
      below 1000000, whether a password is set (`Math.random() > 0.5`), the
      password number below 10000, and whether recording is on. */
  datatype MeetingDraws = MeetingDraws(meetingNumber: nat, withPassword: bool, passwordNumber: nat, recording: bool)

  /** The link host of a platform type; custom platforms get a Google Meet
      link. */
  function MeetingHost(t: PlatformType): string {
    match t
    case Zoom => "zoom.us"
    case Teams => "teams.microsoft.com"
    case _ => "meet.google.com"
  }

  /** The platform type of the chosen platform, Zoom when there is none. */
  function ChosenType(platformId: string): PlatformType {
    match FindPlatform(Platforms, platformId)
    case Some(p) => p.platformType
    case None => Zoom
  }

  /** The clock readings the handler takes, in milliseconds: `Date.now()`
      for the schedule id, `Date.now()` again for the id of slot k (one read
      per slot), and a `new Date()` each for the creation and update
      instants. */
  datatype ClockReads = ClockReads(scheduleId: nat, slotId: nat -> nat, created: nat, updated: nat)

  /** The time slot for the k-th chosen day: the form's dates, that day,
      and an id from the slot's own clock reading and its index. */
  function SlotOf(data: ScheduleFormData, clock: ClockReads, k: nat): (t: TimeSlot)
    requires k < |data.dayOfWeek|
    ensures t.dayOfWeek == data.dayOfWeek[k]
    ensures t.startTime == data.startDate && t.endTime == data.endDate
    ensures t.id == "slot-" + NatToString(clock.slotId(k)) + "-" + NatToString(k)
  {
    TimeSlot("slot-" + NatToString(clock.slotId(k)) + "-" + NatToString(k), data.startDate, data.endDate, data.dayOfWeek[k])
  }

  /** `data.dayOfWeek.map(...)`: one time slot per chosen day, in order. */
  function SlotsOf(data: ScheduleFormData, clock: ClockReads): (slots: seq<TimeSlot>)
    ensures |slots| == |data.dayOfWeek|
    ensures forall k :: 0 <= k < |slots| ==> slots[k] == SlotOf(data, clock, k)
  {
    seq(|data.dayOfWeek|, k requires 0 <= k < |data.dayOfWeek| => SlotOf(data, clock, k))
  }

  /** The schedule the dialog's `onSubmit` builds. */
  function NewSchedule(data: ScheduleFormData, draws: MeetingDraws, clock: ClockReads): (s: CourseSchedule)
    ensures s.conflicts == [] && s.studentCount == 0
    ensures s.timeSlots == SlotsOf(data, clock)
    ensures s.status == (if data.confirmed then Confirmed else Draft)
    ensures s.meetingId.Some? && AllDigits(s.meetingId.value)
    ensures s.meetingLink == "https://" + MeetingHost(s.platformType) + "/j/" + s.meetingId.value
    ensures s.meetingPassword.Some? <==> draws.withPassword
    ensures s.id == "schedule-" + NatToString(clock.scheduleId)
    ensures s.createdAt == clock.created && s.updatedAt == clock.updated
    ensures s.courseId == data.courseId && s.maxCapacity == data.maxCapacity && s.platformId == data.platformId
  {
    var meetingId := NatToString(draws.meetingNumber);
    var platformType := ChosenType(data.platformId);
    CourseSchedule(
      "schedule-" + NatToString(clock.scheduleId),
      data.courseId, data.courseTitle, data.instructorId, data.instructorName,
      data.platformId, data.platformName, platformType,
      "https://" + MeetingHost(platformType) + "/j/" + meetingId,
      Some(meetingId),
      if draws.withPassword then Some(NatToString(draws.passwordNumber)) else None,
      SlotsOf(data, clock),
      data.startDate, data.endDate,
      if data.confirmed then Confirmed else Draft,
      [], 0, data.maxCapacity, draws.recording, clock.created, clock.updated)
  }

  /** A schedule on the custom platform gets a Google Meet link, and one with
      no known platform a Zoom link. */
  lemma {:induction false} MeetingLinkHosts(data: ScheduleFormData, draws: MeetingDraws, clock: ClockReads)
    ensures data.platformId == "platform-4" ==>
      (NewSchedule(data, draws, clock).platformType == Custom
       && StartsWith(NewSchedule(data, draws, clock).meetingLink, "https://meet.google.com/j/"))
    ensures FindPlatform(Platforms, data.platformId).None? ==>
      (NewSchedule(data, draws, clock).platformType == Zoom
       && StartsWith(NewSchedule(data, draws, clock).meetingLink, "https://zoom.us/j/"))
  {
    var s := NewSchedule(data, draws, clock);
    LinkStartsWithHost(s.platformType, s.meetingId.value);
    HostPrefixes();
    if data.platformId == "platform-4" {
      CustomPlatformChosen();
    }
  }

  /** "platform-4" is the custom platform of the list. */
  lemma {:induction false} CustomPlatformChosen()
    ensures ChosenType("platform-4") == Custom
  {
    assert Platforms[3].id == "platform-4";
    assert Platforms[0].id[9] == '1' && Platforms[1].id[9] == '2' && Platforms[2].id[9] == '3';
    FindSingle(Platforms, (p: OnlinePlatform) => p.id == "platform-4", 3);
  }

  lemma {:induction false} HostPrefixes()
    ensures "https://" + MeetingHost(Custom) + "/j/" == "https://meet.google.com/j/"
    ensures "https://" + MeetingHost(Zoom) + "/j/" == "https://zoom.us/j/"
  {
  }

  lemma {:induction false} LinkStartsWithHost(t: PlatformType, id: string)
    ensures StartsWith("https://" + MeetingHost(t) + "/j/" + id, "https://" + MeetingHost(t) + "/j/")
  {
    var p := "https://" + MeetingHost(t) + "/j/";
    assert (p + id)[..|p|] == p;
  }

  /** Prepending a created schedule adds one to the total and to its own
      status's counter, and leaves the conflict count as it was. */
  lemma {:induction false} AddingScheduleStats(schedules: seq<CourseSchedule>, data: ScheduleFormData, draws: MeetingDraws, clock: ClockReads)
    ensures var after := StatsOf([NewSchedule(data, draws, clock)] + schedules);
      var before := StatsOf(schedules);
      after.total == before.total + 1 && after.conflicts == before.conflicts
      && after.confirmed == before.confirmed + (if data.confirmed then 1 else 0)
      && after.draft == before.draft + (if data.confirmed then 0 else 1)
  {
    assert ([NewSchedule(data, draws, clock)] + schedules)[1..] == schedules;
  }

  // --------------------------------------------------------------- state

  class SchedulingPageState {
    var schedules: seq<CourseSchedule>
    var filterStatus: StatusFilter
    var currentPage: nat

    predicate Valid()
      reads this
    {
      currentPage >= 1
    }

    function FilteredSchedules(): seq<CourseSchedule>
      reads this
    {
      Filtered(schedules, filterStatus)
    }

    constructor(initial: seq<CourseSchedule>)
      ensures Valid()
      ensures schedules == initial && filterStatus == All && currentPage == 1
    {
      schedules := initial;
      filterStatus := All;
      currentPage := 1;
    }

    /** `handleFilterChange`: a new filter starts again at page 1. */
    method HandleFilterChange(filter: StatusFilter)
      modifies this
      ensures Valid()
      ensures filterStatus == filter && currentPage == 1 && schedules == old(schedules)
    {
      filterStatus := filter;
      currentPage := 1;
    }

    /** The previous-page button, present only with the pagination bar. */
    method PreviousPage()
      requires Valid() && ShowsPagination(|FilteredSchedules()|)
      modifies this
      ensures Valid()
      ensures currentPage == Max(1, old(currentPage) - 1)
      ensures schedules == old(schedules) && filterStatus == old(filterStatus)
    {
      currentPage := Max(1, currentPage - 1);
    }

    /** The next-page button, present only with the pagination bar. */
    method NextPage()
      requires Valid() && ShowsPagination(|FilteredSchedules()|)
      modifies this
      ensures Valid()
      ensures currentPage == Min(TotalPages(|FilteredSchedules()|), old(currentPage) + 1)
      ensures schedules == old(schedules) && filterStatus == old(filterStatus)
    {
      currentPage := Min(TotalPages(|Filtered(schedules, filterStatus)|), currentPage + 1);
    }

    /** A page button of the window. */
    method GoToPage(page: int)
      requires Valid() && ShowsPagination(|FilteredSchedules()|)
      requires page in Window(TotalPages(|FilteredSchedules()|), currentPage)
      modifies this
      ensures Valid()
      ensures currentPage == page && schedules == old(schedules) && filterStatus == old(filterStatus)
    {
      var total := TotalPages(|Filtered(schedules, filterStatus)|);
      var w := Window(total, currentPage);
      var i :| 0 <= i < |w| && w[i] == page;
      currentPage := page;
    }

    /** The dialog's `onSubmit`: the new schedule goes in front. */
    method AddSchedule(data: ScheduleFormData, draws: MeetingDraws, clock: ClockReads)
      requires Valid()
      modifies this
      ensures Valid()
      ensures schedules == [NewSchedule(data, draws, clock)] + old(schedules)
      ensures filterStatus == old(filterStatus) && currentPage == old(currentPage)
    {
      schedules := [NewSchedule(data, draws, clock)] + schedules;
    }
  }
}

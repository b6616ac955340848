/** The filter form above the logs table: a log is kept when it passes every
    filled-in condition of the form. */
module LogsFilter {
  import opened Wrappers
  import opened Strings
  import opened Lookup
  import opened AutomationLogs

  datatype StatusFilter = AllStatuses | OnlyStatus(status: LogStatus)
  datatype LevelFilter = AllLevels | OnlyLevel(level: LogLevel)

  /** `LogsFilterForm`; the two dates are the raw input strings. */
  datatype FilterForm = FilterForm(
    workflowName: string,
    status: StatusFilter,
    level: LevelFilter,
    dateFrom: string,
    dateTo: string)

  /** How the browser reads a date string and where local time sits: `new
      Date(s)` gives an instant in milliseconds, or `None` for an invalid
      date (every comparison with it is false, so it rejects nothing), and
      `offset` is the local time zone's distance from UTC in milliseconds. */
  datatype Clock = Clock(parse: string -> Option<int>, offset: int)

  const DayMs: int := 86400000

  /** The local calendar day an instant falls on, counted from the epoch. */
  function LocalDay(t: int, offset: int): int {
    (t + offset) / DayMs
  }

  /** `toDate.setHours(23, 59, 59, 999)`: the last millisecond of the local
      day that t falls on. */
  function EndOfLocalDay(t: int, offset: int): (e: int)
    ensures t <= e < t + DayMs
    ensures LocalDay(e, offset) == LocalDay(t, offset)
    ensures LocalDay(e + 1, offset) == LocalDay(t, offset) + 1
  {
    LocalDay(t, offset) * DayMs - offset + DayMs - 1
  }

  predicate MatchesWorkflow(form: FilterForm, log: AutomationLog) {
    form.workflowName == "" || Contains(log.workflowName, form.workflowName)
  }

  predicate MatchesStatus(form: FilterForm, log: AutomationLog) {
    form.status.AllStatuses? || log.status == form.status.status
  }

  predicate MatchesLevel(form: FilterForm, log: AutomationLog) {
    form.level.AllLevels? || log.level == form.level.level
  }

  predicate StartsAfterFrom(form: FilterForm, clock: Clock, log: AutomationLog) {
    form.dateFrom == "" || clock.parse(form.dateFrom).None?
    || log.startTime >= clock.parse(form.dateFrom).value
  }

  predicate StartsBeforeTo(form: FilterForm, clock: Clock, log: AutomationLog) {
    form.dateTo == "" || clock.parse(form.dateTo).None?
    || log.startTime <= EndOfLocalDay(clock.parse(form.dateTo).value, clock.offset)
  }

  /** The callback passed to `data.filter`: the early returns in order. */
  predicate Keeps(form: FilterForm, clock: Clock, log: AutomationLog) {
    if !MatchesWorkflow(form, log) then false
    else if !MatchesStatus(form, log) then false
    else if !MatchesLevel(form, log) then false
    else if !StartsAfterFrom(form, clock, log) then false
    else StartsBeforeTo(form, clock, log)
  }

  /** `filteredData`. */
  function FilterLogs(data: seq<AutomationLog>, form: FilterForm, clock: Clock): (r: seq<AutomationLog>)
    ensures |r| <= |data|
    ensures forall k :: 0 <= k < |r| ==> r[k] in data
    ensures forall k :: 0 <= k < |r| ==> form.workflowName != "" ==> Contains(r[k].workflowName, form.workflowName)
    ensures forall k :: 0 <= k < |r| ==> form.status.OnlyStatus? ==> r[k].status == form.status.status
    ensures forall k :: 0 <= k < |r| ==> form.level.OnlyLevel? ==> r[k].level == form.level.level
    ensures forall k :: 0 <= k < |r| ==> StartsAfterFrom(form, clock, r[k]) && StartsBeforeTo(form, clock, r[k])
  {
    Filter(data, log => Keeps(form, clock, log))
  }

  /** The filtered rows keep the order of the data, and a log is dropped only
      when it fails one of the conditions. */
  lemma {:induction false} FilterLogsKeepsOrder(data: seq<AutomationLog>, form: FilterForm, clock: Clock)
    ensures IsSubsequence(FilterLogs(data, form, clock), data)
    ensures forall j :: 0 <= j < |data| ==> Keeps(form, clock, data[j]) ==> data[j] in FilterLogs(data, form, clock)
  {
    var p := log => Keeps(form, clock, log);
    FilterKeepsOrder(data, p);
    forall j | 0 <= j < |data| && Keeps(form, clock, data[j])
      ensures data[j] in FilterLogs(data, form, clock)
    {
      assert multiset(Filter(data, p))[data[j]] == multiset(data)[data[j]] > 0;
    }
  }

  /** A form with every field empty or "all" keeps all the data. */
  lemma {:induction false} EmptyFormKeepsAll(data: seq<AutomationLog>, clock: Clock)
    ensures FilterLogs(data, FilterForm("", AllStatuses, AllLevels, "", ""), clock) == data
  {
  }

  /** The `dateTo` day is inclusive: a log starting on that local day passes
      the bound, and one starting on a later local day does not. */
  lemma {:induction false} DateToDayInclusive(form: FilterForm, clock: Clock, log: AutomationLog)
    requires form.dateTo != "" && clock.parse(form.dateTo).Some?
    ensures var day := LocalDay(clock.parse(form.dateTo).value, clock.offset);
      (LocalDay(log.startTime, clock.offset) <= day ==> StartsBeforeTo(form, clock, log))
      && (LocalDay(log.startTime, clock.offset) > day ==> !StartsBeforeTo(form, clock, log))
  {
    var to := clock.parse(form.dateTo).value;
    var e := EndOfLocalDay(to, clock.offset);
    if log.startTime > e {
      DayMonotone(e + 1, log.startTime, clock.offset);
    } else {
      DayMonotone(log.startTime, e, clock.offset);
    }
  }

  /** Local days never run backwards. */
  lemma {:induction false} DayMonotone(a: int, b: int, offset: int)
    requires a <= b
    ensures LocalDay(a, offset) <= LocalDay(b, offset)
  {
  }
}

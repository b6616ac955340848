/** Workflow execution logs: the record type, the mock generator's field
    rules and its ordering, and the per-day aggregation behind the chart. */
module AutomationLogs {
  import opened Wrappers
  import opened Strings
  import opened Sorting

  datatype LogStatus = Success | Failed | Pending | Running

  datatype LogLevel = Info | Warning | Error | Debug

  /** Instants are milliseconds since the epoch (`Date#getTime`). */
  datatype AutomationLog = AutomationLog(
    id: string,
    workflowName: string,
    status: LogStatus,
    level: LogLevel,
    executionTime: int,
    recordCount: int,
    startTime: int,
    endTime: Option<int>,
    errorMessage: Option<string>,
    triggeredBy: string,
    duration: int)

  // ------------------------------------------------------------- mock data

  const Workflows: seq<string> := [
    "주문 처리 워크플로", "재고 동기화", "고객 데이터 정제", "리포트 생성",
    "이메일 발송", "데이터 백업", "결제 처리", "알림 전송"]
  const Statuses: seq<LogStatus> := [Success, Failed, Pending, Running]
  const Levels: seq<LogLevel> := [Info, Warning, Error, Debug]
  const Users: seq<string> := ["김철수", "이영희", "박민수", "정수진", "최동욱"]
  const MockErrorMessage: string := "처리 중 오류가 발생했습니다."

  /** The random draws behind one mock log: each `Math.floor(Math.random() * k)`
      is an input below k, and the start instant (today moved back by a random
      number of days, at a random hour and minute) is an input too. */
  datatype MockDraw = MockDraw(
    startTime: int,
    statusPick: nat,
    durationPick: nat,
    recordPick: nat,
    executionPick: nat,
    workflowPick: nat,
    levelPick: nat,
    userPick: nat)

  predicate ValidDraw(d: MockDraw) {
    d.statusPick < 4 && d.durationPick < 3600 && d.recordPick < 10000 && d.executionPick < 1000
    && d.workflowPick < 8 && d.levelPick < 4 && d.userPick < 5
  }

  /** The field rules every generated log obeys. */
  predicate WellFormedMockLog(log: AutomationLog) {
    && (log.endTime.None? <==> log.status == Running || log.status == Pending)
    && (log.endTime.Some? ==> log.endTime.value == log.startTime + log.duration * 1000)
    && (log.errorMessage.Some? <==> log.status == Failed)
    && 10 <= log.duration < 3610
    && log.duration * 1000 <= log.executionTime <= log.duration * 1000 + 999
    && 1 <= log.recordCount <= 10000
  }

  /** The body of the generator's loop for iteration i. */
  function MockLog(i: nat, d: MockDraw): (log: AutomationLog)
    requires ValidDraw(d)
    ensures WellFormedMockLog(log)
    ensures log.id == "log-" + NatToString(i + 1)
    ensures log.workflowName in Workflows && log.triggeredBy in Users
  {
    var status := Statuses[d.statusPick];
    var duration := d.durationPick + 10;
    var endTime := if status == Running || status == Pending then None else Some(d.startTime + duration * 1000);
    AutomationLog(
      "log-" + NatToString(i + 1),
      Workflows[d.workflowPick],
      status,
      Levels[d.levelPick],
      duration * 1000 + d.executionPick,
      d.recordPick + 1,
      d.startTime,
      endTime,
      if status == Failed then Some(MockErrorMessage) else None,
      Users[d.userPick],
      duration)
  }

  /** The generator's comparator: later start first, then id order.
      `localeCompare` on the `log-N` ids is taken as code-point order. */
  predicate MockLogLe(a: AutomationLog, b: AutomationLog) {
    a.startTime > b.startTime || (a.startTime == b.startTime && !LexLess(b.id, a.id))
  }

  lemma {:induction false} MockLogLeIsTotalPreorder()
    ensures TotalPreorder(MockLogLe)
  {
    forall a: AutomationLog, b: AutomationLog ensures MockLogLe(a, b) || MockLogLe(b, a) {
      LexTotal(a.id, b.id);
      if LexLess(a.id, b.id) {
        LexAsymmetric(a.id, b.id);
      }
    }
    forall a: AutomationLog, b: AutomationLog, c: AutomationLog | MockLogLe(a, b) && MockLogLe(b, c)
      ensures MockLogLe(a, c)
    {
      if a.startTime == b.startTime == c.startTime && LexLess(c.id, a.id) {
        LexTotal(b.id, c.id);
        LexTotal(a.id, b.id);
        if LexLess(b.id, c.id) {
          LexTransitive(b.id, c.id, a.id);
        } else if b.id == c.id {
        } else {
          LexTransitive(c.id, b.id, a.id);
        }
      }
    }
  }

  /** `generateMockLogs(count)` with `count == |draws|`: one log per draw,
      then sorted by the comparator. */
  method GenerateMockLogs(draws: seq<MockDraw>) returns (logs: seq<AutomationLog>)
    requires forall k :: 0 <= k < |draws| ==> ValidDraw(draws[k])
    ensures |logs| == |draws|
    ensures multiset(logs) == multiset(seq(|draws|, k requires 0 <= k < |draws| => MockLog(k, draws[k])))
    ensures forall k :: 0 <= k < |logs| ==> WellFormedMockLog(logs[k])
    ensures forall i, j :: 0 <= i < j < |logs| ==>
      logs[i].startTime > logs[j].startTime
      || (logs[i].startTime == logs[j].startTime && !LexLess(logs[j].id, logs[i].id))
  {
    var generated: seq<AutomationLog> := [];
    var i := 0;
    while i < |draws|
      invariant 0 <= i <= |draws|
      invariant generated == seq(i, k requires 0 <= k < i => MockLog(k, draws[k]))
    {
      generated := generated + [MockLog(i, draws[i])];
      i := i + 1;
    }
    logs := SortBy(generated, MockLogLe);
    MockLogLeIsTotalPreorder();
    SortBySorts(generated, MockLogLe);
    forall k | 0 <= k < |logs| ensures WellFormedMockLog(logs[k]) {
      assert logs[k] in multiset(generated);
    }
  }

  // ---------------------------------------------------------- aggregation

  datatype StatusCounts = StatusCounts(success: nat, failed: nat, pending: nat, running: nat)

  /** One chart row: a day and how many runs of each status started on it. */
  datatype LogsChartData = LogsChartData(date: string, success: nat, failed: nat, pending: nat, running: nat)

  const NoCounts := StatusCounts(0, 0, 0, 0)

  /** `existing[log.status] += 1`. */
  function Bump(c: StatusCounts, s: LogStatus): StatusCounts {
    match s
    case Success => c.(success := c.success + 1)
    case Failed => c.(failed := c.failed + 1)
    case Pending => c.(pending := c.pending + 1)
    case Running => c.(running := c.running + 1)
  }

  /** The number of logs whose day is `date` and whose status is s. The day
      of a log (its ISO date in the source) is the function `dateKey`. */
  function CountOf(logs: seq<AutomationLog>, dateKey: AutomationLog -> string, date: string, s: LogStatus): nat
    decreases |logs|
  {
    if logs == [] then 0
    else
      var last := logs[|logs| - 1];
      CountOf(logs[..|logs| - 1], dateKey, date, s) + (if dateKey(last) == date && last.status == s then 1 else 0)
  }

  function CountsOf(logs: seq<AutomationLog>, dateKey: AutomationLog -> string, date: string): StatusCounts {
    StatusCounts(
      CountOf(logs, dateKey, date, Success), CountOf(logs, dateKey, date, Failed),
      CountOf(logs, dateKey, date, Pending), CountOf(logs, dateKey, date, Running))
  }

  /** How many logs fall on `date`, over all statuses. */
  function DateTotal(logs: seq<AutomationLog>, dateKey: AutomationLog -> string, date: string): nat {
    var c := CountsOf(logs, dateKey, date);
    c.success + c.failed + c.pending + c.running
  }

  function RowTotal(row: LogsChartData): nat {
    row.success + row.failed + row.pending + row.running
  }

  /** The days of the logs, each once, in order of first appearance (the
      insertion order of the source's `Map`). */
  function DatesInOrder(logs: seq<AutomationLog>, dateKey: AutomationLog -> string): (r: seq<string>)
    ensures Distinct(r) && |r| <= |logs|
    ensures forall d :: d in r <==> LogOn(logs, dateKey, d)
    decreases |logs|
  {
    if logs == [] then []
    else
      var init := logs[..|logs| - 1];
      var d := dateKey(logs[|logs| - 1]);
      var r := DatesInOrder(init, dateKey);
      assert forall k :: 0 <= k < |init| ==> init[k] == logs[k];
      if d in r then r else r + [d]
  }

  /** A day on which no log falls counts zero of every status. */
  lemma {:induction false} AbsentDateCountsZero(logs: seq<AutomationLog>, dateKey: AutomationLog -> string, date: string)
    requires forall k :: 0 <= k < |logs| ==> dateKey(logs[k]) != date
    ensures DateTotal(logs, dateKey, date) == 0
    decreases |logs|
  {
    if logs != [] {
      AbsentDateCountsZero(logs[..|logs| - 1], dateKey, date);
    }
  }

  /** Adding one to f at k adds one to its sum over a list holding k once. */
  lemma {:induction false} SumBumped(days: seq<string>, f: string -> nat, g: string -> nat, k: string)
    requires Distinct(days)
    requires forall d :: g(d) == f(d) + (if d == k then 1 else 0)
    ensures SumBy(days, g) == SumBy(days, f) + (if k in days then 1 else 0)
    decreases |days|
  {
    if days != [] {
      assert Distinct(days[1..]);
      SumBumped(days[1..], f, g, k);
      assert k == days[0] ==> k !in days[1..];
    }
  }

  /** Every log is counted on exactly one day: the totals over the distinct
      days add up to the number of logs. */
  lemma {:induction false} DayTotalsCoverLogs(logs: seq<AutomationLog>, dateKey: AutomationLog -> string)
    ensures SumBy(DatesInOrder(logs, dateKey), d => DateTotal(logs, dateKey, d)) == |logs|
    decreases |logs|
  {
    if logs != [] {
      var init := logs[..|logs| - 1];
      var k := dateKey(logs[|logs| - 1]);
      var days := DatesInOrder(init, dateKey);
      var f := d => DateTotal(init, dateKey, d);
      var g := d => DateTotal(logs, dateKey, d);
      DayTotalsCoverLogs(init, dateKey);
      assert forall d :: g(d) == f(d) + (if d == k then 1 else 0);
      SumBumped(days, f, g, k);
      if k !in days {
        SumByAppend(days, [k], g);
        assert forall j :: 0 <= j < |init| ==> dateKey(init[j]) != k;
        AbsentDateCountsZero(init, dateKey, k);
        assert SumBy([k], g) == g(k) + SumBy([], g);
      }
    }
  }

  /** The chart row of a day. */
  function RowOf(date: string, c: StatusCounts): LogsChartData {
    LogsChartData(date, c.success, c.failed, c.pending, c.running)
  }

  /** Some log falls on day d. */
  predicate LogOn(logs: seq<AutomationLog>, dateKey: AutomationLog -> string, d: string) {
    exists j :: 0 <= j < |logs| && dateKey(logs[j]) == d
  }

  /** Some row is for day d. */
  predicate RowFor(rows: seq<LogsChartData>, d: string) {
    exists k :: 0 <= k < |rows| && rows[k].date == d
  }

  /** Sorting the distinct days keeps them distinct, keeps the same days and
      leaves them strictly ascending. */
  lemma {:induction false} SortedDays(order: seq<string>, days: seq<string>)
    requires Distinct(order)
    requires days == SortBy(order, StringLe)
    ensures multiset(days) == multiset(order) && forall d :: d in days <==> d in order
    ensures forall i, j :: 0 <= i < j < |days| ==> LexLess(days[i], days[j])
  {
    StringLeIsTotalPreorder();
    SortBySorts(order, StringLe);
    PermutationKeepsDistinct(order, days);
    forall d ensures d in days <==> d in order {
      assert d in days <==> d in multiset(days);
      assert d in order <==> d in multiset(order);
    }
    forall i, j | 0 <= i < j < |days| ensures LexLess(days[i], days[j]) {
      LexTotal(days[i], days[j]);
    }
  }

  /** `aggregateLogsByDate(logs)`: a `forEach` that bumps the counter record
      of each log's day in a map, then one row per map entry, sorted by day. */
  method AggregateLogsByDate(logs: seq<AutomationLog>, dateKey: AutomationLog -> string)
    returns (rows: seq<LogsChartData>)
    ensures forall k :: 0 <= k < |rows| ==> rows[k] == RowOf(rows[k].date, CountsOf(logs, dateKey, rows[k].date))
    ensures forall d :: RowFor(rows, d) <==> LogOn(logs, dateKey, d)
    ensures forall i, j :: 0 <= i < j < |rows| ==> LexLess(rows[i].date, rows[j].date)
    ensures SumBy(rows, RowTotal) == |logs|
    ensures |rows| <= |logs|
  {
    var dateMap, order := TallyByDate(logs, dateKey);
    var days := SortBy(order, StringLe);
    SortedDays(order, days);
    rows := seq(|days|, k requires 0 <= k < |days| => RowOf(days[k], dateMap[days[k]]));
    RowsCoverDays(logs, dateKey, order, days, rows);
  }

  /** The tally of `seen`: `order` holds its days in order of first
      appearance, the map has exactly those days as keys, and each day's
      counters are the counts of its logs. */
  ghost predicate Tallied(seen: seq<AutomationLog>, dateKey: AutomationLog -> string,
                    dateMap: map<string, StatusCounts>, order: seq<string>) {
    && order == DatesInOrder(seen, dateKey)
    && (forall d :: d in dateMap <==> d in order)
    && (forall d :: d in dateMap ==> dateMap[d] == CountsOf(seen, dateKey, d))
  }

  /** The `forEach` of `aggregateLogsByDate`: the counters of each day, and
      the days in order of first appearance. */
  method TallyByDate(logs: seq<AutomationLog>, dateKey: AutomationLog -> string)
    returns (dateMap: map<string, StatusCounts>, order: seq<string>)
    ensures Tallied(logs, dateKey, dateMap, order)
  {
    dateMap := map[];
    order := [];
    var i := 0;
    while i < |logs|
      invariant 0 <= i <= |logs|
      invariant Tallied(logs[..i], dateKey, dateMap, order)
    {
      var log := logs[i];
      var key := dateKey(log);
      var existing := if key in dateMap then dateMap[key] else NoCounts;
      var order' := if key in dateMap then order else order + [key];
      var dateMap' := dateMap[key := Bump(existing, log.status)];
      TallyPrefix(logs, i, dateKey, dateMap, order, dateMap', order');
      dateMap, order := dateMap', order';
      i := i + 1;
    }
    TallyAll(logs, dateKey, dateMap, order);
  }

  /** The tally step on the prefix of the first i logs. */
  lemma {:induction false} TallyPrefix(logs: seq<AutomationLog>, i: nat, dateKey: AutomationLog -> string,
                                       dateMap: map<string, StatusCounts>, order: seq<string>,
                                       dateMap': map<string, StatusCounts>, order': seq<string>)
    requires i < |logs|
    requires Tallied(logs[..i], dateKey, dateMap, order)
    requires order' == if dateKey(logs[i]) in dateMap then order else order + [dateKey(logs[i])]
    requires dateMap' == dateMap[dateKey(logs[i]) :=
      Bump(if dateKey(logs[i]) in dateMap then dateMap[dateKey(logs[i])] else NoCounts, logs[i].status)]
    ensures Tallied(logs[..i + 1], dateKey, dateMap', order')
  {
    TallyStep(logs[..i], logs[i], dateKey, dateMap, order, dateMap', order');
    assert logs[..i + 1] == logs[..i] + [logs[i]];
  }

  lemma {:induction false} TallyAll(logs: seq<AutomationLog>, dateKey: AutomationLog -> string,
                                    dateMap: map<string, StatusCounts>, order: seq<string>)
    requires Tallied(logs[..|logs|], dateKey, dateMap, order)
    ensures Tallied(logs, dateKey, dateMap, order)
  {
    assert logs[..|logs|] == logs;
  }

  /** One turn of the tally: the log's day gets its counter bumped, and is
      appended to the days when it is new. */
  lemma {:induction false} TallyStep(seen: seq<AutomationLog>, log: AutomationLog, dateKey: AutomationLog -> string,
                                     dateMap: map<string, StatusCounts>, order: seq<string>,
                                     dateMap': map<string, StatusCounts>, order': seq<string>)
    requires Tallied(seen, dateKey, dateMap, order)
    requires order' == if dateKey(log) in dateMap then order else order + [dateKey(log)]
    requires dateMap' == dateMap[dateKey(log) :=
      Bump(if dateKey(log) in dateMap then dateMap[dateKey(log)] else NoCounts, log.status)]
    ensures Tallied(seen + [log], dateKey, dateMap', order')
  {
    var all := seen + [log];
    var key := dateKey(log);
    assert all[..|all| - 1] == seen;
    if key !in dateMap {
      assert forall k :: 0 <= k < |seen| ==> dateKey(seen[k]) != key;
      AbsentDateCountsZero(seen, dateKey, key);
    }
    forall d | d in dateMap' ensures dateMap'[d] == CountsOf(all, dateKey, d) {
      CountsStep(seen, log, dateKey, d);
    }
  }

  /** Appending a log bumps its own day's counters and no other day's. */
  lemma {:induction false} CountsStep(seen: seq<AutomationLog>, log: AutomationLog, dateKey: AutomationLog -> string, d: string)
    ensures CountsOf(seen + [log], dateKey, d)
      == if dateKey(log) == d then Bump(CountsOf(seen, dateKey, d), log.status) else CountsOf(seen, dateKey, d)
  {
    var all := seen + [log];
    assert all[..|all| - 1] == seen;
    assert all[|all| - 1] == log;
  }

  lemma {:induction false} RowsCoverDays(logs: seq<AutomationLog>, dateKey: AutomationLog -> string,
                      order: seq<string>, days: seq<string>, rows: seq<LogsChartData>)
    requires order == DatesInOrder(logs, dateKey)
    requires multiset(days) == multiset(order) && forall d :: d in days <==> d in order
    requires |rows| == |days|
    requires forall k :: 0 <= k < |rows| ==> rows[k] == RowOf(days[k], CountsOf(logs, dateKey, days[k]))
    ensures forall d :: RowFor(rows, d) <==> LogOn(logs, dateKey, d)
    ensures SumBy(rows, RowTotal) == |logs|
  {
    forall d ensures RowFor(rows, d) <==> LogOn(logs, dateKey, d) {
      if LogOn(logs, dateKey, d) {
        var k :| 0 <= k < |days| && days[k] == d;
        assert rows[k].date == d;
      }
      if RowFor(rows, d) {
        var k :| 0 <= k < |rows| && rows[k].date == d;
        assert days[k] in order;
      }
    }
    var f := d => DateTotal(logs, dateKey, d);
    SumByPointwise(rows, RowTotal, days, f);
    SumByPermutation(days, order, f);
    DayTotalsCoverLogs(logs, dateKey);
  }
}

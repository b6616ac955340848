/** The logs table's cell texts and the pagination footer: duration as
    minutes and seconds, the status and level badges, the shown range and the
    placeholder row of an empty table. */
module LogsTable {
  import opened Strings
  import opened JsMath
  import opened Lookup
  import opened AutomationLogs

  // -------------------------------------------------------------- duration

  /** `Math.floor(seconds / 60)` and `seconds % 60`. */
  function DurationParts(seconds: int): (int, int) {
    (FloorDiv(seconds, 60), JsRem(seconds, 60))
  }

  /** The duration cell: the minutes part only when it is positive, then the
      seconds. */
  function DurationText(seconds: int): string {
    var (minutes, rest) := DurationParts(seconds);
    (if minutes > 0 then IntToString(minutes) + "분 " else "") + IntToString(rest) + "초"
  }

  /** For a non-negative duration the two parts recombine to it, the seconds
      part is below a minute, and the minutes part is shown exactly from one
      minute on. */
  lemma {:induction false} DurationPartsRecombine(seconds: int)
    requires seconds >= 0
    ensures var (minutes, rest) := DurationParts(seconds);
      minutes * 60 + rest == seconds && 0 <= rest < 60 && minutes >= 0
      && (minutes > 0 <==> seconds >= 60)
  {
  }

  /** Under a minute the cell is the seconds alone; from a minute on it starts
      with the minutes and "분 ". */
  lemma {:induction false} DurationTextShape(seconds: int)
    requires seconds >= 0
    ensures seconds < 60 ==> DurationText(seconds) == IntToString(seconds) + "초"
    ensures seconds >= 60 ==> StartsWith(DurationText(seconds), IntToString(seconds / 60) + "분 ")
  {
    var (minutes, rest) := DurationParts(seconds);
    if seconds >= 60 {
      var head := IntToString(minutes) + "분 ";
      assert DurationText(seconds) == head + (IntToString(rest) + "초");
    }
  }

  /** A negative duration (never generated, but not excluded by the type)
      shows no minutes and a negative seconds count, because `%` keeps the
      dividend's sign. */
  lemma {:induction false} NegativeDurationShowsSecondsOnly(seconds: int)
    requires -60 < seconds < 0
    ensures DurationText(seconds) == IntToString(seconds) + "초"
  {
    assert JsRem(seconds, 60) == seconds;
  }

  // -------------------------------------------------------------- badges

  /** The status cell's value as a string (the log's status key). */
  function StatusKey(s: LogStatus): string {
    match s
    case Success => "success"
    case Failed => "failed"
    case Pending => "pending"
    case Running => "running"
  }

  function LevelKey(l: LogLevel): string {
    match l
    case Info => "info"
    case Warning => "warning"
    case Error => "error"
    case Debug => "debug"
  }

  /** The badge label for a status string; any other string falls back to
      the success entry. */
  function StatusBadge(status: string): (badge: string)
    ensures badge in ["성공", "실패", "대기", "실행중"]
    ensures status !in ["success", "failed", "pending", "running"] ==> badge == "성공"
  {
    if status == "success" then "성공"
    else if status == "failed" then "실패"
    else if status == "pending" then "대기"
    else if status == "running" then "실행중"
    else "성공"
  }

  /** The level label; any other string falls back to the info entry. */
  function LevelBadge(level: string): (badge: string)
    ensures badge in ["정보", "경고", "오류", "디버그"]
    ensures level !in ["info", "warning", "error", "debug"] ==> badge == "정보"
  {
    if level == "info" then "정보"
    else if level == "warning" then "경고"
    else if level == "error" then "오류"
    else if level == "debug" then "디버그"
    else "정보"
  }

  /** Distinct statuses get distinct badges, so the fallback is never reached
      for a real log. */
  lemma {:induction false} StatusBadgesDistinct(a: LogStatus, b: LogStatus)
    ensures StatusBadge(StatusKey(a)) == StatusBadge(StatusKey(b)) <==> a == b
  {
  }

  lemma {:induction false} LevelBadgesDistinct(a: LogLevel, b: LogLevel)
    ensures LevelBadge(LevelKey(a)) == LevelBadge(LevelKey(b)) <==> a == b
  {
  }

  // -------------------------------------------------------------- paging

  const InitialPageSize: nat := 10

  /** The columns of the table, in order (their count is the placeholder's
      `colSpan`). */
  const Columns: seq<string> := ["id", "workflowName", "status", "level", "recordCount", "startTime", "duration", "triggeredBy"]

  /** The rows of page `pageIndex` (zero-based). */
  function PageRows<T>(rows: seq<T>, pageIndex: nat, pageSize: nat): (r: seq<T>)
    ensures |r| == Max(0, Min(pageSize, |rows| - pageIndex * pageSize))
    ensures forall k :: 0 <= k < |r| ==> r[k] == rows[pageIndex * pageSize + k]
  {
    Slice(rows, pageIndex * pageSize, pageIndex * pageSize + pageSize)
  }

  /** The two numbers of the footer's "first-last" range. */
  function RangeBounds(pageIndex: nat, pageSize: nat, total: nat): (nat, nat) {
    (pageIndex * pageSize + 1, Min((pageIndex + 1) * pageSize, total))
  }

  /** The footer's range text. */
  function RangeText(pageIndex: nat, pageSize: nat, total: nat): string {
    var (first, last) := RangeBounds(pageIndex, pageSize, total);
    NatToString(first) + "-" + NatToString(last)
  }

  /** On a non-empty page the range names exactly the rows on it: it starts
      at the page's first row (counting from 1) and spans as many rows as the
      page shows. */
  lemma {:induction false} RangeMatchesPage<T>(rows: seq<T>, pageIndex: nat, pageSize: nat)
    requires pageSize > 0 && pageIndex * pageSize < |rows|
    ensures var (first, last) := RangeBounds(pageIndex, pageSize, |rows|);
      first <= last && last - first + 1 == |PageRows(rows, pageIndex, pageSize)|
  {
    assert (pageIndex + 1) * pageSize == pageIndex * pageSize + pageSize;
  }

  /** As written, an empty table's footer reads "1-0". */
  lemma {:induction false} EmptyTableRange()
    ensures RangeBounds(0, InitialPageSize, 0) == (1, 0)
    ensures RangeText(0, InitialPageSize, 0) == "1-0"
  {
    assert NatToString(1) == "1";
    assert NatToString(0) == "0";
  }

  /** A body row: a log, or the single "no data" placeholder spanning every
      column. */
  datatype BodyRow<T> = DataRow(row: T) | Placeholder(colSpan: nat)

  /** The table body for the current row model. */
  function Body<T>(rows: seq<T>): (body: seq<BodyRow<T>>)
    ensures |body| == Max(1, |rows|)
    ensures rows == [] ==> body == [Placeholder(|Columns|)]
    ensures forall k :: 0 <= k < |rows| ==> body[k] == DataRow(rows[k])
  {
    if rows == [] then [Placeholder(|Columns|)]
    else seq(|rows|, k requires 0 <= k < |rows| => DataRow(rows[k]))
  }
}

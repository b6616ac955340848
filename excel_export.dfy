/** Exporting logs to a spreadsheet: the Korean labels, the fixed columns,
    one row per log and the download file name. */
module ExcelExport {
  import opened Wrappers
  import opened Strings
  import opened AutomationLogs
  import LogsTable

  /** `getStatusLabel`: the four statuses get their labels; `labels[s] || s`
      hands any other string back unchanged. */
  function StatusLabel(status: string): (r: string)
    ensures status in ["success", "failed", "pending", "running"] ==> r in ["성공", "실패", "대기", "실행중"]
    ensures status !in ["success", "failed", "pending", "running"] ==> r == status
  {
    if status == "success" then "성공"
    else if status == "failed" then "실패"
    else if status == "pending" then "대기"
    else if status == "running" then "실행중"
    else status
  }

  /** `getLevelLabel`, with the same fallback. */
  function LevelLabel(level: string): (r: string)
    ensures level in ["info", "warning", "error", "debug"] ==> r in ["정보", "경고", "오류", "디버그"]
    ensures level !in ["info", "warning", "error", "debug"] ==> r == level
  {
    if level == "info" then "정보"
    else if level == "warning" then "경고"
    else if level == "error" then "오류"
    else if level == "debug" then "디버그"
    else level
  }

  /** For a real log the spreadsheet shows the same label as the table's
      badge; the two fallbacks differ only on strings no log carries. */
  lemma {:induction false} LabelsAgreeWithTable(s: LogStatus, l: LogLevel)
    ensures StatusLabel(LogsTable.StatusKey(s)) == LogsTable.StatusBadge(LogsTable.StatusKey(s))
    ensures LevelLabel(LogsTable.LevelKey(l)) == LogsTable.LevelBadge(LogsTable.LevelKey(l))
    ensures StatusLabel("unknown") == "unknown" != LogsTable.StatusBadge("unknown")
  {
  }

  datatype Column = Column(header: string, key: string, width: nat)

  /** `worksheet.columns`: eleven columns in a fixed key order. */
  const Columns: seq<Column> := [
    Column("ID", "id", 15),
    Column("워크플로 이름", "workflowName", 25),
    Column("상태", "status", 12),
    Column("레벨", "level", 10),
    Column("실행 시간 (ms)", "executionTime", 18),
    Column("처리 레코드 수", "recordCount", 18),
    Column("시작 시간", "startTime", 20),
    Column("종료 시간", "endTime", 20),
    Column("소요 시간 (초)", "duration", 15),
    Column("실행자", "triggeredBy", 15),
    Column("에러 메시지", "errorMessage", 40)]

  datatype Cell = Text(text: string) | Number(n: int)

  function HeaderRow(): (r: seq<Cell>)
    ensures |r| == |Columns| == 11
    ensures forall k :: 0 <= k < |r| ==> r[k] == Text(Columns[k].header)
  {
    seq(|Columns|, k requires 0 <= k < |Columns| => Text(Columns[k].header))
  }

  /** The row added for one log, cell k under column k. `format` stands for
      `toLocaleString("ko-KR")`, whose output depends on the browser. */
  function ExportRow(log: AutomationLog, format: int -> string): (r: seq<Cell>)
    ensures |r| == 11
    ensures r[0] == Text(log.id) && r[1] == Text(log.workflowName)
    ensures r[2] == Text(StatusLabel(LogsTable.StatusKey(log.status)))
    ensures r[3] == Text(LevelLabel(LogsTable.LevelKey(log.level)))
    ensures r[4] == Number(log.executionTime) && r[5] == Number(log.recordCount)
    ensures r[6] == Text(format(log.startTime))
    ensures r[8] == Number(log.duration) && r[9] == Text(log.triggeredBy)
    ensures r[7] == Text("-") <== log.endTime.None?
    ensures log.endTime.Some? ==> r[7] == Text(format(log.endTime.value))
    ensures r[10] == Text("-") <== log.errorMessage.None? || log.errorMessage == Some("")
    ensures log.errorMessage.Some? && log.errorMessage.value != "" ==> r[10] == Text(log.errorMessage.value)
  {
    [ Text(log.id),
      Text(log.workflowName),
      Text(StatusLabel(LogsTable.StatusKey(log.status))),
      Text(LevelLabel(LogsTable.LevelKey(log.level))),
      Number(log.executionTime),
      Number(log.recordCount),
      Text(format(log.startTime)),
      Text(match log.endTime case Some(t) => format(t) case None => "-"),
      Number(log.duration),
      Text(log.triggeredBy),
      Text(match log.errorMessage case Some(m) => if m == "" then "-" else m case None => "-")]
  }

  /** A mock log's end-time cell is "-" exactly while it has not finished,
      and its error cell is "-" exactly when it did not fail. */
  lemma {:induction false} MockRowPlaceholders(log: AutomationLog, format: int -> string)
    requires WellFormedMockLog(log)
    requires log.errorMessage.Some? ==> log.errorMessage.value == MockErrorMessage
    ensures ExportRow(log, format)[7] == Text("-") <== log.status == Running || log.status == Pending
    ensures ExportRow(log, format)[10] == Text("-") <==> log.status != Failed
  {
  }

  /** The worksheet: its rows, the header first. */
  class Worksheet {
    var rows: seq<seq<Cell>>

    /** Setting `worksheet.columns` writes the header row. */
    constructor()
      ensures rows == [HeaderRow()]
    {
      rows := [HeaderRow()];
    }

    /** `worksheet.addRow`. */
    method AddRow(row: seq<Cell>)
      modifies this
      ensures rows == old(rows) + [row]
    {
      rows := rows + [row];
    }
  }

  /** The data rows for a list of logs, one per log in order. */
  function ExportRows(logs: seq<AutomationLog>, format: int -> string): (rows: seq<seq<Cell>>)
    ensures |rows| == |logs|
    decreases |logs|
  {
    if logs == [] then [] else ExportRows(logs[..|logs| - 1], format) + [ExportRow(logs[|logs| - 1], format)]
  }

  /** Row k of the export is the row of log k. */
  lemma {:induction false} ExportRowsPointwise(logs: seq<AutomationLog>, format: int -> string, k: nat)
    requires k < |logs|
    ensures ExportRows(logs, format)[k] == ExportRow(logs[k], format)
    decreases |logs|
  {
    if k < |logs| - 1 {
      ExportRowsPointwise(logs[..|logs| - 1], format, k);
    }
  }

  /** The rows of one more log are the earlier rows and that log's row. */
  lemma {:induction false} ExportRowsSnoc(logs: seq<AutomationLog>, format: int -> string, i: nat)
    requires i < |logs|
    ensures ExportRows(logs[..i + 1], format) == ExportRows(logs[..i], format) + [ExportRow(logs[i], format)]
  {
    assert logs[..i + 1][..i] == logs[..i];
  }

  lemma {:induction false} ConsAppend(h: seq<Cell>, rows: seq<seq<Cell>>, row: seq<Cell>)
    ensures [h] + rows + [row] == [h] + (rows + [row])
  {
  }

  /** The sheet `exportToExcel` fills: the header, then one row per log in
      the order given. */
  method ExportToExcel(logs: seq<AutomationLog>, format: int -> string) returns (sheet: Worksheet)
    ensures fresh(sheet)
    ensures sheet.rows == [HeaderRow()] + ExportRows(logs, format)
  {
    sheet := new Worksheet();
    ghost var header := HeaderRow();
    var i := 0;
    while i < |logs|
      invariant 0 <= i <= |logs|
      invariant sheet.rows == [header] + ExportRows(logs[..i], format)
    {
      var row := ExportRow(logs[i], format);
      ExportRowsSnoc(logs, format, i);
      ConsAppend(header, ExportRows(logs[..i], format), row);
      sheet.AddRow(row);
      i := i + 1;
    }
    assert logs[..i] == logs;
  }

  /** `${filename}-${new Date().toISOString().split("T")[0]}.xlsx`, with the
      ISO text of the current instant as an input. */
  function DownloadName(filename: string, isoNow: string): string {
    filename + "-" + Split(isoNow, Char('T'))[0] + ".xlsx"
  }

  /** For an ISO timestamp `YYYY-MM-DDTHH:mm:ss.sssZ` the name carries the
      calendar date, the part before the "T". */
  lemma {:induction false} DownloadNameUsesDate(filename: string, date: string, time: string)
    requires 'T' !in date
    ensures DownloadName(filename, date + "T" + time) == filename + "-" + date + ".xlsx"
  {
    forall i | 0 <= i < |date| ensures !IsDelim(Char('T'), date[i]) {
      assert date[i] in date;
    }
    SplitNoDelim(date, Char('T'));
    SplitAtDelim(date, 'T', time, Char('T'));
  }

  const DefaultFilename: string := "automation-logs"
}

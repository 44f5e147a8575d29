/** The document's audit log: newest row first, at most 200 rows. */
module AuditLog {

  /** The `type` of a row: `"system"`, `"action"` (after a merge the server
      took) or `"action (local)"` (after a merge that fell back to local state). */
  datatype LogKind = System | Action | ActionLocal

  /** A row; `ts` is the time in milliseconds. */
  datatype LogRow = LogRow(ts: int, kind: LogKind, message: string)

  const MaxRows: nat := 200

  function Min(a: int, b: int): int {
    if a <= b then a else b
  }

  /** `[row, ...logs].slice(0, 200)`. */
  function LogEvent(logs: seq<LogRow>, row: LogRow): (r: seq<LogRow>)
    ensures |r| == Min(|logs| + 1, MaxRows)
    ensures r[0] == row
    ensures r[1..] == logs[..|r| - 1]
  {
    ([row] + logs)[..Min(|logs| + 1, MaxRows)]
  }

  /** The log never holds more than 200 rows, and nothing is dropped below that. */
  lemma LogBounded(logs: seq<LogRow>, row: LogRow)
    requires |logs| <= MaxRows
    ensures |LogEvent(logs, row)| <= MaxRows
    ensures |logs| < MaxRows ==> LogEvent(logs, row) == [row] + logs
  {
    var r := LogEvent(logs, row);
    if |logs| < MaxRows {
      assert r[1..] == logs;
      assert r == [r[0]] + r[1..];
    }
  }

  /** Logging rows one after another, starting below the limit, leaves them newest first in front of the old log. */
  lemma {:induction false} LogManyNewestFirst(logs: seq<LogRow>, rows: seq<LogRow>)
    requires |logs| + |rows| <= MaxRows
    ensures LogAll(logs, rows) == Reverse(rows) + logs
    decreases |rows|
  {
    if rows != [] {
      var init := rows[..|rows| - 1];
      var last := rows[|rows| - 1];
      LogManyNewestFirst(logs, init);
      LogBounded(LogAll(logs, init), last);
      assert rows == init + [last];
      assert Reverse(rows) == [last] + Reverse(init);
      assert LogAll(logs, rows) == LogEvent(LogAll(logs, init), last);
      assert [last] + (Reverse(init) + logs) == ([last] + Reverse(init)) + logs;
    }
  }

  /** Logs each row of `rows` in turn. */
  function LogAll(logs: seq<LogRow>, rows: seq<LogRow>): seq<LogRow>
    decreases |rows|
  {
    if rows == [] then logs else LogEvent(LogAll(logs, rows[..|rows| - 1]), rows[|rows| - 1])
  }

  function Reverse(s: seq<LogRow>): (r: seq<LogRow>)
    ensures |r| == |s|
    decreases |s|
  {
    if s == [] then [] else [s[|s| - 1]] + Reverse(s[..|s| - 1])
  }
}

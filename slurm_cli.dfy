/**
 * The text helpers of the Slurm command (internal/cli/slurm.go): the job runtime shown as
 * "Ns", "Nm", "HhMm" or "DdHh", the truncation of long cells, and the node-list cell.
 * Durations are Go's `time.Duration`, an integer count of nanoseconds.
 */
module SlurmCli {
  import opened GoStrings

  const Second := 1_000_000_000
  const Minute := 60 * Second
  const Hour := 60 * Minute
  const Day := 24 * Hour

  /** `formatDuration`; `int(d.Seconds())` and its kin truncate toward zero. */
  function FormatDuration(d: int): string {
    if d < Minute then IntToString(GoDiv(d, Second)) + "s"
    else if d < Hour then IntToString(d / Minute) + "m"
    else
      var hours := d / Hour;
      var minutes := (d / Minute) % 60;
      if hours < 24 then IntToString(hours) + "h" + IntToString(minutes) + "m"
      else IntToString(hours / 24) + "d" + IntToString(hours % 24) + "h"
  }

  lemma MulNonneg(x: int, y: int)
    requires x >= 0 && y >= 0
    ensures x * y >= 0
  {
  }

  /** Euclidean division is determined by its quotient and remainder bounds. */
  lemma DivUnique(a: int, b: int, q: int, r: int)
    requires b > 0 && a == q * b + r && 0 <= r < b
    ensures a / b == q && a % b == r
  {
    var q0, r0 := a / b, a % b;
    assert a == q0 * b + r0 && 0 <= r0 < b;
    if q0 > q {
      MulNonneg(q0 - q - 1, b);
    } else if q0 < q {
      MulNonneg(q - q0 - 1, b);
    }
  }

  /**
   * Under a minute: the whole seconds, truncated toward zero, so anything above minus one
   * second prints "0s".
   */
  lemma FormatSeconds(d: int)
    requires d < Minute
    ensures FormatDuration(d) == IntToString(GoDiv(d, Second)) + "s"
    ensures 0 <= d ==> 0 <= GoDiv(d, Second) < 60 && GoDiv(d, Second) * Second <= d < (GoDiv(d, Second) + 1) * Second
    ensures -Second < d < Second ==> FormatDuration(d) == "0s"
  {
    if -Second < d < Second {
      assert GoDiv(d, Second) == 0;
    }
  }

  /** Under an hour: the whole minutes, between 1 and 59. */
  lemma FormatMinutes(d: int)
    requires Minute <= d < Hour
    ensures var m := d / Minute;
      && FormatDuration(d) == IntToString(m) + "m"
      && 1 <= m < 60 && m * Minute <= d < (m + 1) * Minute
  {
  }

  /** Under a day: the whole hours (1 to 23) and the whole minutes past them (0 to 59). */
  lemma FormatHours(d: int)
    requires Hour <= d < Day
    ensures var h := d / Hour;
      var m := (d / Minute) % 60;
      && FormatDuration(d) == IntToString(h) + "h" + IntToString(m) + "m"
      && 1 <= h < 24 && 0 <= m < 60
      && h * Hour + m * Minute <= d < h * Hour + (m + 1) * Minute
  {
    HoursSplit(d);
  }

  /** The hours and the minutes past them, as `d / Hour` and the whole minutes of `d % Hour`. */
  lemma HoursSplit(d: int)
    requires Hour <= d < Day
    ensures 1 <= d / Hour < 24 && (d / Minute) % 60 == (d % Hour) / Minute
  {
    var h := d / Hour;
    var rest := d % Hour;
    var q := rest / Minute;
    assert d == (h * 60 + q) * Minute + rest % Minute;
    DivUnique(d, Minute, h * 60 + q, rest % Minute);
    DivUnique(h * 60 + q, 60, h, q);
  }

  /** From a day on: the whole days and the whole hours past them (0 to 23). */
  lemma FormatDays(d: int)
    requires Day <= d
    ensures var days := d / Day;
      var h := (d / Hour) % 24;
      && FormatDuration(d) == IntToString(days) + "d" + IntToString(h) + "h"
      && 1 <= days && 0 <= h < 24
      && days * Day + h * Hour <= d < days * Day + (h + 1) * Hour
  {
    DaysSplit(d);
    DaysText(d);
  }

  /** The text from a day on, once the hours are known to be 24 or more. */
  lemma DaysText(d: int)
    requires Day <= d && d / Hour >= 24
    ensures FormatDuration(d) == IntToString((d / Hour) / 24) + "d" + IntToString((d / Hour) % 24) + "h"
  {
  }

  /** The whole hours split into whole days and the hours past them. */
  lemma DaysSplit(d: int)
    requires Day <= d
    ensures var days, q := d / Day, (d % Day) / Hour;
      && d / Hour >= 24 && (d / Hour) / 24 == days && (d / Hour) % 24 == q
      && 1 <= days && 0 <= q < 24
      && days * Day + q * Hour <= d < days * Day + (q + 1) * Hour
  {
    var days := d / Day;
    var rest := d % Day;
    var q := rest / Hour;
    var r := rest % Hour;
    assert rest == q * Hour + r;
    assert d == (days * 24 + q) * Hour + r;
    DivUnique(d, Hour, days * 24 + q, r);
    DivUnique(days * 24 + q, 24, days, q);
  }

  /**
   * `truncate`: a string within the limit is kept, a longer one is cut to `maxLen - 3`
   * characters followed by "...".  The source slices out of range (a panic) for a long string
   * and a limit under 3, which the precondition rules out.
   */
  function Truncate(s: string, maxLen: int): (r: string)
    requires |s| <= maxLen || maxLen >= 3
  {
    if |s| <= maxLen then s else s[..maxLen - 3] + "..."
  }

  /**
   * A truncated string never exceeds the limit; a string within the limit is unchanged; a longer
   * one keeps its first `maxLen - 3` characters and ends in "..." at exactly the limit; and
   * truncating twice is truncating once.
   */
  lemma TruncateFacts(s: string, maxLen: int)
    requires |s| <= maxLen || maxLen >= 3
    ensures |Truncate(s, maxLen)| <= maxLen
    ensures |s| <= maxLen ==> Truncate(s, maxLen) == s
    ensures |s| > maxLen ==>
      var r := Truncate(s, maxLen);
      && |r| == maxLen && r[..maxLen - 3] == s[..maxLen - 3] && HasSuffix(r, "...")
    ensures Truncate(Truncate(s, maxLen), maxLen) == Truncate(s, maxLen)
  {
    if |s| > maxLen {
      var r := Truncate(s, maxLen);
      assert r[|r| - 3..] == "...";
    }
  }

  /** The node-list cell of the job table: the node names joined by commas, cut at 20 characters. */
  function NodesCell(nodes: seq<string>): string {
    var joined := Join(nodes, ",");
    if |joined| > 20 then joined[..17] + "..." else joined
  }

  /**
   * The node-list cell is the joined list truncated to 20: at most 20 characters, the whole
   * list when it fits, otherwise its first 17 characters and "...".
   */
  lemma NodesCellTruncates(nodes: seq<string>)
    ensures NodesCell(nodes) == Truncate(Join(nodes, ","), 20)
    ensures |NodesCell(nodes)| <= 20
    ensures |Join(nodes, ",")| <= 20 ==> NodesCell(nodes) == Join(nodes, ",")
    ensures |Join(nodes, ",")| > 20 ==>
      NodesCell(nodes)[..17] == Join(nodes, ",")[..17] && HasSuffix(NodesCell(nodes), "...")
  {
    TruncateFacts(Join(nodes, ","), 20);
  }
}

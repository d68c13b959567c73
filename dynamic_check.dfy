/**
 * The node-side dynamic check runner (`DynamicCheckRunner` of scripts/node/dynamic_check.py):
 * it fetches the checks that apply to this host, stores each check's script under a
 * content-hash name, points the check's `current.sh` link at it, runs it with the check's
 * configuration on standard input, publishes the output for node_exporter's textfile
 * collector, and writes a six-gauge run summary.
 *
 * The filesystem is a map from path to content plus a map from symbolic link to target.
 * The HTTP fetch, the subprocess and the clock are oracles passed in by the caller.
 */
module DynamicCheck {
  import opened Wrappers
  import opened GoStrings
  import opened Values
  import Seqs

  const DefaultTextfileDir: string := "/var/lib/node_exporter/textfile_collector"
  const DefaultCheckScriptsDir: string := "/usr/local/lib/aami/checks"

  /** One effective check as the runner uses it. */
  datatype CheckInfo = CheckInfo(name: string, scriptContent: string, scriptHash: string, config: Value)

  /** One element of the fetched JSON list; a field is `None` when the object lacks it. */
  datatype Record = Record(name: Option<string>, scriptContent: Option<string>,
                           scriptHash: Option<string>, config: Option<Value>)

  /** What the HTTP request of `_fetch_effective_checks` produced. */
  datatype FetchResponse =
    | FetchFailed                    // URLError, a JSON decode error or any other exception
    | Fetched(items: seq<Record>)

  /** What `subprocess.run` produced for one check. */
  datatype ExecOutcome =
    | Exited(code: int, stdout: string, stderr: string)
    | TimedOut
    | Crashed(message: string)       // any other exception, e.g. the script cannot be started

  datatype CheckResult = CheckResult(name: string, success: bool, output: string, error: Option<string>)

  /** The three clock readings of one run: its start, its end and the summary timestamp. */
  datatype Clock = Clock(start: int, end: int, stamp: int)

  /** The values of the six summary gauges. */
  datatype Summary = Summary(status: int, timestamp: int, duration: int,
                             total: int, succeeded: int, failed: int)

  /** A regular-file map and a symbolic-link map over the same path space. */
  datatype FsState = FsState(files: map<string, string>, links: map<string, string>)

  /** How a sequence of steps ended: normally with a value, or with an exception that escaped. */
  datatype Outcome<T> = Normal(st: FsState, value: T) | Raised(st: FsState, path: string)

  datatype RunOutcome = ExitCode(code: int) | Uncaught(path: string)

  // ---------------------------------------------------------------- paths and record defaults

  /** `dir / name` on plain names: joined as strings, without pathlib's normalisation. */
  function PathJoin(dir: string, name: string): string { dir + "/" + name }

  function ScriptDir(scriptsDir: string, name: string): string { PathJoin(scriptsDir, name) }

  function ScriptFile(scriptsDir: string, c: CheckInfo): string {
    PathJoin(ScriptDir(scriptsDir, c.name), c.name + "_" + c.scriptHash + ".sh")
  }

  function CurrentLink(scriptsDir: string, name: string): string {
    PathJoin(ScriptDir(scriptsDir, name), "current.sh")
  }

  function ResultTmp(textfileDir: string, name: string): string { PathJoin(textfileDir, name + ".prom.tmp") }
  function ResultFile(textfileDir: string, name: string): string { PathJoin(textfileDir, name + ".prom") }
  function StatusTmp(textfileDir: string): string { PathJoin(textfileDir, "aami_status.prom.tmp") }
  function StatusFile(textfileDir: string): string { PathJoin(textfileDir, "aami_status.prom") }

  /** Python's `str.rstrip('/')`. */
  function StripTrailingSlashes(s: string): (r: string)
    ensures r <= s && (r == [] || r[|r| - 1] != '/')
    ensures forall i :: |r| <= i < |s| ==> s[i] == '/'
  {
    if s != [] && s[|s| - 1] == '/' then StripTrailingSlashes(s[..|s| - 1]) else s
  }

  /** The endpoint the effective checks are fetched from. */
  function FetchUrl(serverUrl: string, hostname: string): (r: string)
    ensures exists base :: r == base + "/api/v1/checks/target/hostname/" + hostname
                        && base <= serverUrl && (base == [] || base[|base| - 1] != '/')
  {
    StripTrailingSlashes(serverUrl) + "/api/v1/checks/target/hostname/" + hostname
  }

  /** `item.get(key, "")`. */
  function OrEmpty(f: Option<string>): string { if f.Some? then f.value else "" }

  /** `item.get("config") or {}`: a missing or falsy configuration becomes an empty object. */
  function ConfigOrEmpty(f: Option<Value>): (v: Value)
    ensures Truthy(v) ==> f == Some(v)
    ensures !Truthy(v) ==> v == Obj(map[])
    ensures v == Obj(map[]) <==> f.None? || !Truthy(f.value)
  {
    if f.Some? && Truthy(f.value) then f.value else Obj(map[])
  }

  /** The CheckInfo built from one fetched record. */
  function ToCheckInfo(r: Record): (c: CheckInfo)
    ensures r.name.None? ==> c.name == ""
    ensures r.scriptContent.None? ==> c.scriptContent == ""
    ensures r.scriptHash.None? ==> c.scriptHash == ""
    ensures r.name.Some? ==> c.name == r.name.value
    ensures r.scriptContent.Some? ==> c.scriptContent == r.scriptContent.value
    ensures r.scriptHash.Some? ==> c.scriptHash == r.scriptHash.value
    ensures Truthy(c.config) || c.config == Obj(map[])
  {
    CheckInfo(OrEmpty(r.name), OrEmpty(r.scriptContent), OrEmpty(r.scriptHash), ConfigOrEmpty(r.config))
  }

  /** The CheckInfo list built from the fetched records, in order. */
  function CheckInfos(items: seq<Record>): (cs: seq<CheckInfo>)
    ensures |cs| == |items|
    ensures forall i :: 0 <= i < |items| ==> cs[i] == ToCheckInfo(items[i])
  {
    if items == [] then [] else CheckInfos(items[..|items| - 1]) + [ToCheckInfo(items[|items| - 1])]
  }

  /** What `_fetch_effective_checks` returns: `None` on any failure, otherwise one CheckInfo per record. */
  function FetchChecks(r: FetchResponse): (cs: Option<seq<CheckInfo>>)
    ensures r.FetchFailed? <==> cs.None?
  {
    if r.FetchFailed? then None else Some(CheckInfos(r.items))
  }

  // ---------------------------------------------------------------- metric text

  const ErrorHelpLine: string := "# HELP aami_check_error Check execution error (1=error)"
  const ErrorTypeLine: string := "# TYPE aami_check_error gauge"
  const ErrorSamplePrefix: string := "aami_check_error{check=\""
  const ErrorSampleSuffix: string := "\"} 1"

  /** `_generate_error_metric`: the fixed-shape error gauge for a failed check. */
  function ErrorMetric(checkName: string): string {
    ErrorHelpLine + "\n" + ErrorTypeLine + "\n" + ErrorSamplePrefix + checkName + ErrorSampleSuffix + "\n"
  }

  /** Reads the check label back from an error-metric text; the partner of ErrorMetric. */
  function ErrorMetricCheck(text: string): Option<string> {
    var head := ErrorHelpLine + "\n" + ErrorTypeLine + "\n" + ErrorSamplePrefix;
    var tail := ErrorSampleSuffix + "\n";
    if |head| + |tail| <= |text| && HasPrefix(text, head) && HasSuffix(text, tail)
    then Some(text[|head|..|text| - |tail|])
    else None
  }

  const GaugeNames: seq<string> := [
    "aami_check_fetch_status", "aami_check_fetch_timestamp_seconds",
    "aami_check_execution_duration_seconds", "aami_checks_total",
    "aami_checks_success", "aami_checks_failed"]

  const GaugeHelps: seq<string> := [
    "Check fetch status (1=success, 0=failed)", "Last check fetch timestamp",
    "Check execution duration", "Total number of checks configured",
    "Number of successful checks", "Number of failed checks"]

  function SummaryValues(s: Summary): (vs: seq<int>)
    ensures |vs| == 6
  {
    [s.status, s.timestamp, s.duration, s.total, s.succeeded, s.failed]
  }

  /** Everything of gauge k's block up to its value. */
  function GaugeHead(k: nat): string
    requires k < 6
  {
    HeadText(GaugeNames[k], GaugeHelps[k])
  }

  /** The HELP and TYPE lines of a gauge and the start of its sample line. */
  function HeadText(name: string, help: string): string {
    "# HELP " + name + " " + help + "\n" + "# TYPE " + name + " gauge\n" + name + " "
  }

  /** The blocks of the last |vs| gauges holding the values vs, separated by one empty line. */
  function GaugeBlocks(vs: seq<int>): string
    requires |vs| <= 6
  {
    if vs == [] then ""
    else GaugeHead(6 - |vs|) + IntToString(vs[0]) + "\n" + (if |vs| > 1 then "\n" else "") + GaugeBlocks(vs[1..])
  }

  /** The text `_write_status_metrics` writes: six HELP/TYPE/sample blocks. */
  function StatusMetrics(s: Summary): string {
    GaugeBlocks(SummaryValues(s))
  }

  /** Reads the values of gauges k.. back from a summary text. */
  function ReadGaugesFrom(text: string, k: nat): (r: Option<seq<int>>)
    requires k <= 6
    ensures r.Some? ==> |r.value| == 6 - k
    decreases 6 - k
  {
    if k == 6 then (if text == "" then Some([]) else None)
    else if !HasPrefix(text, GaugeHead(k)) then None
    else
      var rest := text[|GaugeHead(k)|..];
      var i := IndexOf(rest, '\n');
      var sep := if k < 5 then "\n" else "";
      if i == -1 || !HasPrefix(rest[i + 1..], sep) then None
      else match ReadGaugesFrom(rest[i + 1 + |sep|..], k + 1)
        case None => None
        case Some(vs) => Some([Atoi(rest[..i])] + vs)
  }

  /** The summary values read back from a status text; the partner of StatusMetrics. */
  function ReadSummary(text: string): Option<Summary> {
    match ReadGaugesFrom(text, 0)
    case None => None
    case Some(v) => Some(Summary(v[0], v[1], v[2], v[3], v[4], v[5]))
  }

  function StatusValue(success: bool): int { if success then 1 else 0 }

  // ---------------------------------------------------------------- filesystem steps

  /** `Path.write_text`: the path becomes a regular file holding `content`. */
  function WriteFile(st: FsState, p: string, content: string): FsState {
    FsState(st.files[p := content], st.links - {p})
  }

  /** `Path.rename`: the source entry moves onto the destination, replacing it. */
  function RenameFile(st: FsState, src: string, dst: string): FsState
    requires src in st.files
  {
    if src == dst then st
    else FsState((st.files - {src})[dst := st.files[src]], st.links - {dst})
  }

  function UnlinkPath(st: FsState, p: string): FsState {
    FsState(st.files - {p}, st.links - {p})
  }

  function LinkPath(st: FsState, p: string, target: string): FsState {
    FsState(st.files - {p}, st.links[p := target])
  }

  /** `Path.exists`: a regular file, or a link whose target is a regular file. */
  predicate PathExists(st: FsState, p: string) {
    p in st.files || (p in st.links && st.links[p] in st.files)
  }

  /** A write to `p` that `denied` names raises OSError; the file is then left as it was. */
  function Publish(st: FsState, denied: set<string>, tmp: string, final: string, content: string): Outcome<()>
  {
    if tmp in denied then Raised(st, tmp)
    else Normal(RenameFile(WriteFile(st, tmp, content), tmp, final), ())
  }

  /** `_save_check_script`: the result is the `current.sh` path. */
  function SaveScript(st: FsState, denied: set<string>, scriptsDir: string, c: CheckInfo): Outcome<string> {
    var file := ScriptFile(scriptsDir, c);
    var link := CurrentLink(scriptsDir, c.name);
    if !PathExists(st, file) && file in denied then Raised(st, file)
    else
      var st1 := if PathExists(st, file) then st else WriteFile(st, file, c.scriptContent);
      var st2 := if link in st1.links || PathExists(st1, link) then UnlinkPath(st1, link) else st1;
      if link in denied then Raised(st2, link)
      else Normal(LinkPath(st2, link, file), link)
  }

  /** What `_execute_check` publishes for one subprocess outcome. */
  function PublishedText(name: string, o: ExecOutcome): string {
    if o.Exited? && o.code == 0 then o.stdout else ErrorMetric(name)
  }

  function ResultOf(name: string, o: ExecOutcome): (r: CheckResult)
    ensures r.success <==> o.Exited? && o.code == 0
    ensures r.name == name
  {
    match o
    case Exited(code, out, err) =>
      if code == 0 then CheckResult(name, true, out, None) else CheckResult(name, false, out, Some(err))
    case TimedOut => CheckResult(name, false, "", Some("Timeout"))
    case Crashed(msg) => CheckResult(name, false, "", Some(msg))
  }

  /**
   * `_execute_check`.  A failed write inside the `try` is handled by writing the error metric
   * to the same temporary path, which fails again and escapes.
   */
  function CheckExecution(st: FsState, denied: set<string>, textfileDir: string, name: string,
                        o: ExecOutcome): Outcome<CheckResult>
  {
    match Publish(st, denied, ResultTmp(textfileDir, name), ResultFile(textfileDir, name), PublishedText(name, o))
    case Raised(st1, p) => Raised(st1, p)
    case Normal(st1, _) => Normal(st1, ResultOf(name, o))
  }

  // ---------------------------------------------------------------- the run

  /** The runner's settings; the hostname is already resolved. */
  datatype Settings = Settings(serverUrl: string, hostname: string, textfileDir: string, scriptsDir: string)

  /** The subprocess oracle: the outcome of the k-th execution, given the script path and the stdin config. */
  type Exec = (nat, string, Value) -> ExecOutcome

  function OutcomeAt(scriptsDir: string, exec: Exec, checks: seq<CheckInfo>, k: nat): ExecOutcome
    requires k < |checks|
  {
    exec(k, CurrentLink(scriptsDir, checks[k].name), checks[k].config)
  }

  /** The number of the first `n` checks whose script exits with status 0. */
  function Succeeded(scriptsDir: string, exec: Exec, checks: seq<CheckInfo>, n: nat): (r: nat)
    requires n <= |checks|
    ensures r <= n
  {
    if n == 0 then 0
    else Succeeded(scriptsDir, exec, checks, n - 1)
         + (if OutcomeAt(scriptsDir, exec, checks, n - 1).Exited? && OutcomeAt(scriptsDir, exec, checks, n - 1).code == 0 then 1 else 0)
  }

  /** The counters of the check loop. */
  function RunSummary(scriptsDir: string, exec: Exec, checks: seq<CheckInfo>, clock: Clock): Summary {
    var n := |checks|;
    var s := Succeeded(scriptsDir, exec, checks, n);
    Summary(1, clock.stamp, clock.end - clock.start, n, s, n - s)
  }

  datatype Tally = Tally(succeeded: nat, failed: nat)

  // ---------------------------------------------------------------- properties of the metric text

  /** The check label of an error metric reads back as the check name. */
  lemma ErrorMetricRoundTrip(name: string)
    ensures ErrorMetricCheck(ErrorMetric(name)) == Some(name)
  {
    var head := ErrorHelpLine + "\n" + ErrorTypeLine + "\n" + ErrorSamplePrefix;
    var tail := ErrorSampleSuffix + "\n";
    var text := ErrorMetric(name);
    assert text == head + name + tail;
    assert text[..|head|] == head;
    assert text[|text| - |tail|..] == tail;
    assert text[|head|..|text| - |tail|] == name;
  }

  lemma IntToStringNoNewline(n: int)
    ensures '\n' !in IntToString(n)
  {
    var s := IntToString(n);
    forall i | 0 <= i < |s| ensures s[i] != '\n' {
      if i > 0 { assert s[1..][i - 1] == s[i]; }
    }
  }

  /** How ReadGaugesFrom takes one block apart. */
  lemma StripBlock(head: string, digits: string, sep: string, more: string)
    requires '\n' !in digits
    ensures HasPrefix(head + digits + "\n" + sep + more, head)
    ensures (head + digits + "\n" + sep + more)[|head|..] == digits + "\n" + sep + more
    ensures IndexOf(digits + "\n" + sep + more, '\n') == |digits|
    ensures (digits + "\n" + sep + more)[..|digits|] == digits
    ensures HasPrefix((digits + "\n" + sep + more)[|digits| + 1..], sep)
    ensures (digits + "\n" + sep + more)[|digits| + 1 + |sep|..] == more
  {
    var text := head + digits + "\n" + sep + more;
    assert text == head + (digits + "\n" + sep + more);
    var rest := digits + "\n" + sep + more;
    assert rest == digits + ['\n'] + (sep + more);
    IndexOfAfter(digits, '\n', sep + more);
    assert rest[|digits| + 1..] == sep + more;
  }

  lemma {:induction false} ReadGaugesRoundTrip(vs: seq<int>, k: nat)
    requires |vs| <= 6 && k == 6 - |vs|
    ensures ReadGaugesFrom(GaugeBlocks(vs), k) == Some(vs)
  {
    if vs != [] {
      ReadGaugesRoundTrip(vs[1..], k + 1);
      GaugeBlocksCons(vs, k);
      IntToStringNoNewline(vs[0]);
      var sep := if k < 5 then "\n" else "";
      ReadGaugeBlock(GaugeBlocks(vs), k, GaugeHead(k), IntToString(vs[0]), sep, GaugeBlocks(vs[1..]), vs[1..]);
      Seqs.HeadTail(vs);
    } else {
      assert ReadGaugesFrom("", 6) == Some([]);
    }
  }

  /** The block of the first value, then the blocks of the rest. */
  lemma GaugeBlocksCons(vs: seq<int>, k: nat)
    requires 0 < |vs| <= 6 && k == 6 - |vs|
    ensures GaugeBlocks(vs) == GaugeHead(k) + IntToString(vs[0]) + "\n" + (if k < 5 then "\n" else "") + GaugeBlocks(vs[1..])
  {
  }

  /** Reading one block: its digits, then the values of the blocks after it. */
  lemma ReadGaugeBlock(text: string, k: nat, head: string, digits: string, sep: string, more: string, vs: seq<int>)
    requires k < 6 && head == GaugeHead(k) && sep == (if k < 5 then "\n" else "") && '\n' !in digits
    requires text == head + digits + "\n" + sep + more
    requires ReadGaugesFrom(more, k + 1) == Some(vs)
    ensures ReadGaugesFrom(text, k) == Some([Atoi(digits)] + vs)
  {
    StripBlock(head, digits, sep, more);
  }

  /** The six gauge values read back from the summary text are the ones written. */
  lemma SummaryRoundTrip(s: Summary)
    ensures ReadSummary(StatusMetrics(s)) == Some(s)
  {
    ReadGaugesRoundTrip(SummaryValues(s), 0);
  }

  // ---------------------------------------------------------------- properties of the steps

  /** Paths other than the two given ones hold the same entries in both states. */
  predicate SameExcept(st: FsState, st1: FsState, p: string, q: string) {
    st1.files - {p, q} == st.files - {p, q} && st1.links - {p, q} == st.links - {p, q}
  }

  lemma ScriptFileIsNotLink(scriptsDir: string, c: CheckInfo)
    ensures ScriptFile(scriptsDir, c) != CurrentLink(scriptsDir, c.name)
  {
    var d := ScriptDir(scriptsDir, c.name) + "/";
    var f := c.name + "_" + c.scriptHash + ".sh";
    assert ScriptFile(scriptsDir, c) == d + f && CurrentLink(scriptsDir, c.name) == d + "current.sh";
    assert f[|c.name|] == '_';
    if |c.name| < 10 { assert "current.sh"[|c.name|] != '_'; }
    assert f != "current.sh";
    assert (d + f)[|d|..] == f && (d + "current.sh")[|d|..] == "current.sh";
  }

  lemma ResultTmpIsNotFile(dir: string, name: string)
    ensures ResultTmp(dir, name) != ResultFile(dir, name)
  {
    assert |ResultTmp(dir, name)| == |ResultFile(dir, name)| + 4;
  }

  lemma StatusTmpIsNotFile(dir: string)
    ensures StatusTmp(dir) != StatusFile(dir)
  {
    assert |StatusTmp(dir)| == |StatusFile(dir)| + 4;
  }

  /**
   * Temp-then-rename publication: a denied temporary path raises and changes nothing;
   * otherwise the final path holds the content and the temporary path is gone.
   */
  lemma PublishEffect(st: FsState, denied: set<string>, tmp: string, final: string, content: string)
    requires tmp != final
    ensures Publish(st, denied, tmp, final, content).Raised? <==> tmp in denied
    ensures tmp in denied ==> Publish(st, denied, tmp, final, content) == Raised(st, tmp)
    ensures Publish(st, denied, tmp, final, content).Normal? ==>
      var st1 := Publish(st, denied, tmp, final, content).st;
      st1.files.Keys == st.files.Keys - {tmp} + {final} && st1.files[final] == content
      && tmp !in st1.links && final !in st1.links && SameExcept(st, st1, tmp, final)
  {
  }

  /**
   * `_save_check_script` raises exactly when a needed write is denied; otherwise it returns the
   * `current.sh` path, which then links to the script file, the script file exists, a new body
   * is written only when no file was there, and no other path changes.
   */
  lemma SaveScriptEffect(st: FsState, denied: set<string>, scriptsDir: string, c: CheckInfo)
    ensures var file := ScriptFile(scriptsDir, c);
      SaveScript(st, denied, scriptsDir, c).Raised? <==>
        (!PathExists(st, file) && file in denied) || CurrentLink(scriptsDir, c.name) in denied
    ensures SaveScript(st, denied, scriptsDir, c).Normal? ==>
      var file, link := ScriptFile(scriptsDir, c), CurrentLink(scriptsDir, c.name);
      var st1 := SaveScript(st, denied, scriptsDir, c).st;
      SaveScript(st, denied, scriptsDir, c).value == link
      && link in st1.links && st1.links[link] == file && link !in st1.files
      && (PathExists(st, file) ==> (file in st1.files <==> file in st.files) && (file in st.files ==> st1.files[file] == st.files[file]))
      && (!PathExists(st, file) ==> file in st1.files && st1.files[file] == c.scriptContent)
      && SameExcept(st, st1, file, link)
  {
    ScriptFileIsNotLink(scriptsDir, c);
  }

  /** Saving the same check again writes nothing and leaves the state as the first save left it. */
  lemma SaveScriptIdempotent(st: FsState, denied: set<string>, scriptsDir: string, c: CheckInfo)
    requires SaveScript(st, denied, scriptsDir, c).Normal?
    requires var file := ScriptFile(scriptsDir, c);
      !(file in st.links && st.links[file] == CurrentLink(scriptsDir, c.name))
    ensures var st1 := SaveScript(st, denied, scriptsDir, c).st;
      SaveScript(st1, denied, scriptsDir, c) == SaveScript(st, denied, scriptsDir, c)
  {
    var file, link := ScriptFile(scriptsDir, c), CurrentLink(scriptsDir, c.name);
    ScriptFileIsNotLink(scriptsDir, c);
    SaveScriptEffect(st, denied, scriptsDir, c);
    var st1 := SaveScript(st, denied, scriptsDir, c).st;
    var st2 := UnlinkPath(st1, link);
    assert LinkPath(st2, link, file) == st1;
  }

  /**
   * `_execute_check`: exit status 0 publishes stdout verbatim and succeeds; any other outcome
   * publishes the error metric and fails; a denied temporary path raises.
   */
  lemma ExecuteCheckEffect(st: FsState, denied: set<string>, textfileDir: string, name: string, o: ExecOutcome)
    ensures CheckExecution(st, denied, textfileDir, name, o).Raised? <==> ResultTmp(textfileDir, name) in denied
    ensures CheckExecution(st, denied, textfileDir, name, o).Normal? ==>
      var st1, r := CheckExecution(st, denied, textfileDir, name, o).st, CheckExecution(st, denied, textfileDir, name, o).value;
      var final := ResultFile(textfileDir, name);
      (r.success <==> o.Exited? && o.code == 0)
      && final in st1.files
      && (r.success ==> st1.files[final] == o.stdout)
      && (!r.success ==> st1.files[final] == ErrorMetric(name))
      && ResultTmp(textfileDir, name) !in st1.files
      && SameExcept(st, st1, ResultTmp(textfileDir, name), final)
  {
    ResultTmpIsNotFile(textfileDir, name);
    PublishEffect(st, denied, ResultTmp(textfileDir, name), ResultFile(textfileDir, name), PublishedText(name, o));
  }

  /** What a step of the runner ended with: a value, or the OSError of a write to `path`. */
  datatype Raises<T> = Returned(value: T) | Thrown(path: string)

  function Signal<T>(o: Outcome<T>): Raises<T> {
    match o
    case Normal(_, v) => Returned(v)
    case Raised(_, p) => Thrown(p)
  }

  // ---------------------------------------------------------------- the check loop as a fold

  /**
   * One turn of the check loop of `run` on the state `st`: save the k-th check's script, then
   * execute it through the returned `current.sh` path; the value says whether it exited with 0.
   */
  function CheckStep(st: FsState, denied: set<string>, scriptsDir: string, textfileDir: string,
                     exec: Exec, checks: seq<CheckInfo>, k: nat): Outcome<bool>
    requires k < |checks|
  {
    match SaveScript(st, denied, scriptsDir, checks[k])
    case Raised(st1, p) => Raised(st1, p)
    case Normal(st1, link) =>
      match CheckExecution(st1, denied, textfileDir, checks[k].name, exec(k, link, checks[k].config))
      case Raised(st2, p) => Raised(st2, p)
      case Normal(st2, res) => Normal(st2, res.success)
  }

  /** The k-th turn after the earlier ones: an exception that escaped stops the loop. */
  function LoopStep(o: Outcome<nat>, denied: set<string>, scriptsDir: string, textfileDir: string,
                    exec: Exec, checks: seq<CheckInfo>, k: nat): Outcome<nat>
    requires k < |checks|
  {
    match o
    case Raised(st, p) => Raised(st, p)
    case Normal(st, m) =>
      match CheckStep(st, denied, scriptsDir, textfileDir, exec, checks, k)
      case Raised(st1, p) => Raised(st1, p)
      case Normal(st1, ok) => Normal(st1, m + (if ok then 1 else 0))
  }

  /**
   * The first n turns of the check loop from the state `st`: the state they leave and the
   * number of checks that exited with 0, or the state and path of the write that raised.
   */
  function CheckLoop(st: FsState, denied: set<string>, scriptsDir: string, textfileDir: string,
                     exec: Exec, checks: seq<CheckInfo>, n: nat): Outcome<nat>
    requires n <= |checks|
  {
    if n == 0 then Normal(st, 0)
    else LoopStep(CheckLoop(st, denied, scriptsDir, textfileDir, exec, checks, n - 1),
                  denied, scriptsDir, textfileDir, exec, checks, n - 1)
  }

  /** The state after one more turn: the raised state stays, otherwise the turn's own state. */
  lemma LoopStepState(o: Outcome<nat>, denied: set<string>, scriptsDir: string, textfileDir: string,
                      exec: Exec, checks: seq<CheckInfo>, k: nat)
    requires k < |checks|
    ensures var o1 := LoopStep(o, denied, scriptsDir, textfileDir, exec, checks, k);
      && (o.Raised? ==> o1 == o)
      && (o.Normal? ==> o1.st == CheckStep(o.st, denied, scriptsDir, textfileDir, exec, checks, k).st
                        && (o1.Normal? <==> CheckStep(o.st, denied, scriptsDir, textfileDir, exec, checks, k).Normal?))
  {
  }

  /** A path keeps its file content and its link target from one state to the next. */
  predicate Untouched(st: FsState, st1: FsState, p: string) {
    && (p in st.files <==> p in st1.files) && (p in st.files ==> st1.files[p] == st.files[p])
    && (p in st.links <==> p in st1.links) && (p in st.links ==> st1.links[p] == st.links[p])
  }

  /** A file held at `p` is still held, with the same content, in the later state. */
  predicate FileKept(st: FsState, st1: FsState, p: string) {
    p in st.files ==> p in st1.files && st1.files[p] == st.files[p]
  }

  /** A link at `p` is still there, with the same target, in the later state. */
  predicate LinkKept(st: FsState, st1: FsState, p: string) {
    p in st.links ==> p in st1.links && st1.links[p] == st.links[p]
  }

  /** `p` is a regular file holding `content`. */
  predicate HasFile(st: FsState, p: string, content: string) {
    p in st.files && st.files[p] == content
  }

  /** `p` is a symbolic link to `target`. */
  predicate HasLink(st: FsState, p: string, target: string) {
    p in st.links && st.links[p] == target
  }

  function Last(s: string): char
    requires s != []
  {
    s[|s| - 1]
  }

  /** The four kinds of path a turn touches end in different characters. */
  lemma PathEnds(scriptsDir: string, textfileDir: string, c: CheckInfo, name: string)
    ensures Last(ScriptFile(scriptsDir, c)) == 'h' && Last(CurrentLink(scriptsDir, name)) == 'h'
    ensures Last(ResultTmp(textfileDir, name)) == 'p' && Last(ResultFile(textfileDir, name)) == 'm'
  {
  }

  /** Different check names have different result files. */
  lemma ResultFileInjective(textfileDir: string, a: string, b: string)
    requires ResultFile(textfileDir, a) == ResultFile(textfileDir, b)
    ensures a == b
  {
    var n := |textfileDir| + 1;
    assert ResultFile(textfileDir, a)[n..n + |a|] == a;
    assert ResultFile(textfileDir, b)[n..n + |b|] == b;
  }

  /** Different check names have different `current.sh` links. */
  lemma CurrentLinkInjective(scriptsDir: string, a: string, b: string)
    requires CurrentLink(scriptsDir, a) == CurrentLink(scriptsDir, b)
    ensures a == b
  {
    var n := |scriptsDir| + 1;
    assert CurrentLink(scriptsDir, a)[n..n + |a|] == a;
    assert CurrentLink(scriptsDir, b)[n..n + |b|] == b;
  }

  /**
   * What one turn does: it raises exactly with a denied path; when it returns, its value is
   * whether the k-th execution of `current.sh` exited with 0, the check's result file holds the
   * published text and its `current.sh` links to its script file.
   */
  lemma CheckStepEffect(st: FsState, denied: set<string>, scriptsDir: string, textfileDir: string,
                        exec: Exec, checks: seq<CheckInfo>, k: nat)
    requires k < |checks|
    ensures var o, c := CheckStep(st, denied, scriptsDir, textfileDir, exec, checks, k), checks[k];
      && (o.Raised? ==> o.path in denied)
      && (o.Normal? ==>
            var out := OutcomeAt(scriptsDir, exec, checks, k);
            && (o.value <==> out.Exited? && out.code == 0)
            && ResultFile(textfileDir, c.name) in o.st.files
            && o.st.files[ResultFile(textfileDir, c.name)] == PublishedText(c.name, out)
            && CurrentLink(scriptsDir, c.name) in o.st.links
            && o.st.links[CurrentLink(scriptsDir, c.name)] == ScriptFile(scriptsDir, c))
  {
    var c := checks[k];
    SaveScriptEffect(st, denied, scriptsDir, c);
    var saved := SaveScript(st, denied, scriptsDir, c);
    if saved.Normal? {
      var out := exec(k, saved.value, c.config);
      ExecuteCheckEffect(saved.st, denied, textfileDir, c.name, out);
      ResultTmpIsNotFile(textfileDir, c.name);
      PublishEffect(saved.st, denied, ResultTmp(textfileDir, c.name), ResultFile(textfileDir, c.name), PublishedText(c.name, out));
      PathEnds(scriptsDir, textfileDir, c, c.name);
    }
  }

  /**
   * One turn changes only the check's script file, its `current.sh`, and its temporary and
   * final result files, whether it returns or raises.
   */
  lemma CheckStepKeeps(st: FsState, denied: set<string>, scriptsDir: string, textfileDir: string,
                       exec: Exec, checks: seq<CheckInfo>, k: nat, p: string)
    requires k < |checks|
    requires p != ScriptFile(scriptsDir, checks[k]) && p != CurrentLink(scriptsDir, checks[k].name)
    requires p != ResultTmp(textfileDir, checks[k].name) && p != ResultFile(textfileDir, checks[k].name)
    ensures Untouched(st, CheckStep(st, denied, scriptsDir, textfileDir, exec, checks, k).st, p)
  {
    var c := checks[k];
    SaveScriptEffect(st, denied, scriptsDir, c);
    var saved := SaveScript(st, denied, scriptsDir, c);
    assert Untouched(st, saved.st, p) by {
      assert p in st.files - {ScriptFile(scriptsDir, c), CurrentLink(scriptsDir, c.name)} <==> p in st.files;
    }
    if saved.Normal? {
      var out := exec(k, saved.value, c.config);
      ExecuteCheckEffect(saved.st, denied, textfileDir, c.name, out);
      var e := CheckExecution(saved.st, denied, textfileDir, c.name, out);
      assert Untouched(saved.st, e.st, p) by {
        if e.Normal? {
          assert p in saved.st.files - {ResultTmp(textfileDir, c.name), ResultFile(textfileDir, c.name)} <==> p in saved.st.files;
        }
      }
    }
  }

  /** A later turn, returned or raised, leaves every path other than its own four as it was. */
  lemma LoopStepKeeps(o: Outcome<nat>, denied: set<string>, scriptsDir: string, textfileDir: string,
                      exec: Exec, checks: seq<CheckInfo>, k: nat, p: string)
    requires k < |checks|
    requires p != ScriptFile(scriptsDir, checks[k]) && p != CurrentLink(scriptsDir, checks[k].name)
    requires p != ResultTmp(textfileDir, checks[k].name) && p != ResultFile(textfileDir, checks[k].name)
    ensures var st1 := LoopStep(o, denied, scriptsDir, textfileDir, exec, checks, k).st;
      FileKept(o.st, st1, p) && LinkKept(o.st, st1, p)
  {
    LoopStepState(o, denied, scriptsDir, textfileDir, exec, checks, k);
    if o.Normal? {
      CheckStepKeeps(o.st, denied, scriptsDir, textfileDir, exec, checks, k, p);
    }
  }

  /** The result file of one name is none of the paths a turn of a check with another name touches. */
  lemma ResultFileMisses(scriptsDir: string, textfileDir: string, c: CheckInfo, name: string)
    requires name != c.name
    ensures var f := ResultFile(textfileDir, name);
      && f != ScriptFile(scriptsDir, c) && f != CurrentLink(scriptsDir, c.name)
      && f != ResultTmp(textfileDir, c.name) && f != ResultFile(textfileDir, c.name)
  {
    PathEnds(scriptsDir, textfileDir, c, c.name);
    PathEnds(scriptsDir, textfileDir, c, name);
    if ResultFile(textfileDir, name) == ResultFile(textfileDir, c.name) {
      ResultFileInjective(textfileDir, name, c.name);
    }
  }

  /**
   * The `current.sh` of one name is none of the paths a turn of a check with another name
   * touches, as long as that check's script file is not that very path.
   */
  lemma CurrentLinkMisses(scriptsDir: string, textfileDir: string, c: CheckInfo, name: string)
    requires name != c.name && ScriptFile(scriptsDir, c) != CurrentLink(scriptsDir, name)
    ensures var l := CurrentLink(scriptsDir, name);
      && l != ScriptFile(scriptsDir, c) && l != CurrentLink(scriptsDir, c.name)
      && l != ResultTmp(textfileDir, c.name) && l != ResultFile(textfileDir, c.name)
  {
    PathEnds(scriptsDir, textfileDir, c, c.name);
    PathEnds(scriptsDir, textfileDir, c, name);
    if CurrentLink(scriptsDir, name) == CurrentLink(scriptsDir, c.name) {
      CurrentLinkInjective(scriptsDir, name, c.name);
    }
  }

  /** After n turns: a returned loop has counted the checks that exited with 0, a raised one names a denied path. */
  predicate CountedUpTo(o: Outcome<nat>, denied: set<string>, scriptsDir: string, exec: Exec, checks: seq<CheckInfo>, n: nat)
    requires n <= |checks|
  {
    && (o.Normal? ==> o.value == Succeeded(scriptsDir, exec, checks, n))
    && (o.Raised? ==> o.path in denied)
  }

  /** One more turn keeps the count right. */
  lemma CountStep(o: Outcome<nat>, denied: set<string>, scriptsDir: string, textfileDir: string,
                  exec: Exec, checks: seq<CheckInfo>, k: nat)
    requires k < |checks| && CountedUpTo(o, denied, scriptsDir, exec, checks, k)
    ensures CountedUpTo(LoopStep(o, denied, scriptsDir, textfileDir, exec, checks, k), denied, scriptsDir, exec, checks, k + 1)
  {
    if o.Normal? {
      CheckStepEffect(o.st, denied, scriptsDir, textfileDir, exec, checks, k);
    }
  }

  /** The outcomes after 0, 1, ..., n turns. */
  function LoopOutcomes(st: FsState, denied: set<string>, scriptsDir: string, textfileDir: string,
                        exec: Exec, checks: seq<CheckInfo>, n: nat): (os: seq<Outcome<nat>>)
    requires n <= |checks|
    ensures |os| == n + 1
    ensures forall j :: 0 <= j <= n ==> os[j] == CheckLoop(st, denied, scriptsDir, textfileDir, exec, checks, j)
  {
    seq(n + 1, j requires 0 <= j <= n => CheckLoop(st, denied, scriptsDir, textfileDir, exec, checks, j))
  }

  /** The loop counts, and raises only with a denied path. */
  lemma {:induction false} CheckLoopCounts(st: FsState, denied: set<string>, scriptsDir: string, textfileDir: string,
                                           exec: Exec, checks: seq<CheckInfo>, n: nat)
    requires n <= |checks|
    ensures CountedUpTo(CheckLoop(st, denied, scriptsDir, textfileDir, exec, checks, n), denied, scriptsDir, exec, checks, n)
  {
    if n > 0 {
      var o := CheckLoop(st, denied, scriptsDir, textfileDir, exec, checks, n - 1);
      CheckLoopCounts(st, denied, scriptsDir, textfileDir, exec, checks, n - 1);
      CountStep(o, denied, scriptsDir, textfileDir, exec, checks, n - 1);
      assert CheckLoop(st, denied, scriptsDir, textfileDir, exec, checks, n)
          == LoopStep(o, denied, scriptsDir, textfileDir, exec, checks, n - 1);
    }
  }

  /** A file or link that every step of a run of states keeps is kept from its first state to its last. */
  lemma {:induction false} KeptAlong(sts: seq<FsState>, p: string, a: nat, b: nat)
    requires a <= b < |sts|
    requires forall j :: a < j <= b ==> FileKept(sts[j - 1], sts[j], p) && LinkKept(sts[j - 1], sts[j], p)
    ensures FileKept(sts[a], sts[b], p) && LinkKept(sts[a], sts[b], p)
  {
    if a < b {
      KeptAlong(sts, p, a, b - 1);
    }
  }

  /** The states after 0, 1, ..., n turns. */
  function LoopStates(st: FsState, denied: set<string>, scriptsDir: string, textfileDir: string,
                      exec: Exec, checks: seq<CheckInfo>, n: nat): (sts: seq<FsState>)
    requires n <= |checks|
    ensures |sts| == n + 1
    ensures forall j :: 0 <= j <= n ==> sts[j] == CheckLoop(st, denied, scriptsDir, textfileDir, exec, checks, j).st
  {
    seq(n + 1, j requires 0 <= j <= n => CheckLoop(st, denied, scriptsDir, textfileDir, exec, checks, j).st)
  }

  /** Turn n - 1 keeps every path that is none of its own four. */
  lemma TurnKeeps(st: FsState, denied: set<string>, scriptsDir: string, textfileDir: string,
                  exec: Exec, checks: seq<CheckInfo>, n: nat, p: string)
    requires 0 < n <= |checks|
    requires p != ScriptFile(scriptsDir, checks[n - 1]) && p != CurrentLink(scriptsDir, checks[n - 1].name)
    requires p != ResultTmp(textfileDir, checks[n - 1].name) && p != ResultFile(textfileDir, checks[n - 1].name)
    ensures var st0, st1 := CheckLoop(st, denied, scriptsDir, textfileDir, exec, checks, n - 1).st,
                            CheckLoop(st, denied, scriptsDir, textfileDir, exec, checks, n).st;
      FileKept(st0, st1, p) && LinkKept(st0, st1, p)
  {
    LoopStepKeeps(CheckLoop(st, denied, scriptsDir, textfileDir, exec, checks, n - 1), denied, scriptsDir, textfileDir, exec, checks, n - 1, p);
  }

  /** A turn k that returns leaves check k's result file and `current.sh` as `CheckStepEffect` says. */
  lemma TurnPublishes(st: FsState, denied: set<string>, scriptsDir: string, textfileDir: string,
                      exec: Exec, checks: seq<CheckInfo>, k: nat)
    requires k < |checks|
    requires CheckLoop(st, denied, scriptsDir, textfileDir, exec, checks, k + 1).Normal?
    ensures var fin, c := CheckLoop(st, denied, scriptsDir, textfileDir, exec, checks, k + 1).st, checks[k];
      && HasFile(fin, ResultFile(textfileDir, c.name), PublishedText(c.name, OutcomeAt(scriptsDir, exec, checks, k)))
      && HasLink(fin, CurrentLink(scriptsDir, c.name), ScriptFile(scriptsDir, c))
  {
    var prev := CheckLoop(st, denied, scriptsDir, textfileDir, exec, checks, k);
    LoopStepState(prev, denied, scriptsDir, textfileDir, exec, checks, k);
    CheckStepEffect(prev.st, denied, scriptsDir, textfileDir, exec, checks, k);
  }

  /**
   * Per-check publication: once check k has run, its result file holds the text published for
   * its execution (its stdout on exit 0, the error metric otherwise) after any number of later
   * turns, returned or raised, unless a later check has the same name.
   */
  lemma CheckLoopPublishes(st: FsState, denied: set<string>, scriptsDir: string, textfileDir: string,
                           exec: Exec, checks: seq<CheckInfo>, n: nat, k: nat)
    requires k < n <= |checks|
    requires CheckLoop(st, denied, scriptsDir, textfileDir, exec, checks, k + 1).Normal?
    requires forall j :: k < j < n ==> checks[j].name != checks[k].name
    ensures HasFile(CheckLoop(st, denied, scriptsDir, textfileDir, exec, checks, n).st, ResultFile(textfileDir, checks[k].name),
                    PublishedText(checks[k].name, OutcomeAt(scriptsDir, exec, checks, k)))
  {
    var f := ResultFile(textfileDir, checks[k].name);
    var sts := LoopStates(st, denied, scriptsDir, textfileDir, exec, checks, n);
    forall j | k + 1 < j <= n
      ensures FileKept(sts[j - 1], sts[j], f) && LinkKept(sts[j - 1], sts[j], f)
    {
      ResultFileMisses(scriptsDir, textfileDir, checks[j - 1], checks[k].name);
      TurnKeeps(st, denied, scriptsDir, textfileDir, exec, checks, j, f);
    }
    KeptAlong(sts, f, k + 1, n);
    TurnPublishes(st, denied, scriptsDir, textfileDir, exec, checks, k);
  }

  /**
   * Once check k has run, its `current.sh` links to its script file after any number of later
   * turns, unless a later check has the same name or a later check's script file is that link.
   */
  lemma CheckLoopLinks(st: FsState, denied: set<string>, scriptsDir: string, textfileDir: string,
                       exec: Exec, checks: seq<CheckInfo>, n: nat, k: nat)
    requires k < n <= |checks|
    requires CheckLoop(st, denied, scriptsDir, textfileDir, exec, checks, k + 1).Normal?
    requires forall j :: k < j < n ==> checks[j].name != checks[k].name
    requires forall j :: k < j < n ==> ScriptFile(scriptsDir, checks[j]) != CurrentLink(scriptsDir, checks[k].name)
    ensures HasLink(CheckLoop(st, denied, scriptsDir, textfileDir, exec, checks, n).st, CurrentLink(scriptsDir, checks[k].name),
                    ScriptFile(scriptsDir, checks[k]))
  {
    var l := CurrentLink(scriptsDir, checks[k].name);
    var sts := LoopStates(st, denied, scriptsDir, textfileDir, exec, checks, n);
    forall j | k + 1 < j <= n
      ensures FileKept(sts[j - 1], sts[j], l) && LinkKept(sts[j - 1], sts[j], l)
    {
      CurrentLinkMisses(scriptsDir, textfileDir, checks[j - 1], checks[k].name);
      TurnKeeps(st, denied, scriptsDir, textfileDir, exec, checks, j, l);
    }
    KeptAlong(sts, l, k + 1, n);
    TurnPublishes(st, denied, scriptsDir, textfileDir, exec, checks, k);
  }

  /** A raised loop stays raised, with the same state, through any number of further turns. */
  lemma {:induction false} RaisedStays(st: FsState, denied: set<string>, scriptsDir: string, textfileDir: string,
                                       exec: Exec, checks: seq<CheckInfo>, a: nat, b: nat)
    requires a <= b <= |checks|
    requires CheckLoop(st, denied, scriptsDir, textfileDir, exec, checks, a).Raised?
    ensures CheckLoop(st, denied, scriptsDir, textfileDir, exec, checks, b) == CheckLoop(st, denied, scriptsDir, textfileDir, exec, checks, a)
  {
    if a < b {
      RaisedStays(st, denied, scriptsDir, textfileDir, exec, checks, a, b - 1);
      LoopStepState(CheckLoop(st, denied, scriptsDir, textfileDir, exec, checks, b - 1), denied, scriptsDir, textfileDir, exec, checks, b - 1);
    }
  }

  /** In a run of outcomes that starts returned and where a raised outcome stays, the first raise. */
  lemma {:induction false} FirstRaiseIn(os: seq<Outcome<nat>>, n: nat) returns (f: nat)
    requires n < |os| && os[0].Normal? && os[n].Raised?
    requires forall j :: 0 < j < |os| ==> os[j - 1].Raised? ==> os[j] == os[j - 1]
    ensures f < n && os[f].Normal? && os[f + 1].Raised? && os[n] == os[f + 1]
  {
    if os[n - 1].Raised? {
      f := FirstRaiseIn(os, n - 1);
    } else {
      f := n - 1;
    }
  }

  /**
   * A raised loop stopped at one turn f: the turns before it all returned, turn f raised, and
   * the later turns left its state and path alone (LoopAdvance says what turn f is).
   */
  lemma FirstRaise(st: FsState, denied: set<string>, scriptsDir: string, textfileDir: string,
                   exec: Exec, checks: seq<CheckInfo>, n: nat) returns (f: nat)
    requires n <= |checks|
    requires CheckLoop(st, denied, scriptsDir, textfileDir, exec, checks, n).Raised?
    ensures f < n
    ensures CheckLoop(st, denied, scriptsDir, textfileDir, exec, checks, f).Normal?
    ensures CheckLoop(st, denied, scriptsDir, textfileDir, exec, checks, f + 1).Raised?
    ensures CheckLoop(st, denied, scriptsDir, textfileDir, exec, checks, n) == CheckLoop(st, denied, scriptsDir, textfileDir, exec, checks, f + 1)
  {
    var os := LoopOutcomes(st, denied, scriptsDir, textfileDir, exec, checks, n);
    forall j | 0 < j < |os|
      ensures os[j - 1].Raised? ==> os[j] == os[j - 1]
    {
      LoopStepState(os[j - 1], denied, scriptsDir, textfileDir, exec, checks, j - 1);
    }
    f := FirstRaiseIn(os, n);
  }

  /** Turn i, run on the state `st` the first i turns left with count m, is turn i of the fold. */
  lemma LoopAdvance(st0: FsState, denied: set<string>, scriptsDir: string, textfileDir: string,
                    exec: Exec, checks: seq<CheckInfo>, i: nat, st: FsState, m: nat)
    requires i < |checks|
    requires CheckLoop(st0, denied, scriptsDir, textfileDir, exec, checks, i) == Normal(st, m)
    ensures var t := CheckStep(st, denied, scriptsDir, textfileDir, exec, checks, i);
      && (t.Normal? ==> CheckLoop(st0, denied, scriptsDir, textfileDir, exec, checks, i + 1) == Normal(t.st, m + (if t.value then 1 else 0)))
      && (t.Raised? ==> CheckLoop(st0, denied, scriptsDir, textfileDir, exec, checks, i + 1) == Raised(t.st, t.path))
  {
    assert CheckLoop(st0, denied, scriptsDir, textfileDir, exec, checks, i + 1)
        == LoopStep(Normal(st, m), denied, scriptsDir, textfileDir, exec, checks, i);
  }

  /** How a run with fetched checks ends: its final state and its exit status or escaping error. */
  datatype RunEnd = RunEnd(st: FsState, outcome: RunOutcome)

  /**
   * The part of `run` after a successful fetch, on the state `st`: the check loop, and when it
   * returns the status-1 summary written by temp-then-rename, then exit status 0.
   */
  function FetchedRun(st: FsState, denied: set<string>, s: Settings, exec: Exec, checks: seq<CheckInfo>, clock: Clock): RunEnd {
    StatusAfter(CheckLoop(st, denied, s.scriptsDir, s.textfileDir, exec, checks, |checks|), denied, s.textfileDir,
                RunSummary(s.scriptsDir, exec, checks, clock))
  }

  /** The end of the run after the check loop ended with `o`: an escaped error, or the summary publication. */
  function StatusAfter(o: Outcome<nat>, denied: set<string>, dir: string, sum: Summary): RunEnd {
    if o.Raised? then RunEnd(o.st, Uncaught(o.path))
    else
      var w := Publish(o.st, denied, StatusTmp(dir), StatusFile(dir), StatusMetrics(sum));
      if w.Raised? then RunEnd(w.st, Uncaught(w.path)) else RunEnd(w.st, ExitCode(0))
  }

  /**
   * After the loop ended with `o`, the run exits 0 exactly when the loop returned and the
   * temporary status path is writable, and then the status file holds the summary.
   */
  lemma StatusAfterExit(o: Outcome<nat>, denied: set<string>, dir: string, sum: Summary)
    ensures var e := StatusAfter(o, denied, dir, sum);
      && (e.outcome == ExitCode(0) <==> o.Normal? && StatusTmp(dir) !in denied)
      && (e.outcome == ExitCode(0) ==> HasFile(e.st, StatusFile(dir), StatusMetrics(sum)))
      && (o.Raised? ==> e == RunEnd(o.st, Uncaught(o.path)))
      && (o.Normal? && StatusTmp(dir) in denied ==> e == RunEnd(o.st, Uncaught(StatusTmp(dir))))
  {
    StatusTmpIsNotFile(dir);
    PublishEffect(o.st, denied, StatusTmp(dir), StatusFile(dir), StatusMetrics(sum));
  }

  /** Writing the summary keeps every other file the loop left. */
  lemma StatusAfterKeeps(o: Outcome<nat>, denied: set<string>, dir: string, sum: Summary, p: string, v: string)
    requires p != StatusTmp(dir) && p != StatusFile(dir) && HasFile(o.st, p, v)
    ensures HasFile(StatusAfter(o, denied, dir, sum).st, p, v)
  {
    StatusTmpIsNotFile(dir);
    if o.Normal? && StatusTmp(dir) !in denied {
      PublishKeepsFile(o.st, denied, StatusTmp(dir), StatusFile(dir), StatusMetrics(sum), p, v);
    }
  }

  /** The status file is the result file of a check named `aami_status`, and of no other. */
  lemma StatusFileIsResultFile(textfileDir: string, name: string)
    ensures ResultFile(textfileDir, name) == StatusFile(textfileDir) <==> name == "aami_status"
    ensures ResultFile(textfileDir, name) != StatusTmp(textfileDir)
  {
    assert "aami_status" + ".prom" == "aami_status.prom";
    if ResultFile(textfileDir, name) == StatusFile(textfileDir) {
      ResultFileInjective(textfileDir, name, "aami_status");
    }
    assert Last(ResultFile(textfileDir, name)) == 'm' && Last(StatusTmp(textfileDir)) == 'p';
  }

  /** A publication that returns keeps every other file. */
  lemma PublishKeepsFile(st: FsState, denied: set<string>, tmp: string, final: string, content: string, p: string, v: string)
    requires tmp != final && p != tmp && p != final && tmp !in denied
    requires HasFile(st, p, v)
    ensures HasFile(Publish(st, denied, tmp, final, content).st, p, v)
    ensures HasFile(Publish(st, denied, tmp, final, content).st, final, content)
  {
    PublishEffect(st, denied, tmp, final, content);
    assert p in st.files - {tmp, final};
  }

  /**
   * A fetched run that exits 0 leaves the summary in the status file, and leaves each check's
   * result file, when no later check shares its name and it is not named `aami_status`, holding
   * the text published for that check's execution.
   */
  lemma FetchedRunResults(st: FsState, denied: set<string>, s: Settings, exec: Exec, checks: seq<CheckInfo>, clock: Clock, k: nat)
    requires k < |checks|
    requires FetchedRun(st, denied, s, exec, checks, clock).outcome == ExitCode(0)
    requires forall j :: k < j < |checks| ==> checks[j].name != checks[k].name
    requires checks[k].name != "aami_status"
    ensures var fin := FetchedRun(st, denied, s, exec, checks, clock).st;
      && HasFile(fin, StatusFile(s.textfileDir), StatusMetrics(RunSummary(s.scriptsDir, exec, checks, clock)))
      && HasFile(fin, ResultFile(s.textfileDir, checks[k].name), PublishedText(checks[k].name, OutcomeAt(s.scriptsDir, exec, checks, k)))
  {
    var dir := s.textfileDir;
    var o := CheckLoop(st, denied, s.scriptsDir, dir, exec, checks, |checks|);
    StatusAfterExit(o, denied, dir, RunSummary(s.scriptsDir, exec, checks, clock));
    if CheckLoop(st, denied, s.scriptsDir, dir, exec, checks, k + 1).Raised? {
      RaisedStays(st, denied, s.scriptsDir, dir, exec, checks, k + 1, |checks|);
    }
    CheckLoopPublishes(st, denied, s.scriptsDir, dir, exec, checks, |checks|, k);
    StatusFileIsResultFile(dir, checks[k].name);
    StatusAfterKeeps(o, denied, dir, RunSummary(s.scriptsDir, exec, checks, clock),
                     ResultFile(dir, checks[k].name), PublishedText(checks[k].name, OutcomeAt(s.scriptsDir, exec, checks, k)));
  }

  // ---------------------------------------------------------------- the filesystem and the runner

  /** The host filesystem the runner works on; a write to a path in `denied` raises OSError. */
  class FileSystem {
    var files: map<string, string>
    var links: map<string, string>
    const denied: set<string>

    constructor (files0: map<string, string>, links0: map<string, string>, denied0: set<string>)
      ensures files == files0 && links == links0 && denied == denied0
    {
      files, links, denied := files0, links0, denied0;
    }

    function State(): FsState
      reads this
    {
      FsState(files, links)
    }

    /** `Path.exists`. */
    method Exists(p: string) returns (b: bool)
      ensures b == PathExists(State(), p)
    {
      b := p in files || (p in links && links[p] in files);
    }

    /** `Path.is_symlink`. */
    method IsSymlink(p: string) returns (b: bool)
      ensures b <==> p in links
    {
      b := p in links;
    }

    /** `Path.write_text`. */
    method WriteText(p: string, content: string) returns (ok: bool)
      modifies this
      ensures ok <==> p !in denied
      ensures ok ==> State() == WriteFile(old(State()), p, content)
      ensures !ok ==> State() == old(State())
    {
      if p in denied {
        return false;
      }
      files := files[p := content];
      links := links - {p};
      return true;
    }

    /** `Path.rename`. */
    method Rename(src: string, dst: string)
      requires src in files
      modifies this
      ensures State() == RenameFile(old(State()), src, dst)
    {
      if src != dst {
        var content := files[src];
        files := (files - {src})[dst := content];
        links := links - {dst};
      }
    }

    /** `Path.unlink`. */
    method Unlink(p: string)
      modifies this
      ensures State() == UnlinkPath(old(State()), p)
    {
      files := files - {p};
      links := links - {p};
    }

    /** `Path.symlink_to`. */
    method SymlinkTo(p: string, target: string) returns (ok: bool)
      modifies this
      ensures ok <==> p !in denied
      ensures ok ==> State() == LinkPath(old(State()), p, target)
      ensures !ok ==> State() == old(State())
    {
      if p in denied {
        return false;
      }
      files := files - {p};
      links := links[p := target];
      return true;
    }
  }

  /** `DynamicCheckRunner` after construction: its settings and the filesystem it acts on. */
  class DynamicCheckRunner {
    const settings: Settings
    const fs: FileSystem

    constructor (settings0: Settings, fs0: FileSystem)
      ensures settings == settings0 && fs == fs0
    {
      settings, fs := settings0, fs0;
    }

    /** `_save_check_script`: stores the body under its hash name once, then repoints `current.sh`. */
    method SaveCheckScript(c: CheckInfo) returns (r: Raises<string>)
      modifies fs
      ensures var o := SaveScript(old(fs.State()), fs.denied, settings.scriptsDir, c);
        r == Signal(o) && fs.State() == o.st
      ensures r.Thrown? ==> r.path in fs.denied
      ensures r.Returned? ==> r.value == CurrentLink(settings.scriptsDir, c.name)
    {
      var file := ScriptFile(settings.scriptsDir, c);
      var link := CurrentLink(settings.scriptsDir, c.name);
      var present := fs.Exists(file);
      if !present {
        var ok := fs.WriteText(file, c.scriptContent);
        if !ok {
          return Thrown(file);
        }
      }
      var isLink := fs.IsSymlink(link);
      if isLink {
        fs.Unlink(link);
      } else {
        var there := fs.Exists(link);
        if there {
          fs.Unlink(link);
        }
      }
      var ok := fs.SymlinkTo(link, file);
      if !ok {
        return Thrown(link);
      }
      return Returned(link);
    }

    /** Writes `text` to the temporary path and renames it onto the final one. */
    method PublishText(tmp: string, final: string, text: string) returns (ok: bool)
      requires tmp != final
      modifies fs
      ensures var o := Publish(old(fs.State()), fs.denied, tmp, final, text);
        (ok <==> o.Normal?) && fs.State() == o.st
    {
      ok := fs.WriteText(tmp, text);
      if ok {
        fs.Rename(tmp, final);
      }
    }

    /**
     * `_execute_check` for the subprocess outcome `o`.  A failed write inside the `try` goes to
     * the generic handler, which writes the error metric to the same temporary path and raises.
     */
    method ExecuteCheck(name: string, o: ExecOutcome) returns (r: Raises<CheckResult>)
      modifies fs
      ensures var e := CheckExecution(old(fs.State()), fs.denied, settings.textfileDir, name, o);
        r == Signal(e) && fs.State() == e.st
      ensures r.Thrown? ==> r.path == ResultTmp(settings.textfileDir, name) && r.path in fs.denied
    {
      var tmp := ResultTmp(settings.textfileDir, name);
      var final := ResultFile(settings.textfileDir, name);
      ResultTmpIsNotFile(settings.textfileDir, name);
      match o
      case Exited(code, out, err) =>
        if code == 0 {
          var ok := PublishText(tmp, final, out);
          if !ok {
            ok := PublishText(tmp, final, ErrorMetric(name));
            return Thrown(tmp);
          }
          return Returned(CheckResult(name, true, out, None));
        } else {
          var ok := PublishText(tmp, final, ErrorMetric(name));
          if !ok {
            return Thrown(tmp);
          }
          return Returned(CheckResult(name, false, out, Some(err)));
        }
      case TimedOut =>
        var ok := PublishText(tmp, final, ErrorMetric(name));
        if !ok {
          return Thrown(tmp);
        }
        return Returned(CheckResult(name, false, "", Some("Timeout")));
      case Crashed(msg) =>
        var ok := PublishText(tmp, final, ErrorMetric(name));
        if !ok {
          return Thrown(tmp);
        }
        return Returned(CheckResult(name, false, "", Some(msg)));
    }

    /** `_write_status_metrics`; the timestamp is the clock reading taken inside it. */
    method WriteStatusMetrics(success: bool, total: int, succeeded: int, failed: int,
                              duration: int, timestamp: int) returns (ok: bool)
      modifies fs
      ensures var dir := settings.textfileDir;
        var sum := Summary(StatusValue(success), timestamp, duration, total, succeeded, failed);
        (ok <==> StatusTmp(dir) !in fs.denied)
        && (!ok ==> fs.State() == old(fs.State()))
        && (ok ==> StatusFile(dir) in fs.files && fs.files[StatusFile(dir)] == StatusMetrics(sum)
                   && StatusTmp(dir) !in fs.files
                   && SameExcept(old(fs.State()), fs.State(), StatusTmp(dir), StatusFile(dir)))
      ensures var dir := settings.textfileDir;
        var sum := Summary(StatusValue(success), timestamp, duration, total, succeeded, failed);
        fs.State() == Publish(old(fs.State()), fs.denied, StatusTmp(dir), StatusFile(dir), StatusMetrics(sum)).st
    {
      var dir := settings.textfileDir;
      var text := StatusMetrics(Summary(StatusValue(success), timestamp, duration, total, succeeded, failed));
      StatusTmpIsNotFile(dir);
      PublishEffect(fs.State(), fs.denied, StatusTmp(dir), StatusFile(dir), text);
      ok := PublishText(StatusTmp(dir), StatusFile(dir), text);
    }

    /**
     * The check loop of `run`: saves and executes each check in order and counts the results.
     * The k-th execution gets the `current.sh` path and the configuration of the k-th check.
     */
    method RunChecks(checks: seq<CheckInfo>, exec: Exec) returns (r: Raises<Tally>)
      modifies fs
      ensures var o := CheckLoop(old(fs.State()), fs.denied, settings.scriptsDir, settings.textfileDir, exec, checks, |checks|);
        && fs.State() == o.st
        && (r.Thrown? <==> o.Raised?) && (r.Thrown? ==> r.path == o.path)
        && (r.Returned? ==> r.value.succeeded == o.value)
      ensures r.Thrown? ==> r.path in fs.denied
      ensures r.Returned? ==> r.value.succeeded == Succeeded(settings.scriptsDir, exec, checks, |checks|)
      ensures r.Returned? ==> r.value.succeeded + r.value.failed == |checks|
    {
      ghost var st0 := fs.State();
      var succeeded, failed := 0, 0;
      var i := 0;
      while i < |checks|
        invariant 0 <= i <= |checks|
        invariant CheckLoop(st0, fs.denied, settings.scriptsDir, settings.textfileDir, exec, checks, i) == Normal(fs.State(), succeeded)
        invariant succeeded + failed == i
      {
        ghost var before := fs.State();
        var passed := RunCheck(checks, exec, i);
        LoopAdvance(st0, fs.denied, settings.scriptsDir, settings.textfileDir, exec, checks, i, before, succeeded);
        if passed.Thrown? {
          RaisedStays(st0, fs.denied, settings.scriptsDir, settings.textfileDir, exec, checks, i + 1, |checks|);
          CheckLoopCounts(st0, fs.denied, settings.scriptsDir, settings.textfileDir, exec, checks, |checks|);
          return Thrown(passed.path);
        }
        if passed.value {
          succeeded := succeeded + 1;
        } else {
          failed := failed + 1;
        }
        i := i + 1;
      }
      CheckLoopCounts(st0, fs.denied, settings.scriptsDir, settings.textfileDir, exec, checks, |checks|);
      return Returned(Tally(succeeded, failed));
    }

    /** One turn of the check loop: save the i-th check's script, then execute it; true when it exited with status 0. */
    method RunCheck(checks: seq<CheckInfo>, exec: Exec, i: nat) returns (r: Raises<bool>)
      requires i < |checks|
      modifies fs
      ensures var t := CheckStep(old(fs.State()), fs.denied, settings.scriptsDir, settings.textfileDir, exec, checks, i);
        r == Signal(t) && fs.State() == t.st
      ensures r.Thrown? ==> r.path in fs.denied
      ensures r.Returned? ==>
        (r.value <==> OutcomeAt(settings.scriptsDir, exec, checks, i).Exited? && OutcomeAt(settings.scriptsDir, exec, checks, i).code == 0)
    {
      var c := checks[i];
      var saved := SaveCheckScript(c);
      if saved.Thrown? {
        return Thrown(saved.path);
      }
      var result := ExecuteCheck(c.name, exec(i, saved.value, c.config));
      if result.Thrown? {
        return Thrown(result.path);
      }
      return Returned(result.value.success);
    }

    /** `_fetch_effective_checks` for the response of its request: the record loop. */
    method FetchEffectiveChecks(response: FetchResponse) returns (cs: Option<seq<CheckInfo>>)
      ensures cs == FetchChecks(response)
    {
      if response.FetchFailed? {
        return None;
      }
      var checks: seq<CheckInfo> := [];
      var i := 0;
      while i < |response.items|
        invariant 0 <= i <= |response.items|
        invariant checks == CheckInfos(response.items[..i])
      {
        assert response.items[..i + 1][..i] == response.items[..i];
        checks := checks + [ToCheckInfo(response.items[i])];
        i := i + 1;
      }
      assert response.items[..i] == response.items;
      return Some(checks);
    }

    /** The two early exits of `run`: a status-0 summary with zero counts, then exit status 1. */
    method ReportNoChecks(duration: int, timestamp: int) returns (r: RunOutcome)
      modifies fs
      ensures var dir := settings.textfileDir;
        (StatusTmp(dir) in fs.denied ==> r == Uncaught(StatusTmp(dir)) && fs.State() == old(fs.State()))
        && (StatusTmp(dir) !in fs.denied ==>
              r == ExitCode(1) && StatusFile(dir) in fs.files
              && fs.files[StatusFile(dir)] == StatusMetrics(Summary(0, timestamp, duration, 0, 0, 0))
              && SameExcept(old(fs.State()), fs.State(), StatusTmp(dir), StatusFile(dir)))
    {
      var ok := WriteStatusMetrics(false, 0, 0, 0, duration, timestamp);
      if !ok {
        return Uncaught(StatusTmp(settings.textfileDir));
      }
      return ExitCode(1);
    }

    /**
     * The part of `run` after a successful fetch: the check loop, then a status-1 summary, then
     * exit status 0 whatever the checks did.
     */
    method RunFetched(checks: seq<CheckInfo>, exec: Exec, clock: Clock) returns (r: RunOutcome)
      modifies fs
      ensures var e := FetchedRun(old(fs.State()), fs.denied, settings, exec, checks, clock);
        fs.State() == e.st && r == e.outcome
      ensures r.Uncaught? ==> r.path in fs.denied
      ensures r.ExitCode? ==>
        r == ExitCode(0) && StatusFile(settings.textfileDir) in fs.files
        && fs.files[StatusFile(settings.textfileDir)] == StatusMetrics(RunSummary(settings.scriptsDir, exec, checks, clock))
    {
      ghost var st0 := fs.State();
      var tally := RunChecks(checks, exec);
      ghost var o := CheckLoop(st0, fs.denied, settings.scriptsDir, settings.textfileDir, exec, checks, |checks|);
      StatusAfterExit(o, fs.denied, settings.textfileDir, RunSummary(settings.scriptsDir, exec, checks, clock));
      if tally.Thrown? {
        return Uncaught(tally.path);
      }
      var succeeded, failed := tally.value.succeeded, tally.value.failed;
      assert Summary(StatusValue(true), clock.stamp, clock.end - clock.start, |checks|, succeeded, failed)
          == RunSummary(settings.scriptsDir, exec, checks, clock);
      var ok := WriteStatusMetrics(true, |checks|, succeeded, failed, clock.end - clock.start, clock.stamp);
      if !ok {
        return Uncaught(StatusTmp(settings.textfileDir));
      }
      return ExitCode(0);
    }

    /**
     * `run`: returns the exit status, or the path whose write raised out of it.  `response` is
     * what the request to FetchUrl(serverUrl, hostname) yields; it is consulted only when a
     * server URL is set.  Without a URL, or when the fetch fails, the run writes a zero summary
     * and returns 1; otherwise it runs every fetched check in order and returns 0.
     */
    method Run(response: FetchResponse, exec: Exec, clock: Clock) returns (r: RunOutcome)
      modifies fs
      ensures r.Uncaught? ==> r.path in fs.denied
      ensures r.ExitCode? ==> r.code == 0 || r.code == 1
      ensures r.ExitCode? ==> (r.code == 1 <==> settings.serverUrl == "" || response.FetchFailed?)
      ensures var dir := settings.textfileDir;
        settings.serverUrl == "" ==>
          (StatusTmp(dir) in fs.denied ==> r == Uncaught(StatusTmp(dir)) && fs.State() == old(fs.State()))
          && (StatusTmp(dir) !in fs.denied ==>
                r == ExitCode(1) && StatusFile(dir) in fs.files
                && fs.files[StatusFile(dir)] == StatusMetrics(Summary(0, clock.stamp, 0, 0, 0, 0))
                && SameExcept(old(fs.State()), fs.State(), StatusTmp(dir), StatusFile(dir)))
      ensures var dir := settings.textfileDir;
        settings.serverUrl != "" && response.FetchFailed? ==>
          (StatusTmp(dir) in fs.denied ==> r == Uncaught(StatusTmp(dir)) && fs.State() == old(fs.State()))
          && (StatusTmp(dir) !in fs.denied ==>
                r == ExitCode(1) && StatusFile(dir) in fs.files
                && fs.files[StatusFile(dir)] == StatusMetrics(Summary(0, clock.stamp, clock.end - clock.start, 0, 0, 0))
                && SameExcept(old(fs.State()), fs.State(), StatusTmp(dir), StatusFile(dir)))
      ensures var dir := settings.textfileDir;
        settings.serverUrl != "" && response.Fetched? && r.ExitCode? ==>
          r == ExitCode(0) && StatusFile(dir) in fs.files
          && fs.files[StatusFile(dir)] == StatusMetrics(RunSummary(settings.scriptsDir, exec, FetchChecks(response).value, clock))
      ensures settings.serverUrl != "" && response.Fetched? ==>
        var e := FetchedRun(old(fs.State()), fs.denied, settings, exec, FetchChecks(response).value, clock);
        fs.State() == e.st && r == e.outcome
    {
      if settings.serverUrl == "" {
        r := ReportNoChecks(0, clock.stamp);
        return;
      }
      var fetched := FetchEffectiveChecks(response);
      if fetched.None? {
        r := ReportNoChecks(clock.end - clock.start, clock.stamp);
        return;
      }
      assert fetched.value == FetchChecks(response).value;
      r := RunFetched(FetchChecks(response).value, exec, clock);
    }
  }
}

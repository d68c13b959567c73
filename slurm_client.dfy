/**
 * The text parsers of the Slurm client (internal/slurm/client.go): time limits, GRES GPU counts,
 * `scontrol show node` and `scontrol show job` output.  Durations are in seconds.  The node-list
 * expansion and the date parser of the job parser are parameters; strconv's 64-bit range is not
 * modelled and a numeral it rejects reads as 0, as the source discards the error.
 */
module SlurmClient {
  import opened Wrappers
  import opened GoStrings
  import Seqs

  /** A non-empty run of decimal digits. */
  predicate Numeral(s: string) { s != [] && AllDigits(s) }

  lemma NumeralFree(s: string, c: char)
    requires Numeral(s) && !IsDigit(c)
    ensures c !in s
  {
    assert forall i :: 0 <= i < |s| ==> s[i] != c;
  }

  lemma NumeralValue(s: string)
    requires Numeral(s)
    ensures Atoi(s) == DigitsValue(s)
  {
    assert IsDigit(s[0]);
  }

  function ClockSeconds(timeParts: seq<string>): int {
    if |timeParts| == 3 then Atoi(timeParts[0]) * 3600 + Atoi(timeParts[1]) * 60 + Atoi(timeParts[2])
    else if |timeParts| == 2 then Atoi(timeParts[0]) * 60 + Atoi(timeParts[1])
    else if |timeParts| == 1 then Atoi(timeParts[0]) * 60
    else 0
  }

  function ParseTimeLimit(s: string): (secs: int)
    ensures s == "" || s == "UNLIMITED" ==> secs == 0
  {
    if s == "" || s == "UNLIMITED" then 0
    else
      var parts := Split(s, '-');
      var days := if |parts| == 2 then Atoi(parts[0]) else 0;
      var timePart := if |parts| == 2 then parts[1] else parts[0];
      days * 86400 + ClockSeconds(Split(timePart, ':'))
  }

  /** Text starting with a digit is neither empty nor "UNLIMITED". */
  lemma NotSpecial(s: string)
    requires s != [] && IsDigit(s[0])
    ensures s != "" && s != "UNLIMITED"
  {
  }

  /**
   * "D-T" with a numeral D and no '-' in T: D days plus the clock part T, which is worth what
   * it is worth alone when it starts with a digit.
   */
  lemma TimeLimitWithDays(d: string, t: string)
    requires Numeral(d) && '-' !in t
    ensures ParseTimeLimit(d + "-" + t) == DigitsValue(d) * 86400 + ClockSeconds(Split(t, ':'))
    ensures t != [] && IsDigit(t[0]) ==> ParseTimeLimit(d + "-" + t) == DigitsValue(d) * 86400 + ParseTimeLimit(t)
  {
    DayPartSplit(d, t);
    NumeralValue(d);
    if t != [] && IsDigit(t[0]) {
      TimeLimitWithoutDays(t);
    }
  }

  /** "D-T" splits at its one '-' into D and T, and is neither empty nor "UNLIMITED". */
  lemma DayPartSplit(d: string, t: string)
    requires Numeral(d) && '-' !in t
    ensures Split(d + "-" + t, '-') == [d, t]
    ensures d + "-" + t != "" && d + "-" + t != "UNLIMITED"
  {
    var s := d + "-" + t;
    assert s[0] == d[0];
    NotSpecial(s);
    NumeralFree(d, '-');
    assert s == d + ['-'] + t;
    SplitCons(d, '-', t);
    SplitNone(t, '-');
  }

  /** A clock part alone, starting with a digit and without '-'. */
  lemma TimeLimitWithoutDays(t: string)
    requires t != [] && IsDigit(t[0]) && '-' !in t
    ensures ParseTimeLimit(t) == ClockSeconds(Split(t, ':'))
  {
    NotSpecial(t);
    assert IndexOf(t, '-') == -1;
  }

  /** Splitting at a separator that does not occur before it. */
  lemma SplitCons(a: string, sep: char, b: string)
    requires sep !in a
    ensures Split(a + [sep] + b, sep) == [a] + Split(b, sep)
  {
    var s := a + [sep] + b;
    IndexOfAfter(a, sep, b);
    assert s[|a| + 1..] == b && s[..|a|] == a;
  }

  lemma SplitNone(a: string, sep: char)
    requires sep !in a
    ensures Split(a, sep) == [a]
  {
    assert IndexOf(a, sep) == -1;
  }

  /** A clock part is split into its numerals. */
  lemma ClockParts(h: string, m: string, sec: string)
    requires Numeral(h) && Numeral(m) && Numeral(sec)
    ensures Split(m, ':') == [m]
    ensures Split(m + ":" + sec, ':') == [m, sec]
    ensures Split(h + ":" + m + ":" + sec, ':') == [h, m, sec]
  {
    NumeralFree(h, ':');
    NumeralFree(m, ':');
    NumeralFree(sec, ':');
    SplitNone(sec, ':');
    SplitNone(m, ':');
    var ms := m + ":" + sec;
    assert ms == m + [':'] + sec;
    SplitCons(m, ':', sec);
    assert h + ":" + m + ":" + sec == h + [':'] + ms;
    SplitCons(h, ':', ms);
  }

  /** "H:M:S", "M:S" and "M" are read back as their numerals. */
  lemma ClockForms(h: string, m: string, sec: string)
    requires Numeral(h) && Numeral(m) && Numeral(sec)
    ensures ClockSeconds(Split(h + ":" + m + ":" + sec, ':')) == DigitsValue(h) * 3600 + DigitsValue(m) * 60 + DigitsValue(sec)
    ensures ClockSeconds(Split(m + ":" + sec, ':')) == DigitsValue(m) * 60 + DigitsValue(sec)
    ensures ClockSeconds(Split(m, ':')) == DigitsValue(m) * 60
  {
    ClockParts(h, m, sec);
    NumeralValue(h);
    NumeralValue(m);
    NumeralValue(sec);
  }

  /** "H:M:S" is hours, minutes and seconds, "M:S" minutes and seconds, a bare "M" minutes. */
  lemma TimeLimitClockForms(h: string, m: string, sec: string)
    requires Numeral(h) && Numeral(m) && Numeral(sec)
    ensures ParseTimeLimit(h + ":" + m + ":" + sec) == DigitsValue(h) * 3600 + DigitsValue(m) * 60 + DigitsValue(sec)
    ensures ParseTimeLimit(m + ":" + sec) == DigitsValue(m) * 60 + DigitsValue(sec)
    ensures ParseTimeLimit(m) == DigitsValue(m) * 60
  {
    NumeralFree(h, '-');
    NumeralFree(m, '-');
    NumeralFree(sec, '-');
    var hms := h + ":" + m + ":" + sec;
    var ms := m + ":" + sec;
    assert hms[0] == h[0] && ms[0] == m[0];
    ClockForms(h, m, sec);
    TimeLimitWithoutDays(hms);
    TimeLimitWithoutDays(ms);
    TimeLimitWithoutDays(m);
  }

  /** A GRES entry's GPU count: entries "gpu:N" and "gpu:TYPE:N" name one; other entries do not. */
  function EntryCount(entry: string): Option<int> {
    var fields := Split(entry, ':');
    if HasPrefix(entry, "gpu") && |fields| >= 2 then Some(Atoi(fields[|fields| - 1])) else None
  }

  /** The count of the first GPU entry; 0 when there is none. */
  function FirstGpuCount(entries: seq<string>): int {
    if entries == [] then 0
    else match EntryCount(entries[0])
      case Some(n) => n
      case None => FirstGpuCount(entries[1..])
  }

  /** The GRES text that names no resources. */
  predicate NoGres(gres: string) { gres == "" || gres == "(null)" }

  /** What `parseGPUCount` returns. */
  function GpuCount(gres: string): int {
    if NoGres(gres) then 0 else FirstGpuCount(Split(gres, ','))
  }

  /** `parseGPUCount`. */
  method ParseGpuCount(gres: string) returns (count: int)
    ensures count == GpuCount(gres)
  {
    if NoGres(gres) {
      return 0;
    }
    count := FirstGpuEntry(Split(gres, ','));
  }

  /** The loop of `parseGPUCount`: a scan of the comma-separated entries for the first GPU entry. */
  method FirstGpuEntry(entries: seq<string>) returns (count: int)
    ensures count == FirstGpuCount(entries)
  {
    var i := 0;
    while i < |entries|
      invariant i <= |entries| && FirstGpuCount(entries[i..]) == FirstGpuCount(entries)
    {
      var fields := Split(entries[i], ':');
      if HasPrefix(entries[i], "gpu") && |fields| >= 2 {
        return Atoi(fields[|fields| - 1]);
      }
      assert entries[i..][1..] == entries[i + 1..];
      i := i + 1;
    }
    return 0;
  }

  /** An entry after "gpu" whose fields are known counts its last field. */
  lemma EntryCountOf(e: string, fields: seq<string>)
    requires HasPrefix(e, "gpu") && Split(e, ':') == fields && |fields| >= 2
    ensures EntryCount(e) == Some(Atoi(fields[|fields| - 1]))
  {
  }

  /** "gpu" + ":" + rest starts with "gpu" and splits into "gpu" and the fields of rest. */
  lemma GpuEntryFields(rest: string)
    ensures HasPrefix("gpu" + [':'] + rest, "gpu")
    ensures Split("gpu" + [':'] + rest, ':') == ["gpu"] + Split(rest, ':')
  {
    SplitCons("gpu", ':', rest);
    assert ("gpu" + [':'] + rest)[..3] == "gpu";
  }

  /** "gpu:N" counts N GPUs; an entry not starting with "gpu" counts none. */
  lemma EntryCountPlain(n: string, other: string)
    requires Numeral(n) && !HasPrefix(other, "gpu")
    ensures EntryCount("gpu:" + n) == Some(DigitsValue(n))
    ensures EntryCount(other) == None
  {
    NumeralFree(n, ':');
    NumeralValue(n);
    SplitNone(n, ':');
    GpuEntryFields(n);
    assert "gpu:" + n == "gpu" + [':'] + n;
    EntryCountOf("gpu:" + n, ["gpu", n]);
  }

  /** "gpu:TYPE:N" counts N GPUs of that type. */
  lemma EntryCountTyped(t: string, n: string)
    requires ':' !in t && Numeral(n)
    ensures EntryCount("gpu:" + t + ":" + n) == Some(DigitsValue(n))
  {
    NumeralValue(n);
    TypedEntryFields(t, n);
    EntryCountOf("gpu:" + t + ":" + n, ["gpu", t, n]);
  }

  /** "gpu:TYPE:N" starts with "gpu" and has the three fields "gpu", TYPE and N. */
  lemma TypedEntryFields(t: string, n: string)
    requires ':' !in t && Numeral(n)
    ensures HasPrefix("gpu:" + t + ":" + n, "gpu")
    ensures Split("gpu:" + t + ":" + n, ':') == ["gpu", t, n]
  {
    NumeralFree(n, ':');
    SplitNone(n, ':');
    var tn := t + [':'] + n;
    SplitCons(t, ':', n);
    assert Split(tn, ':') == [t, n];
    GpuEntryFields(tn);
    Seqs.AppendAssoc("gpu:", t, ":");
    Seqs.AppendAssoc("gpu:", t + ":", n);
    assert "gpu:" == "gpu" + [':'];
  }

  /** The first GPU entry wins: entries before it that name no GPUs are skipped. */
  lemma {:induction false} FirstGpuEntryWins(others: seq<string>, entries: seq<string>)
    requires forall k :: 0 <= k < |others| ==> EntryCount(others[k]).None?
    ensures FirstGpuCount(others + entries) == FirstGpuCount(entries)
    ensures entries != [] && EntryCount(entries[0]).Some? ==> FirstGpuCount(others + entries) == EntryCount(entries[0]).value
    decreases |others|
  {
    if others == [] {
      assert others + entries == entries;
    } else {
      assert (others + entries)[0] == others[0];
      assert (others + entries)[1..] == others[1..] + entries;
      FirstGpuEntryWins(others[1..], entries);
    }
  }

  /** GRES text made of comma-free entries is read entry by entry; empty and "(null)" GRES count no GPUs. */
  lemma GpuCountOfEntries(entries: seq<string>)
    requires entries != [] && forall k :: 0 <= k < |entries| ==> ',' !in entries[k]
    ensures !NoGres(Join(entries, ",")) ==> GpuCount(Join(entries, ",")) == FirstGpuCount(entries)
    ensures GpuCount("") == 0 && GpuCount("(null)") == 0
  {
    SplitJoin(entries, ',');
  }

  /** `NodeInfo`, with the fields `parseNodeOutput` fills. */
  datatype NodeInfo = NodeInfo(
    name: string,
    state: string,
    cpus: int,
    cpusAlloc: int,
    memory: int,
    memoryAlloc: int,
    gpus: int,
    gpusAlloc: int,
    partitions: seq<string>,
    features: seq<string>,
    reason: string,
    weight: int)

  const EmptyNode := NodeInfo("", "", 0, 0, 0, 0, 0, 0, [], [], "", 0)

  /** One `key=value` pair of `scontrol show node`; unknown keys change nothing. */
  function ApplyNodeField(n: NodeInfo, key: string, value: string): NodeInfo {
    match key
    case "NodeName" => n.(name := value)
    case "State" => n.(state := Split(value, '+')[0])
    case "CPUTot" => n.(cpus := Atoi(value))
    case "CPUAlloc" => n.(cpusAlloc := Atoi(value))
    case "RealMemory" => n.(memory := Atoi(value))
    case "AllocMem" => n.(memoryAlloc := Atoi(value))
    case "Gres" => n.(gpus := GpuCount(value))
    case "GresUsed" => n.(gpusAlloc := GpuCount(value))
    case "Partitions" => n.(partitions := Split(value, ','))
    case "AvailableFeatures" => if value != "(null)" then n.(features := Split(value, ',')) else n
    case "Reason" => if value != "(null)" then n.(reason := value) else n
    case "Weight" => n.(weight := Atoi(value))
    case _ => n
  }

  /** A token of the output: split at the first '='; a token without one is skipped. */
  function NodeToken(n: NodeInfo, token: string): NodeInfo {
    var kv := SplitOnce(token, '=');
    if |kv| != 2 then n else ApplyNodeField(n, kv[0], kv[1])
  }

  /** The node after the tokens in order. */
  function NodeFold(n: NodeInfo, tokens: seq<string>): NodeInfo
    decreases |tokens|
  {
    if tokens == [] then n else NodeFold(NodeToken(n, tokens[0]), tokens[1..])
  }

  /** `parseNodeOutput`: the fields of the output's tokens; an error when no node name was found. */
  method ParseNodeOutput(output: string) returns (r: Result<NodeInfo>)
    ensures var n := NodeFold(EmptyNode, Fields(output));
      r == if n.name == "" then Err("failed to parse node output") else Ok(n)
  {
    var node := NodeTokens(Fields(output));
    if node.name == "" {
      return Err("failed to parse node output");
    }
    return Ok(node);
  }

  /** The loop of `parseNodeOutput`: each token split at its first '=' and applied in order. */
  method NodeTokens(parts: seq<string>) returns (node: NodeInfo)
    ensures node == NodeFold(EmptyNode, parts)
  {
    node := EmptyNode;
    var i := 0;
    while i < |parts|
      invariant i <= |parts| && NodeFold(node, parts[i..]) == NodeFold(EmptyNode, parts)
    {
      var kv := SplitOnce(parts[i], '=');
      if |kv| == 2 {
        node := ApplyNodeField(node, kv[0], kv[1]);
      }
      assert parts[i..][1..] == parts[i + 1..];
      i := i + 1;
    }
  }

  /** A "key=value" token applies that key and value (the value may contain further '='). */
  lemma NodeTokenParts(n: NodeInfo, key: string, value: string)
    requires '=' !in key
    ensures NodeToken(n, key + "=" + value) == ApplyNodeField(n, key, value)
  {
    SplitOnceAt(key, '=', value);
  }

  /** The state is read up to the first '+' of the value ("IDLE+DRAIN" is "IDLE"). */
  lemma NodeStateBeforeFlags(n: NodeInfo, s: string, flags: string)
    requires '+' !in s
    ensures ApplyNodeField(n, "State", s + "+" + flags).state == s
    ensures ApplyNodeField(n, "State", s).state == s
  {
    assert s + "+" + flags == s + ['+'] + flags;
    SplitCons(s, '+', flags);
    SplitNone(s, '+');
  }

  /** "(null)" features and reasons leave the node as it is; other values are taken. */
  lemma NodeNullValuesIgnored(n: NodeInfo, v: string)
    requires v != "(null)"
    ensures ApplyNodeField(n, "AvailableFeatures", "(null)") == n && ApplyNodeField(n, "Reason", "(null)") == n
    ensures ApplyNodeField(n, "Reason", v) == n.(reason := v)
    ensures ApplyNodeField(n, "AvailableFeatures", v) == n.(features := Split(v, ','))
  {
    NodeReasonField(n, v);
    NodeReasonField(n, "(null)");
    NodeFeaturesField(n, v);
    NodeFeaturesField(n, "(null)");
  }

  lemma NodeReasonField(n: NodeInfo, v: string)
    ensures ApplyNodeField(n, "Reason", v) == if v != "(null)" then n.(reason := v) else n
  {
  }

  lemma NodeFeaturesField(n: NodeInfo, v: string)
    ensures ApplyNodeField(n, "AvailableFeatures", v) == if v != "(null)" then n.(features := Split(v, ',')) else n
  {
  }

  /** A token split at '=' starts with its key and the '='. */
  lemma TokenPrefix(t: string)
    requires |SplitOnce(t, '=')| == 2
    ensures HasPrefix(t, SplitOnce(t, '=')[0] + "=")
  {
    var kv := SplitOnce(t, '=');
    assert t == kv[0] + "=" + kv[1];
    assert t[..|kv[0]| + 1] == kv[0] + "=";
  }

  lemma OtherKeysKeepName(n: NodeInfo, key: string, value: string)
    requires key != "NodeName"
    ensures ApplyNodeField(n, key, value).name == n.name
  {
  }

  /** Only a "NodeName=" token sets the name, so output without one is an error. */
  lemma {:induction false} NoNameNoNode(n: NodeInfo, tokens: seq<string>)
    decreases |tokens|
    requires forall k :: 0 <= k < |tokens| ==> !HasPrefix(tokens[k], "NodeName=")
    ensures NodeFold(n, tokens).name == n.name
  {
    if tokens != [] {
      var t := tokens[0];
      var kv := SplitOnce(t, '=');
      if |kv| == 2 {
        TokenPrefix(t);
        assert kv[0] != "NodeName";
        OtherKeysKeepName(n, kv[0], kv[1]);
      }
      NoNameNoNode(NodeToken(n, t), tokens[1..]);
    }
  }

  /** `Job`, with the fields `parseScontrolJobOutput` fills; times are the date parser's results. */
  datatype Job = Job(
    id: int,
    name: string,
    user: string,
    group: string,
    partition: string,
    state: string,
    exitCode: int,
    nodes: seq<string>,
    nodeCount: int,
    gpuCount: int,
    startTime: int,
    endTime: int,
    submitTime: int,
    timeLimit: int,
    workDir: string,
    command: string,
    stdOut: string,
    stdErr: string,
    account: string,
    qos: string,
    priority: int,
    reason: string,
    features: seq<string>,
    constraints: string)

  const EmptyJob := Job(0, "", "", "", "", "", 0, [], 0, 0, 0, 0, 0, 0, "", "", "", "", "", "", 0, "", [], "")

  /** The external helpers of the job parser: node-list expansion and date parsing. */
  datatype JobHelpers = JobHelpers(expandNodeList: string -> seq<string>, parseTime: string -> int)

  /** One `key=value` pair of `scontrol show job`; unknown keys change nothing. */
  function ApplyJobField(j: Job, h: JobHelpers, key: string, value: string): Job {
    match key
    case "JobId" => j.(id := Atoi(value))
    case "JobName" => j.(name := value)
    case "UserId" => j.(user := Split(value, '(')[0])
    case "GroupId" => j.(group := Split(value, '(')[0])
    case "Partition" => j.(partition := value)
    case "JobState" => j.(state := value)
    case "ExitCode" => j.(exitCode := Atoi(Split(value, ':')[0]))
    case "NodeList" => j.(nodes := h.expandNodeList(value))
    case "NumNodes" => j.(nodeCount := Atoi(value))
    case "StartTime" => j.(startTime := h.parseTime(value))
    case "EndTime" => j.(endTime := h.parseTime(value))
    case "SubmitTime" => j.(submitTime := h.parseTime(value))
    case "TimeLimit" => j.(timeLimit := ParseTimeLimit(value))
    case "WorkDir" => j.(workDir := value)
    case "Command" => j.(command := value)
    case "StdOut" => j.(stdOut := value)
    case "StdErr" => j.(stdErr := value)
    case "Account" => j.(account := value)
    case "QOS" => j.(qos := value)
    case "Priority" => j.(priority := Atoi(value))
    case "Reason" => j.(reason := value)
    case "Features" => if value != "(null)" then j.(features := Split(value, ',')) else j
    case "Gres" => j.(constraints := value, gpuCount := GpuCount(value))
    case _ => j
  }

  function JobToken(j: Job, h: JobHelpers, token: string): Job {
    var kv := SplitOnce(token, '=');
    if |kv| != 2 then j else ApplyJobField(j, h, kv[0], kv[1])
  }

  function JobFold(j: Job, h: JobHelpers, tokens: seq<string>): Job
    decreases |tokens|
  {
    if tokens == [] then j else JobFold(JobToken(j, h, tokens[0]), h, tokens[1..])
  }

  lemma {:induction false} JobFoldAppend(j: Job, h: JobHelpers, a: seq<string>, b: seq<string>)
    decreases |a|
    ensures JobFold(j, h, a + b) == JobFold(JobFold(j, h, a), h, b)
  {
    if a == [] {
      assert a + b == b;
    } else {
      assert (a + b)[0] == a[0] && (a + b)[1..] == a[1..] + b;
      JobFoldAppend(JobToken(j, h, a[0]), h, a[1..], b);
    }
  }


  /** The tokens of the output: the fields of each trimmed line, line by line. */
  function JobTokens(lines: seq<string>): seq<string> {
    if lines == [] then [] else Fields(TrimSpace(lines[0])) + JobTokens(lines[1..])
  }

  /**
   * `parseScontrolJobOutput`: the fields of every token of every line; an error when the job
   * ID is missing or reads as 0.
   */
  method ParseScontrolJobOutput(output: string, h: JobHelpers) returns (r: Result<Job>)
    ensures var j := JobFold(EmptyJob, h, JobTokens(Split(output, '\n')));
      r == if j.id == 0 then Err("failed to parse job output") else Ok(j)
  {
    var job := JobLines(Split(output, '\n'), h);
    if job.id == 0 {
      return Err("failed to parse job output");
    }
    return Ok(job);
  }

  /** The outer loop of `parseScontrolJobOutput`: line by line. */
  method JobLines(lines: seq<string>, h: JobHelpers) returns (job: Job)
    ensures job == JobFold(EmptyJob, h, JobTokens(lines))
  {
    job := EmptyJob;
    var l := 0;
    while l < |lines|
      invariant l <= |lines| && JobFold(job, h, JobTokens(lines[l..])) == JobFold(EmptyJob, h, JobTokens(lines))
    {
      var parts := Fields(TrimSpace(lines[l]));
      assert lines[l..][1..] == lines[l + 1..];
      JobFoldAppend(job, h, parts, JobTokens(lines[l + 1..]));
      job := JobLine(job, h, parts);
      l := l + 1;
    }
  }

  /** The inner loop: the tokens of one line, each split at its first '='. */
  method JobLine(job: Job, h: JobHelpers, parts: seq<string>) returns (out: Job)
    ensures out == JobFold(job, h, parts)
  {
    out := job;
    var i := 0;
    while i < |parts|
      invariant i <= |parts| && JobFold(out, h, parts[i..]) == JobFold(job, h, parts)
    {
      var kv := SplitOnce(parts[i], '=');
      if |kv| == 2 {
        out := ApplyJobField(out, h, kv[0], kv[1]);
      }
      assert parts[i..][1..] == parts[i + 1..];
      i := i + 1;
    }
  }

  /** A "key=value" token applies that key and value; "JobId=v" sets the ID to v's value, so "JobId=0" leaves the job an error. */
  lemma JobTokenParts(j: Job, h: JobHelpers, key: string, value: string)
    requires '=' !in key
    ensures JobToken(j, h, key + "=" + value) == ApplyJobField(j, h, key, value)
    ensures key == "JobId" ==> JobToken(j, h, key + "=" + value).id == Atoi(value)
  {
    SplitOnceAt(key, '=', value);
  }

  /**
   * The job fields that need care: "(uid)" and "(gid)" are dropped from user and group, the
   * exit code is read before the ':', and "(null)" features are ignored.
   */
  lemma JobFieldRules(j: Job, h: JobHelpers, u: string, uid: string, code: string, signal: string)
    requires '(' !in u && ':' !in code
    ensures ApplyJobField(j, h, "UserId", u + "(" + uid + ")").user == u
    ensures ApplyJobField(j, h, "GroupId", u + "(" + uid + ")").group == u
    ensures ApplyJobField(j, h, "ExitCode", code + ":" + signal).exitCode == Atoi(code)
    ensures ApplyJobField(j, h, "Features", "(null)") == j
  {
    assert u + "(" + uid + ")" == u + ['('] + (uid + ")");
    SplitCons(u, '(', uid + ")");
    assert code + ":" + signal == code + [':'] + signal;
    SplitCons(code, ':', signal);
  }

  /** A token without '=' is skipped by both parsers. */
  lemma TokensWithoutEquals(n: NodeInfo, j: Job, h: JobHelpers, token: string)
    requires '=' !in token
    ensures NodeToken(n, token) == n && JobToken(j, h, token) == j
  {
  }
}

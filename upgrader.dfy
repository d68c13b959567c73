/**
 * The string helpers of the self-upgrader (internal/upgrade/upgrader.go): field splitting
 * of checksum files, substring search, checksum file names, and the names of binary backups.
 */
module Upgrader {
  import opened Wrappers
  import opened GoStrings
  import opened GoPath
  import Seqs

  const BackupSuffix := ".backup"
  const RollbackDir := "/var/lib/aami/rollback"

  // ---------------------------------------------------------------- splitFields

  /** The three separators `splitFields` knows: space, tab and newline. */
  predicate IsFieldSep(c: char) { c == ' ' || c == '\t' || c == '\n' }

  /** A non-empty run without separators. */
  predicate IsField(f: string) {
    f != [] && forall j :: 0 <= j < |f| ==> !IsFieldSep(f[j])
  }

  /** Length of the leading run of non-separators. */
  function RunLength(s: string): (n: nat)
    ensures n <= |s| && (n == |s| || IsFieldSep(s[n]))
    ensures forall j :: 0 <= j < n ==> !IsFieldSep(s[j])
  {
    if s == [] || IsFieldSep(s[0]) then 0 else 1 + RunLength(s[1..])
  }

  /** The maximal runs of non-separators of `s`, left to right. */
  function Words(s: string): (ws: seq<string>)
    ensures forall k :: 0 <= k < |ws| ==> IsField(ws[k])
    decreases |s|
  {
    if s == [] then []
    else if IsFieldSep(s[0]) then Words(s[1..])
    else
      var n := RunLength(s);
      var w, rest := s[..n], Words(s[n..]);
      assert IsField(w);
      assert forall k :: 0 < k < |rest| + 1 ==> ([w] + rest)[k] == rest[k - 1];
      [w] + rest
  }

  lemma {:induction false} RunLengthOf(f: string, rest: string)
    requires forall j :: 0 <= j < |f| ==> !IsFieldSep(f[j])
    requires rest == [] || IsFieldSep(rest[0])
    ensures RunLength(f + rest) == |f|
  {
    if f != [] {
      assert (f + rest)[1..] == f[1..] + rest;
      RunLengthOf(f[1..], rest);
    } else {
      assert f + rest == rest;
    }
  }

  /** A finished run is one word, and the words of the rest follow. */
  lemma WordsOfRun(f: string, rest: string)
    requires IsField(f) && (rest == [] || IsFieldSep(rest[0]))
    ensures Words(f + rest) == [f] + Words(rest)
  {
    var s := f + rest;
    RunLengthOf(f, rest);
    assert s[..|f|] == f && s[|f|..] == rest;
  }

  /** `splitFields`: scans the characters once, collecting the current field. */
  method SplitFields(s: string) returns (fields: seq<string>)
    ensures fields == Words(s)
  {
    fields := [];
    var field: string := [];
    var inField := false;
    assert field + s[0..] == s;
    for i := 0 to |s|
      invariant inField <==> field != []
      invariant SplitState(fields, field, s, i)
    {
      SplitStep(fields, field, s, i);
      if s[i] == ' ' || s[i] == '\t' || s[i] == '\n' {
        if inField {
          fields := fields + [field];
          field := [];
          inField := false;
        }
      } else {
        field := field + [s[i]];
        inField := true;
      }
    }
    assert field + s[|s|..] == field;
    if inField {
      WordsOfField(field);
      fields := fields + [field];
    }
  }

  /** The scan after i characters: the finished words, then the words of the field and the rest. */
  predicate SplitState(fields: seq<string>, field: string, s: string, i: nat) {
    i <= |s|
    && (forall j :: 0 <= j < |field| ==> !IsFieldSep(field[j]))
    && fields + Words(field + s[i..]) == Words(s)
  }

  /** One character of the scan keeps the scan's state. */
  lemma SplitStep(fields: seq<string>, field: string, s: string, i: nat)
    requires i < |s| && SplitState(fields, field, s, i)
    ensures IsFieldSep(s[i]) && field != [] ==> SplitState(fields + [field], [], s, i + 1)
    ensures IsFieldSep(s[i]) && field == [] ==> SplitState(fields, [], s, i + 1)
    ensures !IsFieldSep(s[i]) ==> SplitState(fields, field + [s[i]], s, i + 1)
  {
    if IsFieldSep(s[i]) {
      SplitAtSep(fields, field, s, i);
    } else {
      SplitInField(fields, field, s, i);
    }
  }

  lemma SplitAtSep(fields: seq<string>, field: string, s: string, i: nat)
    requires i < |s| && SplitState(fields, field, s, i) && IsFieldSep(s[i])
    ensures SplitState(if field != [] then fields + [field] else fields, [], s, i + 1)
  {
    var t := s[i..];
    assert t[1..] == s[i + 1..];
    WordsAtSep(field, t);
    var done := if field != [] then [field] else [];
    assert fields + Words(field + t) == fields + (done + Words(s[i + 1..]));
    assert fields + (done + Words(s[i + 1..])) == (fields + done) + Words(s[i + 1..]);
    assert [] + s[i + 1..] == s[i + 1..];
  }

  lemma SplitInField(fields: seq<string>, field: string, s: string, i: nat)
    requires i < |s| && SplitState(fields, field, s, i) && !IsFieldSep(s[i])
    ensures SplitState(fields, field + [s[i]], s, i + 1)
  {
    var f := field + [s[i]];
    assert forall j :: 0 <= j < |f| ==> !IsFieldSep(f[j]) by {
      forall j | 0 <= j < |f| ensures !IsFieldSep(f[j]) {
        if j < |field| {
          assert f[j] == field[j];
        }
      }
    }
    assert field + s[i..] == f + s[i + 1..];
  }

  /** At a separator the current field, if any, is finished, and the separator is skipped. */
  lemma WordsAtSep(field: string, t: string)
    requires t != [] && IsFieldSep(t[0])
    requires forall j :: 0 <= j < |field| ==> !IsFieldSep(field[j])
    ensures Words(field + t) == (if field != [] then [field] else []) + Words(t[1..])
  {
    WordsSkip(t);
    if field != [] {
      WordsOfRun(field, t);
    } else {
      assert field + t == t;
    }
  }

  lemma WordsSkip(s: string)
    requires s != [] && IsFieldSep(s[0])
    ensures Words(s) == Words(s[1..])
  {
  }

  /** The words of a text without separators are the text itself, or nothing. */
  lemma WordsOfField(f: string)
    requires IsField(f)
    ensures Words(f) == [f]
  {
    WordsOfRun(f, []);
    assert f + [] == f;
  }

  // ---------------------------------------------------------------- extractChecksum

  /** `extractChecksum`: the first field ("checksum  filename"), or the data when it has none. */
  method ExtractChecksum(data: string) returns (sum: string)
    ensures Words(data) != [] ==> sum == Words(data)[0]
    ensures Words(data) == [] ==> sum == data
  {
    var fields := SplitFields(data);
    if |fields| > 0 {
      return fields[0];
    }
    return data;
  }

  /** The usual checksum line: the checksum, two spaces, the file name. */
  lemma ChecksumLine(sum: string, name: string)
    requires IsField(sum)
    ensures Words(sum + "  " + name)[0] == sum
  {
    assert sum + "  " + name == sum + ("  " + name);
    WordsOfRun(sum, "  " + name);
  }

  // ---------------------------------------------------------------- contains

  /** `containsSubstring`: tries every start position in turn. */
  method ContainsSubstring(s: string, sub: string) returns (found: bool)
    ensures found <==> Contains(s, sub)
  {
    var i := 0;
    while i <= |s| - |sub|
      invariant 0 <= i && (|sub| <= |s| ==> i <= |s| - |sub| + 1)
      invariant forall j :: 0 <= j < i ==> !OccursAt(s, sub, j)
    {
      if s[i..i + |sub|] == sub {
        assert OccursAt(s, sub, i);
        return true;
      }
      i := i + 1;
    }
    return false;
  }

  /** `contains`: the length check and the equality short cut in front of the search. */
  method ContainsText(s: string, sub: string) returns (found: bool)
    ensures found <==> Contains(s, sub)
  {
    if |s| < |sub| {
      return false;
    }
    if s == sub {
      assert OccursAt(s, sub, 0);
      return true;
    }
    found := |s| > 0;
    if found {
      found := ContainsSubstring(s, sub);
    }
  }

  // ---------------------------------------------------------------- isChecksum

  /** `isChecksum`: the four checksum extensions. */
  predicate IsChecksum(name: string) {
    var ext := Ext(name);
    ext == ".sha256" || ext == ".sha512" || ext == ".md5" || ext == ".sum"
  }

  /** A name is a checksum name exactly when it ends in one of the four extensions. */
  lemma IsChecksumBySuffix(name: string)
    ensures IsChecksum(name) <==>
      HasSuffix(name, ".sha256") || HasSuffix(name, ".sha512") || HasSuffix(name, ".md5") || HasSuffix(name, ".sum")
  {
    ExtBySuffix(name, ".sha256");
    ExtBySuffix(name, ".sha512");
    ExtBySuffix(name, ".md5");
    ExtBySuffix(name, ".sum");
  }

  /** For an extension without further dots, having it and ending in it are the same. */
  lemma ExtBySuffix(name: string, e: string)
    requires e != [] && e[0] == '.' && '/' !in e && '.' !in e[1..]
    ensures Ext(name) == e <==> HasSuffix(name, e)
  {
    if HasSuffix(name, e) {
      assert name == name[..|name| - |e|] + e;
      ExtOfSuffix(name[..|name| - |e|], e);
    }
  }

  // ---------------------------------------------------------------- backup names

  /** The backup file of the binary of version `v`, as `Upgrade` names it. */
  function BackupPath(rollbackDir: string, v: string): string {
    GoPath.Join(rollbackDir, "aami-" + v + BackupSuffix)
  }

  /**
   * The version `ListAvailableRollbacks` reads off a backup path: the base name without its
   * first five and last seven characters. Go panics when the name is shorter than that; the
   * model answers None there.
   */
  function VersionOfBackup(backup: string): Option<string> {
    var name := Base(backup);
    if |name| < 5 then None
    else
      var rest := name[5..];
      if |rest| < |BackupSuffix| then None else Some(rest[..|rest| - |BackupSuffix|])
  }

  /** A backup made for version v is listed as v. */
  lemma BackupRoundTrip(rollbackDir: string, v: string)
    requires '/' !in v
    ensures Ext(BackupPath(rollbackDir, v)) == BackupSuffix
    ensures VersionOfBackup(BackupPath(rollbackDir, v)) == Some(v)
  {
    var name := "aami-" + v + BackupSuffix;
    assert '/' !in "aami-" && '/' !in BackupSuffix && '.' !in BackupSuffix[1..];
    assert '/' !in name;
    BaseOfJoin(rollbackDir, name);
    var p := BackupPath(rollbackDir, v);
    var q := if rollbackDir == "" then "aami-" + v else rollbackDir + "/" + "aami-" + v;
    Assoc(q, BackupSuffix, rollbackDir, "aami-", v);
    ExtOfSuffix(q, BackupSuffix);
    Assoc3("aami-", v, BackupSuffix);
    assert |"aami-"| == 5;
    DropPrefix("aami-", v + BackupSuffix);
    DropSuffix(v, BackupSuffix);
  }

  lemma Assoc(q: string, e: string, dir: string, pre: string, v: string)
    requires e != [] && q == if dir == "" then pre + v else dir + "/" + pre + v
    ensures GoPath.Join(dir, pre + v + e) == q + e
  {
  }

  lemma Assoc3<T>(a: seq<T>, b: seq<T>, c: seq<T>)
    ensures a + b + c == a + (b + c)
  {
  }

  lemma DropPrefix<T>(a: seq<T>, b: seq<T>)
    ensures (a + b)[|a|..] == b
  {
  }

  lemma DropSuffix<T>(a: seq<T>, b: seq<T>)
    ensures (a + b)[..|a|] == a
  {
  }

  /** `ListAvailableRollbacks` after `listBackups`: the version of every backup, in order. */
  method ListRollbacks(backups: seq<string>) returns (versions: Option<seq<string>>)
    ensures versions.Some? <==> forall i :: 0 <= i < |backups| ==> VersionOfBackup(backups[i]).Some?
    ensures versions.Some? ==>
      (|versions.value| == |backups| && forall i :: 0 <= i < |backups| ==> Some(versions.value[i]) == VersionOfBackup(backups[i]))
  {
    ghost var want := seq(|backups|, t requires 0 <= t < |backups| => VersionOfBackup(backups[t]));
    var vs: seq<string> := [];
    for i := 0 to |backups|
      invariant |vs| == i
      invariant forall t :: 0 <= t < i ==> Some(vs[t]) == want[t]
    {
      var v := VersionOfBackup(backups[i]);
      assert v == want[i];
      if v.None? {
        return None;
      }
      vs := vs + [v.value];
    }
    assert forall t :: 0 <= t < |backups| ==> VersionOfBackup(backups[t]) == want[t] == Some(vs[t]);
    return Some(vs);
  }

  /** A stray file such as "x.backup" is listed (its extension is ".backup") and makes the listing panic. */
  lemma ShortBackupPanics()
    ensures Ext(RollbackDir + "/x.backup") == BackupSuffix
    ensures VersionOfBackup(RollbackDir + "/x.backup") == None
  {
    var p := RollbackDir + "/x.backup";
    assert p == RollbackDir + "/x" + BackupSuffix;
    assert '/' !in BackupSuffix && '.' !in BackupSuffix[1..];
    ExtOfSuffix(RollbackDir + "/x", BackupSuffix);
    assert p == RollbackDir + "/" + "x.backup";
    AfterLastSlashSuffix(RollbackDir, "x.backup");
    assert TrimTrailingSlashes(p) == p;
  }

  /** The version of a backup named "aami-<v>.backup"; other names are no backups of ours. */
  function VersionOfBackupFixed(backup: string): (r: Option<string>)
    ensures r.Some? ==> Base(backup) == "aami-" + r.value + BackupSuffix
  {
    var name := Base(backup);
    if |name| >= 12 && HasPrefix(name, "aami-") && HasSuffix(name, BackupSuffix) then
      var v := name[5..|name| - 7];
      assert name[..5] == "aami-" && name[|name| - 7..] == BackupSuffix;
      assert name == name[..5] + v + name[|name| - 7..];
      Some(v)
    else None
  }

  /** The listing that skips names it cannot read a version from. */
  method ListRollbacksFixed(backups: seq<string>) returns (versions: seq<string>)
    ensures versions == RollbacksFixed(backups)
  {
    versions := [];
    for i := 0 to |backups|
      invariant versions == RollbacksFixed(backups[..i])
    {
      assert backups[..i + 1][..i] == backups[..i];
      var v := VersionOfBackupFixed(backups[i]);
      if v.Some? {
        versions := versions + [v.value];
      }
    }
    assert backups[..|backups|] == backups;
  }

  function RollbacksFixed(backups: seq<string>): seq<string> {
    if backups == [] then []
    else
      var last := VersionOfBackupFixed(backups[|backups| - 1]);
      RollbacksFixed(backups[..|backups| - 1]) + (if last.Some? then [last.value] else [])
  }

  /** Every backup this upgrader made is listed as its version, and never a panic. */
  lemma BackupRoundTripFixed(rollbackDir: string, v: string)
    requires '/' !in v
    ensures VersionOfBackupFixed(BackupPath(rollbackDir, v)) == Some(v)
  {
    BackupRoundTrip(rollbackDir, v);
    var name := "aami-" + v + BackupSuffix;
    assert '/' !in "aami-" && '/' !in BackupSuffix;
    BaseOfJoin(rollbackDir, name);
    Assoc3("aami-", v, BackupSuffix);
    DropSuffix("aami-", v + BackupSuffix);
    assert HasPrefix(name, "aami-");
    assert name[|name| - 7..] == BackupSuffix;
  }

  /** Listing the backups made for the versions `vs` yields `vs`. */
  lemma {:induction false} RollbacksFixedOfBackups(rollbackDir: string, vs: seq<string>, backups: seq<string>)
    requires |backups| == |vs|
    requires forall i :: 0 <= i < |vs| ==> '/' !in vs[i] && backups[i] == BackupPath(rollbackDir, vs[i])
    ensures RollbacksFixed(backups) == vs
  {
    if vs != [] {
      var n := |vs| - 1;
      assert forall i :: 0 <= i < n ==> vs[..n][i] == vs[i] && backups[..n][i] == backups[i];
      RollbacksFixedOfBackups(rollbackDir, vs[..n], backups[..n]);
      BackupRoundTripFixed(rollbackDir, vs[n]);
      RollbacksFixedSnoc(backups, vs[n]);
      Seqs.InitLast(vs);
    }
  }

  /** A last backup that reads back as `v` adds `v` to the listing of the others. */
  lemma RollbacksFixedSnoc(backups: seq<string>, v: string)
    requires backups != [] && VersionOfBackupFixed(backups[|backups| - 1]) == Some(v)
    ensures RollbacksFixed(backups) == RollbacksFixed(backups[..|backups| - 1]) + [v]
  {
  }
}

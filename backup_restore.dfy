/**
 * Restoring a backup archive (internal/backup/restore.go): which archive paths are restored and
 * where, the tallies of a restore, and the parser of the archive's "key: value" metadata.  The
 * archive is given as its entries in order: each names a path and carries what writing that
 * file would return, or is a read error of the archive.
 */
module BackupRestore {
  import opened Wrappers
  import opened GoStrings
  import GoPath

  /** `RestoreOptions`; `force` only matters to the file writes, which are oracles here. */
  datatype RestoreOptions = RestoreOptions(configOnly: bool, dataOnly: bool, dryRun: bool, force: bool, targetDir: string)

  /** The directories `Backup` writes configuration and data files to. */
  datatype Dirs = Dirs(configDir: string, dataDir: string)

  const MetadataFile := "metadata.yaml"
  const ConfigPrefix := "config/"
  const DataPrefix := "data/"

  /**
   * `shouldRestore`: whether the archive path is restored and its destination.  A path is
   * restored exactly when it is not the metadata file, passes the config-only and data-only
   * filters, and either a target directory is set or it lies under config/ or data/.  The
   * destination is then the target directory joined with the whole path, or the config or data
   * directory joined with the rest of the path; a path that is not restored has no destination.
   */
  function ShouldRestore(b: Dirs, archivePath: string, opts: RestoreOptions): (r: (bool, string))
    ensures r.0 <==> (archivePath != MetadataFile
      && (opts.configOnly ==> HasPrefix(archivePath, ConfigPrefix))
      && (opts.dataOnly ==> HasPrefix(archivePath, DataPrefix))
      && (opts.targetDir != "" || HasPrefix(archivePath, ConfigPrefix) || HasPrefix(archivePath, DataPrefix)))
    ensures !r.0 ==> r.1 == ""
    ensures r.0 && opts.targetDir != "" ==> r.1 == GoPath.Join(opts.targetDir, archivePath)
    ensures r.0 && opts.targetDir == "" && HasPrefix(archivePath, ConfigPrefix) ==>
      r.1 == GoPath.Join(b.configDir, archivePath[|ConfigPrefix|..])
    ensures r.0 && opts.targetDir == "" && !HasPrefix(archivePath, ConfigPrefix) ==>
      HasPrefix(archivePath, DataPrefix) && r.1 == GoPath.Join(b.dataDir, archivePath[|DataPrefix|..])
  {
    if archivePath == MetadataFile then (false, "")
    else
      var isConfig := HasPrefix(archivePath, ConfigPrefix);
      var isData := HasPrefix(archivePath, DataPrefix);
      if opts.configOnly && !isConfig then (false, "")
      else if opts.dataOnly && !isData then (false, "")
      else if opts.targetDir != "" then (true, GoPath.Join(opts.targetDir, archivePath))
      else if isConfig then (true, GoPath.Join(b.configDir, TrimPrefix(archivePath, ConfigPrefix)))
      else if isData then (true, GoPath.Join(b.dataDir, TrimPrefix(archivePath, DataPrefix)))
      else (false, "")
  }

  /**
   * Asking for configuration only and data only at once restores nothing, since no path is
   * under both prefixes; the metadata file is never restored.
   */
  lemma FiltersExclusive(b: Dirs, archivePath: string, opts: RestoreOptions)
    ensures opts.configOnly && opts.dataOnly ==> !ShouldRestore(b, archivePath, opts).0
    ensures !ShouldRestore(b, MetadataFile, opts).0
  {
    if HasPrefix(archivePath, ConfigPrefix) {
      assert archivePath[0] == 'c';
    }
  }

  /** Without a target directory, a file under config/ lands inside the config directory under its relative name. */
  lemma ConfigDestination(b: Dirs, rel: string, opts: RestoreOptions)
    requires !opts.dataOnly && opts.targetDir == "" && b.configDir != "" && rel != ""
    ensures ShouldRestore(b, ConfigPrefix + rel, opts) == (true, b.configDir + "/" + rel)
  {
    var p := ConfigPrefix + rel;
    assert p[..|ConfigPrefix|] == ConfigPrefix && p[|ConfigPrefix|..] == rel;
    assert p != MetadataFile by {
      assert p[0] == 'c';
    }
  }

  /** One archive entry: a file and what restoring it would return, or a failure to read the archive. */
  datatype TarEntry = File(name: string, writeErr: Option<string>) | ReadError(message: string)

  /** `RestoreResult` without the clock reading. */
  datatype RestoreResult = RestoreResult(success: bool, filesRestored: nat, filesSkipped: nat, errors: seq<string>)

  /** The tallies after one file entry. */
  function TallyFile(b: Dirs, opts: RestoreOptions, acc: RestoreResult, name: string, writeErr: Option<string>): RestoreResult {
    var (restore, _) := ShouldRestore(b, name, opts);
    if !restore then acc.(filesSkipped := acc.filesSkipped + 1)
    else if opts.dryRun then acc.(filesRestored := acc.filesRestored + 1)
    else if writeErr.Some? then acc.(errors := acc.errors + [name + ": " + writeErr.value])
    else acc.(filesRestored := acc.filesRestored + 1)
  }

  /** The loop of `Restore` from these entries on; a read error ends the restore with an error. */
  function Tally(b: Dirs, opts: RestoreOptions, acc: RestoreResult, entries: seq<TarEntry>): Result<RestoreResult>
    decreases |entries|
  {
    if entries == [] then Ok(acc.(success := |acc.errors| == 0))
    else match entries[0]
      case ReadError(msg) => Err("read tar: " + msg)
      case File(name, writeErr) => Tally(b, opts, TallyFile(b, opts, acc, name, writeErr), entries[1..])
  }

  const NoneRestored := RestoreResult(false, 0, 0, [])

  /** `Restore` after the archive is opened. */
  method Restore(b: Dirs, entries: seq<TarEntry>, opts: RestoreOptions) returns (r: Result<RestoreResult>)
    ensures r == Tally(b, opts, NoneRestored, entries)
  {
    var result := NoneRestored;
    var i := 0;
    while i < |entries|
      invariant i <= |entries|
      invariant Tally(b, opts, result, entries[i..]) == Tally(b, opts, NoneRestored, entries)
    {
      assert entries[i..][1..] == entries[i + 1..];
      match entries[i]
      case ReadError(msg) =>
        return Err("read tar: " + msg);
      case File(name, writeErr) =>
        var (restore, destPath) := ShouldRestore(b, name, opts);
        if !restore {
          result := result.(filesSkipped := result.filesSkipped + 1);
        } else if opts.dryRun {
          result := result.(filesRestored := result.filesRestored + 1);
        } else if writeErr.Some? {
          result := result.(errors := result.errors + [name + ": " + writeErr.value]);
        } else {
          result := result.(filesRestored := result.filesRestored + 1);
        }
      i := i + 1;
    }
    result := result.(success := |result.errors| == 0);
    return Ok(result);
  }

  /**
   * A restore that reads the whole archive succeeds exactly when no file failed; every file is
   * counted once as restored, skipped or failed; and a dry run has no failures.
   */
  lemma {:induction false} TallyFacts(b: Dirs, opts: RestoreOptions, acc: RestoreResult, entries: seq<TarEntry>)
    requires forall k :: 0 <= k < |entries| ==> entries[k].File?
    requires opts.dryRun ==> acc.errors == []
    ensures Tally(b, opts, acc, entries).Ok?
    ensures var r := Tally(b, opts, acc, entries).value;
      && (r.success <==> r.errors == [])
      && r.filesRestored + r.filesSkipped + |r.errors| == acc.filesRestored + acc.filesSkipped + |acc.errors| + |entries|
      && (opts.dryRun ==> r.errors == [])
    decreases |entries|
  {
    if entries != [] {
      var e := entries[0];
      TallyFacts(b, opts, TallyFile(b, opts, acc, e.name, e.writeErr), entries[1..]);
    }
  }

  /** A read error anywhere fails the whole restore with that error, whatever came before it. */
  lemma {:induction false} TallyReadError(b: Dirs, opts: RestoreOptions, acc: RestoreResult, files: seq<TarEntry>, msg: string, rest: seq<TarEntry>)
    requires forall k :: 0 <= k < |files| ==> files[k].File?
    ensures Tally(b, opts, acc, files + [ReadError(msg)] + rest) == Err("read tar: " + msg)
    decreases |files|
  {
    if files == [] {
      assert files + [ReadError(msg)] + rest == [ReadError(msg)] + rest;
    } else {
      var e := files[0];
      assert (files + [ReadError(msg)] + rest)[1..] == files[1..] + [ReadError(msg)] + rest;
      TallyReadError(b, opts, TallyFile(b, opts, acc, e.name, e.writeErr), files[1..], msg, rest);
    }
  }

  /** One line of the metadata: a trimmed "key: value" line sets the trimmed key to the trimmed value. */
  function YamlLine(m: map<string, string>, line: string): map<string, string> {
    var t := TrimSpace(line);
    if t == "" || HasPrefix(t, "#") then m
    else
      var idx := IndexOf(t, ':');
      if idx == -1 then m else m[TrimSpace(t[..idx]) := TrimSpace(t[idx + 1..])]
  }

  /** The lines in order, so a later key overrides an earlier one. */
  function YamlLines(lines: seq<string>): map<string, string> {
    if lines == [] then map[] else YamlLine(YamlLines(lines[..|lines| - 1]), lines[|lines| - 1])
  }

  /** `parseSimpleYAML`: the content's lines, read as "key: value" entries. */
  method ParseSimpleYaml(content: string) returns (result: map<string, string>)
    ensures result == YamlLines(Split(content, '\n'))
  {
    result := YamlLoop(Split(content, '\n'));
  }

  /** The loop of `parseSimpleYAML`. */
  method YamlLoop(lines: seq<string>) returns (result: map<string, string>)
    ensures result == YamlLines(lines)
  {
    result := map[];
    var i := 0;
    while i < |lines|
      invariant i <= |lines| && result == YamlLines(lines[..i])
    {
      assert lines[..i + 1][..i] == lines[..i];
      result := YamlLine(result, lines[i]);
      i := i + 1;
    }
    assert lines[..i] == lines;
  }

  /** Blank lines, comments and lines without ':' add nothing. */
  lemma SkippedYamlLine(lines: seq<string>, line: string)
    requires var t := TrimSpace(line); t == "" || HasPrefix(t, "#") || ':' !in t
    ensures YamlLines(lines + [line]) == YamlLines(lines)
  {
    assert (lines + [line])[..|lines|] == lines;
  }

  /**
   * A line "key: value" of two words, the key without ':' and not a comment, sets that key to
   * that value, replacing an earlier one.
   */
  lemma EntryLine(lines: seq<string>, key: string, value: string)
    requires IsWord(key) && IsWord(value) && ':' !in key && key[0] != '#'
    ensures YamlLines(lines + [key + ": " + value]) == YamlLines(lines)[key := value]
  {
    var line := key + ": " + value;
    assert (lines + [line])[..|lines|] == lines;
    var rest := " " + value;
    assert line == key + [':'] + rest;
    assert line[0] == key[0] && line[|line| - 1] == value[|value| - 1];
    WordTrimmed(line);
    assert !HasPrefix(line, "#");
    IndexOfAfter(key, ':', rest);
    assert line[..|key|] == key && line[|key| + 1..] == rest;
    WordTrimmed(key);
    SpaceThenWord(value);
    YamlEntry(YamlLines(lines), line, key, value);
  }

  lemma YamlEntry(m: map<string, string>, line: string, key: string, value: string)
    requires TrimSpace(line) == line && line != "" && !HasPrefix(line, "#")
    requires IndexOf(line, ':') == |key| && |key| < |line|
    requires TrimSpace(line[..|key|]) == key && TrimSpace(line[|key| + 1..]) == value
    ensures YamlLine(m, line) == m[key := value]
  {
    var t := TrimSpace(line);
    assert t == line;
    var idx := IndexOf(t, ':');
    assert idx == |key|;
    assert TrimSpace(t[..idx]) == key;
    assert TrimSpace(t[idx + 1..]) == value;
  }

  /** Text that starts and ends with non-space characters is its own trimmed form. */
  lemma WordTrimmed(s: string)
    requires s != [] && !IsSpace(s[0]) && !IsSpace(s[|s| - 1])
    ensures TrimSpace(s) == s
  {
    assert TrimLeftSpace(s) == s;
    assert TrimRightSpace(s) == s;
  }

  lemma SpaceThenWord(w: string)
    requires IsWord(w)
    ensures TrimSpace(" " + w) == w
  {
    var s := " " + w;
    assert s[0] == ' ' && s[1..] == w;
    assert TrimLeftSpace(s) == TrimLeftSpace(w);
    assert TrimLeftSpace(w) == w;
    assert TrimRightSpace(w) == w;
  }
}

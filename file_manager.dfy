/**
 * The Prometheus rule file manager (services/config-server/internal/pkg/prometheus/file_manager.go):
 * one rule file per group, named "group-<id>.yml" under the rules directory, written through a
 * temporary file and a rename, with optional validation and backups.
 *
 * The filesystem is abstract: `files` maps each path of the rules directory to its content and
 * `backups` lists the backup copies in the order they were made, so the last one of a group is
 * its most recent.  What the filesystem calls and promtool report is a parameter
 * (`WriteFaults`, `DeleteFaults`, the glob result).
 */
module RuleFiles {
  import opened Wrappers
  import opened GoStrings
  import GoPath
  import Seqs

  const FilePrefix := "group-"
  const FileSuffix := ".yml"
  const TempSuffix := ".tmp"

  /** The base name of a group's rule file, `fmt.Sprintf("group-%s.yml", groupID)`. */
  function FileName(groupID: string): string {
    FilePrefix + groupID + FileSuffix
  }

  /** `getFilePath`. */
  function FilePath(basePath: string, groupID: string): string {
    GoPath.Join(basePath, FileName(groupID))
  }

  /** The group ID `ListRuleFiles` reads from a base name, if the name has the rule file shape. */
  function GroupIdOf(basename: string): (r: Option<string>) {
    if HasPrefix(basename, FilePrefix) && HasSuffix(basename, FileSuffix) then
      Some(TrimSuffix(TrimPrefix(basename, FilePrefix), FileSuffix))
    else None
  }

  /** The file name and the ID read back from it are inverse: a base name yields `id` exactly when it is `FileName(id)`. */
  lemma GroupIdRoundTrip(basename: string, id: string)
    ensures GroupIdOf(FileName(id)) == Some(id)
    ensures GroupIdOf(basename) == Some(id) <==> basename == FileName(id)
  {
    GroupIdOfFileName(id);
    GroupIdOfShape(basename);
  }

  /** The ID is read back from its own file name. */
  lemma GroupIdOfFileName(id: string)
    ensures GroupIdOf(FileName(id)) == Some(id)
  {
    var n := FileName(id);
    assert n[..|FilePrefix|] == FilePrefix;
    assert n[|n| - |FileSuffix|..] == FileSuffix;
    assert n[|FilePrefix|..][..|id|] == id;
  }

  /** A base name an ID is read from is that ID's file name. */
  lemma GroupIdOfShape(basename: string)
    ensures GroupIdOf(basename).Some? ==> basename == FileName(GroupIdOf(basename).value)
  {
    if HasPrefix(basename, FilePrefix) && HasSuffix(basename, FileSuffix) {
      ShapeLength(basename);
      var rest := TrimPrefix(basename, FilePrefix);
      TrimmedSuffix(basename, rest);
      var id := TrimSuffix(rest, FileSuffix);
      assert basename == FilePrefix + (id + FileSuffix);
    }
  }

  /** The prefix "group-" and the suffix ".yml" cannot overlap, so such a name has at least ten characters. */
  lemma ShapeLength(basename: string)
    requires HasPrefix(basename, FilePrefix) && HasSuffix(basename, FileSuffix)
    ensures |basename| >= |FilePrefix| + |FileSuffix|
  {
    var k := |basename| - 4;
    assert basename[k] == FileSuffix[0];
  }

  /** What follows the prefix of a long enough rule file name still ends in the suffix. */
  lemma TrimmedSuffix(basename: string, rest: string)
    requires HasPrefix(basename, FilePrefix) && HasSuffix(basename, FileSuffix)
    requires |basename| >= |FilePrefix| + |FileSuffix| && FilePrefix + rest == basename
    ensures HasSuffix(rest, FileSuffix)
  {
    assert rest[|rest| - |FileSuffix|..] == basename[|basename| - |FileSuffix|..];
  }

  /** The rule file of a group whose ID holds no '/' is listed under that ID. */
  lemma ListedOne(basePath: string, id: string)
    requires '/' !in id
    ensures GroupIdOf(GoPath.Base(FilePath(basePath, id))) == Some(id)
  {
    FileNameSlashFree(id);
    GoPath.BaseOfJoin(basePath, FileName(id));
    GroupIdRoundTrip(FileName(id), id);
  }

  /** A rule file name contains a '/' only when the group ID does. */
  lemma FileNameSlashFree(id: string)
    requires '/' !in id
    ensures FileName(id) != "" && '/' !in FileName(id)
  {
    assert FileName(id) == FilePrefix + id + FileSuffix;
  }

  /** The group IDs of the globbed paths, in glob order: the loop of `ListRuleFiles`. */
  function ListedIds(paths: seq<string>): seq<string> {
    if paths == [] then []
    else
      var ids := ListedIds(paths[..|paths| - 1]);
      match GroupIdOf(GoPath.Base(paths[|paths| - 1]))
      case Some(id) => ids + [id]
      case None => ids
  }

  function RuleFilePaths(basePath: string, ids: seq<string>): (ps: seq<string>)
    ensures |ps| == |ids| && forall i :: 0 <= i < |ids| ==> ps[i] == FilePath(basePath, ids[i])
  {
    seq(|ids|, i requires 0 <= i < |ids| => FilePath(basePath, ids[i]))
  }

  lemma RuleFilePathsInit(basePath: string, ids: seq<string>)
    requires ids != []
    ensures RuleFilePaths(basePath, ids)
      == RuleFilePaths(basePath, ids[..|ids| - 1]) + [FilePath(basePath, ids[|ids| - 1])]
  {
  }

  lemma ListedIdsSnoc(paths: seq<string>, p: string, id: string)
    requires GroupIdOf(GoPath.Base(p)) == Some(id)
    ensures ListedIds(paths + [p]) == ListedIds(paths) + [id]
  {
    assert (paths + [p])[..|paths|] == paths;
  }

  /** Round trip: listing the rule files of some groups gives back their IDs, in order, whenever no ID holds a '/'. */
  lemma {:induction false} ListedRuleFiles(basePath: string, ids: seq<string>)
    requires forall i :: 0 <= i < |ids| ==> '/' !in ids[i]
    ensures ListedIds(RuleFilePaths(basePath, ids)) == ids
  {
    if ids != [] {
      var init := ids[..|ids| - 1];
      var last := ids[|ids| - 1];
      RuleFilePathsInit(basePath, ids);
      ListedRuleFiles(basePath, init);
      ListedOne(basePath, last);
      ListedIdsSnoc(RuleFilePaths(basePath, init), FilePath(basePath, last), last);
      Seqs.InitLast(ids);
    }
  }

  /** A listed ID always comes from a path whose base name is that ID's rule file name. */
  lemma {:induction false} ListedIdsNamed(paths: seq<string>)
    ensures |ListedIds(paths)| <= |paths|
    ensures forall k :: 0 <= k < |ListedIds(paths)| ==>
      exists j :: 0 <= j < |paths| && GoPath.Base(paths[j]) == FileName(ListedIds(paths)[k])
  {
    if paths != [] {
      var init := paths[..|paths| - 1];
      var last := paths[|paths| - 1];
      ListedIdsNamed(init);
      var ids := ListedIds(init);
      forall k | 0 <= k < |ids|
        ensures exists j :: 0 <= j < |paths| && GoPath.Base(paths[j]) == FileName(ids[k])
      {
        var j :| 0 <= j < |init| && GoPath.Base(init[j]) == FileName(ids[k]);
        assert paths[j] == init[j];
      }
      match GroupIdOf(GoPath.Base(last))
      case Some(id) =>
        GroupIdRoundTrip(GoPath.Base(last), id);
        assert paths[|paths| - 1] == last;
      case None =>
    }
  }

  /** One backup copy: the group and the content that was copied. */
  datatype Backup = Backup(groupId: string, content: string)

  /** The rules directory and the backup directory. */
  datatype Disk = Disk(files: map<string, string>, backups: seq<Backup>)

  /** Why a file operation failed: `ErrValidationFailed`, `ErrAtomicWriteFailed` or `ErrDeleteFailed` with its detail. */
  datatype FileError = ValidationFailed(detail: string) | AtomicWriteFailed(detail: string) | DeleteFailed(detail: string)

  /** The error text, `fmt.Errorf("%w: %s", sentinel, detail)`. */
  function Message(e: FileError): string {
    match e
    case ValidationFailed(d) => "rule validation failed: " + d
    case AtomicWriteFailed(d) => "atomic write failed: " + d
    case DeleteFailed(d) => "failed to delete rule file: " + d
  }

  /**
   * What the filesystem and promtool do during one write: the failure of the backup copy, the
   * temp file write, promtool's report on the temp file, the restore copy and the rename.
   */
  datatype WriteFaults = WriteFaults(
    backup: Option<string>,
    tempWrite: Option<string>,
    validation: Option<string>,
    restore: Option<string>,
    rename: Option<string>)

  /** What the filesystem does during one delete: the failure of the backup copy and of the removal. */
  datatype DeleteFaults = DeleteFaults(backup: Option<string>, remove: Option<string>)

  /** The manager's settings. */
  datatype Settings = Settings(basePath: string, enableValidation: bool, enableBackup: bool)

  /** `BackupRuleFile`: copies the group's file when backups are on and the file exists; a failed copy only logs. */
  function BackedUp(d: Disk, s: Settings, groupID: string, fault: Option<string>): (after: Disk)
    ensures after.files == d.files
  {
    var path := FilePath(s.basePath, groupID);
    if s.enableBackup && path in d.files && fault.None? then
      d.(backups := d.backups + [Backup(groupID, d.files[path])])
    else d
  }

  /** The most recent backup of a group. */
  function LatestBackup(backups: seq<Backup>, groupID: string): (r: Option<string>)
    ensures r.Some? ==> exists i :: 0 <= i < |backups| && backups[i] == Backup(groupID, r.value)
    ensures r.None? ==> forall i :: 0 <= i < |backups| ==> backups[i].groupId != groupID
  {
    if backups == [] then None
    else if backups[|backups| - 1].groupId == groupID then Some(backups[|backups| - 1].content)
    else LatestBackup(backups[..|backups| - 1], groupID)
  }

  function ValidationDetail(report: string): string {
    "rule validation failed: promtool error: " + report
  }

  /**
   * `WriteRuleFile` as the source has it: on a validation failure with backups on, the group's
   * most recent backup is copied onto the final file whether or not the file existed.
   */
  function WrittenAsSource(d: Disk, s: Settings, groupID: string, content: string, f: WriteFaults): (Disk, Option<FileError>) {
    var path := FilePath(s.basePath, groupID);
    var tmp := path + TempSuffix;
    var d1 := BackedUp(d, s, groupID, f.backup);
    if f.tempWrite.Some? then (d1, Some(AtomicWriteFailed("failed to write temp file: " + f.tempWrite.value)))
    else
      var files := d1.files[tmp := content];
      if s.enableValidation && f.validation.Some? then
        var latest := LatestBackup(d1.backups, groupID);
        var restored := if s.enableBackup && latest.Some? && f.restore.None? then files[path := latest.value] else files;
        (d1.(files := restored - {tmp}), Some(ValidationFailed(ValidationDetail(f.validation.value))))
      else if f.rename.Some? then
        (d1.(files := files - {tmp}), Some(AtomicWriteFailed("failed to rename temp file: " + f.rename.value)))
      else (d1.(files := (files - {tmp})[path := content]), None)
  }

  /**
   * The same write without the restore: the final file is never touched before the rename, so
   * a validation failure leaves it as it was.
   */
  function Written(d: Disk, s: Settings, groupID: string, content: string, f: WriteFaults): (Disk, Option<FileError>) {
    var path := FilePath(s.basePath, groupID);
    var tmp := path + TempSuffix;
    var d1 := BackedUp(d, s, groupID, f.backup);
    if f.tempWrite.Some? then (d1, Some(AtomicWriteFailed("failed to write temp file: " + f.tempWrite.value)))
    else
      var files := d1.files[tmp := content];
      if s.enableValidation && f.validation.Some? then
        (d1.(files := files - {tmp}), Some(ValidationFailed(ValidationDetail(f.validation.value))))
      else if f.rename.Some? then
        (d1.(files := files - {tmp}), Some(AtomicWriteFailed("failed to rename temp file: " + f.rename.value)))
      else (d1.(files := (files - {tmp})[path := content]), None)
  }

  /** The temp file of a rule file is a different path. */
  lemma TempDiffers(path: string)
    ensures path + TempSuffix != path
  {
    assert |path + TempSuffix| == |path| + 4;
  }

  /**
   * A write succeeds exactly when the temp write, the validation (when on) and the rename
   * succeed; then the final file holds the content and the temp file is gone.  A failed write
   * leaves the final file as it was, present or absent, and every other path but the temp file
   * untouched; once the temp file was written it is removed again.  A backup of the old file is
   * added exactly when backups are on, the file existed and the copy worked.
   */
  lemma WrittenFacts(d: Disk, s: Settings, groupID: string, content: string, f: WriteFaults)
    ensures var (after, err) := Written(d, s, groupID, content, f);
      var path := FilePath(s.basePath, groupID);
      var tmp := path + TempSuffix;
      && (err.None? <==> f.tempWrite.None? && (!s.enableValidation || f.validation.None?) && f.rename.None?)
      && (err.None? ==> path in after.files && after.files[path] == content && tmp !in after.files)
      && (err.None? ==> forall p :: p != path && p != tmp ==> (p in after.files <==> p in d.files))
      && (err.Some? ==> forall p :: p != tmp ==> (p in after.files <==> p in d.files))
      && (err.Some? ==> forall p :: p != tmp && p in d.files ==> after.files[p] == d.files[p])
      && (err.Some? && f.tempWrite.None? ==> tmp !in after.files)
      && (f.tempWrite.Some? ==> after.files == d.files)
      && after.backups == BackedUp(d, s, groupID, f.backup).backups
  {
    TempDiffers(FilePath(s.basePath, groupID));
  }

  /** Writing the same content twice in a row leaves the rule file as one write does. */
  lemma WrittenTwice(d: Disk, s: Settings, groupID: string, content: string, f: WriteFaults)
    requires Written(d, s, groupID, content, f).1.None?
    ensures var d2 := Written(d, s, groupID, content, f).0;
      Written(d2, s, groupID, content, f).0.files == d2.files
  {
    var path := FilePath(s.basePath, groupID);
    var tmp := path + TempSuffix;
    TempDiffers(path);
    var d2 := Written(d, s, groupID, content, f).0;
    var d3 := BackedUp(d2, s, groupID, f.backup);
    assert (d3.files[tmp := content] - {tmp})[path := content] == d2.files;
  }

  /**
   * `DeleteRuleFile`: nothing to do for a missing file; otherwise a backup when on, then the
   * removal, whose failure is reported with the file left in place.
   */
  function Deleted(d: Disk, s: Settings, groupID: string, f: DeleteFaults): (Disk, Option<FileError>) {
    var path := FilePath(s.basePath, groupID);
    if path !in d.files then (d, None)
    else
      var d1 := BackedUp(d, s, groupID, f.backup);
      if f.remove.Some? then (d1, Some(DeleteFailed(f.remove.value)))
      else (d1.(files := d1.files - {path}), None)
  }

  /**
   * Deleting removes the group's file and nothing else unless the removal fails; deleting a
   * missing file succeeds and changes nothing, so a second delete after a successful one is a
   * no-op whatever the filesystem would have done.
   */
  lemma DeletedFacts(d: Disk, s: Settings, groupID: string, f: DeleteFaults, g: DeleteFaults)
    ensures var (after, err) := Deleted(d, s, groupID, f);
      var path := FilePath(s.basePath, groupID);
      && (path !in d.files ==> after == d && err.None?)
      && (err.None? ==> path !in after.files && after.files == d.files - {path})
      && (err.Some? ==> after.files == d.files && f.remove.Some?)
      && (err.None? ==> Deleted(after, s, groupID, g) == (after, None))
  {
  }

  /**
   * The restore of the source brings back a deleted rule file: with validation and backups on,
   * a group whose file was deleted after a backup gets that backup back when a new write fails
   * validation.
   */
  lemma RestoreResurrectsDeletedFile()
    ensures var s := Settings("rules", true, true);
      var d := Disk(map[], [Backup("g", "old rules")]);
      var f := WriteFaults(None, None, Some("bad expr"), None, None);
      var (after, err) := WrittenAsSource(d, s, "g", "new rules", f);
      && FilePath("rules", "g") !in d.files
      && err.Some?
      && FilePath("rules", "g") in after.files && after.files[FilePath("rules", "g")] == "old rules"
  {
    var path := FilePath("rules", "g");
    assert path == "rules/group-g.yml";
    TempDiffers(path);
    assert LatestBackup([Backup("g", "old rules")], "g") == Some("old rules");
  }

  /** `RuleFileManager`: the settings, and the filesystem it manages. */
  class RuleFileManager {
    const basePath: string
    const backupPath: string
    const enableValidation: bool
    const enableBackup: bool
    var files: map<string, string>
    var backups: seq<Backup>

    function State(): Disk
      reads this
    {
      Disk(files, backups)
    }

    function Config(): Settings {
      Settings(basePath, enableValidation, enableBackup)
    }

    /**
     * `NewRuleFileManager` over an existing filesystem: the backup directory defaults to
     * ".backup" under the rules directory, and validation stays on only when a promtool path is
     * given or promtool is found on the PATH.
     */
    constructor (basePath: string, backupPath: string, enableValidation: bool, enableBackup: bool,
                 promtoolPath: string, promtoolOnPath: bool, files: map<string, string>, backups: seq<Backup>)
      ensures this.basePath == basePath && this.enableBackup == enableBackup
      ensures this.backupPath == if backupPath == "" then GoPath.Join(basePath, ".backup") else backupPath
      ensures this.enableValidation <==> enableValidation && (promtoolPath != "" || promtoolOnPath)
      ensures this.files == files && this.backups == backups
    {
      this.basePath := basePath;
      this.backupPath := if backupPath == "" then GoPath.Join(basePath, ".backup") else backupPath;
      this.enableValidation := enableValidation && (promtoolPath != "" || promtoolOnPath);
      this.enableBackup := enableBackup;
      this.files := files;
      this.backups := backups;
    }

    /** `GetFilePath`. */
    function GetFilePath(groupID: string): (p: string)
      ensures basePath != "" ==> p == basePath + "/group-" + groupID + ".yml"
    {
      FilePath(basePath, groupID)
    }

    /** `BackupRuleFile`. */
    method BackupRuleFile(groupID: string, fault: Option<string>)
      modifies this
      ensures State() == BackedUp(old(State()), Config(), groupID, fault)
    {
      var path := FilePath(basePath, groupID);
      if enableBackup && path in files && fault.None? {
        backups := backups + [Backup(groupID, files[path])];
      }
    }

    /**
     * `WriteRuleFile`: the backup, the content written to "<file>.tmp", promtool on the temp file,
     * then the rename onto the final file; the deferred removal drops a temp file left behind.
     * The restore after a validation failure is not performed (see `WrittenAsSource`).
     */
    method WriteRuleFile(groupID: string, content: string, f: WriteFaults) returns (err: Option<FileError>)
      modifies this
      ensures (State(), err) == Written(old(State()), Config(), groupID, content, f)
    {
      var filename := FilePath(basePath, groupID);
      BackupRuleFile(groupID, f.backup);
      var tempFile := filename + TempSuffix;
      if f.tempWrite.Some? {
        return Some(AtomicWriteFailed("failed to write temp file: " + f.tempWrite.value));
      }
      files := files[tempFile := content];
      if enableValidation && f.validation.Some? {
        err := Some(ValidationFailed(ValidationDetail(f.validation.value)));
      } else if f.rename.Some? {
        err := Some(AtomicWriteFailed("failed to rename temp file: " + f.rename.value));
      } else {
        var moved := files[tempFile];
        files := (files - {tempFile})[filename := moved];
        err := None;
      }
      if tempFile in files {
        files := files - {tempFile};
      }
    }

    /** `DeleteRuleFile`. */
    method DeleteRuleFile(groupID: string, f: DeleteFaults) returns (err: Option<FileError>)
      modifies this
      ensures (State(), err) == Deleted(old(State()), Config(), groupID, f)
    {
      var filename := FilePath(basePath, groupID);
      if filename !in files {
        return None;
      }
      BackupRuleFile(groupID, f.backup);
      if f.remove.Some? {
        return Some(DeleteFailed(f.remove.value));
      }
      files := files - {filename};
      err := None;
    }

    /** `ListRuleFiles` over the result of the glob for "group-*.yml". */
    method ListRuleFiles(glob: Result<seq<string>>) returns (r: Result<seq<string>>)
      ensures glob.Err? ==> r == Err("failed to list files: " + glob.error)
      ensures glob.Ok? ==> r == Ok(ListedIds(glob.value))
    {
      if glob.Err? {
        return Err("failed to list files: " + glob.error);
      }
      var paths := glob.value;
      var ids := [];
      var i := 0;
      while i < |paths|
        invariant i <= |paths| && ids == ListedIds(paths[..i])
      {
        assert paths[..i + 1][..i] == paths[..i];
        var basename := GoPath.Base(paths[i]);
        if HasPrefix(basename, FilePrefix) && HasSuffix(basename, FileSuffix) {
          var id := TrimPrefix(basename, FilePrefix);
          id := TrimSuffix(id, FileSuffix);
          ids := ids + [id];
        }
        i := i + 1;
      }
      assert paths[..i] == paths;
      r := Ok(ids);
    }
  }
}

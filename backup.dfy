/** `BackupManager` of src/backup/mod.rs: the name of a file's backup, and backups
    made and restored on a file system given as a map from path to content. */
module Backup {
  import opened Wrappers
  import opened Errors
  import opened Paths

  /** The manager holds only the extension its backups get. */
  datatype BackupManager = BackupManager(backupExtension: string)

  /** `BackupManager::new`: the extension given, or `.bak`. */
  function New(backupExtension: Option<string>): (m: BackupManager)
    ensures backupExtension.Some? ==> m.backupExtension == backupExtension.value
    ensures backupExtension.None? ==> m.backupExtension == ".bak"
  {
    BackupManager(backupExtension.GetOr(".bak"))
  }

  /** The file's extension, or the empty text when it has none. */
  function CurrentExtension(filePath: string): string {
    Extension(filePath).GetOr("")
  }

  /** `backup_path` panics slicing an empty backup extension when the file has no
      extension; it is callable otherwise. */
  predicate CanName(m: BackupManager, filePath: string) {
    CurrentExtension(filePath) != "" || m.backupExtension != ""
  }

  /** The extension `backup_path` sets: the backup extension without its first
      character when the file has none, else the file's extension followed by the
      backup extension. */
  function NewExtension(m: BackupManager, filePath: string): string
    requires CanName(m, filePath)
  {
    var current := CurrentExtension(filePath);
    if current == "" then m.backupExtension[1..] else current + m.backupExtension
  }

  /** `backup_path`: the backup sits in the file's own directory, and a path without
      a file name is its own backup path. */
  function BackupPath(m: BackupManager, filePath: string): (r: string)
    requires CanName(m, filePath)
    ensures FileNameStart(filePath) <= |r| && r[..FileNameStart(filePath)] == filePath[..FileNameStart(filePath)]
    ensures FileName(filePath).None? ==> r == filePath
  {
    SetExtension(filePath, NewExtension(m, filePath))
  }

  /** A file with a non-empty extension keeps it: the backup extension is added after
      it, so `a.py` becomes `a.py.bak`. */
  lemma BackupAfterExtension(m: BackupManager, filePath: string, e: string)
    requires Extension(filePath) == Some(e) && e != ""
    ensures BackupPath(m, filePath) == filePath + m.backupExtension
  {
    ExtensionSplit(filePath, e);
  }

  /** A file without an extension gets the backup extension without its first
      character as its extension, so `a` becomes `a.bak`; a one-character backup
      extension leaves the path as it is. */
  lemma BackupWithoutExtension(m: BackupManager, filePath: string)
    requires FileName(filePath).Some? && Extension(filePath).None? && m.backupExtension != ""
    ensures BackupPath(m, filePath) ==
      if |m.backupExtension| == 1 then filePath else filePath + "." + m.backupExtension[1..]
  {
    var name := FileName(filePath).value;
    assert StemLength(name) == |name|;
    assert filePath[..FileNameStart(filePath) + |name|] == filePath;
  }

  /** A path without a file name (empty, or ending in `/`, `.` or `..`) is its own
      backup path. */
  lemma BackupOfNoFileName(m: BackupManager, filePath: string)
    requires FileName(filePath).None? && m.backupExtension != ""
    ensures BackupPath(m, filePath) == filePath
  {
  }

  /** With `.bak`, a file name that does not end in `.` gets `.bak` appended, so
      removing that suffix gives the file back. */
  lemma BakAppended(filePath: string)
    requires FileName(filePath).Some? && filePath[|filePath| - 1] != '.'
    ensures BackupPath(New(None), filePath) == filePath + ".bak"
    ensures var b := BackupPath(New(None), filePath); b[..|b| - 4] == filePath
  {
    var m := New(None);
    match Extension(filePath)
    case None =>
      BackupWithoutExtension(m, filePath);
      assert m.backupExtension[1..] == "bak";
    case Some(e) =>
      NonEmptyExtension(filePath, e);
      BackupAfterExtension(m, filePath, e);
  }

  /** An extension is empty only when the path ends in `.`. */
  lemma NonEmptyExtension(filePath: string, e: string)
    requires Extension(filePath) == Some(e) && filePath[|filePath| - 1] != '.'
    ensures e != ""
  {
    ExtensionSplit(filePath, e);
  }

  /** A name that ends in `.` has the empty extension, which is replaced: `a.` becomes
      `a.bak`, not `a..bak`. */
  lemma TrailingDot(filePath: string)
    requires filePath == "a."
    ensures BackupPath(New(None), filePath) == "a.bak"
  {
    assert LastIndexOf(filePath, '/') == None by {
      assert LastIndexOf(filePath[..1], '/') == None;
    }
    assert FileName(filePath) == Some(filePath);
    assert LastIndexOf(filePath, '.') == Some(1);
    assert StemLength(filePath) == 1;
    assert filePath[2..] == "";
    assert CurrentExtension(filePath) == "";
    assert ".bak"[1..] == "bak";
    assert filePath[..1] == "a";
  }

  /** The file system: the content of every file by path. */
  class FileSystem {
    var files: map<string, string>

    constructor (files: map<string, string>)
      ensures this.files == files
    {
      this.files := files;
    }

    /** `create_backup`: copies the file to its backup path unless a file is already
        there; copying a missing file fails. */
    method CreateBackup(m: BackupManager, filePath: string) returns (r: Result<string>)
      requires CanName(m, filePath)
      modifies this
      ensures r == AfterCreate(old(files), m, filePath).0
      ensures files == AfterCreate(old(files), m, filePath).1
    {
      var backupPath := BackupPath(m, filePath);
      if backupPath !in files {
        if filePath !in files {
          return Err(Io);
        }
        files := files[backupPath := files[filePath]];
      }
      return Ok(backupPath);
    }

    /** `restore_backup`: copies the backup over the file when the backup exists. */
    method RestoreBackup(m: BackupManager, filePath: string) returns (r: Result<()>)
      requires CanName(m, filePath)
      modifies this
      ensures r == Ok(())
      ensures files == AfterRestore(old(files), m, filePath)
    {
      var backupPath := BackupPath(m, filePath);
      if backupPath in files {
        files := files[filePath := files[backupPath]];
      }
      return Ok(());
    }
  }

  /** What `create_backup` returns, and the files after it. */
  function AfterCreate(files: map<string, string>, m: BackupManager, filePath: string): (r: (Result<string>, map<string, string>))
    requires CanName(m, filePath)
    ensures r.0.Ok? ==> r.0.value == BackupPath(m, filePath) && BackupPath(m, filePath) in r.1
    ensures r.0.Err? <==> BackupPath(m, filePath) !in files && filePath !in files
    ensures r.1.Keys == files.Keys + (if r.0.Ok? then {BackupPath(m, filePath)} else {})
  {
    var b := BackupPath(m, filePath);
    if b in files then (Ok(b), files)
    else if filePath !in files then (Err(Io), files)
    else (Ok(b), files[b := files[filePath]])
  }

  /** The files after `restore_backup`. */
  function AfterRestore(files: map<string, string>, m: BackupManager, filePath: string): map<string, string>
    requires CanName(m, filePath)
  {
    var b := BackupPath(m, filePath);
    if b in files then files[filePath := files[b]] else files
  }

  /** `create_backup` never overwrites a backup: an existing one, and every other
      file, keeps its content. */
  lemma CreateNeverOverwrites(files: map<string, string>, m: BackupManager, filePath: string)
    requires CanName(m, filePath)
    ensures var after := AfterCreate(files, m, filePath).1;
      forall p :: p in files ==> p in after && after[p] == files[p]
  {
  }

  /** The only change `create_backup` makes is a new backup holding the file's
      content. */
  lemma CreateCopies(files: map<string, string>, m: BackupManager, filePath: string)
    requires CanName(m, filePath)
    requires BackupPath(m, filePath) !in files && filePath in files
    ensures AfterCreate(files, m, filePath).1 == files[BackupPath(m, filePath) := files[filePath]]
  {
  }

  /** Without a backup, `restore_backup` changes nothing; with one, the file gets the
      backup's content and nothing else changes. */
  lemma RestoreOnlyWithBackup(files: map<string, string>, m: BackupManager, filePath: string)
    requires CanName(m, filePath)
    ensures BackupPath(m, filePath) !in files ==> AfterRestore(files, m, filePath) == files
    ensures BackupPath(m, filePath) in files ==>
      var after := AfterRestore(files, m, filePath);
      after[filePath] == files[BackupPath(m, filePath)] &&
      forall p :: p in files && p != filePath ==> p in after && after[p] == files[p]
  {
  }

  /** The backup keeps the original state: back up, change the file, back up again,
      change it again and restore, and the file has its first content again. */
  lemma RestoreGivesOriginal(files: map<string, string>, m: BackupManager, filePath: string, edit1: string, edit2: string)
    requires CanName(m, filePath)
    requires filePath in files && BackupPath(m, filePath) !in files && BackupPath(m, filePath) != filePath
    ensures var f1 := AfterCreate(files, m, filePath).1[filePath := edit1];
      var f2 := AfterCreate(f1, m, filePath).1[filePath := edit2];
      AfterRestore(f2, m, filePath)[filePath] == files[filePath]
  {
    var b := BackupPath(m, filePath);
    var f1 := AfterCreate(files, m, filePath).1[filePath := edit1];
    assert f1[b] == files[filePath];
    var f2 := AfterCreate(f1, m, filePath).1[filePath := edit2];
    assert f2[b] == files[filePath];
  }
}

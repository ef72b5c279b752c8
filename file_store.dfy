/**
 * The log file and its single rotated generation, on an abstract file
 * system: a map from path to contents. Whether each call succeeds is an
 * input (`ok`), standing for permission errors, a full disk and the like;
 * a call on a missing file fails as it does on a real one.
 */
module FileStore {
  import opened Wrappers

  newtype byte = x: int | 0 <= x < 256

  const LineFeed: byte := 10

  /** The path `rotateIfTooLarge` moves the live file to. */
  function Backup(path: string): (b: string)
    ensures b != path
  {
    path + ".1"
  }

  /** Whether each file-system call of a rotation succeeds. */
  datatype RotateIo = RotateIo(statOk: bool, unlinkOk: bool, renameOk: bool, truncateOk: bool)

  class FileSystem {
    var files: map<string, seq<byte>>

    constructor (initial: map<string, seq<byte>>)
      ensures files == initial
    {
      files := initial;
    }

    /** `fs.stat(path).size`, or `None` when the call fails. */
    method Stat(path: string, ok: bool) returns (size: Option<nat>)
      ensures size.Some? <==> ok && path in files
      ensures size.Some? ==> size.value == |files[path]|
    {
      if ok && path in files {
        size := Some(|files[path]|);
      } else {
        size := None;
      }
    }

    /** `fs.unlink(path)`. */
    method Unlink(path: string, ok: bool) returns (done: bool)
      modifies this
      ensures done <==> ok && path in old(files)
      ensures files == if done then old(files) - {path} else old(files)
    {
      done := ok && path in files;
      if done {
        files := files - {path};
      }
    }

    /** `fs.rename(from, to)`: replaces whatever `to` held. */
    method Rename(from: string, to: string, ok: bool) returns (done: bool)
      modifies this
      ensures done <==> ok && from in old(files)
      ensures files == if done then (old(files) - {from})[to := old(files)[from]] else old(files)
    {
      done := ok && from in files;
      if done {
        files := (files - {from})[to := files[from]];
      }
    }

    /** `fs.truncate(path, 0)`. */
    method Truncate(path: string, ok: bool) returns (done: bool)
      modifies this
      ensures done <==> ok && path in old(files)
      ensures files == if done then old(files)[path := []] else old(files)
    {
      done := ok && path in files;
      if done {
        files := files[path := []];
      }
    }

    /** `fs.appendFile(path, data)`: creates the file when it is missing. */
    method AppendFile(path: string, data: seq<byte>, ok: bool) returns (done: bool)
      modifies this
      ensures done == ok
      ensures files == if ok then Appended(old(files), path, data) else old(files)
    {
      done := ok;
      if ok {
        files := Appended(files, path, data);
      }
    }
  }

  /** The file system after `data` is appended to `path`. */
  function Appended(files: map<string, seq<byte>>, path: string, data: seq<byte>): (r: map<string, seq<byte>>)
    ensures path in r && r[path] == (if path in files then files[path] else []) + data
    ensures forall p :: p != path ==> (p in r <==> p in files) && (p in r ==> r[p] == files[p])
  {
    files[path := (if path in files then files[path] else []) + data]
  }

  /**
   * The file system after `rotateIfTooLarge(path, maxBytes)`: a live file
   * over the limit becomes the backup, replacing any older backup; if it
   * cannot be renamed it is emptied instead; otherwise nothing changes.
   * Every failure is absorbed.
   */
  function AfterRotation(files: map<string, seq<byte>>, path: string, maxBytes: int, io: RotateIo): (r: map<string, seq<byte>>)
    ensures !io.statOk || path !in files || |files[path]| <= maxBytes ==> r == files
    ensures io.statOk && path in files && |files[path]| > maxBytes && io.renameOk ==>
      path !in r && Backup(path) in r && r[Backup(path)] == files[path]
    ensures io.statOk && path in files && |files[path]| > maxBytes && !io.renameOk ==>
      (io.unlinkOk ==> Backup(path) !in r)
      && (!io.unlinkOk ==> (Backup(path) in r <==> Backup(path) in files))
      && (!io.unlinkOk && Backup(path) in files ==> r[Backup(path)] == files[Backup(path)])
      && path in r && r[path] == (if io.truncateOk then [] else files[path])
    ensures forall p :: p != path && p != Backup(path) ==> (p in r <==> p in files) && (p in r ==> r[p] == files[p])
    ensures io.statOk && (io.renameOk || io.truncateOk) && maxBytes >= 0 ==> path !in r || |r[path]| <= maxBytes
  {
    if !io.statOk || path !in files || |files[path]| <= maxBytes then files
    else
      var rotated := Backup(path);
      var cleared := if io.unlinkOk && rotated in files then files - {rotated} else files;
      if io.renameOk then (cleared - {path})[rotated := files[path]]
      else if io.truncateOk then cleared[path := []]
      else cleared
  }

  /** `rotateIfTooLarge`: the same steps, one file-system call at a time. */
  method RotateIfTooLarge(fs: FileSystem, path: string, maxBytes: int, io: RotateIo)
    modifies fs
    ensures fs.files == AfterRotation(old(fs.files), path, maxBytes, io)
  {
    var size := fs.Stat(path, io.statOk);
    if size.None? {
      return;
    }
    if size.value > maxBytes {
      var rotated := Backup(path);
      var unlinked := fs.Unlink(rotated, io.unlinkOk);
      var renamed := fs.Rename(path, rotated, io.renameOk);
      if !renamed {
        var truncated := fs.Truncate(path, io.truncateOk);
        return;
      }
    }
  }
}

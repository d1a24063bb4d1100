/** The system calls of the candidate builder; before each of them anybody else may change anything. */
module CandidateWorld {
  import opened Wrappers
  import opened CandidateDisk
  import opened CandidateSteps

  const EMPTY := Log([], {}, map[], map[], [], [], [])

  /** There is a place for a new entry at `path`, with nothing in it. */
  predicate Free(d: Disk, path: Path) {
    Where(d, path).Some? && Where(d, path).value !in d.names
  }

  /** The content of the regular file at `path`. */
  function Bytes(d: Disk, path: Path): string {
    var entry := EntryAt(d, path);
    if entry.Some? && entry.value.File? && entry.value.inode in d.contents then d.contents[entry.value.inode] else ""
  }

  /** `os.unlink` removes what is at `path`. */
  predicate Unlinkable(d: Disk, path: Path) {
    EntryAt(d, path).Some? && !EntryAt(d, path).value.Directory?
  }

  class World {
    const initial: Disk
    /** What others have made of the disk when call n begins, unless that cannot be; and whether the call works. */
    const others: nat -> Disk
    const works: nat -> bool
    var calls: nat
    var disk: Disk
    ghost var log: Log

    ghost predicate Valid()
      reads this
    {
      Consistent(initial, disk, log)
    }

    constructor (disk: Disk, others: nat -> Disk, works: nat -> bool)
      requires WellFormed(disk)
      ensures Valid() && this.disk == disk && initial == disk && log == EMPTY && calls == 0
      ensures this.others == others && this.works == works
    {
      this.initial := disk;
      this.others := others;
      this.works := works;
      calls := 0;
      this.disk := disk;
      log := EMPTY;
    }

    /** The disk that the next call meets. */
    function Met(): Disk
      reads this
    {
      if Later(disk, others(calls)) then others(calls) else disk
    }

    /** From call `first` up to `last` every call works, and nobody else can change anything. */
    ghost predicate Alone(first: nat, last: nat) {
      forall n :: first <= n < last ==> works(n) && !WellFormed(others(n))
    }

    lemma AloneSplits(first: nat, mid: nat, last: nat)
      requires first <= mid <= last
      ensures Alone(first, last) <==> Alone(first, mid) && Alone(mid, last)
    {
    }

    /** Any number of changes by anybody else. */
    method Environment()
      requires Valid()
      modifies this
      ensures Valid() && Observes(old(log), old(disk), log, disk)
      ensures calls == old(calls) + 1 && disk == old(Met())
      ensures |log.trace| == |old(log).trace| + 1 && log.trace[|old(log).trace|].after == disk
    {
      var d := Met();
      ghost var s := Step(Elsewhere, [], disk, d, log.own, log.made, log.dirs);
      AfterOthers(initial, log, s);
      calls := calls + 1;
      disk := d;
      log := Add(log, s);
    }

    /** `os.path.lexists`. */
    method LinkExists(path: Path) returns (there: bool)
      requires Valid()
      modifies this
      ensures Valid() && Observes(old(log), old(disk), log, disk)
      ensures there <==> EntryAt(disk, path).Some?
      ensures calls == old(calls) + 1 && disk == old(Met())
      ensures Looked(log.trace, |old(log).trace|, path, there)
    {
      Environment();
      ghost var a := log;
      there := EntryAt(disk, path).Some?;
      ghost var s := Step(LookUp(there), path, disk, disk, log.own, log.made, log.dirs);
      AfterLook(initial, log, s);
      log := Add(log, s);
      ObservesThen(old(log), old(disk), a, disk, log, disk);
      assert IsLookUp(log.trace, |a.trace|, path, there);
    }

    method IsLink(path: Path) returns (link: bool)
      requires Valid()
      modifies this
      ensures Valid() && Observes(old(log), old(disk), log, disk)
      ensures link <==> EntryAt(disk, path) == Some(Symlink)
      ensures calls == old(calls) + 1 && disk == old(Met())
      ensures |log.trace| == |old(log).trace| + 1 && (!link ==> NoLinkAt(log.trace, |old(log).trace|, path))
    {
      Environment();
      link := EntryAt(disk, path) == Some(Symlink);
    }

    /** `os.stat` without an error: whether it is a regular file, and whether a directory. */
    method Stat(path: Path) returns (kind: Option<(bool, bool)>)
      requires Valid()
      modifies this
      ensures Valid() && Observes(old(log), old(disk), log, disk)
      ensures EntryAt(disk, path) != Some(Symlink) ==>
        kind == if EntryAt(disk, path).None? then None
                else Some((EntryAt(disk, path).value.File?, EntryAt(disk, path).value.Directory?))
      ensures calls == old(calls) + 1 && disk == old(Met())
      ensures kind.Some? && kind.value.0 ==> RegularAt(log.trace, |old(log).trace|, path)
      ensures kind.Some? && kind.value.1 ==> DirectoryAt(log.trace, |old(log).trace|, path)
    {
      Environment();
      var entry := EntryAt(disk, path);
      if entry.None? {
        return None;
      }
      if entry.value.Symlink? {
        kind := *;
        return;
      }
      kind := Some((entry.value.File?, entry.value.Directory?));
    }

    /** Open and read a whole file; a final link is followed, to whatever is there. */
    method Read(path: Path) returns (r: Option<string>)
      requires Valid()
      modifies this
      ensures Valid() && Observes(old(log), old(disk), log, disk)
      ensures r.Some? ==> SawBytes(log.trace, |old(log).trace|, path, r.value)
      ensures calls == old(calls) + 1 && disk == old(Met())
      ensures r.Some? <==> works(old(calls)) && EntryAt(disk, path).Some? && !EntryAt(disk, path).value.Directory?
      ensures r.Some? && EntryAt(disk, path).value.File? ==> r.value == Bytes(disk, path)
      ensures r.Some? && Respectful(log.trace) && path in log.made ==>
        && log.made[path] in disk.contents && r.value == disk.contents[log.made[path]]
    {
      var works := works(calls);
      Environment();
      ghost var a := log;
      var entry := EntryAt(disk, path);
      if !works || entry.None? || entry.value.Directory? {
        return None;
      }
      var bytes: string := *;
      if entry.value.File? {
        bytes := disk.contents[entry.value.inode];
      }
      r := Some(bytes);
      ghost var s := Step(ReadFile(bytes), path, disk, disk, log.own, log.made, log.dirs);
      AfterLook(initial, log, s);
      log := Add(log, s);
      ObservesThen(old(log), old(disk), a, disk, log, disk);
      assert IsRead(log.trace, |a.trace|, path, bytes);
    }

    /** `os.mkdir`. */
    method MakeDir(path: Path) returns (ok: bool)
      requires Valid()
      modifies this
      ensures Valid()
      ensures calls == old(calls) + 1 && (ok <==> works(old(calls)) && Free(old(Met()), path))
      ensures ok ==> NewDirectory(old(log), old(disk), log, disk, path)
      ensures !ok ==> Observes(old(log), old(disk), log, disk)
    {
      ok := works(calls);
      Environment();
      var p := Where(disk, path);
      ok := ok && Free(disk, path);
      if ok {
        ghost var a, da := log, disk;
        ghost var s := Step(MakeDirectory, path, disk, WithDirectory(disk, p.value), log.own, log.made, log.dirs);
        AfterMkdir(initial, log, s);
        disk := WithDirectory(disk, p.value);
        log := AddDirectory(log, s, p.value);
        ThenNewDirectory(old(log), old(disk), a, da, log, disk, path);
      }
    }

    /** `os.open` with O_CREAT and O_EXCL: a handle to a new, empty file. */
    method CreateExclusive(path: Path) returns (handle: Option<nat>)
      requires Valid()
      modifies this
      ensures Valid()
      ensures handle.None? ==> Observes(old(log), old(disk), log, disk)
      ensures handle.Some? ==> NewFile(old(log), old(disk), log, disk, path, handle.value)
      ensures calls == old(calls) + 1 && (handle.Some? <==> works(old(calls)) && Free(old(Met()), path))
      ensures handle.Some? ==>
        handle.value == old(Met()).next && disk == WithFile(old(Met()), Where(old(Met()), path).value)
    {
      var ok := works(calls);
      Environment();
      var p := Where(disk, path);
      if !ok || !Free(disk, path) {
        return None;
      }
      handle := Some(disk.next);
      ghost var a, da := log, disk;
      ghost var s := Step(CreateFile, path, disk, WithFile(disk, p.value), log.own, log.made, log.dirs);
      AfterCreate(initial, log, s);
      disk := WithFile(disk, p.value);
      log := AddCreation(log, s);
      ThenNewFile(old(log), old(disk), a, da, log, disk, path, handle.value);
    }

    /** Write through a handle, from the start of the file; on an error only some of the bytes. */
    method WriteHandle(handle: nat, path: Path, bytes: string) returns (ok: bool)
      requires Valid() && handle in log.own
      modifies this
      ensures Valid() && Writes(old(log), old(disk), log, disk, handle)
      ensures ok && Respectful(log.trace) && handle in old(disk).contents && old(disk).contents[handle] == "" ==>
        handle in disk.contents && disk.contents[handle] == bytes
      ensures calls == old(calls) + 1 && (ok <==> works(old(calls)))
      ensures disk.names == old(Met()).names && disk.follow == old(Met()).follow && disk.next == old(Met()).next
      ensures ok && handle in old(Met()).contents && old(Met()).contents[handle] == "" ==>
        disk.contents == old(Met()).contents[handle := bytes]
    {
      ok := works(calls);
      Environment();
      ghost var a, da := log, disk;
      var n: int := *;
      if ok || n < 0 || |bytes| < n {
        n := |bytes|;
      }
      var was := if handle in disk.contents then disk.contents[handle] else "";
      var now := bytes[..n] + if n < |was| then was[n..] else "";
      assert ok && was == "" ==> now == bytes;
      var after := disk.(contents := disk.contents[handle := now]);
      ghost var s := Step(WriteFile, path, disk, after, log.own, log.made, log.dirs);
      AfterWrite(initial, log, s, handle, now);
      disk := after;
      log := Add(log, s);
      ThenWrites(old(log), old(disk), a, da, log, disk, handle);
    }

    /** `os.link`: it fails when `to` exists, and on directories. */
    method Link(from: Path, to: Path) returns (ok: bool)
      requires Valid() && from in log.made
      modifies this
      ensures Valid()
      ensures !ok ==> Observes(old(log), old(disk), log, disk)
      ensures ok ==> NewName(old(log), old(disk), log, disk, from, to)
      ensures calls == old(calls) + 1
      ensures ok <==> works(old(calls)) && Unlinkable(old(Met()), from) && Free(old(Met()), to)
      ensures disk.next == old(Met()).next
    {
      ok := works(calls);
      Environment();
      var entry, q := EntryAt(disk, from), Where(disk, to);
      ok := ok && Unlinkable(disk, from) && Free(disk, to);
      if ok {
        ghost var a, da := log, disk;
        var after := disk.(names := disk.names[q.value := entry.value]);
        ghost var s := Step(LinkName, to, disk, after, log.own, log.made, log.dirs);
        AfterLink(initial, log, s, from);
        disk := after;
        log := AddLink(log, s, from);
        ThenNewName(old(log), old(disk), a, da, log, disk, from, to);
      }
    }

    /** `os.unlink` with its error suppressed. */
    method Unlink(path: Path)
      requires Valid() && path in log.made
      modifies this
      ensures Valid() && calls == old(calls) + 1
      ensures if works(old(calls)) && Unlinkable(old(Met()), path)
              then Removes(old(log), old(disk), log, disk, path) && UnlinkedLast(log, path, old(Met()))
              else Observes(old(log), old(disk), log, disk) && disk == old(Met())
      ensures works(old(calls)) ==> !Unlinkable(disk, path)
    {
      var ok := works(calls);
      Environment();
      if ok && Unlinkable(disk, path) {
        ghost var a, da := log, disk;
        var after := Without(disk, Where(disk, path).value);
        ghost var s := Step(UnlinkName, path, disk, after, log.own, log.made, log.dirs);
        AfterUnlink(initial, log, s);
        UnlinkedIsGone(disk, path);
        disk := after;
        log := AddUnlink(log, s);
        ThenRemoves(old(log), old(disk), a, da, log, disk, path);
      }
    }
  }

  /** A new file is where it was made, and empty. */
  lemma NewFileThere(d: Disk, path: Path)
    requires Free(d, path)
    ensures var e := WithFile(d, Where(d, path).value);
            EntryAt(e, path) == Some(File(d.next)) && d.next in e.contents && e.contents[d.next] == ""
  {
    WhereStays(d, WithFile(d, Where(d, path).value), path);
  }

  /** Content does not change where paths lead. */
  lemma SameNames(d: Disk, e: Disk, path: Path)
    requires e.names == d.names && e.follow == d.follow && e.next == d.next
    ensures Where(e, path) == Where(d, path) && EntryAt(e, path) == EntryAt(d, path)
  {
    WhereStays(d, e, path);
    WhereStays(e, d, path);
  }

  /** The last step of the trace took away what was at `path` on the disk `met`. */
  ghost predicate UnlinkedLast(log: Log, path: Path, met: Disk) {
    && log.trace != [] && log.trace[|log.trace| - 1].act.UnlinkName? && log.trace[|log.trace| - 1].path == path
    && log.trace[|log.trace| - 1].before == met && log.trace[|log.trace| - 1].own == log.own
  }

  lemma UnlinkedIsGone(d: Disk, path: Path)
    requires EntryAt(d, path).Some?
    ensures EntryAt(Without(d, Where(d, path).value), path).None?
  {
    WhereStays(Without(d, Where(d, path).value), d, path);
  }
}

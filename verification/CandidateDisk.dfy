/**
 A file system that anybody may change between any two calls of the candidate builder.  Every
 change, the builder's and everybody else's, is a step of the trace.
 */
module CandidateDisk {
  import opened Wrappers

  type Path = seq<string>

  /** A physical place: a directory and a name in it. */
  type Place = (nat, string)

  datatype Node = File(inode: nat) | Directory(id: nat) | Symlink

  /**
   Files and directories are numbered from one counter, and numbers are never reused.
   `follow` gives the directory a link leads to; the link dangles until that directory exists.
   */
  datatype Disk = Disk(names: map<Place, Node>, follow: Place -> nat, contents: map<nat, string>, next: nat)

  const ROOT: nat := 0

  /** A directory is entered by one name only. */
  predicate WellFormed(d: Disk) {
    && ROOT < d.next
    && (forall n :: n in d.contents ==> n < d.next)
    && (forall p :: p in d.names ==> p.0 < d.next && NodeOk(d, d.names[p]))
    && (forall p, q :: p in d.names && q in d.names && d.names[p].Directory? && d.names[q] == d.names[p] ==> p == q)
  }

  predicate NodeOk(d: Disk, node: Node) {
    match node
    case File(inode) => inode in d.contents
    case Directory(id) => ROOT < id < d.next
    case Symlink => true
  }

  predicate Later(d: Disk, e: Disk) {
    WellFormed(e) && d.next <= e.next
  }

  // ---------------------------------------------------------------- where a path leads

  /** The directory that the entry at p leads into. */
  function Enter(d: Disk, p: Place): Option<nat> {
    if p !in d.names then None
    else match d.names[p]
         case File(_) => None
         case Directory(id) => Some(id)
         case Symlink => if d.follow(p) < d.next then Some(d.follow(p)) else None
  }

  function DirOf(d: Disk, path: Path): Option<nat>
    decreases |path|
  {
    if path == [] then Some(ROOT)
    else
      var up := DirOf(d, path[..|path| - 1]);
      if up.None? then None else Enter(d, (up.value, path[|path| - 1]))
  }

  /** The place of a path's last name; links are followed on the way to it, and not at it. */
  function Where(d: Disk, path: Path): Option<Place> {
    if path == [] then None
    else
      var up := DirOf(d, path[..|path| - 1]);
      if up.None? then None else Some((up.value, path[|path| - 1]))
  }

  function EntryAt(d: Disk, path: Path): Option<Node> {
    var p := Where(d, path);
    if p.Some? && p.value in d.names then Some(d.names[p.value]) else None
  }

  lemma {:induction false} DirIsOld(d: Disk, path: Path)
    requires WellFormed(d)
    ensures DirOf(d, path).Some? ==> DirOf(d, path).value < d.next
    ensures Where(d, path).Some? ==> Where(d, path).value.0 < d.next
    decreases |path|
  {
    if path != [] {
      DirIsOld(d, path[..|path| - 1]);
    }
  }

  ghost predicate Grows(d: Disk, e: Disk) {
    && d.next <= e.next && e.follow == d.follow
    && forall p :: p in d.names ==> p in e.names && e.names[p] == d.names[p]
  }

  /** New entries do not change where a path leads that led somewhere. */
  lemma {:induction false} WhereStays(d: Disk, e: Disk, path: Path)
    requires Grows(d, e)
    ensures DirOf(d, path).Some? ==> DirOf(e, path) == DirOf(d, path)
    ensures Where(d, path).Some? ==> Where(e, path) == Where(d, path)
    decreases |path|
  {
    if path != [] {
      WhereStays(d, e, path[..|path| - 1]);
    }
  }

  function Without(d: Disk, p: Place): Disk {
    d.(names := d.names - {p})
  }

  /** No path leads through a file. */
  lemma {:induction false} WhereStaysWithout(d: Disk, p: Place, path: Path)
    requires p in d.names && d.names[p].File?
    ensures DirOf(Without(d, p), path) == DirOf(d, path) && Where(Without(d, p), path) == Where(d, path)
    decreases |path|
  {
    if path != [] {
      WhereStaysWithout(d, p, path[..|path| - 1]);
    }
  }

  // ---------------------------------------------------------------- the trace

  datatype Act = Elsewhere | ReadFile(bytes: string) | LookUp(there: bool) | MakeDirectory | CreateFile | WriteFile
               | LinkName | UnlinkName

  /** `own` and `made`: the numbers the builder had created, and the files' under which paths. */
  datatype Step = Step(act: Act, path: Path, before: Disk, after: Disk, own: set<nat>, made: map<Path, nat>,
                       dirs: map<Path, MadeDir>)

  /** Where a directory was made, and its number. */
  datatype MadeDir = MadeDir(place: Place, id: nat)

  /** The trace so far; `created`, `linked` and `removed` are the paths of exclusive creations, links and unlinks. */
  datatype Log = Log(trace: seq<Step>, own: set<nat>, made: map<Path, nat>, dirs: map<Path, MadeDir>,
                     created: seq<Path>, linked: seq<Path>, removed: seq<Path>)

  /** No entry is replaced or removed, and no file is modified but the builder's own. */
  ghost predicate KeepsOthers(s: Step) {
    && Grows(s.before, s.after)
    && (forall n :: n in s.before.contents && n !in s.own ==>
          n in s.after.contents && s.after.contents[n] == s.before.contents[n])
  }

  /** The disk after `os.mkdir` at place p. */
  function WithDirectory(d: Disk, p: Place): Disk {
    d.(names := d.names[p := Directory(d.next)], next := d.next + 1)
  }

  /** `os.mkdir`: where nothing was, there is a new directory. */
  ghost predicate MakesDirectory(s: Step) {
    && Where(s.before, s.path).Some? && Where(s.before, s.path).value !in s.before.names
    && s.after == WithDirectory(s.before, Where(s.before, s.path).value)
  }

  /** What a step may do: only an unlink takes an entry away, and only the one at its path. */
  ghost predicate StepOk(s: Step, start: nat) {
    && (forall n :: n in s.own ==> start <= n)
    && (s.act.ReadFile? || s.act.LookUp? ==> s.after == s.before)
    && (s.act.LookUp? ==> s.act.there == EntryAt(s.before, s.path).Some?)
    && (!s.act.Elsewhere? && !s.act.UnlinkName? ==> KeepsOthers(s))
    && (s.act.MakeDirectory? ==> MakesDirectory(s))
    && (s.act.UnlinkName? ==>
          && s.path in s.made && s.made[s.path] in s.own && EntryAt(s.before, s.path).Some?
          && s.after == Without(s.before, Where(s.before, s.path).value))
  }

  /** The same place, and the same entry there. */
  ghost predicate SameAt(d: Disk, e: Disk, path: Path) {
    Where(e, path) == Where(d, path) && (EntryAt(d, path).Some? ==> EntryAt(e, path) == EntryAt(d, path))
  }

  ghost predicate SameInside(own: set<nat>, d: Disk, e: Disk) {
    forall p: Place {:trigger p in d.names} {:trigger p in e.names} :: p.0 in own ==>
      (p in d.names <==> p in e.names) && (p in d.names ==> e.names[p] == d.names[p])
  }

  ghost predicate SameContents(own: set<nat>, d: Disk, e: Disk) {
    forall n :: n in own && n in d.contents ==> n in e.contents && e.contents[n] == d.contents[n]
  }

  /**
   Somebody else's step that leaves the builder's files and directories, what is in those
   directories, and the way there alone.
   */
  ghost predicate LeavesAlone(s: Step) {
    && (forall path :: path in s.made ==> SameAt(s.before, s.after, path))
    && (forall path :: path in s.dirs ==> SameAt(s.before, s.after, path))
    && SameInside(s.own, s.before, s.after)
    && SameContents(s.own, s.before, s.after)
  }

  ghost predicate Respectful(trace: seq<Step>) {
    forall i {:trigger LeavesAlone(trace[i])} :: 0 <= i < |trace| && trace[i].act.Elsewhere? ==> LeavesAlone(trace[i])
  }

  /** The paths of all exclusive creations, of all links and of all unlinks, in order. */
  function Created(trace: seq<Step>): seq<Path> {
    if trace == [] then []
    else Created(trace[..|trace| - 1]) + if trace[|trace| - 1].act.CreateFile? then [trace[|trace| - 1].path] else []
  }

  function Linked(trace: seq<Step>): seq<Path> {
    if trace == [] then []
    else Linked(trace[..|trace| - 1]) + if trace[|trace| - 1].act.LinkName? then [trace[|trace| - 1].path] else []
  }

  function Removed(trace: seq<Step>): seq<Path> {
    if trace == [] then []
    else Removed(trace[..|trace| - 1]) + if trace[|trace| - 1].act.UnlinkName? then [trace[|trace| - 1].path] else []
  }

  /** The log after a step that makes and removes nothing. */
  function Add(log: Log, s: Step): Log {
    log.(trace := log.trace + [s])
  }

  function AddCreation(log: Log, s: Step): Log {
    log.(trace := log.trace + [s], own := log.own + {s.before.next}, made := log.made[s.path := s.before.next],
         created := log.created + [s.path])
  }

  function AddDirectory(log: Log, s: Step, p: Place): Log {
    log.(trace := log.trace + [s], own := log.own + {s.before.next},
         dirs := log.dirs[s.path := MadeDir(p, s.before.next)])
  }

  function AddLink(log: Log, s: Step, from: Path): Log
    requires from in log.made
  {
    log.(trace := log.trace + [s], made := log.made[s.path := log.made[from]], linked := log.linked + [s.path])
  }

  function AddUnlink(log: Log, s: Step): Log {
    log.(trace := log.trace + [s], made := log.made - {s.path}, removed := log.removed + [s.path])
  }

  lemma TraceGrows(trace: seq<Step>, s: Step)
    ensures Created(trace + [s]) == Created(trace) + if s.act.CreateFile? then [s.path] else []
    ensures Linked(trace + [s]) == Linked(trace) + if s.act.LinkName? then [s.path] else []
    ensures Removed(trace + [s]) == Removed(trace) + if s.act.UnlinkName? then [s.path] else []
    ensures Respectful(trace + [s]) <==> Respectful(trace) && (s.act.Elsewhere? ==> LeavesAlone(s))
  {
    var more := trace + [s];
    assert more[..|trace|] == trace && more[|trace|] == s;
    if Respectful(more) {
      RespectfulBefore(trace, more);
    }
  }

  lemma RespectfulBefore(a: seq<Step>, b: seq<Step>)
    requires a <= b && Respectful(b)
    ensures Respectful(a)
  {
    forall i | 0 <= i < |a| && a[i].act.Elsewhere?
      ensures LeavesAlone(a[i])
    {
      assert a[i] == b[i];
      assert LeavesAlone(b[i]);
    }
  }

  // ---------------------------------------------------------------- what a log keeps

  /** Every path the builder created a file at still leads to that file, each to a place of its own. */
  ghost predicate Held(d: Disk, made: map<Path, nat>) {
    && (forall path :: path in made ==> EntryAt(d, path) == Some(File(made[path])))
    && (forall p, q :: p in made && q in made && p != q ==> Where(d, p) != Where(d, q))
  }

  /** Every path the builder made a directory at still leads there. */
  ghost predicate HeldDirs(d: Disk, dirs: map<Path, MadeDir>) {
    forall path :: path in dirs ==>
      Where(d, path) == Some(dirs[path].place) && EntryAt(d, path) == Some(Directory(dirs[path].id))
  }

  ghost predicate PlacedAt(d: Disk, made: map<Path, nat>, p: Place) {
    exists path :: path in made && Where(d, path) == Some(p)
  }

  /** The entry is one of the builder's directories, or a file at one of its paths. */
  ghost predicate OwnEntry(d: Disk, own: set<nat>, made: map<Path, nat>, p: Place)
    requires p in d.names
  {
    match d.names[p]
    case File(_) => PlacedAt(d, made, p)
    case Directory(id) => id in own
    case Symlink => false
  }

  /** The builder's directories hold nothing but what the builder put there. */
  ghost predicate Tidy(d: Disk, own: set<nat>, made: map<Path, nat>) {
    forall p :: p in d.names && p.0 in own ==> OwnEntry(d, own, made, p)
  }

  ghost predicate Kept(d: Disk, log: Log) {
    Held(d, log.made) && HeldDirs(d, log.dirs) && Tidy(d, log.own, log.made)
  }

  ghost predicate AllOk(trace: seq<Step>, start: nat) {
    forall i {:trigger StepOk(trace[i], start)} :: 0 <= i < |trace| ==> StepOk(trace[i], start)
  }

  /** The disk before step i, and after the last one when i is their number. */
  function Before(trace: seq<Step>, d0: Disk, i: nat): Disk
    requires i <= |trace|
  {
    if i == 0 then d0 else trace[i - 1].after
  }

  ghost predicate Joined(trace: seq<Step>, d0: Disk, i: nat) {
    i < |trace| ==> trace[i].before == Before(trace, d0, i)
  }

  /** The steps lead from d0 to d, each from where the one before it ended. */
  ghost predicate Chained(trace: seq<Step>, d0: Disk, d: Disk) {
    d == Before(trace, d0, |trace|) && forall i: nat {:trigger Joined(trace, d0, i)} :: Joined(trace, d0, i)
  }

  /** While nobody had touched the builder's files, they were where it put them. */
  ghost predicate HeldAt(trace: seq<Step>, i: nat) {
    i < |trace| && Respectful(trace[..i]) ==> Held(trace[i].before, trace[i].made)
  }

  ghost predicate Traced(d0: Disk, d: Disk, log: Log) {
    && AllOk(log.trace, d0.next) && Chained(log.trace, d0, d)
    && log.created == Created(log.trace) && log.linked == Linked(log.trace) && log.removed == Removed(log.trace)
    && (forall i: nat {:trigger HeldAt(log.trace, i)} :: HeldAt(log.trace, i))
    && DirsListed(log)
  }

  /** `dirs` misses no directory that the builder made. */
  ghost predicate DirsListed(log: Log) {
    forall i :: 0 <= i < |log.trace| && log.trace[i].act.MakeDirectory? ==> log.trace[i].path in log.dirs
  }

  ghost predicate Owned(d0: Disk, d: Disk, log: Log) {
    && (forall n :: n in log.own ==> d0.next <= n < d.next)
    && (forall path :: path in log.made ==>
          log.made[path] in log.own && (path in log.created || path in log.linked))
    && (forall path :: path in log.dirs ==> log.dirs[path].id in log.own && log.dirs[path].place.0 < d.next)
  }

  /** Every step is one the builder may take; while others leave its files alone, they are where it put them. */
  ghost predicate Consistent(d0: Disk, d: Disk, log: Log) {
    && WellFormed(d0) && WellFormed(d) && d0.next <= d.next && Traced(d0, d, log) && Owned(d0, d, log)
    && (Respectful(log.trace) ==> Kept(d, log))
  }

  lemma ChainedAfter(trace: seq<Step>, d0: Disk, s: Step)
    requires Chained(trace, d0, s.before)
    ensures Chained(trace + [s], d0, s.after)
  {
    forall i: nat
      ensures Joined(trace + [s], d0, i)
    {
      assert Joined(trace, d0, i);
    }
  }

  lemma AllOkAfter(trace: seq<Step>, s: Step, start: nat)
    requires AllOk(trace, start) && StepOk(s, start)
    ensures AllOk(trace + [s], start)
  {
  }

  lemma HeldAtAfter(trace: seq<Step>, s: Step)
    requires forall i: nat {:trigger HeldAt(trace, i)} :: HeldAt(trace, i)
    requires Respectful(trace) ==> Held(s.before, s.made)
    ensures forall i: nat {:trigger HeldAt(trace + [s], i)} :: HeldAt(trace + [s], i)
  {
    forall i: nat
      ensures HeldAt(trace + [s], i)
    {
      assert HeldAt(trace, i);
      if i <= |trace| {
        assert (trace + [s])[..i] == trace[..i];
        assert trace[..|trace|] == trace;
      }
    }
  }

  ghost predicate Starts(d0: Disk, log: Log, s: Step) {
    Consistent(d0, s.before, log) && s.own == log.own && s.made == log.made && s.dirs == log.dirs
  }

  ghost predicate Continues(d0: Disk, log: Log, s: Step) {
    Starts(d0, log, s) && Later(s.before, s.after) && StepOk(s, d0.next)
  }

  /** One more step: what the trace alone says. */
  lemma TracedAfter(d0: Disk, log: Log, s: Step, b: Log)
    requires Continues(d0, log, s) && b.trace == log.trace + [s]
    requires b.created == log.created + if s.act.CreateFile? then [s.path] else []
    requires b.linked == log.linked + if s.act.LinkName? then [s.path] else []
    requires b.removed == log.removed + if s.act.UnlinkName? then [s.path] else []
    requires forall path :: path in log.dirs || (s.act.MakeDirectory? && path == s.path) ==> path in b.dirs
    ensures Traced(d0, s.after, b)
    ensures Respectful(b.trace) <==> Respectful(log.trace) && (s.act.Elsewhere? ==> LeavesAlone(s))
  {
    TraceGrows(log.trace, s);
    AllOkAfter(log.trace, s, d0.next);
    ChainedAfter(log.trace, d0, s);
    HeldAtAfter(log.trace, s);
  }

  // ---------------------------------------------------------------- how logs follow each other

  /** From a to b the trace and the things made grew; left alone, the directories are the same ones. */
  ghost predicate Follows(a: Log, da: Disk, b: Log, db: Disk) {
    && a.trace <= b.trace && da.next <= db.next && a.own <= b.own
    && (forall n :: n in b.own && n !in a.own ==> da.next <= n)
    && (Respectful(b.trace) ==>
          Respectful(a.trace) && forall path :: path in a.dirs ==> path in b.dirs && b.dirs[path] == a.dirs[path])
  }

  lemma FollowsThen(a: Log, da: Disk, b: Log, db: Disk, c: Log, dc: Disk)
    requires Follows(a, da, b, db) && Follows(b, db, c, dc)
    ensures Follows(a, da, c, dc)
  {
  }

  ghost predicate SameLists(a: Log, b: Log) {
    b.made == a.made && b.created == a.created && b.linked == a.linked && b.removed == a.removed
  }

  /** From a to b no file was created, linked or written by the builder. */
  ghost predicate Passive(a: Log, da: Disk, b: Log, db: Disk) {
    Follows(a, da, b, db) && SameLists(a, b) && (Respectful(b.trace) ==> SameContents(a.own, da, db))
  }

  /** It only looked. */
  ghost predicate OnlyReads(trace: seq<Step>, from: nat) {
    forall i {:trigger IsLook(trace[i])} :: from <= i < |trace| ==> IsLook(trace[i])
  }

  predicate IsLook(s: Step) {
    s.act.Elsewhere? || s.act.ReadFile? || s.act.LookUp?
  }

  ghost predicate Observes(a: Log, da: Disk, b: Log, db: Disk) {
    Passive(a, da, b, db) && b.own == a.own && b.dirs == a.dirs && OnlyReads(b.trace, |a.trace|)
  }

  lemma PassiveThen(a: Log, da: Disk, b: Log, db: Disk, c: Log, dc: Disk)
    requires Passive(a, da, b, db) && Passive(b, db, c, dc)
    ensures Passive(a, da, c, dc)
  {
    FollowsThen(a, da, b, db, c, dc);
  }

  lemma ObservesThen(a: Log, da: Disk, b: Log, db: Disk, c: Log, dc: Disk)
    requires Observes(a, da, b, db) && Observes(b, db, c, dc)
    ensures Observes(a, da, c, dc)
  {
    PassiveThen(a, da, b, db, c, dc);
    forall i | |a.trace| <= i < |c.trace|
      ensures IsLook(c.trace[i])
    {
      assert i < |b.trace| ==> c.trace[i] == b.trace[i];
    }
  }

  /** From step `from` on, some read of `path` gave these bytes. */
  ghost predicate SawBytes(trace: seq<Step>, from: nat, path: Path, bytes: string) {
    exists j: nat :: from <= j && IsRead(trace, j, path, bytes)
  }

  ghost predicate IsRead(trace: seq<Step>, j: nat, path: Path, bytes: string) {
    j < |trace| && trace[j].act == ReadFile(bytes) && trace[j].path == path
  }

  /** From step `from` on, a look at `path` found something, were it a dangling link, or nothing. */
  ghost predicate Looked(trace: seq<Step>, from: nat, path: Path, there: bool) {
    exists j: nat :: from <= j && IsLookUp(trace, j, path, there)
  }

  ghost predicate IsLookUp(trace: seq<Step>, j: nat, path: Path, there: bool) {
    j < |trace| && trace[j].act == LookUp(there) && trace[j].path == path
  }

  /** When step i was over, `path` was not a link. */
  ghost predicate NoLinkAt(trace: seq<Step>, i: nat, path: Path) {
    i < |trace| && EntryAt(trace[i].after, path) != Some(Symlink)
  }

  /** When step i was over, there was a regular file at `path`, or by then a link. */
  ghost predicate RegularAt(trace: seq<Step>, i: nat, path: Path) {
    i < |trace| && EntryAt(trace[i].after, path).Some? && !EntryAt(trace[i].after, path).value.Directory?
  }

  /** From step `from` on, `path` was found to be no link, and after that to be a regular file. */
  ghost predicate SeenRegular(trace: seq<Step>, from: nat, path: Path) {
    exists i: nat, j: nat :: from <= i < j && NoLinkAt(trace, i, path) && RegularAt(trace, j, path)
  }

  /** When step i was over, there was a directory at `path`, or by then a link. */
  ghost predicate DirectoryAt(trace: seq<Step>, i: nat, path: Path) {
    i < |trace| && EntryAt(trace[i].after, path).Some? && !EntryAt(trace[i].after, path).value.File?
  }

  /** From step `from` on, `path` was found to be no link, and after that to be a directory. */
  ghost predicate SeenDirectory(trace: seq<Step>, from: nat, path: Path) {
    exists i: nat, j: nat :: from <= i < j && NoLinkAt(trace, i, path) && DirectoryAt(trace, j, path)
  }

  lemma DirectoryLater(a: seq<Step>, b: seq<Step>, from: nat, later: nat, path: Path)
    requires SeenDirectory(a, later, path) && a <= b && from <= later
    ensures SeenDirectory(b, from, path)
  {
    var i: nat, j: nat :| later <= i < j && NoLinkAt(a, i, path) && DirectoryAt(a, j, path);
    assert b[i] == a[i] && b[j] == a[j];
    assert NoLinkAt(b, i, path) && DirectoryAt(b, j, path);
  }

  lemma SeenLater(a: seq<Step>, b: seq<Step>, from: nat, later: nat, path: Path)
    requires SeenRegular(a, later, path) && a <= b && from <= later
    ensures SeenRegular(b, from, path)
  {
    var i: nat, j: nat :| later <= i < j && NoLinkAt(a, i, path) && RegularAt(a, j, path);
    assert b[i] == a[i] && b[j] == a[j];
    assert NoLinkAt(b, i, path) && RegularAt(b, j, path);
  }

  lemma LookedLater(a: seq<Step>, b: seq<Step>, from: nat, path: Path, there: bool)
    requires Looked(a, from, path, there) && a <= b
    ensures Looked(b, from, path, there)
  {
    var j: nat :| from <= j && IsLookUp(a, j, path, there);
    assert b[j] == a[j];
    assert IsLookUp(b, j, path, there);
  }

  ghost predicate CreatedSince(trace: seq<Step>, from: nat, path: Path) {
    exists i: nat :: from <= i && IsCreation(trace, i, path)
  }

  ghost predicate IsCreation(trace: seq<Step>, i: nat, path: Path) {
    i < |trace| && trace[i].act.CreateFile? && trace[i].path == path
  }

  /** From step `from` on, the builder made a directory at `path`, where nothing was. */
  ghost predicate MadeDirectory(trace: seq<Step>, from: nat, path: Path) {
    exists i: nat :: from <= i && IsMkdir(trace, i, path)
  }

  ghost predicate IsMkdir(trace: seq<Step>, i: nat, path: Path) {
    i < |trace| && trace[i].act.MakeDirectory? && trace[i].path == path && MakesDirectory(trace[i])
  }

  lemma MadeLater(a: seq<Step>, b: seq<Step>, from: nat, path: Path)
    requires MadeDirectory(a, from, path) && a <= b
    ensures MadeDirectory(b, from, path)
  {
    var i: nat :| from <= i && IsMkdir(a, i, path);
    assert b[i] == a[i];
    assert IsMkdir(b, i, path);
  }

  /** From a to b one file was created, at `path`, where the builder had none. */
  ghost predicate NewFile(a: Log, da: Disk, b: Log, db: Disk, path: Path, n: nat) {
    && Follows(a, da, b, db) && b.own == a.own + {n} && b.made == a.made[path := n] && da.next <= n < db.next
    && b.dirs == a.dirs
    && b.created == a.created + [path] && b.linked == a.linked && b.removed == a.removed
    && n in db.contents && db.contents[n] == ""
    && CreatedSince(b.trace, |a.trace|, path)
    && (Respectful(b.trace) ==> SameContents(a.own, da, db) && path !in a.made)
  }

  /** From a to b one directory was made, at `path`. */
  ghost predicate NewDirectory(a: Log, da: Disk, b: Log, db: Disk, path: Path) {
    && Passive(a, da, b, db) && MadeDirectory(b.trace, |a.trace|, path)
    && path in b.dirs && (b.dirs[path].place.0 in b.own ==> b.dirs[path].place.0 in a.own)
    && (forall p :: p in b.dirs ==> p in a.dirs || p == path)
  }

  /** From a to b the builder wrote, through its own handle, to file n only. */
  ghost predicate Writes(a: Log, da: Disk, b: Log, db: Disk, n: nat) {
    && Follows(a, da, b, db) && b.own == a.own && b.dirs == a.dirs && SameLists(a, b)
    && (Respectful(b.trace) ==> SameContents(a.own - {n}, da, db))
  }

  /** From a to b a second name was given to the file at `from`. */
  ghost predicate NewName(a: Log, da: Disk, b: Log, db: Disk, from: Path, to: Path) {
    && from in a.made && Follows(a, da, b, db) && b.own == a.own && b.dirs == a.dirs
    && b.made == a.made[to := a.made[from]]
    && b.created == a.created && b.linked == a.linked + [to] && b.removed == a.removed
    && (Respectful(b.trace) ==> SameContents(a.own, da, db) && to !in a.made)
  }

  /** From a to b the entry at `path` was taken away. */
  ghost predicate Removes(a: Log, da: Disk, b: Log, db: Disk, path: Path) {
    && Follows(a, da, b, db) && b.own == a.own && b.dirs == a.dirs && b.made == a.made - {path}
    && b.created == a.created && b.linked == a.linked && b.removed == a.removed + [path]
    && (Respectful(b.trace) ==> SameContents(a.own, da, db))
  }

  // ---------------------------------------------------------------- what was made at a path

  /** A step by which the builder makes an entry at `path`. */
  predicate Makes(s: Step, path: Path) {
    (s.act.MakeDirectory? || s.act.CreateFile? || s.act.LinkName?) && s.path == path
  }

  lemma {:induction false} ListsAreComplete(trace: seq<Step>, i: nat)
    requires i < |trace|
    ensures trace[i].act.CreateFile? ==> trace[i].path in Created(trace)
    ensures trace[i].act.LinkName? ==> trace[i].path in Linked(trace)
    decreases |trace|
  {
    if i < |trace| - 1 {
      assert trace[..|trace| - 1][i] == trace[i];
      ListsAreComplete(trace[..|trace| - 1], i);
    }
  }

  /** Whatever the builder made at a path is listed in its log. */
  lemma MadeIsListed(d0: Disk, d: Disk, log: Log, i: nat, path: Path)
    requires Consistent(d0, d, log) && i < |log.trace| && Makes(log.trace[i], path)
    ensures log.trace[i].act.CreateFile? ==> path in log.created
    ensures log.trace[i].act.LinkName? ==> path in log.linked
    ensures log.trace[i].act.MakeDirectory? ==> path in log.dirs
  {
    ListsAreComplete(log.trace, i);
  }
}

/** The candidate builder's run: copy everything, then publish the manifest with one link. */
module CandidateRelease {
  import opened Text
  import opened Wrappers
  import opened CandidateDisk
  import opened CandidateSteps
  import opened CandidateWorld
  import opened CandidateBuilder
  import opened CandidateLayout

  datatype Origin = Untracked | Modified | Unmodified

  /** A manifest entry, without its reason text. */
  datatype Entry = Entry(path: string, origin: Origin, headDiffers: bool, sha256: string)

  function EntryOf(rel: string, digest: string, dirty: set<string>, tracked: set<string>): Entry {
    var origin := if rel !in tracked then Untracked else if rel in dirty then Modified else Unmodified;
    Entry(rel, origin, rel in dirty, digest)
  }

  function Targets(out: Path, rels: seq<string>): seq<Path> {
    if rels == [] then [] else Targets(out, rels[..|rels| - 1]) + [Target(out, rels[|rels| - 1])]
  }

  lemma {:induction false} TargetAt(out: Path, rels: seq<string>)
    ensures |Targets(out, rels)| == |rels|
    ensures forall i :: 0 <= i < |rels| ==> Targets(out, rels)[i] == Target(out, rels[i])
    decreases |rels|
  {
    if rels != [] {
      TargetAt(out, rels[..|rels| - 1]);
    }
  }

  /** From a to b directories were made only on the way to `out` and below it. */
  ghost predicate DirsAlong(a: Log, b: Log, out: Path) {
    forall path :: path in b.dirs ==> path in a.dirs || path <= out || out <= path
  }

  // ---------------------------------------------------------------- one file

  lemma PassiveThenCopied(a: Log, da: Disk, b: Log, db: Disk, c: Log, dc: Disk, target: Path, digest: string,
                          sha256: string -> string)
    requires Passive(a, da, b, db) && Copied(b, db, c, dc, target, digest, sha256)
    ensures Copied(a, da, c, dc, target, digest, sha256)
  {
    FollowsThen(a, da, b, db, c, dc);
  }

  /** One turn of `_copy_tree`. */
  method CopyOne(w: World, root: Path, out: Path, rel: string, digest: string, sha256: string -> string)
      returns (fault: Option<Fault>)
    requires w.Valid()
    modifies w
    ensures w.Valid()
    ensures fault.None? ==> Copied(old(w.log), old(w.disk), w.log, w.disk, Target(out, rel), digest, sha256)
    ensures fault.Some? ==> Stopped(old(w.log), w.log, Target(out, rel))
    ensures DirsAlong(old(w.log), w.log, out)
    ensures fault.None? && |Target(out, rel)| > 1 ==>
      SeenDirectory(w.log.trace, |old(w.log).trace|, Target(out, rel)[..|Target(out, rel)| - 1])
  {
    var target := Target(out, rel);
    AboveIsAlong(out, rel);
    AboveAre(target);
    var payload := ReadInput(w, Source(root, rel), DirectoriesAbove(target));
    if payload.None? || sha256(payload.value) != digest {
      return Some(Refused);
    }
    ghost var b, db := w.log, w.disk;
    fault := WriteTarget(w, target, payload.value, digest, sha256);
    if fault.None? {
      PassiveThenCopied(old(w.log), old(w.disk), b, db, w.log, w.disk, target, digest, sha256);
      if |target| > 1 {
        DirectoryLater(b.trace, w.log.trace, |old(w.log).trace|, |old(w.log).trace|, target[..|target| - 1]);
      }
    }
  }

  lemma AboveIsAlong(out: Path, rel: string)
    ensures forall dir :: dir in DirectoriesAbove(Target(out, rel)) ==> dir <= out || out <= dir
  {
    forall dir | dir in DirectoriesAbove(Target(out, rel))
      ensures dir <= out || out <= dir
    {
      AboveIsFront(Target(out, rel), dir);
      PrefixesCompare(dir, out, Target(out, rel));
    }
  }

  /** Make the directories, then read the input once more. */
  method ReadInput(w: World, source: Path, dirs: seq<Path>) returns (payload: Option<string>)
    requires w.Valid()
    modifies w
    ensures w.Valid() && Passive(old(w.log), old(w.disk), w.log, w.disk)
    ensures forall p :: p in w.log.dirs ==> p in old(w.log).dirs || p in dirs
    ensures payload.Some? && dirs != [] ==> SeenDirectory(w.log.trace, |old(w.log).trace|, dirs[|dirs| - 1])
  {
    var ok := EnsureDirectory(w, dirs);
    payload := None;
    if ok {
      ghost var b, db := w.log, w.disk;
      payload := w.Read(source);
      PassiveThen(old(w.log), old(w.disk), b, db, w.log, w.disk);
      if dirs != [] {
        DirectoryLater(b.trace, w.log.trace, |old(w.log).trace|, |old(w.log).trace|, dirs[|dirs| - 1]);
      }
    }
  }

  // ---------------------------------------------------------------- all files

  /** From a to b exactly the files of `done` were copied; left alone, they still hold their frozen bytes. */
  ghost predicate CopiedAll(a: Log, da: Disk, b: Log, db: Disk, out: Path, done: seq<string>,
                            frozen: map<string, string>, sha256: string -> string)
    requires forall i :: 0 <= i < |done| ==> done[i] in frozen
  {
    && Follows(a, da, b, db)
    && b.created == a.created + Targets(out, done) && b.linked == a.linked && b.removed == a.removed
    && (forall i :: 0 <= i < |done| ==> Verified(b.trace, Target(out, done[i]), frozen[done[i]], sha256))
    && (Respectful(b.trace) ==>
          forall i :: 0 <= i < |done| ==> Holds(b, db, Target(out, done[i]), frozen[done[i]], sha256))
  }

  lemma HoldsKept(a: Log, da: Disk, b: Log, db: Disk, path: Path, digest: string, sha256: string -> string)
    requires Holds(a, da, path, digest, sha256) && a.made[path] in a.own && SameContents(a.own, da, db)
    requires path in b.made && b.made[path] == a.made[path]
    ensures Holds(b, db, path, digest, sha256)
  {
  }

  lemma OneMoreCopied(a: Log, da: Disk, b: Log, db: Disk, c: Log, dc: Disk, out: Path, done: seq<string>, rel: string,
                      frozen: map<string, string>, sha256: string -> string)
    requires (forall i :: 0 <= i < |done| ==> done[i] in frozen) && rel in frozen
    requires forall path :: path in b.made ==> b.made[path] in b.own
    requires CopiedAll(a, da, b, db, out, done, frozen, sha256)
    requires Copied(b, db, c, dc, Target(out, rel), frozen[rel], sha256)
    ensures CopiedAll(a, da, c, dc, out, done + [rel], frozen, sha256)
  {
    FollowsThen(a, da, b, db, c, dc);
    assert (done + [rel])[..|done|] == done;
    assert c.created == a.created + Targets(out, done + [rel]);
    forall i | 0 <= i < |done|
      ensures Verified(c.trace, Target(out, done[i]), frozen[done[i]], sha256)
      ensures Respectful(c.trace) ==> Holds(c, dc, Target(out, done[i]), frozen[done[i]], sha256)
    {
      VerifiedLater(b.trace, c.trace, Target(out, done[i]), frozen[done[i]], sha256);
      if Respectful(c.trace) {
        HoldsKept(b, db, c, dc, Target(out, done[i]), frozen[done[i]], sha256);
      }
    }
  }

  /** From a to b exactly the targets of a prefix of `order` were created. */
  ghost predicate CreatedSome(a: Log, b: Log, out: Path, order: seq<string>) {
    exists n: nat :: n <= |order| && b.created == a.created + Targets(out, order[..n])
  }

  /** Besides, nothing was linked or removed. */
  ghost predicate CopiedSome(a: Log, b: Log, out: Path, order: seq<string>) {
    a.trace <= b.trace && b.linked == a.linked && b.removed == a.removed && CreatedSome(a, b, out, order)
  }

  lemma StoppedAt(a: Log, b: Log, c: Log, out: Path, order: seq<string>, i: nat)
    requires i < |order| && a.trace <= b.trace && b.linked == a.linked && b.removed == a.removed
    requires b.created == a.created + Targets(out, order[..i])
    requires Stopped(b, c, Target(out, order[i]))
    ensures CopiedSome(a, c, out, order)
  {
    var n := if c.created == b.created then i else i + 1;
    assert order[..i + 1][..i] == order[..i];
    assert c.created == a.created + Targets(out, order[..n]);
  }

  /** The turn of the loop at position i. */
  method CopyNext(w: World, root: Path, out: Path, order: seq<string>, i: nat, frozen: map<string, string>,
                  sha256: string -> string, ghost a: Log, ghost da: Disk)
      returns (fault: Option<Fault>)
    requires w.Valid() && (forall j :: 0 <= j < |order| ==> order[j] in frozen) && i < |order|
    requires CopiedAll(a, da, w.log, w.disk, out, order[..i], frozen, sha256) && DirsAlong(a, w.log, out)
    modifies w
    ensures w.Valid() && DirsAlong(a, w.log, out)
    ensures fault.None? ==> CopiedAll(a, da, w.log, w.disk, out, order[..i + 1], frozen, sha256)
    ensures fault.Some? ==> CopiedSome(a, w.log, out, order)
  {
    ghost var b, db := w.log, w.disk;
    fault := CopyOne(w, root, out, order[i], frozen[order[i]], sha256);
    if fault.None? {
      OneMoreCopied(a, da, b, db, w.log, w.disk, out, order[..i], order[i], frozen, sha256);
      assert order[..i + 1] == order[..i] + [order[i]];
    } else {
      StoppedAt(a, b, w.log, out, order, i);
    }
  }

  /** `_copy_tree`: every frozen path is copied and read back, in order; the entries say so. */
  method CopyTree(w: World, root: Path, out: Path, order: seq<string>, frozen: map<string, string>,
                  dirty: set<string>, tracked: set<string>, sha256: string -> string)
      returns (fault: Option<Fault>, entries: seq<Entry>)
    requires w.Valid() && forall i :: 0 <= i < |order| ==> order[i] in frozen
    modifies w
    ensures w.Valid() && DirsAlong(old(w.log), w.log, out)
    ensures fault.Some? ==> CopiedSome(old(w.log), w.log, out, order)
    ensures fault.None? ==>
      && CopiedAll(old(w.log), old(w.disk), w.log, w.disk, out, order, frozen, sha256)
      && entries == EntriesOf(order, frozen, dirty, tracked)
  {
    entries := [];
    var i := 0;
    NothingCopied(w.log, w.disk, out, order, frozen, sha256);
    while i < |order|
      invariant 0 <= i <= |order| && w.Valid() && DirsAlong(old(w.log), w.log, out)
      invariant CopiedAll(old(w.log), old(w.disk), w.log, w.disk, out, order[..i], frozen, sha256)
      invariant entries == EntriesOf(order[..i], frozen, dirty, tracked)
    {
      fault := CopyNext(w, root, out, order, i, frozen, sha256, old(w.log), old(w.disk));
      if fault.Some? {
        return;
      }
      entries := entries + [EntryOf(order[i], frozen[order[i]], dirty, tracked)];
      OneMoreEntry(order, i, frozen, dirty, tracked);
      i := i + 1;
    }
    assert order[..i] == order;
    fault := None;
  }

  lemma NothingCopied(a: Log, da: Disk, out: Path, order: seq<string>, frozen: map<string, string>,
                      sha256: string -> string)
    requires forall i :: 0 <= i < |order| ==> order[i] in frozen
    ensures CopiedAll(a, da, a, da, out, order[..0], frozen, sha256)
  {
  }

  lemma OneMoreEntry(order: seq<string>, i: nat, frozen: map<string, string>, dirty: set<string>, tracked: set<string>)
    requires i < |order| && forall j :: 0 <= j < |order| ==> order[j] in frozen
    ensures EntriesOf(order[..i + 1], frozen, dirty, tracked)
         == EntriesOf(order[..i], frozen, dirty, tracked) + [EntryOf(order[i], frozen[order[i]], dirty, tracked)]
  {
  }

  function EntriesOf(order: seq<string>, frozen: map<string, string>,
                     dirty: set<string>, tracked: set<string>): (entries: seq<Entry>)
    requires forall i :: 0 <= i < |order| ==> order[i] in frozen
    ensures |entries| == |order|
    ensures forall i :: 0 <= i < |order| ==> entries[i].path == order[i] && entries[i].sha256 == frozen[order[i]]
  {
    seq(|order|, i requires 0 <= i < |order| => EntryOf(order[i], frozen[order[i]], dirty, tracked))
  }

  /** Where each entry says that its file comes from. */
  lemma EntriesAre(order: seq<string>, frozen: map<string, string>, dirty: set<string>, tracked: set<string>, i: nat)
    requires (forall j :: 0 <= j < |order| ==> order[j] in frozen) && i < |order|
    ensures var e := EntriesOf(order, frozen, dirty, tracked)[i];
            && (e.origin == Untracked <==> order[i] !in tracked)
            && (e.origin == Modified <==> order[i] in tracked && order[i] in dirty)
            && (e.origin == Unmodified <==> order[i] in tracked && order[i] !in dirty)
            && (e.headDiffers <==> order[i] in dirty)
  {
  }

  // ---------------------------------------------------------------- the manifest

  /** The builder's file at `path` holds exactly these bytes. */
  ghost predicate HoldsBytes(log: Log, d: Disk, path: Path, bytes: string) {
    path in log.made && log.made[path] in d.contents && d.contents[log.made[path]] == bytes
  }

  /** From a to b a new file with these bytes was made at `temp`. */
  ghost predicate Staged(a: Log, da: Disk, b: Log, db: Disk, temp: Path, bytes: string) {
    && Follows(a, da, b, db) && temp in b.made && b.made[temp] in b.own
    && b.created == a.created + [temp] && b.linked == a.linked && b.removed == a.removed
    && (Respectful(b.trace) ==>
          && SameContents(a.own, da, db) && temp !in a.made && HoldsBytes(b, db, temp, bytes)
          && (forall path :: path in a.made ==> path in b.made && b.made[path] == a.made[path]))
  }

  lemma StagedBy(a: Log, da: Disk, b: Log, db: Disk, c: Log, dc: Disk, temp: Path, n: nat, bytes: string)
    requires NewFile(a, da, b, db, temp, n) && Writes(b, db, c, dc, n) && (forall m :: m in a.own ==> m < da.next)
    requires Respectful(c.trace) ==> n in dc.contents && dc.contents[n] == bytes
    ensures Staged(a, da, c, dc, temp, bytes)
  {
    FollowsThen(a, da, b, db, c, dc);
  }

  /** From a to b the manifest appeared, with these bytes, and the files made before are still there. */
  ghost predicate Issued(a: Log, da: Disk, b: Log, db: Disk, temp: Path, manifest: Path, bytes: string) {
    && Follows(a, da, b, db) && b.created == a.created + [temp] && b.linked == a.linked + [manifest]
    && (b.removed == a.removed || b.removed == a.removed + [temp])
    && (Respectful(b.trace) ==>
          && SameContents(a.own, da, db) && HoldsBytes(b, db, manifest, bytes)
          && (forall path :: path in a.made ==> path in b.made && b.made[path] == a.made[path]))
  }

  lemma IssuedBy(a: Log, da: Disk, b: Log, db: Disk, c: Log, dc: Disk, d: Log, dd: Disk, temp: Path, manifest: Path,
                 bytes: string)
    requires Staged(a, da, b, db, temp, bytes) && NewName(b, db, c, dc, temp, manifest)
    requires Observes(c, dc, d, dd) || Removes(c, dc, d, dd, temp)
    ensures Issued(a, da, d, dd, temp, manifest, bytes)
  {
    FollowsThen(a, da, b, db, c, dc);
    FollowsThen(a, da, c, dc, d, dd);
    if Respectful(d.trace) {
      LinkKeepsBytes(a, da, b, db, c, dc, temp, manifest, bytes);
    }
  }

  lemma LinkKeepsBytes(a: Log, da: Disk, b: Log, db: Disk, c: Log, dc: Disk, temp: Path, manifest: Path, bytes: string)
    requires Staged(a, da, b, db, temp, bytes) && NewName(b, db, c, dc, temp, manifest) && Respectful(c.trace)
    ensures SameContents(a.own, da, dc) && HoldsBytes(c, dc, manifest, bytes) && manifest != temp
    ensures c.made[manifest] in c.own && b.own == c.own
    ensures forall path :: path in a.made ==>
      path in c.made && c.made[path] == a.made[path] && path != temp && path != manifest
  {
  }

  /** Write the whole payload under a name of its own. */
  method Stage(w: World, temp: Path, payload: string) returns (created: bool, ok: bool)
    requires w.Valid()
    modifies w
    ensures w.Valid() && old(w.log).trace <= w.log.trace && w.log.linked == old(w.log).linked
    ensures w.log.removed == old(w.log).removed && w.log.dirs == old(w.log).dirs
    ensures w.log.created == old(w.log).created + if created then [temp] else []
    ensures ok ==> created && Staged(old(w.log), old(w.disk), w.log, w.disk, temp, payload)
    ensures created ==> temp in w.log.made
    ensures w.calls == old(w.calls) + if created then 2 else 1
    ensures w.Alone(old(w.calls), w.calls) ==> (ok <==> Free(old(w.disk), temp))
    ensures w.Alone(old(w.calls), w.calls) && ok ==>
      w.disk.names == WithFile(old(w.disk), Where(old(w.disk), temp).value).names
      && w.disk.follow == old(w.disk).follow && w.disk.next == old(w.disk).next + 1
  {
    ghost var first := w.calls;
    var handle := w.CreateExclusive(temp);
    if handle.None? {
      return false, false;
    }
    created := true;
    ghost var b, db := w.log, w.disk;
    ok := w.WriteHandle(handle.value, temp, payload);
    w.AloneSplits(first, first + 1, w.calls);
    if ok {
      StagedBy(old(w.log), old(w.disk), b, db, w.log, w.disk, temp, handle.value, payload);
    }
  }

  /**
   `_publish_manifest`: nothing but the link makes the manifest, and the link comes after the whole
   payload.  Once the temporary file was created, the last call is its unlink.  Left alone, with
   every call working, it succeeds exactly when both names are free.
   */
  method PublishManifest(w: World, parent: Path, manifest: Path, payload: string)
      returns (fault: Option<Fault>, temp: Path)
    requires w.Valid()
    modifies w
    ensures w.Valid()
    ensures fault.None? ==> Issued(old(w.log), old(w.disk), w.log, w.disk, temp, manifest, payload)
    ensures fault.Some? ==> w.log.linked == old(w.log).linked
    ensures w.log.created == old(w.log).created || w.log.created == old(w.log).created + [temp]
    ensures w.log.removed == old(w.log).removed || w.log.removed == old(w.log).removed + [temp]
    ensures IsTempName(parent, temp) && w.log.dirs == old(w.log).dirs
    ensures w.log.created != old(w.log).created ==> TempTried(w, temp)
    ensures old(w.calls) <= w.calls
    ensures w.Alone(old(w.calls), w.calls) && Where(old(w.disk), manifest).Some? ==>
      (fault.None? <==> Publishable(old(w.disk), temp, manifest))
  {
    ghost var first, d0 := w.calls, w.disk;
    var random: string := *;
    var name := ".candidate-manifest-" + random + ".tmp";
    assert name[|name| - 4..] == ".tmp";
    temp := parent + [name];
    var created, ok := Stage(w, temp, payload);
    if !created {
      return Some(Crashed), temp;
    }
    ghost var b, db := w.log, w.disk;
    fault := Some(Crashed);
    if ok {
      if w.Alone(first, w.calls) && Where(d0, manifest).Some? {
        StagedThere(d0, db, temp, manifest);
      }
      ok := w.Link(temp, manifest);
      fault := if ok then None else Some(Refused);
    }
    ghost var c, dc := w.log, w.disk;
    RemoveTemp(w, temp);
    w.AloneSplits(first, first + 2, w.calls);
    if ok {
      IssuedBy(old(w.log), old(w.disk), b, db, c, dc, w.log, w.disk, temp, manifest, payload);
    }
  }

  /** Neither name is taken, and they are two. */
  predicate Publishable(d: Disk, temp: Path, manifest: Path) {
    Free(d, temp) && Free(d, manifest) && Where(d, manifest) != Where(d, temp)
  }

  /** Once the temporary file is there, it can be linked exactly to what was free before, and is another place. */
  lemma StagedThere(d: Disk, e: Disk, temp: Path, manifest: Path)
    requires Free(d, temp) && Where(d, manifest).Some? && e.names == WithFile(d, Where(d, temp).value).names
    requires e.follow == d.follow && e.next == d.next + 1
    ensures Unlinkable(e, temp)
    ensures Free(e, manifest) <==> Publishable(d, temp, manifest)
  {
    var f := WithFile(d, Where(d, temp).value);
    NewFileThere(d, temp);
    SameNames(f, e, temp);
    SameNames(f, e, manifest);
    WhereStays(d, f, manifest);
  }

  /** A name that `mkstemp` chooses in `parent`. */
  predicate IsTempName(parent: Path, temp: Path) {
    && |temp| == |parent| + 1 && parent <= temp
    && ".candidate-manifest-" <= temp[|parent|] && EndsWith(temp[|parent|], ".tmp")
  }

  /** The `finally` block. */
  method RemoveTemp(w: World, temp: Path)
    requires w.Valid() && temp in w.log.made
    modifies w
    ensures w.Valid() && TempTried(w, temp) && old(w.calls) <= w.calls
    ensures Observes(old(w.log), old(w.disk), w.log, w.disk) || Removes(old(w.log), old(w.disk), w.log, w.disk, temp)
  {
    w.Unlink(temp);
  }

  /** If the last call worked, there is nothing left at `temp` that could be unlinked. */
  ghost predicate TempTried(w: World, temp: Path)
    reads w
  {
    w.calls > 0 && (w.works(w.calls - 1) ==> !Unlinkable(w.disk, temp))
  }

  // ---------------------------------------------------------------- the whole run

  /** Everything before the copy: plan, inputs, preflight, `git` and the new output directory. */
  method Prepare(w: World, out: Argument, manifest: Argument, root: Path, all: seq<string>, sha256: string -> string)
      returns (fault: Option<Fault>, paths: seq<string>, frozen: map<string, string>)
    requires w.Valid() && Distinct(all)
    modifies w
    ensures w.Valid() && Passive(old(w.log), old(w.disk), w.log, w.disk)
    ensures fault.Some? ==> Observes(old(w.log), old(w.disk), w.log, w.disk)
    ensures fault.None? ==>
      && Planned(out, manifest, root) && (forall p :: p in w.log.dirs ==> p in old(w.log).dirs || p == Leaf(out))
      && BothAbsent(w.log.trace, |old(w.log).trace|, out, manifest)
      && AreThePublic(paths, all)
      && FrozenAs(w.log.trace, |old(w.log).trace|, root, paths, frozen, sha256)
      && MadeOut(old(w.log), w.log, Leaf(out))
  {
    paths, frozen := [], map[];
    fault := PlanTargets(w, out, manifest, root);
    if fault.Some? {
      return;
    }
    paths := SourcePaths(all);
    ghost var b, db := w.log, w.disk;
    fault, frozen := Freeze(w, root, paths, Leaf(out), sha256);
    if fault.None? {
      PassiveThen(old(w.log), old(w.disk), b, db, w.log, w.disk);
      PreparedBy(old(w.log), b, w.log, out, manifest, root, paths, frozen, sha256);
    } else {
      ObservesThen(old(w.log), old(w.disk), b, db, w.log, w.disk);
    }
  }

  lemma PreparedBy(a: Log, b: Log, c: Log, out: Argument, manifest: Argument, root: Path, paths: seq<string>,
                   frozen: map<string, string>, sha256: string -> string)
    requires a.trace <= b.trace <= c.trace && b.own == a.own && IsLeaf(out) && IsLeaf(manifest)
    requires BothAbsent(b.trace, |a.trace|, out, manifest) && MadeOut(b, c, Leaf(out))
    requires FrozenAs(c.trace, |b.trace|, root, paths, frozen, sha256)
    ensures BothAbsent(c.trace, |a.trace|, out, manifest) && MadeOut(a, c, Leaf(out))
    ensures FrozenAs(c.trace, |a.trace|, root, paths, frozen, sha256)
  {
    FrozenSince(c.trace, |a.trace|, |b.trace|, root, paths, frozen, sha256);
    AbsentLater(b.trace, c.trace, |a.trace|, out, manifest);
    MadeSince(a, b, c, Leaf(out));
  }

  lemma AbsentLater(a: seq<Step>, b: seq<Step>, from: nat, out: Argument, manifest: Argument)
    requires IsLeaf(out) && IsLeaf(manifest) && BothAbsent(a, from, out, manifest) && a <= b
    ensures BothAbsent(b, from, out, manifest)
  {
    LookedLater(a, b, from, Leaf(out), false);
    LookedLater(a, b, from, Leaf(manifest), false);
  }

  /** From a to b this run made the output directory, in a directory that it had not made. */
  ghost predicate MadeOut(a: Log, b: Log, out: Path) {
    && MadeDirectory(b.trace, |a.trace|, out)
    && out in b.dirs && (b.dirs[out].place.0 in b.own ==> b.dirs[out].place.0 in a.own)
  }

  lemma MadeSince(a: Log, b: Log, c: Log, out: Path)
    requires MadeOut(b, c, out) && a.trace <= b.trace && b.own == a.own
    ensures MadeOut(a, c, out)
  {
    var i: nat :| |b.trace| <= i && IsMkdir(c.trace, i, out);
  }

  lemma FrozenSince(trace: seq<Step>, from: nat, later: nat, root: Path,
                    paths: seq<string>, frozen: map<string, string>,
                    sha256: string -> string)
    requires FrozenAs(trace, later, root, paths, frozen, sha256) && from <= later
    ensures FrozenAs(trace, from, root, paths, frozen, sha256)
  {
    forall rel | rel in frozen
      ensures InputRead(trace, from, Source(root, rel), frozen[rel], sha256)
    {
      InputReadLater(trace, trace, from, later, Source(root, rel), frozen[rel], sha256);
    }
  }

  /** The preflight, the two `git` queries and the new output directory. */
  method Freeze(w: World, root: Path, paths: seq<string>, out: Path, sha256: string -> string)
      returns (fault: Option<Fault>, frozen: map<string, string>)
    requires w.Valid()
    modifies w
    ensures w.Valid() && Passive(old(w.log), old(w.disk), w.log, w.disk)
    ensures fault.Some? ==> Observes(old(w.log), old(w.disk), w.log, w.disk)
    ensures fault.None? ==> forall p :: p in w.log.dirs ==> p in old(w.log).dirs || p == out
    ensures fault.None? ==>
      && FrozenAs(w.log.trace, |old(w.log).trace|, root, paths, frozen, sha256)
      && MadeOut(old(w.log), w.log, out)
  {
    frozen := map[];
    var checked := Preflight(w, root, paths, sha256);
    if checked.None? {
      return Some(Refused), frozen;
    }
    var git: bool := *;
    if !git {
      return Some(Crashed), frozen;
    }
    frozen := checked.value;
    ghost var b, db := w.log, w.disk;
    var made := w.MakeDir(out);
    if !made {
      ObservesThen(old(w.log), old(w.disk), b, db, w.log, w.disk);
      return Some(Refused), frozen;
    }
    ThenNewDirectory(old(w.log), old(w.disk), b, db, w.log, w.disk, out);
    FrozenLater(b.trace, w.log.trace, |old(w.log).trace|, root, paths, frozen, sha256);
    fault := None;
  }

  /** From a to b all of `order` was copied and the manifest issued. */
  ghost predicate Completed(a: Log, b: Log, db: Disk, out: Path, manifest: Path, temp: Path, order: seq<string>,
                            frozen: map<string, string>, payload: string, sha256: string -> string)
    requires forall i :: 0 <= i < |order| ==> order[i] in frozen
  {
    && a.trace <= b.trace && b.created == a.created + Targets(out, order) + [temp] && b.linked == a.linked + [manifest]
    && (b.removed == a.removed || b.removed == a.removed + [temp])
    && (forall i :: 0 <= i < |order| ==> Verified(b.trace, Target(out, order[i]), frozen[order[i]], sha256))
    && (Respectful(b.trace) ==>
          && HoldsBytes(b, db, manifest, payload)
          && forall i :: 0 <= i < |order| ==> Holds(b, db, Target(out, order[i]), frozen[order[i]], sha256))
  }

  lemma CompletedBy(a: Log, da: Disk, b: Log, db: Disk, c: Log, dc: Disk, out: Path, manifest: Path, temp: Path,
                    order: seq<string>, frozen: map<string, string>, payload: string, sha256: string -> string)
    requires forall i :: 0 <= i < |order| ==> order[i] in frozen
    requires forall path :: path in b.made ==> b.made[path] in b.own
    requires Respectful(c.trace) ==> Respectful(b.trace)
    requires CopiedAll(a, da, b, db, out, order, frozen, sha256) && Issued(b, db, c, dc, temp, manifest, payload)
    ensures Completed(a, c, dc, out, manifest, temp, order, frozen, payload, sha256)
  {
    forall i | 0 <= i < |order|
      ensures Verified(c.trace, Target(out, order[i]), frozen[order[i]], sha256)
      ensures Respectful(c.trace) ==> Holds(c, dc, Target(out, order[i]), frozen[order[i]], sha256)
    {
      VerifiedLater(b.trace, c.trace, Target(out, order[i]), frozen[order[i]], sha256);
      if Respectful(c.trace) {
        HoldsKept(b, db, c, dc, Target(out, order[i]), frozen[order[i]], sha256);
      }
    }
  }

  /** From a to b targets were created in order, and a temporary name only after all of them. */
  ghost predicate CreatedOnly(a: Log, b: Log, out: Path, order: seq<string>, parent: Path, temp: Path) {
    || CreatedSome(a, b, out, order)
    || (b.created == a.created + Targets(out, order) + [temp] && IsTempName(parent, temp))
  }

  lemma AllIsSome(a: Log, b: Log, out: Path, order: seq<string>)
    requires b.created == a.created + Targets(out, order)
    ensures CreatedSome(a, b, out, order)
  {
    assert order[..|order|] == order;
  }

  method CopyAndPublish(w: World, root: Path, parent: Path, out: Path, manifest: Path,
                        order: seq<string>, frozen: map<string, string>, dirty: set<string>, tracked: set<string>,
                        sha256: string -> string, encode: seq<Entry> -> string)
      returns (fault: Option<Fault>, temp: Path)
    requires w.Valid() && forall i :: 0 <= i < |order| ==> order[i] in frozen
    modifies w
    ensures w.Valid()
    ensures fault.Some? ==> w.log.linked == old(w.log).linked
    ensures CreatedOnly(old(w.log), w.log, out, order, parent, temp) && DirsAlong(old(w.log), w.log, out)
    ensures w.log.removed == old(w.log).removed
         || (w.log.removed == old(w.log).removed + [temp] && IsTempName(parent, temp))
    ensures fault.None? ==> IsTempName(parent, temp)
    ensures fault.None? ==> Follows(old(w.log), old(w.disk), w.log, w.disk)
    ensures fault.None? ==>
      Completed(old(w.log), w.log, w.disk, out, manifest, temp, order, frozen,
                encode(EntriesOf(order, frozen, dirty, tracked)), sha256)
  {
    var entries;
    temp := [];
    fault, entries := CopyTree(w, root, out, order, frozen, dirty, tracked, sha256);
    if fault.Some? {
      return;
    }
    AllIsSome(old(w.log), w.log, out, order);
    var git: bool := *;
    if !git {
      return Some(Crashed), temp;
    }
    ghost var b, db := w.log, w.disk;
    fault, temp := PublishManifest(w, parent, manifest, encode(entries));
    if fault.None? {
      if Respectful(w.log.trace) {
        RespectfulBefore(b.trace, w.log.trace);
      }
      FollowsThen(old(w.log), old(w.disk), b, db, w.log, w.disk);
      CompletedBy(old(w.log), old(w.disk), b, db, w.log, w.disk, out, manifest, temp, order, frozen, encode(entries),
                  sha256);
    }
  }

  /** What a published candidate is, in a run that began with an empty log. */
  ghost predicate Published(log: Log, d: Disk, root: Path, out: Path, manifest: Path, temp: Path, all: seq<string>,
                            paths: seq<string>, frozen: map<string, string>, payload: string, sha256: string -> string)
    requires forall i :: 0 <= i < |paths| ==> paths[i] in frozen
  {
    && AreThePublic(paths, all)
    && FrozenAs(log.trace, 0, root, paths, frozen, sha256)
    && MadeDirectory(log.trace, 0, out)
    && Completed(EMPTY, log, d, out, manifest, temp, paths, frozen, payload, sha256)
    && (Respectful(log.trace) ==> HoldsExactly(d, out, Targets(out, paths)))
  }

  lemma CompletedFrom(b: Log, c: Log, dc: Disk, out: Path, manifest: Path, temp: Path, paths: seq<string>,
                      frozen: map<string, string>, payload: string, sha256: string -> string)
    requires forall i :: 0 <= i < |paths| ==> paths[i] in frozen
    requires b.created == [] && b.linked == [] && b.removed == []
    requires Completed(b, c, dc, out, manifest, temp, paths, frozen, payload, sha256)
    ensures Completed(EMPTY, c, dc, out, manifest, temp, paths, frozen, payload, sha256)
  {
    assert [] + Targets(out, paths) + [temp] == Targets(out, paths) + [temp];
    assert [] + [manifest] == [manifest];
  }

  lemma PublishedFrom(b: Log, c: Log, dc: Disk, root: Path, out: Path, manifest: Path, temp: Path, all: seq<string>,
                      paths: seq<string>, frozen: map<string, string>, payload: string, sha256: string -> string)
    requires AreThePublic(paths, all)
    requires FrozenAs(b.trace, 0, root, paths, frozen, sha256) && MadeDirectory(b.trace, 0, out)
    requires b.created == [] && b.linked == [] && b.removed == []
    requires Completed(b, c, dc, out, manifest, temp, paths, frozen, payload, sha256)
    requires Respectful(c.trace) ==> HoldsExactly(dc, out, Targets(out, paths))
    ensures Published(c, dc, root, out, manifest, temp, all, paths, frozen, payload, sha256)
  {
    FrozenLater(b.trace, c.trace, 0, root, paths, frozen, sha256);
    MadeLater(b.trace, c.trace, 0, out);
    CompletedFrom(b, c, dc, out, manifest, temp, paths, frozen, payload, sha256);
  }

  lemma {:induction false} TargetsAre(out: Path, rels: seq<string>, path: Path)
    ensures path in Targets(out, rels) <==> exists i :: 0 <= i < |rels| && path == Target(out, rels[i])
  {
    if rels != [] {
      TargetsAre(out, rels[..|rels| - 1], path);
      assert rels == rels[..|rels| - 1] + [rels[|rels| - 1]];
    }
  }

  lemma AllCreatedThere(log: Log, out: Path, rels: seq<string>, temp: Path, manifest: Path)
    requires log.created == Targets(out, rels) + [temp] && log.linked == [manifest]
    requires IsSibling(temp, out) && IsSibling(manifest, out)
    requires forall i :: 0 <= i < |rels| ==> Target(out, rels[i]) in log.made
    ensures CreatedThere(log, out, Targets(out, rels))
  {
    forall path | path in Targets(out, rels)
      ensures out < path && path in log.made
    {
      TargetsAre(out, rels, path);
    }
  }

  lemma Siblings(parent: Path, name: string, other: Path)
    requires |other| == |parent| + 1 && parent <= other
    ensures IsSibling(other, parent + [name])
  {
    assert other[..|parent|] == parent == (parent + [name])[..|parent|];
  }

  /** After the copy and the link, the output directory holds the targets and nothing else. */
  lemma ExactAfter(d0: Disk, b: Log, db: Disk, c: Log, dc: Disk, parent: Path, name: string, manifest: string,
                   temp: Path, rels: seq<string>, frozen: map<string, string>, payload: string,
                   sha256: string -> string)
    requires forall i :: 0 <= i < |rels| ==> rels[i] in frozen
    requires Consistent(d0, db, b) && Consistent(d0, dc, c) && Follows(b, db, c, dc) && Respectful(c.trace)
    requires parent + [name] in b.dirs && b.dirs[parent + [name]].place.0 !in b.own
    requires b.created == [] && b.linked == [] && |temp| == |parent| + 1 && parent <= temp
    requires Completed(b, c, dc, parent + [name], parent + [manifest], temp, rels, frozen, payload, sha256)
    ensures HoldsExactly(dc, parent + [name], Targets(parent + [name], rels))
  {
    var out := parent + [name];
    RootStays(d0, b, db, c, dc, out);
    MadeAll(b, c, dc, out, parent + [manifest], temp, rels, frozen, payload, sha256);
    Siblings(parent, name, temp);
    Siblings(parent, name, parent + [manifest]);
    AllCreatedThere(c, out, rels, temp, parent + [manifest]);
    ExactlyTargets(d0, dc, c, out, Targets(out, rels));
  }

  lemma MadeAll(b: Log, c: Log, dc: Disk, out: Path, manifest: Path, temp: Path, rels: seq<string>,
                frozen: map<string, string>, payload: string, sha256: string -> string)
    requires forall i :: 0 <= i < |rels| ==> rels[i] in frozen
    requires b.created == [] && b.linked == [] && Respectful(c.trace)
    requires Completed(b, c, dc, out, manifest, temp, rels, frozen, payload, sha256)
    ensures c.created == Targets(out, rels) + [temp] && c.linked == [manifest]
    ensures forall i :: 0 <= i < |rels| ==> Target(out, rels[i]) in c.made
  {
    assert [] + Targets(out, rels) + [temp] == Targets(out, rels) + [temp];
    assert [] + [manifest] == [manifest];
  }

  lemma RootStays(d0: Disk, b: Log, db: Disk, c: Log, dc: Disk, out: Path)
    requires Consistent(d0, db, b) && Consistent(d0, dc, c) && Follows(b, db, c, dc) && Respectful(c.trace)
    requires out in b.dirs && b.dirs[out].place.0 !in b.own
    ensures IsRootOf(c, out)
  {
  }

  /**
   What a run may have made, however it ends: nothing at all, or a front of the targets, in
   directories on their way, and after all of them the temporary name.
   */
  ghost predicate MadeOnly(log: Log, out: Argument, manifest: Argument, root: Path, order: seq<string>, temp: Path) {
    || (log.created == [] && log.dirs == map[])
    || (Planned(out, manifest, root) && CreatedOnly(EMPTY, log, Leaf(out), order, out.resolution.parent, temp)
        && DirsAlong(EMPTY, log, Leaf(out)))
  }

  /** No step makes an entry at the manifest's path, unless it is the temporary one that has this very name. */
  ghost predicate NotPublished(trace: seq<Step>, manifest: Path, temp: Path) {
    forall i :: 0 <= i < |trace| && Makes(trace[i], manifest) ==> trace[i].act.CreateFile? && manifest == temp
  }

  lemma NoManifest(d0: Disk, d: Disk, log: Log, out: Argument, manifest: Argument, root: Path, order: seq<string>,
                   temp: Path)
    requires Consistent(d0, d, log) && log.linked == [] && MadeOnly(log, out, manifest, root, order, temp)
    requires IsLeaf(manifest)
    ensures NotPublished(log.trace, Leaf(manifest), temp)
  {
    var m := Leaf(manifest);
    forall i | 0 <= i < |log.trace| && Makes(log.trace[i], m)
      ensures log.trace[i].act.CreateFile? && m == temp
    {
      MadeIsListed(d0, d, log, i, m);
      NotThere(log, out, manifest, root, order, temp);
    }
  }

  lemma NotThere(log: Log, out: Argument, manifest: Argument, root: Path, order: seq<string>, temp: Path)
    requires MadeOnly(log, out, manifest, root, order, temp) && IsLeaf(manifest)
    ensures Leaf(manifest) !in log.dirs && (Leaf(manifest) in log.created ==> Leaf(manifest) == temp)
  {
    var m := Leaf(manifest);
    if Planned(out, manifest, root) {
      var o := Leaf(out);
      assert |m| == |o| && m[|m| - 1] != o[|o| - 1];
      forall rels: seq<string>
        ensures m !in Targets(o, rels)
      {
        TargetsAre(o, rels, m);
      }
    }
  }

  /**
   `main`: the manifest is linked exactly when the run succeeds, and then every path of the
   inventory that is not private, and no other, was copied into the directory that the run made,
   read back and listed with the digest frozen before the first write.  When it fails, the run has
   made nothing at the manifest's path.
   */
  method BuildCandidate(w: World, out: Argument, manifest: Argument, root: Path, all: seq<string>,
                        dirty: set<string>, tracked: set<string>, sha256: string -> string,
                        encode: seq<Entry> -> string)
      returns (fault: Option<Fault>, ghost temp: Path, ghost paths: seq<string>, ghost frozen: map<string, string>)
    requires w.Valid() && w.log == EMPTY && Distinct(all)
    modifies w
    ensures w.Valid() && MadeOnly(w.log, out, manifest, root, paths, temp)
    ensures fault.Some? ==> w.log.linked == [] && (IsLeaf(manifest) ==> NotPublished(w.log.trace, Leaf(manifest), temp))
    ensures w.log.removed == []
         || (Planned(out, manifest, root) && w.log.removed == [temp] && IsTempName(out.resolution.parent, temp))
    ensures fault.None? ==>
      && Planned(out, manifest, root) && BothAbsent(w.log.trace, 0, out, manifest)
      && (forall i :: 0 <= i < |paths| ==> paths[i] in frozen)
      && Published(w.log, w.disk, root, out.resolution.parent + [out.name], out.resolution.parent + [manifest.name],
                   temp, all, paths, frozen, encode(EntriesOf(paths, frozen, dirty, tracked)), sha256)
  {
    var order, digests;
    temp := [];
    fault, order, digests := Prepare(w, out, manifest, root, all, sha256);
    paths, frozen := order, digests;
    if fault.Some? {
      if IsLeaf(manifest) {
        NoManifest(w.initial, w.disk, w.log, out, manifest, root, paths, temp);
      }
      return;
    }
    ghost var b, db := w.log, w.disk;
    var staged;
    fault, staged := CopyAndPublish(w, root, out.resolution.parent, Leaf(out), Leaf(manifest), order, digests, dirty,
                                    tracked, sha256, encode);
    temp := staged;
    OnlyFromEmpty(b, w.log, Leaf(out), order, out.resolution.parent, temp);
    if fault.None? {
      Finished(w.initial, b, db, w.log, w.disk, out, manifest, temp, root, all, order, digests,
               encode(EntriesOf(order, digests, dirty, tracked)), sha256);
    } else {
      NoManifest(w.initial, w.disk, w.log, out, manifest, root, paths, temp);
    }
  }

  lemma OnlyFromEmpty(b: Log, c: Log, out: Path, order: seq<string>, parent: Path, temp: Path)
    requires b.created == [] && CreatedOnly(b, c, out, order, parent, temp)
    requires (forall p :: p in b.dirs ==> p == out) && DirsAlong(b, c, out)
    ensures CreatedOnly(EMPTY, c, out, order, parent, temp) && DirsAlong(EMPTY, c, out)
  {
  }

  lemma Finished(d0: Disk, b: Log, db: Disk, c: Log, dc: Disk, out: Argument, manifest: Argument, temp: Path,
                 root: Path, all: seq<string>, order: seq<string>, frozen: map<string, string>, payload: string,
                 sha256: string -> string)
    requires Consistent(d0, db, b) && Consistent(d0, dc, c) && Follows(b, db, c, dc)
    requires b.created == [] && b.linked == [] && b.removed == [] && Planned(out, manifest, root)
    requires AreThePublic(order, all) && FrozenAs(b.trace, 0, root, order, frozen, sha256)
    requires BothAbsent(b.trace, 0, out, manifest) && MadeOut(EMPTY, b, Leaf(out))
    requires IsTempName(out.resolution.parent, temp) && forall i :: 0 <= i < |order| ==> order[i] in frozen
    requires Completed(b, c, dc, Leaf(out), Leaf(manifest), temp, order, frozen, payload, sha256)
    ensures BothAbsent(c.trace, 0, out, manifest)
    ensures Published(c, dc, root, Leaf(out), Leaf(manifest), temp, all, order, frozen, payload, sha256)
  {
    if Respectful(c.trace) {
      ExactAfter(d0, b, db, c, dc, out.resolution.parent, out.name, manifest.name, temp, order, frozen, payload,
                 sha256);
    }
    AbsentLater(b.trace, c.trace, 0, out, manifest);
    PublishedFrom(b, c, dc, root, Leaf(out), Leaf(manifest), temp, all, order, frozen, payload, sha256);
  }
}

/** What a run of the candidate builder does to the entries of others. */
module CandidateOthers {
  import opened Wrappers
  import opened CandidateDisk
  import opened CandidateSteps
  import opened CandidateWorld

  // ---------------------------------------------------------------- entries of others

  /** Somebody else's step that leaves the entry at p, and the file it names, as they were. */
  ghost predicate LeavesPlace(s: Step, p: Place) {
    p in s.before.names ==>
      && p in s.after.names && s.after.names[p] == s.before.names[p]
      && (s.before.names[p].File? && s.before.names[p].inode in s.before.contents ==>
            && s.before.names[p].inode in s.after.contents
            && s.after.contents[s.before.names[p].inode] == s.before.contents[s.before.names[p].inode])
  }

  /** Nothing that others do, and no unlink of the builder, is about the place p. */
  ghost predicate OutOfTheWay(trace: seq<Step>, p: Place) {
    forall i {:trigger LeavesPlace(trace[i], p)} :: 0 <= i < |trace| ==>
      && (trace[i].act.Elsewhere? ==> LeavesPlace(trace[i], p))
      && (trace[i].act.UnlinkName? ==> Where(trace[i].before, trace[i].path) != Some(p))
  }

  /** The same entry, with the same bytes when it is a file. */
  ghost predicate SameEntry(d: Disk, e: Disk, p: Place) {
    && p in d.names && p in e.names && e.names[p] == d.names[p]
    && (d.names[p].File? && d.names[p].inode in d.contents ==>
          d.names[p].inode in e.contents && e.contents[d.names[p].inode] == d.contents[d.names[p].inode])
  }

  lemma {:induction false} SurvivesUpTo(d0: Disk, trace: seq<Step>, p: Place, n: nat)
    requires WellFormed(d0) && AllOk(trace, d0.next) && OutOfTheWay(trace, p) && p in d0.names && n <= |trace|
    requires forall i: nat {:trigger Joined(trace, d0, i)} :: Joined(trace, d0, i)
    ensures SameEntry(d0, Before(trace, d0, n), p)
  {
    if n > 0 {
      SurvivesUpTo(d0, trace, p, n - 1);
      assert Joined(trace, d0, n - 1);
      assert StepOk(trace[n - 1], d0.next);
      assert LeavesPlace(trace[n - 1], p) || !trace[n - 1].act.Elsewhere?;
    }
  }

  /**
   Whatever was there before the run, and is not changed by somebody else, is there after it, with
   its bytes: the builder modifies, replaces and removes nothing, unless its temporary name has
   come to lead to that very place.
   */
  lemma ForeignEntriesSurvive(d0: Disk, d: Disk, log: Log, p: Place)
    requires Consistent(d0, d, log) && OutOfTheWay(log.trace, p) && p in d0.names
    ensures SameEntry(d0, d, p)
  {
    SurvivesUpTo(d0, log.trace, p, |log.trace|);
  }

  // ---------------------------------------------------------------- the one unlink

  predicate IsOwn(node: Node, own: set<nat>) {
    node.File? && node.inode in own
  }

  ghost predicate KeepsForeign(s: Step) {
    forall p :: p in s.before.names && !IsOwn(s.before.names[p], s.own) ==>
      p in s.after.names && s.after.names[p] == s.before.names[p]
  }

  /** The name that the builder unlinks leads to a file of its own. */
  ghost predicate UnlinksOwn(s: Step) {
    s.act.UnlinkName? ==> EntryAt(s.before, s.path).Some? && IsOwn(EntryAt(s.before, s.path).value, s.own)
  }

  /** A step of the builder takes an entry of somebody else away exactly when its unlink meets one. */
  lemma StepIsHarmlessIff(s: Step, start: nat)
    requires StepOk(s, start) && !s.act.Elsewhere?
    ensures KeepsForeign(s) <==> UnlinksOwn(s)
  {
    if s.act.UnlinkName? {
      var p := Where(s.before, s.path).value;
      assert p in s.before.names && p !in s.after.names;
    }
  }

  /** In a whole run, all entries of others stay exactly when every unlink meets a file of the builder. */
  lemma RunIsHarmlessIff(d0: Disk, d: Disk, log: Log)
    requires Consistent(d0, d, log)
    ensures (forall i :: 0 <= i < |log.trace| && !log.trace[i].act.Elsewhere? ==> KeepsForeign(log.trace[i]))
            <==> forall i :: 0 <= i < |log.trace| ==> UnlinksOwn(log.trace[i])
  {
    forall i | 0 <= i < |log.trace| && !log.trace[i].act.Elsewhere?
      ensures KeepsForeign(log.trace[i]) <==> UnlinksOwn(log.trace[i])
    {
      assert StepOk(log.trace[i], d0.next);
      StepIsHarmlessIff(log.trace[i], d0.next);
    }
    forall i | 0 <= i < |log.trace| && log.trace[i].act.Elsewhere?
      ensures UnlinksOwn(log.trace[i])
    {
    }
  }

  /** While others leave the builder's files alone, its unlink meets nothing else. */
  lemma RespectfulIsHarmless(d0: Disk, d: Disk, log: Log)
    requires Consistent(d0, d, log) && Respectful(log.trace)
    ensures forall i :: 0 <= i < |log.trace| ==> UnlinksOwn(log.trace[i])
  {
    forall i | 0 <= i < |log.trace|
      ensures UnlinksOwn(log.trace[i])
    {
      assert StepOk(log.trace[i], d0.next);
      assert HeldAt(log.trace, i);
      RespectfulBefore(log.trace[..i], log.trace);
    }
  }

  // ---------------------------------------------------------------- a run in which it harms

  const TEMP_NAME := ".candidate-manifest-0.tmp"
  const TEMP: Path := [TEMP_NAME]
  const MANIFEST: Path := ["manifest.json"]
  const AT: Place := (ROOT, TEMP_NAME)
  const BARE := Disk(map[], (p: Place) => ROOT, map[], 1)

  /** Somebody has moved a file of his own over the temporary one, after the manifest was linked. */
  const SWAPPED := Disk(map[AT := File(2), (ROOT, "manifest.json") := File(1)], (p: Place) => ROOT,
                        map[1 := "{}", 2 := "theirs"], 3)

  /** He does so just before call 3; a disk without numbers is none, so nothing else is changed. */
  const SWAPPER: nat -> Disk := n => if n == 3 then SWAPPED else Disk(map[], (p: Place) => ROOT, map[], 0)

  lemma LeadsTo(d: Disk, name: string)
    ensures Where(d, [name]) == Some((ROOT, name))
  {
    assert [name][..0] == [];
  }

  lemma SwappedIsWellFormed()
    ensures WellFormed(SWAPPED) && WellFormed(BARE)
  {
    assert SWAPPED.names.Keys == {AT, (ROOT, "manifest.json")};
  }

  /** The first call of `_publish_manifest`. */
  method CreatedRun() returns (w: World)
    ensures fresh(w) && w.Valid() && w.others == SWAPPER && w.calls == 1 && forall n :: w.works(n)
    ensures w.log.created == [TEMP] && w.log.linked == [] && w.log.removed == []
    ensures w.log.made == map[TEMP := 1] && w.log.own == {1}
    ensures w.disk.names == map[AT := File(1)] && w.disk.next == 2
  {
    SwappedIsWellFormed();
    w := new World(BARE, SWAPPER, _ => true);
    LeadsTo(BARE, TEMP_NAME);
    var handle := w.CreateExclusive(TEMP);
  }

  /** The first two. */
  method StagedRun() returns (w: World)
    ensures fresh(w) && w.Valid() && w.others == SWAPPER && w.calls == 2 && forall n :: w.works(n)
    ensures w.log.created == [TEMP] && w.log.linked == [] && w.log.removed == []
    ensures w.log.made == map[TEMP := 1] && w.log.own == {1}
    ensures w.disk.names == map[AT := File(1)] && w.disk.next == 2
  {
    w := CreatedRun();
    var ok := w.WriteHandle(1, TEMP, "{}");
  }

  /** The third one: the manifest is linked. */
  method LinkedRun() returns (w: World)
    ensures fresh(w) && w.Valid() && w.others == SWAPPER && w.calls == 3 && forall n :: w.works(n)
    ensures w.log.created == [TEMP] && w.log.linked == [MANIFEST] && w.log.removed == []
    ensures TEMP in w.log.made && w.log.own == {1} && w.disk.next == 2
  {
    w := StagedRun();
    LeadsTo(w.disk, TEMP_NAME);
    LeadsTo(w.disk, "manifest.json");
    var ok := w.Link(TEMP, MANIFEST);
  }

  /** The last one: the unlink, after somebody has swapped the temporary file. */
  method RemovedRun() returns (w: World)
    ensures fresh(w) && w.Valid() && UnlinkedLast(w.log, TEMP, SWAPPED) && w.log.own == {1}
    ensures w.log.created == [TEMP] && w.log.linked == [MANIFEST] && w.log.removed == [TEMP]
  {
    w := LinkedRun();
    SwappedIsMet(w);
    UnlinkMeeting(w, TEMP, SWAPPED);
  }

  /**
   The calls of `_publish_manifest`, in its order, while somebody swaps the temporary file: the
   manifest is linked, and the last unlink takes away his file.
   */
  method HarmfulRun() returns (w: World)
    ensures fresh(w) && w.Valid() && w.log.created == [TEMP] && w.log.linked == [MANIFEST] && w.log.removed == [TEMP]
    ensures UnlinkedLast(w.log, TEMP, SWAPPED) && TheirsAt(SWAPPED, AT, w.log.own)
    ensures !KeepsForeign(w.log.trace[|w.log.trace| - 1])
  {
    w := RemovedRun();
    LastIsHarmful(w.initial, w.disk, w.log);
  }

  /** There is an entry at the place, and it is no file of the builder. */
  predicate TheirsAt(d: Disk, p: Place, own: set<nat>) {
    p in d.names && !IsOwn(d.names[p], own)
  }

  /** An unlink that works, of an entry that it meets. */
  method UnlinkMeeting(w: World, path: Path, ghost met: Disk)
    requires w.Valid() && path in w.log.made && w.Met() == met && Unlinkable(met, path) && w.works(w.calls)
    modifies w
    ensures w.Valid() && UnlinkedLast(w.log, path, met) && w.log.own == old(w.log).own
    ensures w.log.created == old(w.log).created && w.log.linked == old(w.log).linked
    ensures w.log.removed == old(w.log).removed + [path]
  {
    w.Unlink(path);
  }

  lemma SwappedIsMet(w: World)
    requires w.others == SWAPPER && w.calls == 3 && w.disk.next == 2
    ensures w.Met() == SWAPPED && Unlinkable(SWAPPED, TEMP)
  {
    SwappedIsWellFormed();
    LeadsTo(SWAPPED, TEMP_NAME);
  }

  lemma LastIsHarmful(d0: Disk, d: Disk, log: Log)
    requires Consistent(d0, d, log) && UnlinkedLast(log, TEMP, SWAPPED)
    requires log.own == {1}
    ensures TheirsAt(SWAPPED, AT, log.own) && !KeepsForeign(log.trace[|log.trace| - 1])
  {
    var s := log.trace[|log.trace| - 1];
    assert StepOk(s, d0.next);
    LeadsTo(SWAPPED, TEMP_NAME);
    StepIsHarmlessIff(s, d0.next);
  }
}

/** Every step of the candidate builder, and of anybody else, keeps the log consistent. */
module CandidateSteps {
  import opened Wrappers
  import opened CandidateDisk

  // ---------------------------------------------------------------- somebody else's step

  lemma KeptByOthers(s: Step, log: Log)
    requires s.own == log.own && s.made == log.made && s.dirs == log.dirs && LeavesAlone(s) && Kept(s.before, log)
    ensures Kept(s.after, log)
  {
    forall path | path in log.made
      ensures Where(s.after, path) == Where(s.before, path) && EntryAt(s.after, path) == Some(File(log.made[path]))
    {
      assert SameAt(s.before, s.after, path);
    }
    forall path | path in log.dirs
      ensures Where(s.after, path) == Some(log.dirs[path].place)
      ensures EntryAt(s.after, path) == Some(Directory(log.dirs[path].id))
    {
      assert SameAt(s.before, s.after, path);
    }
    TidyByOthers(s, log);
  }

  lemma TidyByOthers(s: Step, log: Log)
    requires s.own == log.own && s.made == log.made && LeavesAlone(s) && Tidy(s.before, log.own, log.made)
    ensures Tidy(s.after, log.own, log.made)
  {
    forall p | p in s.after.names && p.0 in log.own
      ensures OwnEntry(s.after, log.own, log.made, p)
    {
      assert p in s.before.names && OwnEntry(s.before, log.own, log.made, p);
      if s.before.names[p].File? {
        var path :| path in log.made && Where(s.before, path) == Some(p);
        assert SameAt(s.before, s.after, path);
      }
    }
  }

  lemma AfterOthers(d0: Disk, log: Log, s: Step)
    requires Starts(d0, log, s) && s.act.Elsewhere? && Later(s.before, s.after)
    ensures Consistent(d0, s.after, Add(log, s)) && Observes(log, s.before, Add(log, s), s.after)
  {
    TracedAfter(d0, log, s, Add(log, s));
    if Respectful(log.trace + [s]) {
      KeptByOthers(s, log);
    }
  }

  // ---------------------------------------------------------------- the builder's steps

  /** More entries, none of them in a directory of the builder but `p`. */
  lemma KeptByGrowth(d: Disk, e: Disk, log: Log, own: set<nat>, made: map<Path, nat>, p: Place)
    requires WellFormed(d) && Grows(d, e) && Kept(d, log)
    requires p in e.names && e.names == d.names[p := e.names[p]]
    requires log.own <= own && (forall n :: n in own && n !in log.own ==> d.next <= n)
    requires forall path :: path in log.made ==> path in made
    requires p.0 in own ==> OwnEntry(e, own, made, p)
    ensures Held(e, log.made) && HeldDirs(e, log.dirs) && Tidy(e, own, made)
    ensures forall path :: path in log.made ==> Where(e, path) == Where(d, path)
  {
    forall path | path in log.made || path in log.dirs
      ensures Where(e, path) == Where(d, path) && EntryAt(e, path) == EntryAt(d, path)
    {
      WhereStays(d, e, path);
    }
    forall q | q in e.names && q.0 in own
      ensures OwnEntry(e, own, made, q)
    {
      if q != p {
        OwnStays(d, e, log, own, made, q);
      }
    }
  }

  lemma OwnStays(d: Disk, e: Disk, log: Log, own: set<nat>, made: map<Path, nat>, q: Place)
    requires WellFormed(d) && Tidy(d, log.own, log.made) && q in d.names && q in e.names && e.names[q] == d.names[q]
    requires q.0 in own && log.own <= own && (forall n :: n in own && n !in log.own ==> d.next <= n)
    requires forall path :: path in log.made && Where(d, path) == Some(q) ==>
               path in made && Where(e, path) == Where(d, path)
    ensures OwnEntry(e, own, made, q)
  {
    assert q.0 < d.next;
    assert OwnEntry(d, log.own, log.made, q);
    if d.names[q].File? {
      var path :| path in log.made && Where(d, path) == Some(q);
    }
  }

  lemma AfterLook(d0: Disk, log: Log, s: Step)
    requires Continues(d0, log, s) && (s.act.ReadFile? || s.act.LookUp?)
    ensures Consistent(d0, s.after, Add(log, s)) && Observes(log, s.before, Add(log, s), s.after)
  {
    TracedAfter(d0, log, s, Add(log, s));
  }

  lemma MkdirContinues(d0: Disk, log: Log, s: Step)
    requires Starts(d0, log, s) && s.act.MakeDirectory? && MakesDirectory(s)
    ensures Continues(d0, log, s)
  {
    DirIsOld(s.before, s.path);
  }

  lemma KeptByMkdir(log: Log, s: Step)
    requires WellFormed(s.before) && MakesDirectory(s) && Kept(s.before, log)
    ensures Kept(s.after, AddDirectory(log, s, Where(s.before, s.path).value)) && s.path !in log.dirs
  {
    var p := Where(s.before, s.path).value;
    KeptByGrowth(s.before, s.after, log, log.own + {s.before.next}, log.made, p);
    WhereStays(s.before, s.after, s.path);
    assert s.path in log.dirs ==> EntryAt(s.before, s.path).Some?;
  }

  lemma AfterMkdir(d0: Disk, log: Log, s: Step)
    requires Starts(d0, log, s) && s.act.MakeDirectory? && MakesDirectory(s)
    ensures var b := AddDirectory(log, s, Where(s.before, s.path).value);
            Consistent(d0, s.after, b) && NewDirectory(log, s.before, b, s.after, s.path)
  {
    var p := Where(s.before, s.path).value;
    MkdirContinues(d0, log, s);
    TracedAfter(d0, log, s, AddDirectory(log, s, p));
    DirIsOld(s.before, s.path);
    if Respectful(log.trace) {
      KeptByMkdir(log, s);
    }
    assert IsMkdir(log.trace + [s], |log.trace|, s.path);
  }

  /** The disk after an exclusive creation at place p. */
  function WithFile(d: Disk, p: Place): Disk {
    d.(names := d.names[p := File(d.next)], contents := d.contents[d.next := ""], next := d.next + 1)
  }

  ghost predicate Creates(s: Step) {
    && s.act.CreateFile? && Where(s.before, s.path).Some? && Where(s.before, s.path).value !in s.before.names
    && s.after == WithFile(s.before, Where(s.before, s.path).value)
  }

  lemma CreateContinues(d0: Disk, log: Log, s: Step)
    requires Starts(d0, log, s) && Creates(s)
    ensures Continues(d0, log, s)
  {
    DirIsOld(s.before, s.path);
  }

  lemma KeptByCreate(log: Log, s: Step)
    requires WellFormed(s.before) && Creates(s) && Kept(s.before, log)
    ensures Kept(s.after, AddCreation(log, s)) && s.path !in log.made
  {
    var p := Where(s.before, s.path).value;
    var made := log.made[s.path := s.before.next];
    WhereStays(s.before, s.after, s.path);
    assert PlacedAt(s.after, made, p);
    assert s.path in log.made ==> EntryAt(s.before, s.path).Some?;
    KeptByGrowth(s.before, s.after, log, log.own + {s.before.next}, made, p);
    forall q | q in log.made
      ensures Where(s.after, q) != Where(s.after, s.path)
    {
      assert EntryAt(s.before, q).Some?;
    }
  }

  lemma AfterCreate(d0: Disk, log: Log, s: Step)
    requires Starts(d0, log, s) && Creates(s)
    ensures var b := AddCreation(log, s);
            Consistent(d0, s.after, b) && NewFile(log, s.before, b, s.after, s.path, s.before.next)
  {
    CreateContinues(d0, log, s);
    TracedAfter(d0, log, s, AddCreation(log, s));
    assert IsCreation(log.trace + [s], |log.trace|, s.path);
    if Respectful(log.trace) {
      KeptByCreate(log, s);
    }
  }

  lemma WriteContinues(d0: Disk, log: Log, s: Step, n: nat, bytes: string)
    requires Starts(d0, log, s) && s.act.WriteFile? && n in log.own
    requires s.after == s.before.(contents := s.before.contents[n := bytes])
    ensures Continues(d0, log, s)
  {
  }

  lemma KeptByWrite(d: Disk, e: Disk, log: Log)
    requires Kept(d, log) && e.names == d.names && e.follow == d.follow && e.next == d.next
    ensures Kept(e, log)
  {
    forall path
      ensures Where(e, path) == Where(d, path) && DirOf(e, path) == DirOf(d, path)
    {
      NamesDecide(d, e, path);
    }
    forall p | p in e.names && p.0 in log.own
      ensures OwnEntry(e, log.own, log.made, p)
    {
      assert OwnEntry(d, log.own, log.made, p);
      if d.names[p].File? {
        var path :| path in log.made && Where(d, path) == Some(p);
        assert Where(e, path) == Some(p);
      }
    }
  }

  lemma {:induction false} NamesDecide(d: Disk, e: Disk, path: Path)
    requires e.names == d.names && e.follow == d.follow && e.next == d.next
    ensures Where(e, path) == Where(d, path) && DirOf(e, path) == DirOf(d, path)
    decreases |path|
  {
    if path != [] {
      NamesDecide(d, e, path[..|path| - 1]);
    }
  }

  lemma AfterWrite(d0: Disk, log: Log, s: Step, n: nat, bytes: string)
    requires Starts(d0, log, s) && s.act.WriteFile? && n in log.own
    requires s.after == s.before.(contents := s.before.contents[n := bytes])
    ensures Consistent(d0, s.after, Add(log, s)) && Writes(log, s.before, Add(log, s), s.after, n)
  {
    WriteContinues(d0, log, s, n, bytes);
    TracedAfter(d0, log, s, Add(log, s));
    if Respectful(log.trace) {
      KeptByWrite(s.before, s.after, log);
    }
  }

  /** `os.link`: a second name for what `from` leads to. */
  ghost predicate Links(s: Step, from: Path) {
    && s.act.LinkName? && EntryAt(s.before, from).Some? && !EntryAt(s.before, from).value.Directory?
    && Where(s.before, s.path).Some? && Where(s.before, s.path).value !in s.before.names
    && s.after == s.before.(names := s.before.names[Where(s.before, s.path).value := EntryAt(s.before, from).value])
  }

  lemma LinkContinues(d0: Disk, log: Log, s: Step, from: Path)
    requires Starts(d0, log, s) && Links(s, from)
    ensures Continues(d0, log, s)
  {
    DirIsOld(s.before, s.path);
  }

  lemma KeptByLink(log: Log, s: Step, from: Path)
    requires WellFormed(s.before) && Links(s, from) && Kept(s.before, log) && from in log.made
    ensures Kept(s.after, AddLink(log, s, from)) && s.path !in log.made
  {
    var p := Where(s.before, s.path).value;
    var made := log.made[s.path := log.made[from]];
    WhereStays(s.before, s.after, s.path);
    assert PlacedAt(s.after, made, p);
    assert s.path in log.made ==> EntryAt(s.before, s.path).Some?;
    KeptByGrowth(s.before, s.after, log, log.own, made, p);
    forall q | q in log.made
      ensures Where(s.after, q) != Where(s.after, s.path)
    {
      assert EntryAt(s.before, q).Some?;
    }
  }

  lemma AfterLink(d0: Disk, log: Log, s: Step, from: Path)
    requires Starts(d0, log, s) && Links(s, from) && from in log.made
    ensures var b := AddLink(log, s, from);
            Consistent(d0, s.after, b) && NewName(log, s.before, b, s.after, from, s.path)
  {
    LinkContinues(d0, log, s, from);
    TracedAfter(d0, log, s, AddLink(log, s, from));
    if Respectful(log.trace) {
      KeptByLink(log, s, from);
    }
  }

  /** `os.unlink`. */
  ghost predicate Unlinks(s: Step) {
    && s.act.UnlinkName? && s.path in s.made && EntryAt(s.before, s.path).Some?
    && s.after == Without(s.before, Where(s.before, s.path).value)
  }

  lemma UnlinkContinues(d0: Disk, log: Log, s: Step)
    requires Starts(d0, log, s) && Unlinks(s)
    ensures Continues(d0, log, s)
  {
  }

  lemma KeptByUnlink(log: Log, s: Step)
    requires Unlinks(s) && s.made == log.made && Kept(s.before, log)
    ensures Kept(s.after, AddUnlink(log, s))
  {
    var p := Where(s.before, s.path).value;
    assert s.before.names[p] == File(log.made[s.path]);
    forall path
      ensures Where(s.after, path) == Where(s.before, path)
    {
      WhereStaysWithout(s.before, p, path);
    }
    forall q | q in s.after.names && q.0 in log.own
      ensures OwnEntry(s.after, log.own, log.made - {s.path}, q)
    {
      assert OwnEntry(s.before, log.own, log.made, q);
      if s.before.names[q].File? {
        var path :| path in log.made && Where(s.before, path) == Some(q);
        assert path in log.made - {s.path} && Where(s.after, path) == Some(q);
      }
    }
  }

  lemma AfterUnlink(d0: Disk, log: Log, s: Step)
    requires Starts(d0, log, s) && Unlinks(s)
    ensures var b := AddUnlink(log, s);
            Consistent(d0, s.after, b) && Removes(log, s.before, b, s.after, s.path)
  {
    UnlinkContinues(d0, log, s);
    TracedAfter(d0, log, s, AddUnlink(log, s));
    if Respectful(log.trace) {
      KeptByUnlink(log, s);
    }
  }

  // ---------------------------------------------------------------- after somebody else's steps

  lemma ThenNewFile(a: Log, da: Disk, b: Log, db: Disk, c: Log, dc: Disk, path: Path, n: nat)
    requires Observes(a, da, b, db) && NewFile(b, db, c, dc, path, n)
    ensures NewFile(a, da, c, dc, path, n)
  {
    FollowsThen(a, da, b, db, c, dc);
  }

  lemma ThenNewDirectory(a: Log, da: Disk, b: Log, db: Disk, c: Log, dc: Disk, path: Path)
    requires Observes(a, da, b, db) && NewDirectory(b, db, c, dc, path)
    ensures NewDirectory(a, da, c, dc, path)
  {
    PassiveThen(a, da, b, db, c, dc);
  }

  lemma ThenWrites(a: Log, da: Disk, b: Log, db: Disk, c: Log, dc: Disk, n: nat)
    requires Observes(a, da, b, db) && Writes(b, db, c, dc, n)
    ensures Writes(a, da, c, dc, n)
  {
    FollowsThen(a, da, b, db, c, dc);
  }

  lemma ThenNewName(a: Log, da: Disk, b: Log, db: Disk, c: Log, dc: Disk, from: Path, to: Path)
    requires Observes(a, da, b, db) && NewName(b, db, c, dc, from, to)
    ensures NewName(a, da, c, dc, from, to)
  {
    FollowsThen(a, da, b, db, c, dc);
  }

  lemma ThenRemoves(a: Log, da: Disk, b: Log, db: Disk, c: Log, dc: Disk, path: Path)
    requires Observes(a, da, b, db) && Removes(b, db, c, dc, path)
    ensures Removes(a, da, c, dc, path)
  {
    FollowsThen(a, da, b, db, c, dc);
  }
}

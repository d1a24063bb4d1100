/** What is below the directory that the candidate builder made: exactly the files it created there. */
module CandidateLayout {
  import opened Wrappers
  import opened CandidateDisk

  predicate IsFileAt(d: Disk, path: Path) {
    EntryAt(d, path).Some? && EntryAt(d, path).value.File?
  }

  /** Below `out` there are no links, and the files are at exactly these paths. */
  ghost predicate HoldsExactly(d: Disk, out: Path, targets: seq<Path>) {
    forall path :: out < path ==>
      && (EntryAt(d, path).Some? ==> !EntryAt(d, path).value.Symlink?)
      && (IsFileAt(d, path) <==> path in targets)
  }

  /** A directory that the builder made where it had made nothing before. */
  ghost predicate IsRootOf(log: Log, out: Path) {
    out in log.dirs && log.dirs[out].id in log.own && log.dirs[out].place.0 !in log.own
  }

  lemma {:induction false} BelowIsOwn(d: Disk, log: Log, out: Path, path: Path)
    requires Kept(d, log) && IsRootOf(log, out) && out <= path && DirOf(d, path).Some?
    ensures DirOf(d, path).value in log.own
    decreases |path|
  {
    if out == path {
      RootIs(d, log, out);
    } else {
      var front := path[..|path| - 1];
      assert out <= front;
      BelowIsOwn(d, log, out, front);
      assert OwnEntry(d, log.own, log.made, (DirOf(d, front).value, path[|path| - 1]));
    }
  }

  lemma RootIs(d: Disk, log: Log, out: Path)
    requires HeldDirs(d, log.dirs) && out in log.dirs
    ensures out != [] && DirOf(d, out) == Some(log.dirs[out].id)
    ensures DirOf(d, out[..|out| - 1]) == Some(log.dirs[out].place.0)
  {
  }

  /** The entry through which a directory other than the root is entered. */
  lemma EnteredAt(d: Disk, log: Log, out: Path, path: Path) returns (p: Place)
    requires Kept(d, log) && IsRootOf(log, out) && out < path && DirOf(d, path).Some?
    ensures DirOf(d, path[..|path| - 1]).Some? && p == (DirOf(d, path[..|path| - 1]).value, path[|path| - 1])
    ensures p.0 in log.own && p in d.names && d.names[p] == Directory(DirOf(d, path).value)
  {
    var front := path[..|path| - 1];
    assert out <= front;
    BelowIsOwn(d, log, out, front);
    p := (DirOf(d, front).value, path[|path| - 1]);
    assert OwnEntry(d, log.own, log.made, p);
  }

  /** One directory below `out` has one path below `out`. */
  lemma {:induction false} OnePath(d: Disk, log: Log, out: Path, a: Path, b: Path)
    requires WellFormed(d) && Kept(d, log) && IsRootOf(log, out) && out <= a && out <= b
    requires DirOf(d, a).Some? && DirOf(d, b) == DirOf(d, a)
    ensures a == b
    decreases |a|
  {
    RootIs(d, log, out);
    if out != a && out != b {
      var p := EnteredAt(d, log, out, a);
      var q := EnteredAt(d, log, out, b);
      assert p == q;
      assert out <= a[..|a| - 1] && out <= b[..|b| - 1];
      OnePath(d, log, out, a[..|a| - 1], b[..|b| - 1]);
      assert a == a[..|a| - 1] + [a[|a| - 1]] && b == b[..|b| - 1] + [b[|b| - 1]];
    } else if out != a {
      var p := EnteredAt(d, log, out, a);
    } else if out != b {
      var q := EnteredAt(d, log, out, b);
    }
  }

  predicate IsSibling(path: Path, out: Path) {
    path != [] && out != [] && path[..|path| - 1] == out[..|out| - 1]
  }

  /** A file below `out` is at the path it was created at. */
  lemma FileIsMade(d: Disk, log: Log, out: Path, path: Path, made: Path)
    requires WellFormed(d) && Kept(d, log) && IsRootOf(log, out) && out < path
    requires Where(d, path).Some? && Where(d, made) == Where(d, path) && (out < made || IsSibling(made, out))
    ensures made == path
  {
    var front := path[..|path| - 1];
    RootIs(d, log, out);
    assert out <= front;
    BelowIsOwn(d, log, out, front);
    if out < made {
      assert out <= made[..|made| - 1];
      OnePath(d, log, out, front, made[..|made| - 1]);
      assert path == front + [path[|path| - 1]] && made == made[..|made| - 1] + [made[|made| - 1]];
    }
  }

  /** The builder created the targets below `out`, and everything else beside it. */
  ghost predicate CreatedThere(log: Log, out: Path, targets: seq<Path>) {
    && (forall path :: path in targets ==> out < path && path in log.made)
    && (forall path :: path in log.created || path in log.linked ==> path in targets || IsSibling(path, out))
  }

  /** Left alone, the directory that the builder made holds its targets and nothing else. */
  lemma ExactlyTargets(d0: Disk, d: Disk, log: Log, out: Path, targets: seq<Path>)
    requires Consistent(d0, d, log) && Respectful(log.trace) && IsRootOf(log, out) && CreatedThere(log, out, targets)
    ensures HoldsExactly(d, out, targets)
  {
    forall path | out < path
      ensures EntryAt(d, path).Some? ==> !EntryAt(d, path).value.Symlink?
      ensures IsFileAt(d, path) <==> path in targets
    {
      if EntryAt(d, path).Some? {
        assert out <= path[..|path| - 1];
        BelowIsOwn(d, log, out, path[..|path| - 1]);
        assert OwnEntry(d, log.own, log.made, Where(d, path).value);
      }
      if IsFileAt(d, path) {
        var made :| made in log.made && Where(d, made) == Where(d, path);
        FileIsMade(d, log, out, path, made);
      }
    }
  }
}

/** Which entries a walk or a copy may add, and what that means for the paths below a new directory. */
module TreeGrowth {
  import opened Wrappers
  import opened DirectoryTree

  /** Nothing changed, or one missing directory was made. */
  ghost predicate MadeAtMost(t: Tree, u: Tree, dir: nat, name: string) {
    u == t || ((dir, name) !in t.lookup && u == Added(t, dir, name))
  }

  predicate NoEntries(t: Tree, dir: nat) {
    forall k :: k in t.lookup ==> k.0 != dir
  }

  ghost predicate AlongAt(t: Tree, start: nat, parts: seq<string>, i: int, key: (nat, string)) {
    0 <= i < |parts| && Leads(t, start, parts[..i], key.0) && key.1 == parts[i]
  }

  ghost predicate OnPath(t: Tree, start: nat, parts: seq<string>, key: (nat, string)) {
    exists i :: AlongAt(t, start, parts, i, key)
  }

  /** Every new entry lies on the path `parts` from `start`. */
  ghost predicate KeysAlong(t: Tree, u: Tree, start: nat, parts: seq<string>) {
    forall key :: key in u.lookup && key !in t.lookup ==> OnPath(u, start, parts, key)
  }

  /** The walk is at `dir` after the parts so far, and has made only what it found missing. */
  ghost predicate WalkedTo(base: Tree, t: Tree, start: nat, parts: seq<string>, dir: nat) {
    && Extends(base, t) && Leads(t, start, parts, dir) && KeysAlong(base, t, start, parts)
    && (t == base || NoEntries(t, dir))
  }

  lemma AlongStays(t: Tree, u: Tree, start: nat, parts: seq<string>, more: seq<string>, key: (nat, string))
    requires Extends(t, u) && parts <= more && OnPath(t, start, parts, key)
    ensures OnPath(u, start, more, key)
  {
    var i :| AlongAt(t, start, parts, i, key);
    assert more[..i] == parts[..i];
    LeadsInExtension(t, u, start, parts[..i], key.0);
    assert AlongAt(u, start, more, i, key);
  }

  lemma KeysOneMore(base: Tree, t: Tree, u: Tree, start: nat, parts: seq<string>, i: nat, dir: nat, made: nat)
    requires i < |parts| && KeysAlong(base, t, start, parts[..i]) && Leads(t, start, parts[..i], dir)
    requires Extends(t, u) && u.lookup == t.lookup[(dir, parts[i]) := made]
    ensures KeysAlong(base, u, start, parts[..i + 1])
  {
    forall key | key in u.lookup && key !in base.lookup
      ensures OnPath(u, start, parts[..i + 1], key)
    {
      if key in t.lookup {
        AlongStays(t, u, start, parts[..i], parts[..i + 1], key);
      } else {
        assert parts[..i + 1][..i] == parts[..i];
        LeadsInExtension(t, u, start, parts[..i], dir);
        assert AlongAt(u, start, parts[..i + 1], i, key);
      }
    }
  }

  lemma KeysSame(base: Tree, t: Tree, start: nat, parts: seq<string>, i: nat)
    requires i < |parts| && KeysAlong(base, t, start, parts[..i])
    ensures KeysAlong(base, t, start, parts[..i + 1])
  {
    forall key | key in t.lookup && key !in base.lookup
      ensures OnPath(t, start, parts[..i + 1], key)
    {
      var j :| AlongAt(t, start, parts[..i], j, key);
      assert parts[..i + 1][..j] == parts[..i][..j];
      assert AlongAt(t, start, parts[..i + 1], j, key);
    }
  }

  lemma WalkedOneMore(base: Tree, t: Tree, u: Tree, start: nat, parts: seq<string>, i: nat, dir: nat)
    requires i < |parts| && WellFormed(t) && dir < t.next && WalkedTo(base, t, start, parts[..i], dir)
    requires Extends(t, u) && MadeAtMost(t, u, dir, parts[i]) && (dir, parts[i]) in u.lookup
    ensures WalkedTo(base, u, start, parts[..i + 1], u.lookup[(dir, parts[i])])
  {
    ExtendsThen(base, t, u);
    LeadsInExtension(t, u, start, parts[..i], dir);
    LeadsOneMore(u, start, parts, i, dir);
    if u == t {
      KeysSame(base, t, start, parts, i);
    } else {
      KeysOneMore(base, t, u, start, parts, i, dir, t.next);
    }
  }

  /** After the parents were made, a name is free exactly when it led nowhere before. */
  lemma FreeIff(base: Tree, t: Tree, start: nat, parts: seq<string>, dir: nat)
    requires parts != [] && WalkedTo(base, t, start, parts[..|parts| - 1], dir)
    ensures (dir, parts[|parts| - 1]) !in t.lookup <==> Walk(base, start, parts).None?
  {
    if Walk(base, start, parts).Some? {
      WalkInExtension(base, t, start, parts);
    }
  }

  // ---------------------------------------------------------------- below a directory made since `before`

  ghost predicate HasOldEntry(t: Tree, node: nat, bound: nat) {
    exists key :: key in t.lookup && key.0 < bound && t.lookup[key] == node
  }

  /** `made` was made since `before`, in a directory that was there before. */
  ghost predicate NewDir(before: Tree, t: Tree, made: nat) {
    && WellFormed(before) && WellFormed(t) && Extends(before, t)
    && before.next <= made < t.next && HasOldEntry(t, made, before.next)
  }

  lemma NewDirStays(before: Tree, t: Tree, u: Tree, made: nat)
    requires NewDir(before, t, made) && WellFormed(u) && Extends(t, u)
    ensures NewDir(before, u, made)
  {
    ExtendsThen(before, t, u);
    var key :| key in t.lookup && key.0 < before.next && t.lookup[key] == made;
    assert key in u.lookup && u.lookup[key] == made;
  }

  lemma JustMade(before: Tree, dir: nat, name: string)
    requires WellFormed(before) && dir < before.next && (dir, name) !in before.lookup
    ensures NewDir(before, Added(before, dir, name), before.next)
    ensures NoEntries(Added(before, dir, name), before.next)
  {
    AddedIsWellFormed(before, dir, name);
    assert (dir, name) in Added(before, dir, name).lookup;
  }

  /** There is one way from a new directory to each thing below it. */
  lemma {:induction false} OneWay(before: Tree, t: Tree, made: nat, a: seq<string>, b: seq<string>)
    requires NewDir(before, t, made) && Walk(t, made, a).Some? && Walk(t, made, b).Some?
    requires Last(Walk(t, made, a).value) == Last(Walk(t, made, b).value)
    ensures a == b
    decreases |a|
  {
    if a != [] && b != [] {
      var n := Last(Walk(t, made, a).value);
      BelowIsNew(before, t, made, a, n);
      assert t.lookup[EntryOf(t, made, a)] == t.lookup[EntryOf(t, made, b)] == n;
      OneWay(before, t, made, a[..|a| - 1], b[..|b| - 1]);
      assert a == a[..|a| - 1] + [a[|a| - 1]] && b == b[..|b| - 1] + [b[|b| - 1]];
    } else if a != [] {
      NotItself(before, t, made, a);
    } else if b != [] {
      NotItself(before, t, made, b);
    }
  }

  /** The entry that a walk ends with. */
  function EntryOf(t: Tree, start: nat, names: seq<string>): (key: (nat, string))
    requires names != [] && Walk(t, start, names).Some?
    ensures key in t.lookup && t.lookup[key] == Last(Walk(t, start, names).value)
    ensures Leads(t, start, names[..|names| - 1], key.0) && key.1 == names[|names| - 1]
  {
    (Last(Walk(t, start, names[..|names| - 1]).value), names[|names| - 1])
  }

  lemma NotItself(before: Tree, t: Tree, made: nat, names: seq<string>)
    requires NewDir(before, t, made) && names != [] && Walk(t, made, names).Some?
    ensures Last(Walk(t, made, names).value) != made
  {
    var key :| key in t.lookup && key.0 < before.next && t.lookup[key] == made;
    var last := EntryOf(t, made, names);
    BelowIsNew(before, t, made, names[..|names| - 1], last.0);
  }

  /** A walk to an old node was there before. */
  lemma {:induction false} OldWalk(t: Tree, u: Tree, start: nat, names: seq<string>)
    requires WellFormed(t) && Extends(t, u) && Walk(u, start, names).Some? && Last(Walk(u, start, names).value) < t.next
    ensures Walk(t, start, names) == Walk(u, start, names)
    decreases |names|
  {
    if names != [] {
      assert EntryOf(u, start, names) in t.lookup;
      OldWalk(t, u, start, names[..|names| - 1]);
    }
  }

  /** Adding entries along one path adds no path but its fronts. */
  lemma PathsGrow(before: Tree, t: Tree, u: Tree, made: nat, parts: seq<string>, path: seq<string>)
    requires NewDir(before, t, made) && WellFormed(u) && Extends(t, u) && KeysAlong(t, u, made, parts)
    requires Walk(u, made, path).Some?
    ensures Walk(t, made, path).Some? || path <= parts
  {
    if path != [] {
      var key := EntryOf(u, made, path);
      if key in t.lookup {
        OldWalk(t, u, made, path[..|path| - 1]);
      } else {
        NewDirStays(before, t, u, made);
        PathAlong(before, u, made, parts, path);
      }
    }
  }

  lemma PathAlong(before: Tree, u: Tree, made: nat, parts: seq<string>, path: seq<string>)
    requires NewDir(before, u, made) && path != [] && Walk(u, made, path).Some?
    requires OnPath(u, made, parts, EntryOf(u, made, path))
    ensures path <= parts
  {
    var key := EntryOf(u, made, path);
    var i :| AlongAt(u, made, parts, i, key);
    OneWay(before, u, made, path[..|path| - 1], parts[..i]);
    IsFront(path, parts, i);
  }

  lemma IsFront(path: seq<string>, parts: seq<string>, i: nat)
    requires i < |parts| && path != [] && path[..|path| - 1] == parts[..i] && path[|path| - 1] == parts[i]
    ensures path <= parts
  {
    assert |path| - 1 == i;
    assert forall j :: 0 <= j < i ==> path[j] == path[..|path| - 1][j] == parts[..i][j];
  }

  /** Nothing leads anywhere from a directory without entries. */
  lemma {:induction false} EmptyLeadsNowhere(t: Tree, start: nat, names: seq<string>)
    requires NoEntries(t, start) && names != []
    ensures Walk(t, start, names).None?
    decreases |names|
  {
    if |names| > 1 {
      EmptyLeadsNowhere(t, start, names[..|names| - 1]);
    } else {
      assert names[..0] == [];
    }
  }
}

/**
 The directory walks of the runtime materializer: component by component, each child taking
 over the ownership of `current` before its parent is closed.
 */
module RuntimeWalk {
  import opened Wrappers
  import opened DirectoryTree
  import opened Descriptors
  import opened TreeGrowth

  /** How a pathlib path is rooted; POSIX keeps exactly two leading slashes apart from one. */
  datatype Anchor = Relative | Slash | DoubleSlash

  datatype Path = Path(anchor: Anchor, names: seq<string>)

  datatype Pinned = Pinned(path: Path, fd: nat, identities: seq<nat>)

  /** Closing on the way out: an exception of the close itself wins. */
  method Abandon(k: Kernel, fd: nat, error: Error, ghost a: Table, ghost kept: set<nat>) returns (e: Error)
    requires k.Valid() && Sound(a) && Balanced(a, k.t, kept) && fd in kept
    modifies k`t, k`calls, k`raised
    ensures k.Valid() && Balanced(a, k.t, kept - {fd}) && NewOnly(old(k.raised), k.raised, |a.nodes|)
    ensures k.calls == old(k.calls) + 1 && k.t.nodes == old(k.t.nodes)
    ensures e == error || e == OSError
  {
    var ok := k.Close(fd);
    BalancedClose(a, old(k.t), kept, [fd]);
    assert kept - (set x | x in [fd]) == kept - {fd};
    e := if ok then error else OSError;
  }

  /** The end of a `finally` that closes one descriptor. */
  method Finally(k: Kernel, fd: nat, error: Option<Error>, ghost a: Table, ghost kept: set<nat>)
      returns (e: Option<Error>)
    requires k.Valid() && Sound(a) && Balanced(a, k.t, kept) && fd in kept
    modifies k`t, k`calls, k`raised
    ensures k.Valid() && Balanced(a, k.t, kept - {fd}) && k.t.nodes == old(k.t.nodes)
    ensures k.raised == old(k.raised) + (if k.Works(old(k.calls)) then [] else [fd])
    ensures NewOnly(old(k.raised), k.raised, |a.nodes|)
    ensures k.calls == old(k.calls) + 1 && (e.None? <==> error.None? && k.Works(old(k.calls)))
  {
    var ok := k.Close(fd);
    BalancedClose(a, old(k.t), kept, [fd]);
    assert kept - (set x | x in [fd]) == kept - {fd};
    e := if ok then error else Some(OSError);
  }

  /**
   The ownership hand-over: `child` was opened below `current` and is `current` from now on; the
   parent is closed, and when that or a later check of the child fails, so is the child.
   */
  method HandOver(k: Kernel, current: nat, child: nat, check: bool, ghost a: Table) returns (error: Option<Error>)
    requires k.Valid() && Sound(a) && current != child && Balanced(a, k.t, {current, child})
    modifies k`t, k`calls, k`raised
    ensures k.Valid() && k.t.nodes == old(k.t.nodes) && NewOnly(old(k.raised), k.raised, |a.nodes|)
    ensures old(k.calls) <= k.calls
    ensures Balanced(a, k.t, if error.None? then {child} else {})
    ensures error.None? <==> k.Quiet(old(k.calls), k.calls)
  {
    error := Finally(k, current, None, a, {current, child});
    assert {current, child} - {current} == {child};
    if error.None? && check {
      error := k.Probe();
    }
    if error.Some? {
      error := Finally(k, child, error, a, {child});
      assert {child} - {child} == {};
    }
  }

  /** One component of the walk. */
  method StepInto(k: Kernel, current: nat, name: string, ghost a: Table) returns (r: Result<nat, Error>)
    requires k.Valid() && Sound(a) && current in k.t.open && Balanced(a, k.t, {current})
    modifies k`t, k`calls, k`raised
    ensures k.Valid() && old(k.calls) <= k.calls
    ensures r.Success? <==> (old(k.t).nodes[current], name) in k.tree.lookup && k.Quiet(old(k.calls), k.calls)
    ensures r.Failure? ==> Balanced(a, k.t, {})
    ensures r.Success? ==>
      Balanced(a, k.t, {r.value}) && k.t.nodes[r.value] == k.tree.lookup[(old(k.t).nodes[current], name)]
  {
    var child := OpenInto(k, current, name, a);
    if child.Failure? {
      return child;
    }
    var error := HandOver(k, current, child.value, true, a);
    r := if error.Some? then Failure(error.value) else Success(child.value);
  }

  /** Open the child; when that fails, the parent is closed. */
  method OpenInto(k: Kernel, current: nat, name: string, ghost a: Table) returns (child: Result<nat, Error>)
    requires k.Valid() && Sound(a) && current in k.t.open && Balanced(a, k.t, {current})
    modifies k`t, k`calls, k`raised
    ensures k.Valid() && old(k.calls) < k.calls && NewOnly(old(k.raised), k.raised, |a.nodes|)
    ensures child.Success? <==> k.Works(old(k.calls)) && (old(k.t).nodes[current], name) in k.tree.lookup
    ensures child.Failure? ==> Balanced(a, k.t, {})
    ensures child.Success? ==>
      && k.calls == old(k.calls) + 1 && k.raised == old(k.raised)
      && child.value != current && child.value < |k.t.nodes| && Balanced(a, k.t, {current, child.value})
      && k.t.nodes[child.value] == k.tree.lookup[(old(k.t).nodes[current], name)]
  {
    var fd := k.OpenAt(current, name);
    if fd.Failure? {
      var e := Abandon(k, current, OSError, a, {current});
      assert {current} - {current} == {};
      return Failure(e);
    }
    BalancedOpen(a, old(k.t), {current}, k.tree.lookup[(old(k.t).nodes[current], name)]);
    assert {current} + {fd.value} == {current, fd.value};
    child := Success(fd.value);
  }

  lemma WalkOneMore(t: Tree, names: seq<string>, i: nat, chain: seq<nat>)
    requires i < |names| && Walk(t, t.root, names[..i]) == Some(chain)
    requires (Last(chain), names[i]) in t.lookup
    ensures Walk(t, t.root, names[..i + 1]) == Some(chain + [t.lookup[(Last(chain), names[i])]])
  {
    assert names[..i + 1][..i] == names[..i];
  }

  lemma WalkStops(t: Tree, names: seq<string>, i: nat, chain: seq<nat>)
    requires i < |names| && Walk(t, t.root, names[..i]) == Some(chain) && (Last(chain), names[i]) !in t.lookup
    ensures Walk(t, t.root, names).None?
  {
    assert names[..i + 1][..i] == names[..i];
    if Walk(t, t.root, names).Some? {
      WalkOfFront(t, t.root, names, i + 1);
    }
  }

  /** Where an absolute path without `..` leads. */
  predicate Leading(t: Tree, path: Path) {
    path.anchor != Relative && ".." !in path.names && Walk(t, t.root, path.names).Some?
  }

  /**
   `_pin_absolute_directory`: exactly one descriptor more, for the directory that the path walks
   to, or none; whatever was opened on the way is closed once.  It succeeds exactly when the path
   leads somewhere and no call on the way fails.
   */
  method PinAbsoluteDirectory(k: Kernel, path: Path) returns (r: Result<Pinned, Error>)
    requires k.Valid()
    modifies k`t, k`calls, k`raised
    ensures k.Valid() && old(k.calls) <= k.calls
    ensures r.Success? <==> Leading(k.tree, path) && k.Quiet(old(k.calls), k.calls)
    ensures r.Failure? ==> Balanced(old(k.t), k.t, {})
    ensures r.Success? ==>
      && Balanced(old(k.t), k.t, {r.value.fd}) && r.value.path == path
      && Reached(k, path.names, r.value.fd, r.value.identities)
  {
    ghost var a := k.t;
    BalancedStart(a);
    if path.anchor == Relative || ".." in path.names {
      return Failure(ValueError);
    }
    var root := k.OpenRoot();
    if root.Failure? {
      return Failure(OSError);
    }
    BalancedOpen(a, a, {}, k.tree.root);
    assert {} + {root.value} == {root.value};
    r := WalkDown(k, root.value, path, a);
    k.QuietOnce(old(k.calls));
    k.QuietSplits(old(k.calls), old(k.calls) + 1, k.calls);
  }

  /** `current` and `identities` are where the first i names lead. */
  ghost predicate Reached(k: Kernel, names: seq<string>, current: nat, identities: seq<nat>)
    reads k
  {
    && identities != [] && Walk(k.tree, k.tree.root, names) == Some(identities)
    && current < |k.t.nodes| && k.t.nodes[current] == Last(identities)
  }

  method WalkDown(k: Kernel, root: nat, path: Path, ghost a: Table) returns (r: Result<Pinned, Error>)
    requires k.Valid() && Sound(a) && Balanced(a, k.t, {root}) && k.t.nodes[root] == k.tree.root
    modifies k`t, k`calls, k`raised
    ensures k.Valid() && old(k.calls) <= k.calls
    ensures r.Success? <==> Walk(k.tree, k.tree.root, path.names).Some? && k.Quiet(old(k.calls), k.calls)
    ensures r.Failure? ==> Balanced(a, k.t, {})
    ensures r.Success? ==>
      && Balanced(a, k.t, {r.value.fd}) && r.value.path == path
      && Reached(k, path.names, r.value.fd, r.value.identities)
  {
    var error := Checked(k, root, a);
    if error.Some? {
      return Failure(error.value);
    }
    var end := WalkNames(k, root, path.names, a);
    if end.Failure? {
      return Failure(end.error);
    }
    error := Checked(k, end.value.0, a);
    r := if error.Some? then Failure(error.value) else Success(Pinned(path, end.value.0, end.value.1));
  }

  /** A check of an open descriptor, which is closed when the check fails. */
  method Checked(k: Kernel, fd: nat, ghost a: Table) returns (error: Option<Error>)
    requires k.Valid() && Sound(a) && Balanced(a, k.t, {fd})
    modifies k`t, k`calls, k`raised
    ensures k.Valid() && old(k.calls) < k.calls
    ensures error.None? <==> k.Quiet(old(k.calls), k.calls)
    ensures error.None? ==> k.t == old(k.t) && k.raised == old(k.raised)
    ensures error.Some? ==> Balanced(a, k.t, {})
  {
    error := k.Probe();
    if error.Some? {
      var e := Abandon(k, fd, error.value, a, {fd});
      assert {fd} - {fd} == {};
      error := Some(e);
    }
  }

  /** The loop of the walk. */
  method WalkNames(k: Kernel, root: nat, names: seq<string>, ghost a: Table) returns (r: Result<(nat, seq<nat>), Error>)
    requires k.Valid() && Sound(a) && Balanced(a, k.t, {root}) && k.t.nodes[root] == k.tree.root
    modifies k`t, k`calls, k`raised
    ensures k.Valid() && old(k.calls) <= k.calls
    ensures r.Success? <==> Walk(k.tree, k.tree.root, names).Some? && k.Quiet(old(k.calls), k.calls)
    ensures r.Failure? ==> Balanced(a, k.t, {})
    ensures r.Success? ==> Balanced(a, k.t, {r.value.0}) && Reached(k, names, r.value.0, r.value.1)
  {
    var current, identities := root, [k.t.nodes[root]];
    var i := 0;
    while i < |names|
      invariant 0 <= i <= |names| && k.Valid() && k.tree == old(k.tree)
      invariant old(k.calls) <= k.calls && k.Quiet(old(k.calls), k.calls)
      invariant Balanced(a, k.t, {current}) && Reached(k, names[..i], current, identities)
    {
      var child := StepAlong(k, current, names, i, identities, a);
      if child.Failure? {
        return Failure(child.error);
      }
      current, identities := child.value, identities + [k.t.nodes[child.value]];
      i := i + 1;
    }
    assert names[..i] == names;
    r := Success((current, identities));
  }

  method StepAlong(k: Kernel, current: nat, names: seq<string>, i: nat, identities: seq<nat>, ghost a: Table)
      returns (r: Result<nat, Error>)
    requires k.Valid() && Sound(a) && current in k.t.open && Balanced(a, k.t, {current})
    requires i < |names| && Reached(k, names[..i], current, identities)
    modifies k`t, k`calls, k`raised
    ensures k.Valid() && old(k.calls) <= k.calls
    ensures r.Success? ==> k.Quiet(old(k.calls), k.calls)
    ensures r.Failure? ==> !k.Quiet(old(k.calls), k.calls) || Walk(k.tree, k.tree.root, names).None?
    ensures r.Failure? ==> Balanced(a, k.t, {})
    ensures r.Success? ==>
      && Balanced(a, k.t, {r.value}) && r.value < |k.t.nodes|
      && Reached(k, names[..i + 1], r.value, identities + [k.t.nodes[r.value]])
  {
    if (Last(identities), names[i]) !in k.tree.lookup {
      WalkStops(k.tree, names, i, identities);
    }
    r := StepInto(k, current, names[i], a);
    if r.Success? {
      WalkOneMore(k.tree, names, i, identities);
    }
  }

  // ---------------------------------------------------------------- inside a pinned root

  /** The child that `name` means below `current` by now. */
  ghost predicate IsChild(tree: Tree, nodes: seq<nat>, current: nat, name: string, child: nat) {
    && current < |nodes| && child < |nodes| && (nodes[current], name) in tree.lookup
    && nodes[child] == tree.lookup[(nodes[current], name)]
  }

  /** What opening a directory below `current` needs: no failing call, and an entry, unless it may be made. */
  ghost predicate Opens(k: Kernel, first: nat, tree: Tree, node: nat, name: string, create: bool)
    reads k
  {
    k.Quiet(first, k.calls) && (create || (node, name) in tree.lookup)
  }

  /** One more directory below `current`, made first when it is missing and `create` allows it. */
  method OpenOrMake(k: Kernel, current: nat, name: string, create: bool) returns (child: Result<nat, Errno>)
    requires k.Valid() && current in k.t.open
    modifies k`t, k`tree, k`calls
    ensures k.Valid() && Extends(old(k.tree), k.tree) && (!create ==> k.tree == old(k.tree))
    ensures MadeAtMost(old(k.tree), k.tree, old(k.t).nodes[current], name) && old(k.calls) <= k.calls
    ensures child.Success? <==> Opens(k, old(k.calls), old(k.tree), old(k.t).nodes[current], name, create)
    ensures child.Failure? ==> k.t == old(k.t)
    ensures child.Success? ==> IsOpened(old(k.t), k.t, k.tree, current, name, child.value)
  {
    child := OpenChild(k, current, name);
    k.QuietOnce(old(k.calls));
    if child == Failure(NotFound) && create {
      child := MakeChild(k, current, name);
      k.QuietSplits(old(k.calls), old(k.calls) + 1, k.calls);
    } else {
      ExtendsSelf(k.tree);
    }
  }

  /** From a to b one descriptor was opened, on what `name` means below `current`. */
  ghost predicate IsOpened(a: Table, b: Table, tree: Tree, current: nat, name: string, child: nat) {
    && current < |a.nodes| && (a.nodes[current], name) in tree.lookup
    && child == |a.nodes| && b == Opened(a, tree.lookup[(a.nodes[current], name)])
  }

  method MakeChild(k: Kernel, current: nat, name: string) returns (child: Result<nat, Errno>)
    requires k.Valid() && current in k.t.open && (k.t.nodes[current], name) !in k.tree.lookup
    modifies k`t, k`tree, k`calls
    ensures k.Valid() && Extends(old(k.tree), k.tree) && old(k.calls) <= k.calls
    ensures MadeAtMost(old(k.tree), k.tree, old(k.t).nodes[current], name)
    ensures child.Success? <==> k.Quiet(old(k.calls), k.calls)
    ensures child.Failure? ==> k.t == old(k.t)
    ensures child.Success? ==> IsOpened(old(k.t), k.t, k.tree, current, name, child.value)
  {
    var made := MakeEntry(k, current, name);
    if !made {
      return Failure(Other);
    }
    child := OpenChild(k, current, name);
    k.QuietTwice(old(k.calls));
  }

  /** `os.mkdir` of a name that is missing. */
  method MakeEntry(k: Kernel, current: nat, name: string) returns (made: bool)
    requires k.Valid() && current in k.t.open && (k.t.nodes[current], name) !in k.tree.lookup
    modifies k`tree, k`calls
    ensures k.Valid() && Extends(old(k.tree), k.tree) && k.calls == old(k.calls) + 1
    ensures made <==> k.Works(old(k.calls))
    ensures MadeAtMost(old(k.tree), k.tree, k.t.nodes[current], name)
    ensures made ==> (k.t.nodes[current], name) in k.tree.lookup
    ensures !made ==> !k.Quiet(old(k.calls), k.calls)
  {
    made := k.MkdirAt(current, name);
    k.QuietOnce(old(k.calls));
    if made {
      AddedIsWellFormed(old(k.tree), k.t.nodes[current], name);
    } else {
      ExtendsSelf(k.tree);
    }
  }

  method OpenChild(k: Kernel, current: nat, name: string) returns (child: Result<nat, Errno>)
    requires k.Valid() && current in k.t.open
    modifies k`t, k`calls
    ensures k.Valid() && k.calls == old(k.calls) + 1
    ensures child.Success? <==> k.Works(old(k.calls)) && (old(k.t).nodes[current], name) in k.tree.lookup
    ensures child == Failure(NotFound) <==>
      k.Works(old(k.calls)) && (old(k.t).nodes[current], name) !in k.tree.lookup
    ensures child.Failure? ==> k.t == old(k.t)
    ensures child.Success? ==> IsOpened(old(k.t), k.t, k.tree, current, name, child.value)
  {
    child := k.OpenAt(current, name);
  }

  /** One component below a pinned root: here the child is checked before the hand-over. */
  method StepBelow(k: Kernel, current: nat, name: string, create: bool, ghost a: Table) returns (r: Result<nat, Error>)
    requires k.Valid() && Sound(a) && current in k.t.open && Balanced(a, k.t, {current})
    modifies k`t, k`tree, k`calls, k`raised
    ensures k.Valid() && Extends(old(k.tree), k.tree) && (!create ==> k.tree == old(k.tree))
    ensures MadeAtMost(old(k.tree), k.tree, old(k.t).nodes[current], name)
    ensures NewOnly(old(k.raised), k.raised, |a.nodes|) && old(k.calls) <= k.calls
    ensures r.Success? <==> Opens(k, old(k.calls), old(k.tree), old(k.t).nodes[current], name, create)
    ensures r.Failure? ==> Balanced(a, k.t, {})
    ensures r.Success? ==>
      && Balanced(a, k.t, {r.value}) && old(k.t).nodes <= k.t.nodes
      && IsChild(k.tree, k.t.nodes, current, name, r.value)
  {
    var child := OpenOrMake(k, current, name, create);
    ghost var mid := k.calls;
    if child.Failure? {
      var e := Abandon(k, current, OSError, a, {current});
      k.QuietSplits(old(k.calls), mid, k.calls);
      assert {current} - {current} == {};
      return Failure(e);
    }
    BalancedOpen(a, old(k.t), {current}, k.tree.lookup[(old(k.t).nodes[current], name)]);
    assert {current} + {child.value} == {current, child.value};
    r := TakeOver(k, current, child.value, a);
    k.QuietSplits(old(k.calls), mid, k.calls);
  }

  /** The check of the child and the hand-over. */
  method TakeOver(k: Kernel, current: nat, child: nat, ghost a: Table) returns (r: Result<nat, Error>)
    requires k.Valid() && Sound(a) && current != child && Balanced(a, k.t, {current, child})
    modifies k`t, k`calls, k`raised
    ensures k.Valid() && k.t.nodes == old(k.t.nodes) && NewOnly(old(k.raised), k.raised, |a.nodes|)
    ensures old(k.calls) <= k.calls && (r.Success? <==> k.Quiet(old(k.calls), k.calls))
    ensures r.Failure? ==> Balanced(a, k.t, {})
    ensures r.Success? ==> r.value == child && Balanced(a, k.t, {child})
  {
    var error := k.Probe();
    k.QuietOnce(old(k.calls));
    if error.Some? {
      var e := AbandonBoth(k, child, current, error.value, a);
      k.QuietSplits(old(k.calls), old(k.calls) + 1, k.calls);
      return Failure(e);
    }
    error := HandOver(k, current, child, false, a);
    k.QuietSplits(old(k.calls), old(k.calls) + 1, k.calls);
    r := if error.Some? then Failure(error.value) else Success(child);
  }

  method AbandonBoth(k: Kernel, child: nat, current: nat, error: Error, ghost a: Table) returns (e: Error)
    requires k.Valid() && Sound(a) && child != current && Balanced(a, k.t, {current, child})
    modifies k`t, k`calls, k`raised
    ensures k.Valid() && Balanced(a, k.t, {}) && NewOnly(old(k.raised), k.raised, |a.nodes|)
    ensures k.t.nodes == old(k.t.nodes) && old(k.calls) <= k.calls
  {
    e := Abandon(k, child, error, a, {current, child});
    assert {current, child} - {child} == {current};
    e := Abandon(k, current, e, a, {current});
    assert {current} - {current} == {};
  }

  /** The descriptor `current` is open on what the parts so far lead to, and only missing ones were made. */
  ghost predicate At(base: Tree, tree: Tree, nodes: seq<nat>, start: nat, parts: seq<string>, current: nat) {
    current < |nodes| && WalkedTo(base, tree, start, parts, nodes[current])
  }

  lemma AtStart(tree: Tree, nodes: seq<nat>, first: nat)
    requires WellFormed(tree) && first < |nodes|
    ensures At(tree, tree, nodes, nodes[first], [], first)
  {
    ExtendsSelf(tree);
  }

  lemma AtChild(base: Tree, t: Tree, u: Tree, nodes: seq<nat>, later: seq<nat>, start: nat, parts: seq<string>, i: nat,
                current: nat, child: nat)
    requires i < |parts| && WellFormed(t) && At(base, t, nodes, start, parts[..i], current) && nodes[current] < t.next
    requires Extends(t, u) && nodes <= later && MadeAtMost(t, u, nodes[current], parts[i])
    requires IsChild(u, later, current, parts[i], child)
    ensures At(base, u, later, start, parts[..i + 1], child)
  {
    WalkedOneMore(base, t, u, start, parts, i, nodes[current]);
  }

  /** What a walk below a root needs: no failing call, and a path that leads somewhere, unless it may be made. */
  ghost predicate Arrives(k: Kernel, first: nat, tree: Tree, start: nat, parts: seq<string>, create: bool)
    reads k
  {
    k.Quiet(first, k.calls) && (create || Walk(tree, start, parts).Some?)
  }

  /**
   `_open_relative_parent`: one descriptor more, open on the directory that `parts` leads to, or
   none; it succeeds exactly when no call fails and the path leads somewhere or may be made.
   */
  method OpenRelativeParent(k: Kernel, root: nat, parts: seq<string>, create: bool) returns (r: Result<nat, Error>)
    requires k.Valid() && root in k.t.open
    modifies k`t, k`tree, k`calls, k`raised
    ensures k.Valid() && Extends(old(k.tree), k.tree) && (!create ==> k.tree == old(k.tree))
    ensures old(k.calls) <= k.calls
    ensures r.Success? <==> Arrives(k, old(k.calls), old(k.tree), old(k.t).nodes[root], parts, create)
    ensures r.Failure? ==> Balanced(old(k.t), k.t, {})
    ensures r.Success? ==>
      && Balanced(old(k.t), k.t, {r.value})
      && At(old(k.tree), k.tree, k.t.nodes, old(k.t).nodes[root], parts, r.value)
  {
    ghost var a := k.t;
    BalancedStart(a);
    ExtendsSelf(k.tree);
    var start := k.Dup(root);
    k.QuietOnce(old(k.calls));
    if start.Failure? {
      return Failure(OSError);
    }
    BalancedOpen(a, a, {}, a.nodes[root]);
    assert {} + {start.value} == {start.value};
    r := WalkBelow(k, start.value, parts, create, a);
    k.QuietSplits(old(k.calls), old(k.calls) + 1, k.calls);
  }

  /** The loop over the parts. */
  method WalkBelow(k: Kernel, first: nat, parts: seq<string>, create: bool, ghost a: Table)
      returns (r: Result<nat, Error>)
    requires k.Valid() && Sound(a) && first in k.t.open && Balanced(a, k.t, {first})
    modifies k`t, k`tree, k`calls, k`raised
    ensures k.Valid() && Extends(old(k.tree), k.tree) && (!create ==> k.tree == old(k.tree))
    ensures old(k.calls) <= k.calls
    ensures r.Success? <==> Arrives(k, old(k.calls), old(k.tree), old(k.t).nodes[first], parts, create)
    ensures r.Failure? ==> Balanced(a, k.t, {})
    ensures r.Success? ==>
      && Balanced(a, k.t, {r.value})
      && At(old(k.tree), k.tree, k.t.nodes, old(k.t).nodes[first], parts, r.value)
  {
    ghost var base, start, c := k.tree, k.t.nodes[first], k.calls;
    var current := first;
    var i := 0;
    AtStart(k.tree, k.t.nodes, first);
    k.QuietNow();
    assert parts[..0] == [];
    while i < |parts|
      invariant 0 <= i <= |parts| && k.Valid() && Walking(k, a, base, c, start, parts[..i], current, create)
    {
      var child := StepOn(k, current, start, parts, i, create, a, base, c);
      if child.Failure? {
        return child;
      }
      current := child.value;
      i := i + 1;
    }
    assert parts[..i] == parts;
    r := Success(current);
  }

  /** The walk owns `current`, and no call has failed since call `first`. */
  ghost predicate Walking(k: Kernel, a: Table, base: Tree, first: nat, start: nat, parts: seq<string>, current: nat,
                          create: bool)
    reads k
  {
    && Balanced(a, k.t, {current}) && At(base, k.tree, k.t.nodes, start, parts, current)
    && (!create ==> k.tree == base) && first <= k.calls && k.Quiet(first, k.calls)
  }

  method StepOn(k: Kernel, current: nat, ghost start: nat, parts: seq<string>, i: nat, create: bool, ghost a: Table,
                ghost base: Tree, ghost first: nat)
      returns (r: Result<nat, Error>)
    requires k.Valid() && Sound(a) && i < |parts| && Walking(k, a, base, first, start, parts[..i], current, create)
    modifies k`t, k`tree, k`calls, k`raised
    ensures k.Valid() && Extends(base, k.tree) && (!create ==> k.tree == base) && old(k.calls) <= k.calls
    ensures r.Failure? ==> Balanced(a, k.t, {}) && !Arrives(k, first, base, start, parts, create)
    ensures r.Success? ==> Walking(k, a, base, first, start, parts[..i + 1], r.value, create)
  {
    ghost var node := k.t.nodes[current];
    r := StepBelow(k, current, parts[i], create, a);
    ExtendsThen(base, old(k.tree), k.tree);
    k.QuietSplits(first, old(k.calls), k.calls);
    if r.Success? {
      AtChild(base, old(k.tree), k.tree, old(k.t).nodes, k.t.nodes, start, parts, i, current, r.value);
    } else if !create && (node, parts[i]) !in base.lookup {
      StopsBelow(base, start, parts, i, node);
    }
  }

  lemma StopsBelow(t: Tree, start: nat, parts: seq<string>, i: nat, node: nat)
    requires i < |parts| && Leads(t, start, parts[..i], node) && (node, parts[i]) !in t.lookup
    ensures Walk(t, start, parts).None?
  {
    assert parts[..i + 1][..i] == parts[..i];
    if Walk(t, start, parts).Some? {
      WalkOfFront(t, start, parts, i + 1);
    }
  }

  lemma LeadsToLast(t: Tree, start: nat, parts: seq<string>, dir: nat)
    requires parts != [] && Leads(t, start, parts[..|parts| - 1], dir) && (dir, parts[|parts| - 1]) in t.lookup
    ensures Leads(t, start, parts, t.lookup[(dir, parts[|parts| - 1])])
  {
    LeadsOneMore(t, start, parts, |parts| - 1, dir);
    assert parts[..|parts|] == parts;
  }

  /** There is a file at `parts` below `start`. */
  predicate HasFile(t: Tree, start: nat, parts: seq<string>) {
    Walk(t, start, parts).Some? && Last(Walk(t, start, parts).value) in t.files
  }

  /** What is in the file at `parts` below `start`. */
  function FileAt(t: Tree, start: nat, parts: seq<string>): string
    requires HasFile(t, start, parts)
  {
    t.files[Last(Walk(t, start, parts).value)]
  }

  lemma FileStays(t: Tree, u: Tree, start: nat, parts: seq<string>)
    requires Extends(t, u) && HasFile(t, start, parts)
    ensures HasFile(u, start, parts) && FileAt(u, start, parts) == FileAt(t, start, parts)
  {
    WalkInExtension(t, u, start, parts);
  }

  /**
   `_read_relative_file`: the bytes of that file; no descriptor is left, even when closing the
   parent fails after the open.  It succeeds exactly when the file is there and no call fails.
   */
  method ReadRelativeFile(k: Kernel, root: nat, parts: seq<string>) returns (r: Result<string, Error>)
    requires k.Valid() && root in k.t.open && parts != []
    modifies k`t, k`tree, k`calls, k`raised, k`readings
    ensures k.Valid() && k.tree == old(k.tree) && Balanced(old(k.t), k.t, {}) && old(k.calls) <= k.calls
    ensures r.Success? <==> HasFile(k.tree, old(k.t).nodes[root], parts) && k.Quiet(old(k.calls), k.calls)
    ensures r.Success? ==>
      && r.value == FileAt(k.tree, old(k.t).nodes[root], parts)
      && ReadFrom(old(k.readings), k.readings, k.tree, old(k.t).nodes[root], parts, r.value)
  {
    ghost var start := k.t.nodes[root];
    var parent := OpenRelativeParent(k, root, parts[..|parts| - 1], false);
    if parent.Failure? {
      return Failure(parent.error);
    }
    ghost var dir, mid := k.t.nodes[parent.value], k.calls;
    r := ReadBelow(k, parent.value, parts[|parts| - 1], old(k.t));
    k.QuietSplits(old(k.calls), mid, k.calls);
    if (dir, parts[|parts| - 1]) in k.tree.lookup {
      LeadsToLast(k.tree, start, parts, dir);
    }
  }

  /** One whole file was read, the one at `parts` below `start`, and these were its bytes. */
  ghost predicate ReadFrom(before: seq<(nat, string)>, after: seq<(nat, string)>, t: Tree, start: nat,
                           parts: seq<string>, bytes: string) {
    && |after| == |before| + 1 && before <= after && after[|before|].1 == bytes
    && Leads(t, start, parts, after[|before|].0)
  }

  method ReadBelow(k: Kernel, parent: nat, name: string, ghost a: Table) returns (r: Result<string, Error>)
    requires k.Valid() && Sound(a) && parent in k.t.open && Balanced(a, k.t, {parent})
    modifies k`t, k`calls, k`raised, k`readings
    ensures k.Valid() && Balanced(a, k.t, {}) && old(k.calls) <= k.calls
    ensures r.Success? <==> k.Quiet(old(k.calls), k.calls) && FileIn(k.tree, old(k.t).nodes[parent], name)
    ensures r.Success? ==>
      var node := k.tree.lookup[(old(k.t).nodes[parent], name)];
      r.value == k.tree.files[node] && k.readings == old(k.readings) + [(node, r.value)]
  {
    var file := OpenInto(k, parent, name, a);
    ghost var mid := k.calls;
    if file.Failure? {
      k.QuietOnce(old(k.calls));
      k.QuietSplits(old(k.calls), old(k.calls) + 1, k.calls);
      return Failure(file.error);
    }
    r := ReadHandedOver(k, parent, file.value, a);
    k.QuietOnce(old(k.calls));
    k.QuietSplits(old(k.calls), mid, k.calls);
  }

  predicate FileIn(t: Tree, dir: nat, name: string) {
    (dir, name) in t.lookup && t.lookup[(dir, name)] in t.files
  }

  method ReadHandedOver(k: Kernel, parent: nat, fd: nat, ghost a: Table) returns (r: Result<string, Error>)
    requires k.Valid() && Sound(a) && parent != fd && Balanced(a, k.t, {parent, fd}) && fd < |k.t.nodes|
    modifies k`t, k`calls, k`raised, k`readings
    ensures k.Valid() && Balanced(a, k.t, {}) && old(k.calls) <= k.calls
    ensures r.Success? <==> k.Quiet(old(k.calls), k.calls) && old(k.t).nodes[fd] in k.tree.files
    ensures r.Success? ==>
      var node := old(k.t).nodes[fd];
      r.value == k.tree.files[node] && k.readings == old(k.readings) + [(node, r.value)]
  {
    var error := HandOver(k, parent, fd, true, a);
    if error.Some? {
      return Failure(error.value);
    }
    ghost var mid := k.calls;
    r := ReadAndClose(k, fd, a);
    k.QuietSplits(old(k.calls), mid, k.calls);
  }

  method ReadAndClose(k: Kernel, fd: nat, ghost a: Table) returns (r: Result<string, Error>)
    requires k.Valid() && Sound(a) && Balanced(a, k.t, {fd})
    modifies k`t, k`calls, k`raised, k`readings
    ensures k.Valid() && Balanced(a, k.t, {}) && old(k.calls) <= k.calls
    ensures r.Success? <==> k.Quiet(old(k.calls), k.calls) && old(k.t).nodes[fd] in k.tree.files
    ensures r.Success? ==>
      var node := old(k.t).nodes[fd];
      r.value == k.tree.files[node] && k.readings == old(k.readings) + [(node, r.value)]
  {
    var bytes := k.ReadAll(fd);
    var error := Finally(k, fd, if bytes.None? then Some(OSError) else None, a, {fd});
    assert {fd} - {fd} == {};
    r := if error.Some? then Failure(error.value) else Success(bytes.value);
    k.QuietOnce(old(k.calls));
    k.QuietOnce(old(k.calls) + 1);
    k.QuietSplits(old(k.calls), old(k.calls) + 1, k.calls);
  }

  /** `_write_all` into an empty file: all of it for every pattern of short writes, or a front of it. */
  method WriteAll(k: Kernel, fd: nat, raw: string) returns (ok: bool)
    requires k.Valid() && fd in k.t.open && k.t.nodes[fd] in k.tree.files && k.tree.files[k.t.nodes[fd]] == ""
    modifies k`tree, k`calls
    ensures k.Valid() && k.t.nodes[fd] in k.tree.files && old(k.calls) <= k.calls
    ensures k.tree == WithContent(old(k.tree), k.t.nodes[fd], k.tree.files[k.t.nodes[fd]])
    ensures k.tree.files[k.t.nodes[fd]] <= raw && (ok ==> k.tree.files[k.t.nodes[fd]] == raw)
    ensures ok <==> k.Quiet(old(k.calls), k.calls)
  {
    var node := k.t.nodes[fd];
    var offset := 0;
    while offset < |raw|
      invariant 0 <= offset <= |raw| && k.Valid()
      invariant k.tree == WithContent(old(k.tree), node, raw[..offset])
      invariant old(k.calls) <= k.calls && k.Quiet(old(k.calls), k.calls)
    {
      var n := k.Write(fd, raw[offset..]);
      if n.None? {
        return false;
      }
      assert raw[..offset] + raw[offset..][..n.value] == raw[..offset + n.value];
      offset := offset + n.value;
    }
    assert raw[..offset] == raw;
    ok := true;
  }

  /** From t to u a file with these bytes was created at `parts` below `start`, and its missing directories. */
  ghost predicate NewFileAt(t: Tree, u: Tree, start: nat, parts: seq<string>, raw: string) {
    Extends(t, u) && KeysAlong(t, u, start, parts) && HasFile(u, start, parts) && FileAt(u, start, parts) == raw
  }

  /**
   The middle of `_copy_exact_file`: create the target exclusively, write it, close both
   descriptors.  It succeeds exactly when no call fails and the path led nowhere.
   */
  method WriteNewFile(k: Kernel, destination: nat, parts: seq<string>, raw: string) returns (error: Option<Error>)
    requires k.Valid() && destination in k.t.open && parts != []
    modifies k`t, k`tree, k`calls, k`raised, k`chmods
    ensures k.Valid() && Extends(old(k.tree), k.tree) && Balanced(old(k.t), k.t, {}) && old(k.calls) <= k.calls
    ensures NewOnly(old(k.chmods), k.chmods, old(k.tree).next)
    ensures error.None? <==>
      k.Quiet(old(k.calls), k.calls) && Walk(old(k.tree), old(k.t).nodes[destination], parts).None?
    ensures error.None? ==>
      && NewFileAt(old(k.tree), k.tree, old(k.t).nodes[destination], parts, raw)
      && OneChange(k.tree, old(k.t).nodes[destination], parts, old(k.chmods), k.chmods)
  {
    ghost var start := k.t.nodes[destination];
    var parent := OpenRelativeParent(k, destination, parts[..|parts| - 1], true);
    if parent.Failure? {
      return Some(parent.error);
    }
    ghost var dir, tree, mid := k.t.nodes[parent.value], k.tree, k.calls;
    error := WriteBelow(k, parent.value, parts[|parts| - 1], raw, old(k.t));
    ExtendsThen(old(k.tree), tree, k.tree);
    k.QuietSplits(old(k.calls), mid, k.calls);
    FreeIff(old(k.tree), tree, start, parts, dir);
    if error.None? {
      NewFileThere(old(k.tree), tree, k.tree, start, parts, dir, raw);
    }
  }

  lemma NewFileThere(base: Tree, t: Tree, u: Tree, start: nat, parts: seq<string>, dir: nat, raw: string)
    requires parts != [] && WalkedTo(base, t, start, parts[..|parts| - 1], dir) && Extends(base, u)
    requires Extends(t, u) && FileAdded(t, u, dir, parts[|parts| - 1], raw)
    ensures NewFileAt(base, u, start, parts, raw) && Leads(u, start, parts, t.next)
  {
    LeadsInExtension(t, u, start, parts[..|parts| - 1], dir);
    LeadsToLast(u, start, parts, dir);
    KeysOneMore(base, t, u, start, parts, |parts| - 1, dir, t.next);
    assert parts[..|parts|] == parts;
  }

  /** The log of changed modes grew by what `parts` leads to. */
  ghost predicate OneChange(t: Tree, start: nat, parts: seq<string>, before: seq<nat>, after: seq<nat>) {
    |after| == |before| + 1 && before <= after && Leads(t, start, parts, after[|before|])
  }

  /** From t to u one file with these bytes was added, under a name that was free. */
  ghost predicate FileAdded(t: Tree, u: Tree, dir: nat, name: string, raw: string) {
    && (dir, name) !in t.lookup && u.lookup == t.lookup[(dir, name) := t.next]
    && t.next in u.files && u.files[t.next] == raw
  }

  method WriteBelow(k: Kernel, parent: nat, name: string, raw: string, ghost a: Table) returns (error: Option<Error>)
    requires k.Valid() && Sound(a) && parent in k.t.open && Balanced(a, k.t, {parent})
    modifies k`t, k`tree, k`calls, k`raised, k`chmods
    ensures k.Valid() && Extends(old(k.tree), k.tree) && Balanced(a, k.t, {}) && old(k.calls) <= k.calls
    ensures NewOnly(old(k.chmods), k.chmods, old(k.tree).next)
    ensures error.None? <==>
      k.Quiet(old(k.calls), k.calls) && (old(k.t).nodes[parent], name) !in old(k.tree).lookup
    ensures error.None? ==>
      && FileAdded(old(k.tree), k.tree, old(k.t).nodes[parent], name, raw)
      && k.chmods == old(k.chmods) + [old(k.tree).next]
  {
    error := WriteCreated(k, parent, name, raw, a);
    ghost var mid := k.calls;
    error := Finally(k, parent, error, a, {parent});
    assert {parent} - {parent} == {};
    k.QuietOnce(mid);
    k.QuietSplits(old(k.calls), mid, k.calls);
  }

  method WriteCreated(k: Kernel, parent: nat, name: string, raw: string, ghost a: Table) returns (error: Option<Error>)
    requires k.Valid() && Sound(a) && parent in k.t.open && Balanced(a, k.t, {parent})
    modifies k`t, k`tree, k`calls, k`raised, k`chmods
    ensures k.Valid() && Extends(old(k.tree), k.tree) && Balanced(a, k.t, {parent}) && old(k.calls) <= k.calls
    ensures NewOnly(old(k.chmods), k.chmods, old(k.tree).next)
    ensures error.None? <==>
      k.Quiet(old(k.calls), k.calls) && (old(k.t).nodes[parent], name) !in old(k.tree).lookup
    ensures error.None? ==>
      && FileAdded(old(k.tree), k.tree, old(k.t).nodes[parent], name, raw)
      && k.chmods == old(k.chmods) + [old(k.tree).next]
  {
    var target := CreateBelow(k, parent, name, a);
    k.QuietOnce(old(k.calls));
    if target.None? {
      ExtendsSelf(k.tree);
      return Some(OSError);
    }
    ghost var mid := k.calls;
    error := FillAndClose(k, parent, name, target.value, raw, a, old(k.tree));
    k.QuietSplits(old(k.calls), mid, k.calls);
  }

  method FillAndClose(k: Kernel, parent: nat, name: string, fd: nat, raw: string, ghost a: Table, ghost before: Tree)
      returns (error: Option<Error>)
    requires k.Valid() && Sound(a) && parent != fd && parent in k.t.open && fd in k.t.open
    requires Balanced(a, k.t, {parent, fd}) && Creation(before, k.tree, k.t.nodes[parent], name, k.t.nodes[fd])
    modifies k`t, k`tree, k`calls, k`raised, k`chmods
    ensures k.Valid() && Extends(before, k.tree) && Balanced(a, k.t, {parent}) && old(k.calls) <= k.calls
    ensures NewOnly(old(k.chmods), k.chmods, before.next)
    ensures error.None? <==> k.Quiet(old(k.calls), k.calls)
    ensures error.None? ==>
      FileAdded(before, k.tree, old(k.t).nodes[parent], name, raw) && k.chmods == old(k.chmods) + [before.next]
  {
    error := FillBelow(k, parent, name, fd, raw, before);
    ghost var mid := k.calls;
    error := Finally(k, fd, error, a, {parent, fd});
    assert {parent, fd} - {fd} == {parent};
    k.QuietOnce(mid);
    k.QuietSplits(old(k.calls), mid, k.calls);
  }

  /** An empty file was just created in `before`. */
  ghost predicate Creation(before: Tree, t: Tree, dir: nat, name: string, node: nat) {
    && WellFormed(before) && dir < before.next && (dir, name) !in before.lookup
    && node == before.next && t == AddedFile(before, dir, name)
  }

  /** Filling the file that was just created in `before`. */
  method FillBelow(k: Kernel, parent: nat, name: string, fd: nat, raw: string, ghost before: Tree)
      returns (error: Option<Error>)
    requires k.Valid() && parent in k.t.open && fd in k.t.open
    requires Creation(before, k.tree, k.t.nodes[parent], name, k.t.nodes[fd])
    modifies k`tree, k`calls, k`chmods
    ensures k.Valid() && Extends(before, k.tree) && NewOnly(old(k.chmods), k.chmods, before.next)
    ensures old(k.calls) <= k.calls && (error.None? <==> k.Quiet(old(k.calls), k.calls))
    ensures error.None? ==>
      FileAdded(before, k.tree, k.t.nodes[parent], name, raw) && k.chmods == old(k.chmods) + [before.next]
  {
    error := FillCreated(k, fd, raw);
    FilledExtends(before, k.tree, k.t.nodes[parent], name);
  }

  method CreateBelow(k: Kernel, parent: nat, name: string, ghost a: Table) returns (target: Option<nat>)
    requires k.Valid() && Sound(a) && parent in k.t.open && Balanced(a, k.t, {parent})
    modifies k`t, k`tree, k`calls
    ensures k.Valid() && k.calls == old(k.calls) + 1
    ensures target.Some? <==> k.Works(old(k.calls)) && (old(k.t).nodes[parent], name) !in old(k.tree).lookup
    ensures target.None? ==> k.t == old(k.t) && k.tree == old(k.tree)
    ensures target.Some? ==>
      && target.value != parent && target.value in k.t.open && Balanced(a, k.t, {parent, target.value})
      && parent in k.t.open && k.t.nodes[parent] == old(k.t).nodes[parent]
      && Creation(old(k.tree), k.tree, k.t.nodes[parent], name, k.t.nodes[target.value])
  {
    var created := k.CreateAt(parent, name);
    if created.Failure? {
      return None;
    }
    target := Some(created.value);
    BalancedOpen(a, old(k.t), {parent}, old(k.tree).next);
    assert {parent} + {created.value} == {parent, created.value};
  }

  /** From the creation to the close: mode, content, `fsync` and `fstat`. */
  method FillCreated(k: Kernel, fd: nat, raw: string) returns (error: Option<Error>)
    requires k.Valid() && fd in k.t.open && k.t.nodes[fd] in k.tree.files && k.tree.files[k.t.nodes[fd]] == ""
    modifies k`tree, k`calls, k`chmods
    ensures k.Valid() && k.t.nodes[fd] in k.tree.files
    ensures k.tree == WithContent(old(k.tree), k.t.nodes[fd], k.tree.files[k.t.nodes[fd]])
    ensures error.None? ==> k.tree.files[k.t.nodes[fd]] == raw
    ensures k.chmods == old(k.chmods) + [k.t.nodes[fd]] || (k.chmods == old(k.chmods) && error.Some?)
    ensures old(k.calls) <= k.calls && (error.None? <==> k.Quiet(old(k.calls), k.calls))
  {
    error := k.Fchmod(fd);
    k.QuietOnce(old(k.calls));
    if error.None? {
      var ok := WriteAll(k, fd, raw);
      k.QuietSplits(old(k.calls), old(k.calls) + 1, k.calls);
      error := if ok then None else Some(OSError);
    }
    if error.None? {
      ghost var mid := k.calls;
      error := k.Probe();
      k.QuietOnce(mid);
      k.QuietSplits(old(k.calls), mid, k.calls);
    }
  }

  lemma FilledExtends(t: Tree, u: Tree, dir: nat, name: string)
    requires WellFormed(t) && dir < t.next && (dir, name) !in t.lookup && t.next in u.files
    requires u == WithContent(AddedFile(t, dir, name), t.next, u.files[t.next])
    ensures Extends(t, u) && FileAdded(t, u, dir, name, u.files[t.next])
  {
    AddedIsWellFormed(t, dir, name);
  }

  /** One file of the inventory, by the parts of its path. */
  datatype Item = Item(parts: seq<string>, size: nat, sha256: string)

  /** Below `start`, the item's file holds bytes of the item's size and digest. */
  predicate Holds(t: Tree, start: nat, item: Item, sha256: string -> string) {
    HasFile(t, start, item.parts) && IsContent(FileAt(t, start, item.parts), item, sha256)
  }

  predicate IsContent(raw: string, item: Item, sha256: string -> string) {
    |raw| == item.size && sha256(raw) == item.sha256
  }

  lemma HoldsInExtension(t: Tree, u: Tree, start: nat, item: Item, sha256: string -> string)
    requires Extends(t, u) && Holds(t, start, item, sha256)
    ensures Holds(u, start, item, sha256) && FileAt(u, start, item.parts) == FileAt(t, start, item.parts)
  {
    FileStays(t, u, start, item.parts);
  }

  /** What it takes to copy an item from tree t: the source has it, and the destination has nothing there. */
  predicate Copyable(t: Tree, source: nat, destination: nat, item: Item, sha256: string -> string) {
    Holds(t, source, item, sha256) && Walk(t, destination, item.parts).None?
  }

  /**
   `_copy_exact_file`: read and compare, write, check, and read again.  It succeeds exactly when no
   call fails, the source has the declared file and the destination has nothing at its path; then
   the source was read twice, with the same bytes.
   */
  method CopyExactFile(k: Kernel, source: nat, destination: nat, item: Item, sha256: string -> string)
      returns (error: Option<Error>)
    requires k.Valid() && source in k.t.open && destination in k.t.open && item.parts != []
    modifies k`t, k`tree, k`calls, k`raised, k`chmods, k`readings
    ensures k.Valid() && Extends(old(k.tree), k.tree) && Balanced(old(k.t), k.t, {}) && old(k.calls) <= k.calls
    ensures NewOnly(old(k.chmods), k.chmods, old(k.tree).next)
    ensures error.None? <==>
      && k.Quiet(old(k.calls), k.calls)
      && Copyable(old(k.tree), old(k.t).nodes[source], old(k.t).nodes[destination], item, sha256)
    ensures error.None? ==>
      && Holds(k.tree, old(k.t).nodes[destination], item, sha256)
      && KeysAlong(old(k.tree), k.tree, old(k.t).nodes[destination], item.parts)
      && OneChange(k.tree, old(k.t).nodes[destination], item.parts, old(k.chmods), k.chmods)
      && ReadTwice(old(k.readings), k.readings, k.tree, old(k.t).nodes[source], item.parts)
  {
    ghost var from, r0 := k.t.nodes[source], k.readings;
    var raw := ReadRelativeFile(k, source, item.parts);
    if raw.Failure? || |raw.value| != item.size || sha256(raw.value) != item.sha256 {
      ExtendsSelf(k.tree);
      return Some(if raw.Failure? then raw.error else ValueError);
    }
    ghost var mid, r1 := k.calls, k.readings;
    error := WriteAndReadAgain(k, source, destination, item.parts, raw.value, old(k.t));
    k.QuietSplits(old(k.calls), mid, k.calls);
    if error.None? {
      SameTwice(old(k.tree), k.tree, from, item.parts, r0, r1, k.readings, raw.value);
    }
  }

  /** One file was read twice, to the same bytes. */
  ghost predicate ReadTwice(before: seq<(nat, string)>, after: seq<(nat, string)>, t: Tree, start: nat,
                            parts: seq<string>)
  {
    && |after| == |before| + 2 && before <= after && after[|before|] == after[|before| + 1]
    && Leads(t, start, parts, after[|before|].0)
  }

  lemma SameTwice(t: Tree, u: Tree, start: nat, parts: seq<string>, a: seq<(nat, string)>, b: seq<(nat, string)>,
                  c: seq<(nat, string)>, bytes: string)
    requires Extends(t, u) && ReadFrom(a, b, t, start, parts, bytes) && ReadFrom(b, c, u, start, parts, bytes)
    ensures ReadTwice(a, c, u, start, parts)
  {
    LeadsInExtension(t, u, start, parts, b[|a|].0);
  }

  /** `raw` is what the source holds at `parts`. */
  method WriteAndReadAgain(k: Kernel, source: nat, destination: nat, parts: seq<string>, raw: string, ghost a: Table)
      returns (error: Option<Error>)
    requires k.Valid() && Sound(a) && source in k.t.open && destination in k.t.open && parts != []
    requires Balanced(a, k.t, {}) && SourceHas(k.tree, k.t.nodes[source], parts, raw)
    modifies k`t, k`tree, k`calls, k`raised, k`chmods, k`readings
    ensures k.Valid() && Extends(old(k.tree), k.tree) && Balanced(a, k.t, {}) && old(k.calls) <= k.calls
    ensures NewOnly(old(k.chmods), k.chmods, old(k.tree).next)
    ensures error.None? <==>
      k.Quiet(old(k.calls), k.calls) && Walk(old(k.tree), old(k.t).nodes[destination], parts).None?
    ensures error.None? ==>
      && NewFileAt(old(k.tree), k.tree, old(k.t).nodes[destination], parts, raw)
      && OneChange(k.tree, old(k.t).nodes[destination], parts, old(k.chmods), k.chmods)
      && ReadFrom(old(k.readings), k.readings, k.tree, old(k.t).nodes[source], parts, raw)
  {
    error := WriteBeside(k, source, destination, parts, raw, a);
    ghost var mid := k.calls;
    if error.None? {
      error := ReadAgain(k, source, parts, raw, a);
      k.QuietSplits(old(k.calls), mid, k.calls);
    }
  }

  /** The write, which leaves the source as it is. */
  method WriteBeside(k: Kernel, ghost source: nat, destination: nat, parts: seq<string>, raw: string, ghost a: Table)
      returns (error: Option<Error>)
    requires k.Valid() && Sound(a) && source in k.t.open && destination in k.t.open && parts != []
    requires Balanced(a, k.t, {}) && SourceHas(k.tree, k.t.nodes[source], parts, raw)
    modifies k`t, k`tree, k`calls, k`raised, k`chmods
    ensures k.Valid() && Extends(old(k.tree), k.tree) && Balanced(a, k.t, {}) && old(k.calls) <= k.calls
    ensures NewOnly(old(k.chmods), k.chmods, old(k.tree).next)
    ensures source in k.t.open && k.t.nodes[source] == old(k.t).nodes[source]
    ensures SourceHas(k.tree, k.t.nodes[source], parts, raw)
    ensures error.None? <==>
      k.Quiet(old(k.calls), k.calls) && Walk(old(k.tree), old(k.t).nodes[destination], parts).None?
    ensures error.None? ==>
      && NewFileAt(old(k.tree), k.tree, old(k.t).nodes[destination], parts, raw)
      && OneChange(k.tree, old(k.t).nodes[destination], parts, old(k.chmods), k.chmods)
  {
    error := WriteNewFile(k, destination, parts, raw);
    BalancedThen(a, old(k.t), k.t, {}, {});
    FileStays(old(k.tree), k.tree, old(k.t).nodes[source], parts);
  }

  ghost predicate SourceHas(t: Tree, start: nat, parts: seq<string>, raw: string) {
    HasFile(t, start, parts) && FileAt(t, start, parts) == raw
  }

  /** The checks of the new file, the second reading of the source, and its comparison. */
  method ReadAgain(k: Kernel, source: nat, parts: seq<string>, ghost raw: string, ghost a: Table)
      returns (error: Option<Error>)
    requires k.Valid() && Sound(a) && source in k.t.open && parts != [] && Balanced(a, k.t, {})
    requires SourceHas(k.tree, k.t.nodes[source], parts, raw)
    modifies k`t, k`tree, k`calls, k`raised, k`readings
    ensures k.Valid() && k.tree == old(k.tree) && Balanced(a, k.t, {}) && old(k.calls) <= k.calls
    ensures error.None? <==> k.Quiet(old(k.calls), k.calls)
    ensures error.None? ==> ReadFrom(old(k.readings), k.readings, k.tree, old(k.t).nodes[source], parts, raw)
  {
    error := k.Probe();
    k.QuietOnce(old(k.calls));
    if error.None? {
      var again := ReadRelativeFile(k, source, parts);
      BalancedThen(a, old(k.t), k.t, {}, {});
      ghost var mid := k.calls;
      k.QuietSplits(old(k.calls), old(k.calls) + 1, mid);
      error := k.Probe();
      k.QuietOnce(mid);
      k.QuietSplits(old(k.calls), mid, k.calls);
      if again.Failure? {
        error := Some(again.error);
      }
    }
  }

  /**
   `_create_destination`: the new directory's descriptor, or no descriptor at all; it succeeds
   exactly when no call fails and the name is new.
   */
  method CreateDestination(k: Kernel, parent: nat, name: string) returns (r: Result<nat, Error>)
    requires k.Valid() && parent in k.t.open
    modifies k`t, k`tree, k`calls, k`raised
    ensures k.Valid() && Extends(old(k.tree), k.tree) && old(k.calls) <= k.calls
    ensures r.Success? <==>
      k.Quiet(old(k.calls), k.calls) && (old(k.t).nodes[parent], name) !in old(k.tree).lookup
    ensures r.Failure? ==> Balanced(old(k.t), k.t, {})
    ensures r.Success? ==>
      && Balanced(old(k.t), k.t, {r.value})
      && k.tree == Added(old(k.tree), old(k.t).nodes[parent], name)
      && r.value < |k.t.nodes| && k.t.nodes[r.value] == old(k.tree).next
  {
    var made := k.MkdirAt(parent, name);
    k.QuietOnce(old(k.calls));
    if !made {
      BalancedStart(k.t);
      ExtendsSelf(k.tree);
      return Failure(OSError);
    }
    AddedIsWellFormed(old(k.tree), k.t.nodes[parent], name);
    r := PinMade(k, parent, name);
    k.QuietSplits(old(k.calls), old(k.calls) + 1, k.calls);
  }

  /** Check the new directory, open it, and check again. */
  method PinMade(k: Kernel, parent: nat, name: string) returns (r: Result<nat, Error>)
    requires k.Valid() && parent in k.t.open && (k.t.nodes[parent], name) in k.tree.lookup
    modifies k`t, k`calls, k`raised
    ensures k.Valid() && old(k.calls) <= k.calls
    ensures r.Success? <==> k.Quiet(old(k.calls), k.calls)
    ensures r.Failure? ==> Balanced(old(k.t), k.t, {})
    ensures r.Success? ==>
      Balanced(old(k.t), k.t, {r.value}) && IsChild(k.tree, k.t.nodes, parent, name, r.value)
  {
    BalancedStart(k.t);
    var error := k.Probe();
    k.QuietOnce(old(k.calls));
    if error.Some? {
      return Failure(error.value);
    }
    r := OpenChecked(k, parent, name);
    k.QuietSplits(old(k.calls), old(k.calls) + 1, k.calls);
  }

  method OpenChecked(k: Kernel, parent: nat, name: string) returns (r: Result<nat, Error>)
    requires k.Valid() && parent in k.t.open && (k.t.nodes[parent], name) in k.tree.lookup
    modifies k`t, k`calls, k`raised
    ensures k.Valid() && old(k.calls) <= k.calls
    ensures r.Success? <==> k.Quiet(old(k.calls), k.calls)
    ensures r.Failure? ==> Balanced(old(k.t), k.t, {})
    ensures r.Success? ==>
      Balanced(old(k.t), k.t, {r.value}) && IsChild(k.tree, k.t.nodes, parent, name, r.value)
  {
    ghost var a := k.t;
    BalancedStart(a);
    var fd := k.OpenAt(parent, name);
    k.QuietOnce(old(k.calls));
    if fd.Failure? {
      return Failure(OSError);
    }
    BalancedOpen(a, a, {}, k.tree.lookup[(a.nodes[parent], name)]);
    assert {} + {fd.value} == {fd.value};
    var error := Checked(k, fd.value, a);
    k.QuietSplits(old(k.calls), old(k.calls) + 1, k.calls);
    r := if error.Some? then Failure(error.value) else Success(fd.value);
  }
}

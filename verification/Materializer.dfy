/**
 `materialize_test_runtime`: pin the source, the destination parent and the protected roots,
 admit, create, copy, seal and requalify, with every call free to raise OSError or ValueError.
 */
module Materializer {
  import opened Wrappers
  import opened DirectoryTree
  import opened Descriptors
  import opened RuntimeWalk
  import opened Admission
  import opened SealedNodes
  import opened TreeGrowth
  import Sealing

  /** What a successful run leaves behind; `made` is the node of the new destination. */
  datatype Materialized = Materialized(source: Pinned, parent: Pinned, protected: seq<Pinned>, made: nat,
                                       sealed: seq<seq<string>>)

  const MANIFEST := "runtime-closure-v1.json"

  function SetOf(fds: seq<nat>): set<nat> {
    set fd | fd in fds
  }

  lemma AddDescriptor(a: Table, b: Table, c: Table, fds: seq<nat>, fd: nat)
    requires Sound(a) && Distinct(fds) && Balanced(a, b, SetOf(fds)) && Balanced(b, c, {fd})
    ensures Distinct(fds + [fd]) && Balanced(a, c, SetOf(fds + [fd]))
    ensures Distinct([fd] + fds) && Balanced(a, c, SetOf([fd] + fds))
  {
    BalancedThen(a, b, c, SetOf(fds), {fd});
    assert SetOf(fds + [fd]) == SetOf(fds) + {fd} == SetOf([fd] + fds);
    forall i | 0 <= i < |fds|
      ensures fds[i] != fd
    {
      assert fds[i] in SetOf(fds);
    }
  }

  lemma StillBalanced(a: Table, b: Table, c: Table, fds: seq<nat>)
    requires Sound(a) && Balanced(a, b, SetOf(fds)) && Balanced(b, c, {})
    ensures Balanced(a, c, SetOf(fds))
  {
    BalancedThen(a, b, c, SetOf(fds), {});
    assert SetOf(fds) + {} == SetOf(fds);
  }

  /** Closing a list of descriptors, in any order, leaves none of them. */
  method CloseEach(k: Kernel, fds: seq<nat>, ghost held: seq<nat>, ghost a: Table) returns (ok: bool)
    requires k.Valid() && Sound(a) && Balanced(a, k.t, SetOf(held)) && Distinct(fds) && SetOf(fds) == SetOf(held)
    modifies k`t, k`calls, k`raised
    ensures k.Valid() && Balanced(a, k.t, {}) && k.t.nodes == old(k.t.nodes)
    ensures old(k.calls) <= k.calls && (ok <==> k.Quiet(old(k.calls), k.calls))
  {
    var first := k.CloseAll(fds);
    ok := first.None?;
    assert forall fd :: fd in fds ==> fd in SetOf(fds);
    BalancedClose(a, old(k.t), SetOf(held), fds);
    assert SetOf(held) - (set fd | fd in fds) == {};
  }

  /** The pins of one run, in the order in which the last `finally` closes them. */
  function CleanupList(source: Pinned, parent: Pinned, protected: seq<Pinned>): seq<nat> {
    [source.fd, parent.fd] + seq(|protected|, i requires 0 <= i < |protected| => protected[i].fd)
  }

  lemma OneMorePin(source: Pinned, parent: Pinned, protected: seq<Pinned>, p: Pinned)
    ensures CleanupList(source, parent, protected + [p]) == CleanupList(source, parent, protected) + [p.fd]
  {
  }

  function ParentOf(p: Path): Path {
    if p.names == [] then p else Path(p.anchor, p.names[..|p.names| - 1])
  }

  function NameOf(p: Path): string {
    if p.names == [] then "" else p.names[|p.names| - 1]
  }

  /** A pin is where the tree says its path leads, and its descriptor is open on that node. */
  ghost predicate PinHolds(k: Kernel, p: Pinned)
    reads k
  {
    HoldsIn(k.tree, k.t.nodes, p)
  }

  ghost predicate HoldsIn(tree: Tree, nodes: seq<nat>, p: Pinned) {
    p.path.anchor != Relative && PinnedIn(tree, p) && p.fd < |nodes| && nodes[p.fd] == Last(p.identities)
  }

  lemma HoldsLater(tree: Tree, nodes: seq<nat>, later: seq<nat>, p: Pinned)
    requires HoldsIn(tree, nodes, p) && nodes <= later
    ensures HoldsIn(tree, later, p)
  {
  }

  // ---------------------------------------------------------------- admission

  /** The pins of the destination parent and the protected roots; on failure the source is closed as well. */
  method PinOthers(k: Kernel, source: Pinned, destination: Path, roots: seq<Path>, ghost a: Table)
      returns (r: Result<(Pinned, seq<Pinned>), Error>)
    requires k.Valid() && Sound(a) && Balanced(a, k.t, {source.fd})
    modifies k`t, k`calls, k`raised
    ensures k.Valid() && old(k.t.nodes) <= k.t.nodes && old(k.calls) <= k.calls
    ensures r.Success? <==>
      && k.Quiet(old(k.calls), k.calls)
      && Leading(k.tree, ParentOf(destination)) && AllLeading(k.tree, roots)
    ensures r.Failure? ==> Balanced(a, k.t, {})
    ensures r.Success? ==>
      var (parent, protected) := r.value;
      var fds := CleanupList(source, parent, protected);
      && Distinct(fds) && Balanced(a, k.t, SetOf(fds))
      && PinHolds(k, parent) && parent.path == ParentOf(destination)
      && |protected| == |roots|
      && forall i :: 0 <= i < |roots| ==> protected[i].path == roots[i] && PinnedIn(k.tree, protected[i])
  {
    ghost var b := k.t;
    var pin := PinAbsoluteDirectory(k, ParentOf(destination));
    ghost var mid := k.calls;
    assert SetOf([source.fd]) == {source.fd};
    if pin.Failure? {
      StillBalanced(a, b, k.t, [source.fd]);
      var ok := CloseEach(k, [source.fd], [source.fd], a);
      k.QuietSplits(old(k.calls), mid, k.calls);
      return Failure(if ok then ValueError else OSError);
    }
    AddDescriptor(a, b, k.t, [source.fd], pin.value.fd);
    assert [source.fd] + [pin.value.fd] == CleanupList(source, pin.value, []);
    var protected := PinProtected(k, source, pin.value, roots, a);
    k.QuietSplits(old(k.calls), mid, k.calls);
    r := if protected.Failure? then Failure(protected.error) else Success((pin.value, protected.value));
  }

  ghost predicate AllLeading(t: Tree, roots: seq<Path>) {
    forall i :: 0 <= i < |roots| ==> Leading(t, roots[i])
  }

  /** The loop over the protected roots. */
  method PinProtected(k: Kernel, source: Pinned, parent: Pinned, roots: seq<Path>, ghost a: Table)
      returns (r: Result<seq<Pinned>, Error>)
    requires k.Valid() && Sound(a) && OwnsAll(a, k.t, CleanupList(source, parent, [])) && PinHolds(k, parent)
    modifies k`t, k`calls, k`raised
    ensures k.Valid() && old(k.t.nodes) <= k.t.nodes && PinHolds(k, parent) && old(k.calls) <= k.calls
    ensures r.Success? <==> k.Quiet(old(k.calls), k.calls) && AllLeading(k.tree, roots)
    ensures r.Failure? ==> Balanced(a, k.t, {})
    ensures r.Success? ==>
      OwnsAll(a, k.t, CleanupList(source, parent, r.value)) && PinsOf(k.tree, r.value, roots)
  {
    var protected: seq<Pinned> := [];
    var i := 0;
    while i < |roots|
      invariant 0 <= i <= |roots| && k.Valid() && old(k.t.nodes) <= k.t.nodes
      invariant OwnsAll(a, k.t, CleanupList(source, parent, protected))
      invariant PinsOf(k.tree, protected, roots[..i]) && AllLeading(k.tree, roots[..i])
      invariant old(k.calls) <= k.calls && k.Quiet(old(k.calls), k.calls)
    {
      ghost var mid := k.calls;
      var next := PinNext(k, source, parent, protected, roots[i], a);
      k.QuietSplits(old(k.calls), mid, k.calls);
      if next.Failure? {
        HoldsLater(k.tree, old(k.t.nodes), k.t.nodes, parent);
        return Failure(next.error);
      }
      OneMoreOf(k.tree, protected, roots, i, next.value);
      OneMoreLeading(k.tree, roots, i);
      protected := protected + [next.value];
      i := i + 1;
    }
    HoldsLater(k.tree, old(k.t.nodes), k.t.nodes, parent);
    assert roots[..i] == roots;
    r := Success(protected);
  }

  /** Exactly these descriptors are owned, each listed once. */
  ghost predicate OwnsAll(a: Table, b: Table, fds: seq<nat>) {
    Distinct(fds) && Balanced(a, b, SetOf(fds))
  }

  ghost predicate PinsOf(tree: Tree, pins: seq<Pinned>, roots: seq<Path>) {
    |pins| == |roots| && forall i :: 0 <= i < |roots| ==> pins[i].path == roots[i] && PinnedIn(tree, pins[i])
  }

  lemma OneMoreOf(tree: Tree, pins: seq<Pinned>, roots: seq<Path>, i: nat, pin: Pinned)
    requires i < |roots| && PinsOf(tree, pins, roots[..i]) && pin.path == roots[i] && PinnedIn(tree, pin)
    ensures PinsOf(tree, pins + [pin], roots[..i + 1])
  {
    assert roots[..i + 1] == roots[..i] + [roots[i]];
  }

  lemma OneMoreLeading(t: Tree, roots: seq<Path>, i: nat)
    requires i < |roots| && AllLeading(t, roots[..i]) && Leading(t, roots[i])
    ensures AllLeading(t, roots[..i + 1])
  {
  }

  method PinNext(k: Kernel, source: Pinned, parent: Pinned, protected: seq<Pinned>, root: Path, ghost a: Table)
      returns (r: Result<Pinned, Error>)
    requires k.Valid() && Sound(a) && OwnsAll(a, k.t, CleanupList(source, parent, protected))
    modifies k`t, k`calls, k`raised
    ensures k.Valid() && old(k.t.nodes) <= k.t.nodes && old(k.calls) <= k.calls
    ensures r.Success? <==> k.Quiet(old(k.calls), k.calls) && Leading(k.tree, root)
    ensures r.Failure? ==> Balanced(a, k.t, {})
    ensures r.Success? ==>
      && OwnsAll(a, k.t, CleanupList(source, parent, protected + [r.value]))
      && PinnedIn(k.tree, r.value) && r.value.path == root
  {
    var fds := CleanupList(source, parent, protected);
    r := PinAbsoluteDirectory(k, root);
    if r.Failure? {
      ghost var mid := k.calls;
      StillBalanced(a, old(k.t), k.t, fds);
      Rotated(fds);
      var ok := CloseEach(k, fds[1..] + fds[..1], fds, a);
      k.QuietSplits(old(k.calls), mid, k.calls);
      return Failure(if ok then ValueError else OSError);
    }
    AddDescriptor(a, old(k.t), k.t, fds, r.value.fd);
    OneMorePin(source, parent, protected, r.value);
  }

  lemma Rotated(fds: seq<nat>)
    requires Distinct(fds) && fds != []
    ensures Distinct(fds[1..] + fds[..1]) && SetOf(fds[1..] + fds[..1]) == SetOf(fds)
  {
    assert fds == fds[..1] + fds[1..];
  }

  // ---------------------------------------------------------------- copying and sealing

  /** What the qualification of the source returns. */
  datatype Closure = Closure(inventory: seq<Item>, manifestDigest: string)

  function PartsOf(inventory: seq<Item>): seq<seq<string>> {
    seq(|inventory|, i requires 0 <= i < |inventory| => inventory[i].parts)
  }

  ghost predicate HoldsAll(t: Tree, start: nat, items: seq<Item>, sha256: string -> string) {
    forall i :: 0 <= i < |items| ==> Holds(t, start, items[i], sha256)
  }

  lemma HoldsAllLater(t: Tree, u: Tree, start: nat, items: seq<Item>, sha256: string -> string)
    requires Extends(t, u) && HoldsAll(t, start, items, sha256)
    ensures HoldsAll(u, start, items, sha256)
  {
    forall i | 0 <= i < |items|
      ensures Holds(u, start, items[i], sha256)
    {
      HoldsInExtension(t, u, start, items[i], sha256);
    }
  }

  /** No path is another one, or inside another one. */
  predicate Incomparable(paths: seq<seq<string>>) {
    forall i, j :: 0 <= i < |paths| && 0 <= j < |paths| && i != j ==> !(paths[i] <= paths[j])
  }

  /** The items from i on can all be copied, one after the other. */
  ghost predicate CanCopy(t: Tree, source: nat, destination: nat, items: seq<Item>, i: nat, sha256: string -> string) {
    && i <= |items| && Incomparable(PartsOf(items))
    && forall j :: i <= j < |items| ==> Copyable(t, source, destination, items[j], sha256)
  }

  /** Copying one of the items does not get in the way of the others. */
  lemma StillCanCopy(before: Tree, t: Tree, u: Tree, source: nat, made: nat, items: seq<Item>, i: nat,
                     sha256: string -> string)
    requires i < |items| && CanCopy(t, source, made, items, i, sha256)
    requires NewDir(before, t, made) && WellFormed(u) && Extends(t, u) && KeysAlong(t, u, made, items[i].parts)
    ensures CanCopy(u, source, made, items, i + 1, sha256)
  {
    forall j | i + 1 <= j < |items|
      ensures Copyable(u, source, made, items[j], sha256)
    {
      StaysCopyable(before, t, u, source, made, items[i].parts, items[j], sha256);
      assert PartsOf(items)[j] == items[j].parts && PartsOf(items)[i] == items[i].parts;
    }
  }

  lemma StaysCopyable(before: Tree, t: Tree, u: Tree, source: nat, made: nat, parts: seq<string>, item: Item,
                      sha256: string -> string)
    requires Copyable(t, source, made, item, sha256)
    requires NewDir(before, t, made) && WellFormed(u) && Extends(t, u) && KeysAlong(t, u, made, parts)
    ensures Copyable(u, source, made, item, sha256) || item.parts <= parts
  {
    HoldsInExtension(t, u, source, item, sha256);
    if Walk(u, made, item.parts).Some? {
      PathsGrow(before, t, u, made, parts, item.parts);
    }
  }

  /** The copying loop is at item i, and no call has failed since call `first`. */
  ghost predicate Copying(k: Kernel, a: Table, before: Tree, base: Tree, log: seq<nat>, first: nat, made: nat,
                          items: seq<Item>, i: nat, sha256: string -> string)
    reads k
  {
    && Extends(base, k.tree) && Balanced(a, k.t, {}) && i <= |items| && HoldsAll(k.tree, made, items[..i], sha256)
    && NewOnly(log, k.chmods, base.next) && NewDir(before, k.tree, made)
    && ChangedAs(k.tree, made, log, k.chmods, PartsOf(items[..i]))
    && first <= k.calls && k.Quiet(first, k.calls)
  }

  /** One turn of the copying loop; it fails only when a call fails or the item cannot be copied. */
  method CopyNext(k: Kernel, source: nat, destination: nat, items: seq<Item>, i: nat, sha256: string -> string,
                  ghost a: Table, ghost before: Tree, ghost base: Tree, ghost log: seq<nat>, ghost first: nat)
      returns (error: Option<Error>)
    requires k.Valid() && Sound(a) && source in k.t.open && destination in k.t.open
    requires i < |items| && items[i].parts != []
    requires Copying(k, a, before, base, log, first, k.t.nodes[destination], items, i, sha256)
    modifies k`t, k`tree, k`calls, k`raised, k`chmods, k`readings
    ensures k.Valid() && Extends(base, k.tree) && Balanced(a, k.t, {}) && NewOnly(log, k.chmods, base.next)
    ensures NewDir(before, k.tree, old(k.t).nodes[destination]) && first <= k.calls
    ensures source in k.t.open && k.t.nodes[source] == old(k.t).nodes[source]
    ensures destination in k.t.open && k.t.nodes[destination] == old(k.t).nodes[destination]
    ensures error.None? ==>
      Copying(k, a, before, base, log, first, old(k.t).nodes[destination], items, i + 1, sha256)
    ensures CanCopy(old(k.tree), old(k.t).nodes[source], old(k.t).nodes[destination], items, i, sha256) ==>
      k.Quiet(first, k.calls) ==>
      && error.None?
      && CanCopy(k.tree, old(k.t).nodes[source], old(k.t).nodes[destination], items, i + 1, sha256)
  {
    ghost var from, made := k.t.nodes[source], k.t.nodes[destination];
    error := CopyItem(k, source, destination, items[i], sha256, a, before);
    ExtendsThen(base, old(k.tree), k.tree);
    k.QuietSplits(first, old(k.calls), k.calls);
    if error.None? {
      CopiedOne(before, old(k.tree), k.tree, from, made, items, i, sha256);
      ChangedOneMore(old(k.tree), k.tree, made, log, old(k.chmods), k.chmods, items, i);
    }
  }

  lemma ChangedOneMore(t: Tree, u: Tree, made: nat, log: seq<nat>, a: seq<nat>, b: seq<nat>, items: seq<Item>, i: nat)
    requires i < |items| && Extends(t, u) && ChangedAs(t, made, log, a, PartsOf(items[..i]))
    requires OneChange(u, made, items[i].parts, a, b)
    ensures ChangedAs(u, made, log, b, PartsOf(items[..i + 1]))
  {
    ChangedLater(t, u, made, log, a, PartsOf(items[..i]));
    OneMoreSealed(u, made, log, a, PartsOf(items[..i]), items[i].parts, b[|a|]);
    assert b == a + [b[|a|]];
    assert PartsOf(items[..i + 1]) == PartsOf(items[..i]) + [items[i].parts];
  }

  /** `_copy_exact_file` of one item, into a new directory. */
  method CopyItem(k: Kernel, source: nat, destination: nat, item: Item, sha256: string -> string, ghost a: Table,
                  ghost before: Tree)
      returns (error: Option<Error>)
    requires k.Valid() && Sound(a) && source in k.t.open && destination in k.t.open && item.parts != []
    requires Balanced(a, k.t, {}) && NewDir(before, k.tree, k.t.nodes[destination])
    modifies k`t, k`tree, k`calls, k`raised, k`chmods, k`readings
    ensures k.Valid() && Extends(old(k.tree), k.tree) && Balanced(a, k.t, {}) && old(k.calls) <= k.calls
    ensures NewOnly(old(k.chmods), k.chmods, old(k.tree).next)
    ensures NewDir(before, k.tree, old(k.t).nodes[destination])
    ensures source in k.t.open && k.t.nodes[source] == old(k.t).nodes[source]
    ensures destination in k.t.open && k.t.nodes[destination] == old(k.t).nodes[destination]
    ensures error.None? <==>
      && k.Quiet(old(k.calls), k.calls)
      && Copyable(old(k.tree), old(k.t).nodes[source], old(k.t).nodes[destination], item, sha256)
    ensures error.None? ==>
      && Holds(k.tree, old(k.t).nodes[destination], item, sha256)
      && KeysAlong(old(k.tree), k.tree, old(k.t).nodes[destination], item.parts)
      && OneChange(k.tree, old(k.t).nodes[destination], item.parts, old(k.chmods), k.chmods)
  {
    error := CopyExactFile(k, source, destination, item, sha256);
    BalancedThen(a, old(k.t), k.t, {}, {});
    NewDirStays(before, old(k.tree), k.tree, old(k.t).nodes[destination]);
  }

  lemma CopiedOne(before: Tree, t: Tree, u: Tree, source: nat, made: nat, items: seq<Item>, i: nat,
                  sha256: string -> string)
    requires i < |items| && HoldsAll(t, made, items[..i], sha256) && Holds(u, made, items[i], sha256)
    requires NewDir(before, t, made) && WellFormed(u) && Extends(t, u) && KeysAlong(t, u, made, items[i].parts)
    ensures HoldsAll(u, made, items[..i + 1], sha256)
    ensures CanCopy(t, source, made, items, i, sha256) ==> CanCopy(u, source, made, items, i + 1, sha256)
  {
    HoldsOneMore(t, u, made, items, i, sha256);
    if CanCopy(t, source, made, items, i, sha256) {
      StillCanCopy(before, t, u, source, made, items, i, sha256);
    }
  }

  lemma HoldsOneMore(t: Tree, u: Tree, made: nat, items: seq<Item>, i: nat, sha256: string -> string)
    requires i < |items| && Extends(t, u) && HoldsAll(t, made, items[..i], sha256) && Holds(u, made, items[i], sha256)
    ensures HoldsAll(u, made, items[..i + 1], sha256)
  {
    HoldsAllLater(t, u, made, items[..i], sha256);
    assert items[..i + 1] == items[..i] + [items[i]];
  }

  /**
   The copying loop.  It succeeds only when no call fails; and when none fails, the source has every
   file and no path is in the way of another, it does.
   */
  method CopyAll(k: Kernel, source: nat, destination: nat, items: seq<Item>, sha256: string -> string,
                 ghost before: Tree)
      returns (error: Option<Error>)
    requires k.Valid() && source in k.t.open && destination in k.t.open
    requires forall i :: 0 <= i < |items| ==> items[i].parts != []
    requires NewDir(before, k.tree, k.t.nodes[destination])
    modifies k`t, k`tree, k`calls, k`raised, k`chmods, k`readings
    ensures k.Valid() && Extends(old(k.tree), k.tree) && Balanced(old(k.t), k.t, {}) && old(k.calls) <= k.calls
    ensures NewOnly(old(k.chmods), k.chmods, old(k.tree).next)
    ensures NewDir(before, k.tree, old(k.t).nodes[destination])
    ensures error.None? ==>
      && k.Quiet(old(k.calls), k.calls) && HoldsAll(k.tree, old(k.t).nodes[destination], items, sha256)
      && ChangedAs(k.tree, old(k.t).nodes[destination], old(k.chmods), k.chmods, PartsOf(items))
    ensures CanCopy(old(k.tree), old(k.t).nodes[source], old(k.t).nodes[destination], items, 0, sha256) ==>
      k.Quiet(old(k.calls), k.calls) ==> error.None?
  {
    ghost var a, from, made := k.t, k.t.nodes[source], k.t.nodes[destination];
    ghost var can := CanCopy(k.tree, from, made, items, 0, sha256);
    BalancedStart(a);
    ExtendsSelf(k.tree);
    k.QuietNow();
    assert PartsOf(items[..0]) == [];
    error := None;
    var i := 0;
    while i < |items|
      invariant 0 <= i <= |items| && k.Valid() && error.None? && source in k.t.open && destination in k.t.open
      invariant k.t.nodes[source] == from && k.t.nodes[destination] == made
      invariant Copying(k, a, before, old(k.tree), old(k.chmods), old(k.calls), made, items, i, sha256)
      invariant can ==> CanCopy(k.tree, from, made, items, i, sha256)
    {
      error := CopyNext(k, source, destination, items, i, sha256, a, before, old(k.tree), old(k.chmods), old(k.calls));
      if error.Some? {
        return;
      }
      i := i + 1;
    }
    assert items[..i] == items;
  }

  /** Every directory that an inventory needs is there. */
  ghost predicate AllThere(t: Tree, start: nat, inventory: seq<seq<string>>) {
    forall d :: Sealing.IsDirectory(inventory, d) ==> Walk(t, start, d).Some?
  }

  /**
   The sealing loop; `sealed` are the directories whose mode was changed, in order.  It stops only
   when a call fails or a directory is missing.
   */
  method SealAll(k: Kernel, destination: nat, inventory: seq<seq<string>>)
      returns (error: Option<Error>, sealed: seq<seq<string>>)
    requires k.Valid() && destination in k.t.open
    modifies k`t, k`tree, k`calls, k`raised, k`chmods
    ensures k.Valid() && k.tree == old(k.tree) && Balanced(old(k.t), k.t, {}) && old(k.calls) <= k.calls
    ensures ChangedAs(k.tree, old(k.t).nodes[destination], old(k.chmods), k.chmods, sealed)
    ensures Sealing.Sorted(sealed) && forall d :: d in sealed ==> Sealing.IsDirectory(inventory, d)
    ensures error.None? ==>
      k.Quiet(old(k.calls), k.calls) && forall d :: d in sealed <==> Sealing.IsDirectory(inventory, d)
    ensures error.Some? ==>
      !k.Quiet(old(k.calls), k.calls) || !AllThere(k.tree, old(k.t).nodes[destination], inventory)
  {
    ghost var a := k.t;
    BalancedStart(a);
    k.QuietNow();
    var order := Sealing.SealOrder(inventory);
    sealed := [];
    error := None;
    var i := 0;
    while i < |order| && error.None?
      invariant 0 <= i <= |order| && k.Valid() && k.tree == old(k.tree)
      invariant Balanced(a, k.t, {}) && old(k.calls) <= k.calls
      invariant ChangedAs(k.tree, a.nodes[destination], old(k.chmods), k.chmods, sealed)
      invariant sealed <= order && (error.None? ==> sealed == order[..i] && k.Quiet(old(k.calls), k.calls))
      invariant error.Some? ==>
        !k.Quiet(old(k.calls), k.calls) || exists d :: d in order && Walk(k.tree, a.nodes[destination], d).None?
    {
      ghost var mid := k.calls;
      error, sealed := SealNext(k, destination, order, i, sealed, a, old(k.chmods));
      k.QuietSplits(old(k.calls), mid, k.calls);
      assert order[i] in order;
      i := i + 1;
    }
    assert order[..|order|] == order;
  }

  method SealNext(k: Kernel, destination: nat, order: seq<seq<string>>, i: nat,
                  sealed: seq<seq<string>>, ghost a: Table, ghost before: seq<nat>)
      returns (error: Option<Error>, more: seq<seq<string>>)
    requires k.Valid() && Sound(a) && destination in k.t.open && Balanced(a, k.t, {}) && i < |order|
    requires sealed == order[..i]
    requires ChangedAs(k.tree, k.t.nodes[destination], before, k.chmods, sealed)
    modifies k`t, k`tree, k`calls, k`raised, k`chmods
    ensures k.Valid() && k.tree == old(k.tree) && Balanced(a, k.t, {}) && old(k.calls) <= k.calls
    ensures ChangedAs(k.tree, old(k.t).nodes[destination], before, k.chmods, more)
    ensures more <= order && (error.None? ==> more == order[..i + 1])
    ensures error.None? <==>
      k.Quiet(old(k.calls), k.calls) && Walk(k.tree, old(k.t).nodes[destination], order[i]).Some?
  {
    var changed;
    error, changed := SealOne(k, destination, order[i]);
    BalancedThen(a, old(k.t), k.t, {}, {});
    more := sealed;
    if changed {
      OneMoreSealed(k.tree, old(k.t).nodes[destination], before, old(k.chmods), sealed, order[i],
                    k.chmods[|old(k.chmods)|]);
      more := sealed + [order[i]];
    }
    assert order[..i + 1] == order[..i] + [order[i]];
  }

  /** One turn: open the directory, change its mode, `fsync`, close. */
  method SealOne(k: Kernel, destination: nat, parts: seq<string>) returns (error: Option<Error>, changed: bool)
    requires k.Valid() && destination in k.t.open
    modifies k`t, k`tree, k`calls, k`raised, k`chmods
    ensures k.Valid() && k.tree == old(k.tree) && Balanced(old(k.t), k.t, {}) && old(k.calls) <= k.calls
    ensures changed ==> OneChange(k.tree, old(k.t).nodes[destination], parts, old(k.chmods), k.chmods)
    ensures !changed ==> k.chmods == old(k.chmods) && error.Some?
    ensures error.None? <==>
      k.Quiet(old(k.calls), k.calls) && Walk(k.tree, old(k.t).nodes[destination], parts).Some?
  {
    var directory := OpenRelativeParent(k, destination, parts, false);
    if directory.Failure? {
      return Some(directory.error), false;
    }
    ghost var mid := k.calls;
    error, changed := ChangeMode(k, directory.value);
    ghost var end := k.calls;
    error := Finally(k, directory.value, error, old(k.t), {directory.value});
    assert {directory.value} - {directory.value} == {};
    k.QuietOnce(end);
    k.QuietSplits(mid, end, k.calls);
    k.QuietSplits(old(k.calls), mid, k.calls);
  }

  /** `fchmod` and `fsync`. */
  method ChangeMode(k: Kernel, fd: nat) returns (error: Option<Error>, changed: bool)
    requires k.Valid() && fd in k.t.open
    modifies k`calls, k`chmods
    ensures old(k.calls) <= k.calls && (error.None? <==> k.Quiet(old(k.calls), k.calls))
    ensures k.chmods == old(k.chmods) + (if changed then [k.t.nodes[fd]] else []) && (!changed ==> error.Some?)
  {
    error := k.Fchmod(fd);
    k.QuietOnce(old(k.calls));
    changed := error.None?;
    if changed {
      error := k.Probe();
      k.QuietTwice(old(k.calls));
    }
  }

  // ---------------------------------------------------------------- the whole run

  /** The destination holds the manifest and the whole inventory, with the qualified sizes and digests. */
  ghost predicate Complete(t: Tree, made: nat, closure: Closure, sha256: string -> string) {
    && HoldsAll(t, made, closure.inventory, sha256)
    && exists size: nat :: Holds(t, made, Item([MANIFEST], size, closure.manifestDigest), sha256)
  }

  /** The last changes of modes are those of `sealed` below `made`, in order. */
  ghost predicate SealedLast(t: Tree, made: nat, log: seq<nat>, sealed: seq<seq<string>>) {
    |sealed| <= |log| && ChangedAs(t, made, log[..|log| - |sealed|], log, sealed)
  }

  lemma SealedIsNew(before: Tree, t: Tree, made: nat, a: seq<nat>, b: seq<nat>, c: seq<nat>, sealed: seq<seq<string>>)
    requires WellFormed(before) && Extends(before, t) && made >= before.next
    requires NewOnly(a, b, before.next) && ChangedAs(t, made, b, c, sealed)
    ensures NewOnly(a, c, before.next) && SealedLast(t, made, c, sealed)
  {
    assert c[..|c| - |sealed|] == b;
    forall i | |a| <= i < |c|
      ensures c[i] >= before.next
    {
      if i < |b| {
        assert c[i] == b[i];
      } else {
        BelowIsNew(before, t, made, sealed[i - |b|], c[i]);
      }
    }
  }

  /** The paths of everything that is copied. */
  function AllPaths(closure: Closure): seq<seq<string>> {
    PartsOf(closure.inventory) + [[MANIFEST]]
  }

  /** What the source must hold for a closure, and how its paths must lie. */
  predicate SourceSound(t: Tree, source: nat, closure: Closure, sha256: string -> string) {
    && HasFile(t, source, [MANIFEST]) && sha256(FileAt(t, source, [MANIFEST])) == closure.manifestDigest
    && (forall i :: 0 <= i < |closure.inventory| ==> Holds(t, source, closure.inventory[i], sha256))
    && Incomparable(AllPaths(closure))
  }

  lemma SoundStays(t: Tree, u: Tree, source: nat, closure: Closure, sha256: string -> string)
    requires Extends(t, u) && SourceSound(t, source, closure, sha256)
    ensures SourceSound(u, source, closure, sha256)
  {
    FileStays(t, u, source, [MANIFEST]);
    forall i | 0 <= i < |closure.inventory|
      ensures Holds(u, source, closure.inventory[i], sha256)
    {
      HoldsInExtension(t, u, source, closure.inventory[i], sha256);
    }
  }

  function ManifestItem(size: nat, closure: Closure): Item {
    Item([MANIFEST], size, closure.manifestDigest)
  }

  /** A sound source can be copied into a new, empty directory. */
  lemma SoundCanCopy(t: Tree, source: nat, made: nat, closure: Closure, sha256: string -> string)
    requires SourceSound(t, source, closure, sha256) && NoEntries(t, made)
    requires forall i :: 0 <= i < |closure.inventory| ==> closure.inventory[i].parts != []
    ensures CanCopy(t, source, made,
                    closure.inventory + [ManifestItem(|FileAt(t, source, [MANIFEST])|, closure)], 0, sha256)
  {
    var items := closure.inventory + [ManifestItem(|FileAt(t, source, [MANIFEST])|, closure)];
    assert PartsOf(items) == AllPaths(closure);
    forall i | 0 <= i < |items|
      ensures Copyable(t, source, made, items[i], sha256)
    {
      EmptyLeadsNowhere(t, made, items[i].parts);
    }
  }

  /** The directories of a copied inventory are there. */
  lemma CopiedIsThere(t: Tree, made: nat, closure: Closure, sha256: string -> string)
    requires HoldsAll(t, made, closure.inventory, sha256)
    ensures AllThere(t, made, PartsOf(closure.inventory))
  {
    forall d | Sealing.IsDirectory(PartsOf(closure.inventory), d)
      ensures Walk(t, made, d).Some?
    {
      if d != [] {
        var i :| 0 <= i < |closure.inventory| && Sealing.IsProperFront(PartsOf(closure.inventory)[i], d);
        assert Holds(t, made, closure.inventory[i], sha256);
        WalkOfFront(t, made, closure.inventory[i].parts, |d|);
      }
    }
  }

  /** Everything between the creation of the destination and the last `finally`. */
  method Fill(k: Kernel, source: nat, destination: nat, closure: Closure, sha256: string -> string, ghost before: Tree)
      returns (error: Option<Error>, sealed: seq<seq<string>>)
    requires k.Valid() && source in k.t.open && destination in k.t.open
    requires NewDir(before, k.tree, k.t.nodes[destination]) && NoEntries(k.tree, k.t.nodes[destination])
    requires forall i :: 0 <= i < |closure.inventory| ==> closure.inventory[i].parts != []
    modifies k`t, k`tree, k`calls, k`raised, k`chmods, k`readings
    ensures k.Valid() && Extends(old(k.tree), k.tree) && Balanced(old(k.t), k.t, {}) && old(k.calls) <= k.calls
    ensures NewOnly(old(k.chmods), k.chmods, before.next)
    ensures error.None? ==>
      && k.Quiet(old(k.calls), k.calls)
      && Filled(k.tree, old(k.t).nodes[destination], closure, sha256, old(k.chmods), k.chmods, sealed)
    ensures SourceSound(old(k.tree), old(k.t).nodes[source], closure, sha256) ==>
      k.Quiet(old(k.calls), k.calls) ==> error.None?
  {
    sealed := [];
    error := CopyEverything(k, source, destination, closure, sha256, before);
    if error.None? {
      ghost var mid, copied := k.calls, k.chmods;
      CopiedIsThere(k.tree, k.t.nodes[destination], closure, sha256);
      error, sealed := Seal(k, destination, PartsOf(closure.inventory), old(k.t), before, old(k.chmods));
      k.QuietSplits(old(k.calls), mid, k.calls);
      if error.None? {
        FilledBy(k.tree, k.t.nodes[destination], closure, sha256, old(k.chmods), copied, k.chmods, sealed);
      }
    }
  }

  lemma FilledBy(t: Tree, made: nat, closure: Closure, sha256: string -> string, log: seq<nat>, copied: seq<nat>,
                 chmods: seq<nat>, sealed: seq<seq<string>>)
    requires Complete(t, made, closure, sha256) && ChangedAs(t, made, log, copied, AllPaths(closure))
    requires ChangedAs(t, made, copied, chmods, sealed)
    requires Sealing.Sorted(sealed) && forall d :: d in sealed <==> Sealing.IsDirectory(PartsOf(closure.inventory), d)
    ensures Filled(t, made, closure, sha256, log, chmods, sealed)
  {
    assert chmods[..|chmods| - |sealed|] == copied;
  }

  /**
   The directory holds everything; the modes changed since `log` are those of the copied files and
   then those of its directories, and no others.
   */
  ghost predicate Filled(t: Tree, made: nat, closure: Closure, sha256: string -> string, log: seq<nat>,
                         chmods: seq<nat>, sealed: seq<seq<string>>)
  {
    && Complete(t, made, closure, sha256) && SealedLast(t, made, chmods, sealed)
    && ChangedAs(t, made, log, chmods[..|chmods| - |sealed|], AllPaths(closure))
    && Sealing.Sorted(sealed) && forall d :: d in sealed <==> Sealing.IsDirectory(PartsOf(closure.inventory), d)
  }

  /** The sealing loop and the checks after it. */
  method Seal(k: Kernel, destination: nat, inventory: seq<seq<string>>, ghost a: Table, ghost before: Tree,
              ghost log: seq<nat>)
      returns (error: Option<Error>, sealed: seq<seq<string>>)
    requires k.Valid() && Sound(a) && destination in k.t.open && Balanced(a, k.t, {})
    requires NewDir(before, k.tree, k.t.nodes[destination])
    requires NewOnly(log, k.chmods, before.next)
    modifies k`t, k`tree, k`calls, k`raised, k`chmods
    ensures k.Valid() && k.tree == old(k.tree) && Balanced(a, k.t, {}) && NewOnly(log, k.chmods, before.next)
    ensures ChangedAs(k.tree, old(k.t).nodes[destination], old(k.chmods), k.chmods, sealed)
    ensures SealedLast(k.tree, old(k.t).nodes[destination], k.chmods, sealed) && old(k.calls) <= k.calls
    ensures error.None? ==>
      && k.Quiet(old(k.calls), k.calls)
      && Sealing.Sorted(sealed) && forall d :: d in sealed <==> Sealing.IsDirectory(inventory, d)
    ensures AllThere(k.tree, old(k.t).nodes[destination], inventory) ==>
      k.Quiet(old(k.calls), k.calls) ==> error.None?
  {
    error, sealed := SealAll(k, destination, inventory);
    ghost var mid := k.calls;
    BalancedThen(a, old(k.t), k.t, {}, {});
    SealedIsNew(before, k.tree, old(k.t).nodes[destination], log, old(k.chmods), k.chmods, sealed);
    if error.None? {
      error := k.Probe();
      k.QuietOnce(mid);
      k.QuietSplits(old(k.calls), mid, k.calls);
    }
  }

  /** The manifest is read and compared; then the inventory and the manifest are copied. */
  method CopyEverything(k: Kernel, source: nat, destination: nat, closure: Closure, sha256: string -> string,
                        ghost before: Tree)
      returns (error: Option<Error>)
    requires k.Valid() && source in k.t.open && destination in k.t.open
    requires NewDir(before, k.tree, k.t.nodes[destination]) && NoEntries(k.tree, k.t.nodes[destination])
    requires forall i :: 0 <= i < |closure.inventory| ==> closure.inventory[i].parts != []
    modifies k`t, k`tree, k`calls, k`raised, k`chmods, k`readings
    ensures k.Valid() && Extends(old(k.tree), k.tree) && Balanced(old(k.t), k.t, {}) && old(k.calls) <= k.calls
    ensures NewOnly(old(k.chmods), k.chmods, before.next)
    ensures NewDir(before, k.tree, old(k.t).nodes[destination])
    ensures error.None? ==>
      && k.Quiet(old(k.calls), k.calls) && Complete(k.tree, old(k.t).nodes[destination], closure, sha256)
      && ChangedAs(k.tree, old(k.t).nodes[destination], old(k.chmods), k.chmods, AllPaths(closure))
    ensures SourceSound(old(k.tree), old(k.t).nodes[source], closure, sha256) ==>
      k.Quiet(old(k.calls), k.calls) ==> error.None?
  {
    ghost var a := k.t;
    var manifest := ReadRelativeFile(k, source, [MANIFEST]);
    if manifest.Failure? || sha256(manifest.value) != closure.manifestDigest {
      ExtendsSelf(k.tree);
      return Some(if manifest.Failure? then manifest.error else ValueError);
    }
    ghost var mid := k.calls;
    error := CopyWithManifest(k, source, destination, closure, |manifest.value|, sha256, before, a);
    k.QuietSplits(old(k.calls), mid, k.calls);
  }

  /** The inventory, and the manifest after it. */
  method CopyWithManifest(k: Kernel, source: nat, destination: nat, closure: Closure, size: nat,
                          sha256: string -> string, ghost before: Tree, ghost a: Table)
      returns (error: Option<Error>)
    requires k.Valid() && Sound(a) && source in k.t.open && destination in k.t.open && Balanced(a, k.t, {})
    requires NewDir(before, k.tree, k.t.nodes[destination]) && NoEntries(k.tree, k.t.nodes[destination])
    requires forall i :: 0 <= i < |closure.inventory| ==> closure.inventory[i].parts != []
    requires HasFile(k.tree, k.t.nodes[source], [MANIFEST])
    requires size == |FileAt(k.tree, k.t.nodes[source], [MANIFEST])|
    modifies k`t, k`tree, k`calls, k`raised, k`chmods, k`readings
    ensures k.Valid() && Extends(old(k.tree), k.tree) && Balanced(a, k.t, {}) && old(k.calls) <= k.calls
    ensures NewOnly(old(k.chmods), k.chmods, old(k.tree).next)
    ensures NewDir(before, k.tree, old(k.t).nodes[destination])
    ensures error.None? ==>
      && k.Quiet(old(k.calls), k.calls) && Complete(k.tree, old(k.t).nodes[destination], closure, sha256)
      && ChangedAs(k.tree, old(k.t).nodes[destination], old(k.chmods), k.chmods, AllPaths(closure))
    ensures SourceSound(old(k.tree), old(k.t).nodes[source], closure, sha256) ==>
      k.Quiet(old(k.calls), k.calls) ==> error.None?
  {
    ghost var b := k.t;
    if SourceSound(k.tree, k.t.nodes[source], closure, sha256) {
      SoundCanCopy(k.tree, k.t.nodes[source], k.t.nodes[destination], closure, sha256);
    }
    var last := ManifestItem(size, closure);
    error := CopyAll(k, source, destination, closure.inventory + [last], sha256, before);
    BalancedThen(a, b, k.t, {}, {});
    PartsWithManifest(closure, last);
    if error.None? {
      AllOf(k.tree, b.nodes[destination], closure, last, sha256);
    }
  }

  lemma PartsWithManifest(closure: Closure, last: Item)
    requires last.parts == [MANIFEST]
    ensures PartsOf(closure.inventory + [last]) == AllPaths(closure)
  {
  }

  lemma AllOf(t: Tree, made: nat, closure: Closure, last: Item, sha256: string -> string)
    requires HoldsAll(t, made, closure.inventory + [last], sha256)
    requires last.parts == [MANIFEST] && last.sha256 == closure.manifestDigest
    ensures Complete(t, made, closure, sha256)
  {
    var items := closure.inventory + [last];
    forall i | 0 <= i < |closure.inventory|
      ensures Holds(t, made, closure.inventory[i], sha256)
    {
      assert items[i] == closure.inventory[i];
    }
    assert items[|closure.inventory|] == last;
    assert Holds(t, made, Item([MANIFEST], last.size, closure.manifestDigest), sha256);
  }

  /** What makes a run pass once everything is pinned. */
  ghost predicate Passes(t: Tree, source: Pinned, parent: Pinned, protected: seq<Pinned>, name: string,
                         closure: Option<Closure>, sha256: string -> string)
    requires source.identities != [] && parent.identities != []
  {
    && DestinationPath(parent.path, name).Some?
    && Admitted(source, parent, DestinationPath(parent.path, name).value, protected)
    && (Last(parent.identities), name) !in t.lookup
    && closure.Some? && SourceSound(t, Last(source.identities), closure.value, sha256)
  }

  /** What a success of the last `try` is. */
  ghost predicate Built(before: Tree, after: Tree, m: Materialized, source: Pinned, parent: Pinned,
                        protected: seq<Pinned>, name: string, closure: Option<Closure>, sha256: string -> string,
                        log: seq<nat>, chmods: seq<nat>)
  {
    && m == Materialized(source, parent, protected, before.next, m.sealed)
    && DestinationPath(parent.path, name).Some?
    && Admitted(source, parent, DestinationPath(parent.path, name).value, protected)
    && MadeIn(before, after, parent, name)
    && closure.Some? && Filled(after, m.made, closure.value, sha256, log, chmods, m.sealed)
  }

  /** The body of the last `try`: it hands back the destination's descriptor, if there is one. */
  method Build(k: Kernel, source: Pinned, parent: Pinned, protected: seq<Pinned>, name: string,
               closure: Option<Closure>, sha256: string -> string)
      returns (r: Result<Materialized, Error>, fd: Option<nat>)
    requires k.Valid() && source.fd in k.t.open && parent.fd in k.t.open && PinHolds(k, source) && PinHolds(k, parent)
    requires closure.Some? ==> forall i :: 0 <= i < |closure.value.inventory| ==> closure.value.inventory[i].parts != []
    modifies k`t, k`tree, k`calls, k`raised, k`chmods, k`readings
    ensures k.Valid() && Extends(old(k.tree), k.tree) && NewOnly(old(k.chmods), k.chmods, old(k.tree).next)
    ensures Balanced(old(k.t), k.t, if fd.Some? then {fd.value} else {}) && old(k.calls) <= k.calls
    ensures r.Success? ==>
      && k.Quiet(old(k.calls), k.calls)
      && Built(old(k.tree), k.tree, r.value, source, parent, protected, name, closure, sha256, old(k.chmods),
               k.chmods)
    ensures Passes(old(k.tree), source, parent, protected, name, closure, sha256) ==>
      k.Quiet(old(k.calls), k.calls) ==> r.Success?
  {
    BalancedStart(k.t);
    ExtendsSelf(k.tree);
    fd := None;
    var destination := DestinationPath(parent.path, name);
    if destination.None? {
      return Failure(ValueError), None;
    }
    var admitted := CheckAdmission(source, parent, destination.value, protected);
    if !admitted || closure.None? {
      return Failure(ValueError), None;
    }
    r, fd := CreateAndFill(k, source, parent, protected, name, closure.value, sha256);
  }

  /** Once everything is admitted: create the destination, and fill it. */
  method CreateAndFill(k: Kernel, source: Pinned, parent: Pinned, protected: seq<Pinned>, name: string,
                       closure: Closure, sha256: string -> string)
      returns (r: Result<Materialized, Error>, fd: Option<nat>)
    requires k.Valid() && source.fd in k.t.open && parent.fd in k.t.open && PinHolds(k, source) && PinHolds(k, parent)
    requires forall i :: 0 <= i < |closure.inventory| ==> closure.inventory[i].parts != []
    modifies k`t, k`tree, k`calls, k`raised, k`chmods, k`readings
    ensures k.Valid() && Extends(old(k.tree), k.tree) && NewOnly(old(k.chmods), k.chmods, old(k.tree).next)
    ensures Balanced(old(k.t), k.t, if fd.Some? then {fd.value} else {}) && old(k.calls) <= k.calls
    ensures r.Success? ==>
      var m := r.value;
      && k.Quiet(old(k.calls), k.calls)
      && m == Materialized(source, parent, protected, old(k.tree).next, m.sealed)
      && MadeIn(old(k.tree), k.tree, parent, name)
      && Filled(k.tree, m.made, closure, sha256, old(k.chmods), k.chmods, m.sealed)
    ensures (Last(parent.identities), name) !in old(k.tree).lookup ==>
      SourceSound(old(k.tree), Last(source.identities), closure, sha256) ==>
      k.Quiet(old(k.calls), k.calls) ==> r.Success?
  {
    var node := k.tree.next;
    var made := CreateDestination(k, parent.fd, name);
    if made.Failure? {
      return Failure(made.error), None;
    }
    fd := Some(made.value);
    ghost var b, grown, mid := k.t, k.tree, k.calls;
    JustMade(old(k.tree), Last(parent.identities), name);
    var error, sealed := Finish(k, source.fd, made.value, closure, sha256, old(k.tree));
    StillOwned(old(k.t), b, k.t, made.value);
    ExtendsThen(old(k.tree), grown, k.tree);
    k.QuietSplits(old(k.calls), mid, k.calls);
    r := if error.Some? then Failure(error.value)
         else Success(Materialized(source, parent, protected, node, sealed));
  }

  lemma StillOwned(a: Table, b: Table, c: Table, fd: nat)
    requires Sound(a) && Balanced(a, b, {fd}) && Balanced(b, c, {})
    ensures Balanced(a, c, {fd})
  {
    BalancedThen(a, b, c, {fd}, {});
    assert {fd} + {} == {fd};
  }

  /** The check of the new directory, and everything that goes into it. */
  method Finish(k: Kernel, source: nat, destination: nat, closure: Closure, sha256: string -> string,
                ghost before: Tree)
      returns (error: Option<Error>, sealed: seq<seq<string>>)
    requires k.Valid() && source in k.t.open && destination in k.t.open
    requires NewDir(before, k.tree, k.t.nodes[destination]) && NoEntries(k.tree, k.t.nodes[destination])
    requires forall i :: 0 <= i < |closure.inventory| ==> closure.inventory[i].parts != []
    modifies k`t, k`tree, k`calls, k`raised, k`chmods, k`readings
    ensures k.Valid() && Extends(old(k.tree), k.tree) && Balanced(old(k.t), k.t, {}) && old(k.calls) <= k.calls
    ensures NewOnly(old(k.chmods), k.chmods, before.next)
    ensures error.None? ==>
      && k.Quiet(old(k.calls), k.calls)
      && Filled(k.tree, old(k.t).nodes[destination], closure, sha256, old(k.chmods), k.chmods, sealed)
    ensures SourceSound(before, old(k.t).nodes[source], closure, sha256) ==>
      k.Quiet(old(k.calls), k.calls) ==> error.None?
  {
    BalancedStart(k.t);
    ExtendsSelf(k.tree);
    if SourceSound(before, k.t.nodes[source], closure, sha256) {
      SoundStays(before, k.tree, k.t.nodes[source], closure, sha256);
    }
    sealed := [];
    error := k.Probe();
    k.QuietOnce(old(k.calls));
    if error.None? {
      error, sealed := Fill(k, source, destination, closure, sha256, before);
      k.QuietSplits(old(k.calls), old(k.calls) + 1, k.calls);
    }
  }

  /** What success means, in terms of the tree before and after the run. */
  ghost predicate Delivered(before: Tree, after: Tree, m: Materialized, source: Path, destination: Path,
                            roots: seq<Path>, closure: Closure, sha256: string -> string, log: seq<nat>,
                            chmods: seq<nat>)
  {
    && m.source.path == source && PinnedIn(before, m.source)
    && m.parent.path == ParentOf(destination) && PinnedIn(before, m.parent)
    && PinsOf(before, m.protected, roots)
    && Built(before, after, m, m.source, m.parent, m.protected, NameOf(destination), Some(closure), sha256, log, chmods)
  }

  /** Where a path leads, as the code pins it. */
  function PinAt(t: Tree, path: Path): Pinned {
    var chain := Walk(t, t.root, path.names);
    Pinned(path, 0, if chain.Some? then chain.value else [t.root])
  }

  function PinsAt(t: Tree, roots: seq<Path>): seq<Pinned> {
    seq(|roots|, i requires 0 <= i < |roots| => PinAt(t, roots[i]))
  }

  /** What a request must be for a run without a failing call to succeed, as the code decides it. */
  ghost predicate Acceptable(t: Tree, source: Path, destination: Path, roots: seq<Path>, closure: Option<Closure>,
                             sha256: string -> string)
  {
    && roots != [] && Leading(t, source) && destination.anchor != Relative
    && Leading(t, ParentOf(destination)) && AllLeading(t, roots)
    && Passes(t, PinAt(t, source), PinAt(t, ParentOf(destination)), PinsAt(t, roots), NameOf(destination), closure,
              sha256)
  }

  /**
   The same in terms of where things lie: every path leads to a directory, the destination is one
   new component below its parent, the closure is sound, and the destination, the source and every
   protected root lie apart.
   */
  ghost predicate Grantable(t: Tree, source: Path, destination: Path, parent: Path, name: string, roots: seq<Path>,
                            closure: Option<Closure>, sha256: string -> string)
  {
    && destination == Path(parent.anchor, parent.names + [name])
    && roots != [] && Leading(t, source) && Leading(t, parent) && AllLeading(t, roots)
    && name != "" && name != "." && name != ".." && '/' !in name && '\\' !in name
    && (Last(PinAt(t, parent).identities), name) !in t.lookup
    && closure.Some? && SourceSound(t, Last(PinAt(t, source).identities), closure.value, sha256)
    && Apart(t, PinAt(t, source), PinAt(t, parent), name, PinsAt(t, roots))
  }

  /** The parent and the name of a path are its front and its last component. */
  lemma ParentAndName(path: Path, parent: Path, name: string)
    ensures path == Path(parent.anchor, parent.names + [name]) ==> ParentOf(path) == parent && NameOf(path) == name
    ensures path.names == [] ==> ParentOf(path) == path && NameOf(path) == ""
  {
    assert (parent.names + [name])[..|parent.names|] == parent.names;
  }

  lemma GrantableIsAcceptable(t: Tree, source: Path, destination: Path, parent: Path, name: string, roots: seq<Path>,
                              closure: Option<Closure>, sha256: string -> string)
    requires WellFormed(t) && Grantable(t, source, destination, parent, name, roots, closure, sha256)
    ensures Acceptable(t, source, destination, roots, closure, sha256)
  {
    ParentAndName(destination, parent, name);
    DestinationPathIs(parent, name);
    ApartIsAdmitted(t, PinAt(t, source), PinAt(t, parent), name, destination, PinsAt(t, roots));
  }

  lemma GrantedAreAcceptable(t: Tree, source: Path, destination: Path, roots: seq<Path>, closure: Option<Closure>,
                             sha256: string -> string)
    requires WellFormed(t)
    ensures forall parent, name :: Grantable(t, source, destination, parent, name, roots, closure, sha256) ==>
              Acceptable(t, source, destination, roots, closure, sha256)
  {
    forall parent, name | Grantable(t, source, destination, parent, name, roots, closure, sha256)
      ensures Acceptable(t, source, destination, roots, closure, sha256)
    {
      GrantableIsAcceptable(t, source, destination, parent, name, roots, closure, sha256);
    }
  }

  /** Admission depends on where the pins lead, and not on their descriptors. */
  lemma PassesAlike(t: Tree, source: Path, parent: Path, roots: seq<Path>, s: Pinned, p: Pinned, protected: seq<Pinned>,
                    name: string, closure: Option<Closure>, sha256: string -> string)
    requires Leading(t, source) && Leading(t, parent) && AllLeading(t, roots)
    requires s.path == source && PinnedIn(t, s) && p.path == parent && PinnedIn(t, p) && PinsOf(t, protected, roots)
    ensures Passes(t, PinAt(t, source), PinAt(t, parent), PinsAt(t, roots), name, closure, sha256)
            <==> Passes(t, s, p, protected, name, closure, sha256)
  {
    var pins := PinsAt(t, roots);
    forall i | 0 <= i < |roots|
      ensures pins[i].path == protected[i].path && pins[i].identities == protected[i].identities
    {
    }
  }

  /**
   For every pattern of failures, failing closes included, the run ends with the descriptors it
   started with, and has closed each descriptor it acquired exactly once.  It succeeds only when
   no call fails; and when none fails, it succeeds for every grantable request.
   */
  method Materialize(k: Kernel, source: Path, destination: Path, roots: seq<Path>, closure: Option<Closure>,
                     sha256: string -> string)
      returns (r: Result<Materialized, Error>)
    requires k.Valid()
    requires closure.Some? ==>
      forall i :: 0 <= i < |closure.value.inventory| ==> closure.value.inventory[i].parts != []
    modifies k`t, k`tree, k`calls, k`raised, k`chmods, k`readings
    ensures k.Valid() && Extends(old(k.tree), k.tree) && old(k.calls) <= k.calls
    ensures Balanced(old(k.t), k.t, {})
    ensures NewOnly(old(k.chmods), k.chmods, old(k.tree).next)
    ensures r.Success? ==>
      && k.Quiet(old(k.calls), k.calls)
      && closure.Some? && Delivered(old(k.tree), k.tree, r.value, source, destination, roots, closure.value, sha256,
                                    old(k.chmods), k.chmods)
    ensures Acceptable(old(k.tree), source, destination, roots, closure, sha256) ==>
      k.Quiet(old(k.calls), k.calls) ==> r.Success?
    ensures forall parent, name ::
      Grantable(old(k.tree), source, destination, parent, name, roots, closure, sha256) ==>
        k.Quiet(old(k.calls), k.calls) ==> r.Success?
  {
    GrantedAreAcceptable(k.tree, source, destination, roots, closure, sha256);
    ghost var a := k.t;
    BalancedStart(a);
    ExtendsSelf(k.tree);
    if roots == [] {
      return Failure(ValueError);
    }
    var pin := PinAbsoluteDirectory(k, source);
    if pin.Failure? {
      return Failure(ValueError);
    }
    if destination.anchor == Relative {
      var e := Abandon(k, pin.value.fd, ValueError, a, {pin.value.fd});
      assert {pin.value.fd} - {pin.value.fd} == {};
      return Failure(e);
    }
    ghost var mid := k.calls;
    r := PinAndBuild(k, pin.value, destination, roots, closure, sha256, a);
    k.QuietSplits(old(k.calls), mid, k.calls);
  }

  /** Once the source is pinned. */
  method PinAndBuild(k: Kernel, source: Pinned, destination: Path, roots: seq<Path>, closure: Option<Closure>,
                     sha256: string -> string, ghost a: Table)
      returns (r: Result<Materialized, Error>)
    requires k.Valid() && Sound(a) && Balanced(a, k.t, {source.fd})
    requires PinHolds(k, source) && Leading(k.tree, source.path)
    requires roots != [] && destination.anchor != Relative
    requires closure.Some? ==>
      forall i :: 0 <= i < |closure.value.inventory| ==> closure.value.inventory[i].parts != []
    modifies k`t, k`tree, k`calls, k`raised, k`chmods, k`readings
    ensures k.Valid() && Extends(old(k.tree), k.tree) && old(k.calls) <= k.calls && Balanced(a, k.t, {})
    ensures NewOnly(old(k.chmods), k.chmods, old(k.tree).next)
    ensures r.Success? ==>
      && k.Quiet(old(k.calls), k.calls)
      && closure.Some? && Delivered(old(k.tree), k.tree, r.value, source.path, destination, roots, closure.value,
                                    sha256, old(k.chmods), k.chmods)
    ensures Acceptable(old(k.tree), source.path, destination, roots, closure, sha256) ==>
      k.Quiet(old(k.calls), k.calls) ==> r.Success?
  {
    ExtendsSelf(k.tree);
    var others := PinOthers(k, source, destination, roots, a);
    if others.Failure? {
      return Failure(others.error);
    }
    var (parent, protected) := others.value;
    ghost var mid := k.calls;
    HoldsLater(k.tree, old(k.t.nodes), k.t.nodes, source);
    PassesAlike(k.tree, source.path, ParentOf(destination), roots, source, parent, protected, NameOf(destination),
                closure, sha256);
    r := BuildAndClose(k, source, parent, protected, NameOf(destination), closure, sha256, a);
    k.QuietSplits(old(k.calls), mid, k.calls);
  }

  /** The last `try` with its `finally`. */
  method BuildAndClose(k: Kernel, source: Pinned, parent: Pinned, protected: seq<Pinned>, name: string,
                       closure: Option<Closure>, sha256: string -> string, ghost a: Table)
      returns (r: Result<Materialized, Error>)
    requires k.Valid() && Sound(a) && PinHolds(k, source) && PinHolds(k, parent)
    requires OwnsAll(a, k.t, CleanupList(source, parent, protected))
    requires closure.Some? ==> forall i :: 0 <= i < |closure.value.inventory| ==> closure.value.inventory[i].parts != []
    modifies k`t, k`tree, k`calls, k`raised, k`chmods, k`readings
    ensures k.Valid() && Extends(old(k.tree), k.tree) && Balanced(a, k.t, {}) && old(k.calls) <= k.calls
    ensures NewOnly(old(k.chmods), k.chmods, old(k.tree).next)
    ensures r.Success? ==>
      && k.Quiet(old(k.calls), k.calls)
      && Built(old(k.tree), k.tree, r.value, source, parent, protected, name, closure, sha256, old(k.chmods),
               k.chmods)
    ensures Passes(old(k.tree), source, parent, protected, name, closure, sha256) ==>
      k.Quiet(old(k.calls), k.calls) ==> r.Success?
  {
    var fds := CleanupList(source, parent, protected);
    assert fds[0] in SetOf(fds) && fds[1] in SetOf(fds);
    var fd;
    r, fd := Build(k, source, parent, protected, name, closure, sha256);
    ghost var mid := k.calls;
    if fd.Some? {
      AddDescriptor(a, old(k.t), k.t, fds, fd.value);
      fds := [fd.value] + fds;
    } else {
      StillBalanced(a, old(k.t), k.t, fds);
    }
    var ok := CloseEach(k, fds, fds, a);
    k.QuietSplits(old(k.calls), mid, k.calls);
    if !ok {
      r := Failure(OSError);
    }
  }

  /** A delivered destination, and the source, are apart from every protected root. */
  lemma DeliveredIsApart(before: Tree, after: Tree, m: Materialized, source: Path, destination: Path, roots: seq<Path>,
                         closure: Closure, sha256: string -> string, log: seq<nat>, chmods: seq<nat>, i: nat)
    requires Delivered(before, after, m, source, destination, roots, closure, sha256, log, chmods) && i < |roots|
    ensures Disjoint(after, m.made, Last(m.protected[i].identities))
    ensures Disjoint(after, Last(m.source.identities), Last(m.protected[i].identities))
    ensures Disjoint(after, m.made, Last(m.source.identities)) <==> !Descends(m.parent.identities, m.source.identities)
  {
    var path := DestinationPath(m.parent.path, NameOf(destination)).value;
    ProtectedRootsAreApart(before, after, m.source, m.parent, NameOf(destination), path, m.protected, i);
    SourceApartIff(before, after, m.source, m.parent, NameOf(destination));
  }

  lemma MadeIsThere(before: Tree, after: Tree, parent: Pinned, name: string)
    requires MadeIn(before, after, parent, name) && PinnedIn(before, parent)
    ensures Leads(after, after.root, parent.path.names + [name], before.next) && Extends(before, after)
  {
    NewDirectory(before, after, parent, name, parent);
    AddedIsWellFormed(before, Last(parent.identities), name);
    ExtendsThen(before, Added(before, Last(parent.identities), name), after);
  }

  /** A delivered destination is where its own path leads, and nothing was there before. */
  lemma DeliveredIsThere(before: Tree, after: Tree, m: Materialized, source: Path, destination: Path, roots: seq<Path>,
                         closure: Closure, sha256: string -> string, log: seq<nat>, chmods: seq<nat>)
    requires Delivered(before, after, m, source, destination, roots, closure, sha256, log, chmods)
    ensures destination.names != [] && Leads(after, after.root, destination.names, m.made)
    ensures Walk(before, before.root, destination.names).None?
    ensures '/' !in NameOf(destination) && NameOf(destination) !in {"", ".", ".."}
  {
    var name := NameOf(destination);
    DestinationPathIs(m.parent.path, name);
    PathIsParentAndName(destination);
    MadeIsThere(before, after, m.parent, name);
    WasNotThere(before, m.parent.path.names, name, m.parent.identities);
  }

  lemma PathIsParentAndName(path: Path)
    requires path.names != []
    ensures path.names == ParentOf(path).names + [NameOf(path)]
  {
  }

  lemma WasNotThere(t: Tree, names: seq<string>, name: string, chain: seq<nat>)
    requires Walk(t, t.root, names) == Some(chain) && (Last(chain), name) !in t.lookup
    ensures Walk(t, t.root, names + [name]).None?
  {
    assert (names + [name])[..|names|] == names;
  }

  /**
   The sealing of a delivered destination: the modes of exactly the sealing set were changed, each
   directory once, and after everything inside it.
   */
  lemma DeliveredIsSealed(before: Tree, after: Tree, m: Materialized, source: Path, destination: Path, roots: seq<Path>,
                          closure: Closure, sha256: string -> string, log: seq<nat>, chmods: seq<nat>)
    requires Delivered(before, after, m, source, destination, roots, closure, sha256, log, chmods)
    ensures |chmods| - |m.sealed| == |log| + |AllPaths(closure)|
    ensures InnerFirst(after, chmods, |chmods| - |m.sealed|)
    ensures EachOnce(chmods[..|chmods| - |m.sealed|], chmods)
  {
    MadeIsThere(before, after, m.parent, NameOf(destination));
    FilledIsSealed(before, after, m.parent.path.names + [NameOf(destination)], m.made, closure, sha256, log, chmods,
                   m.sealed);
  }

  lemma FilledIsSealed(before: Tree, t: Tree, top: seq<string>, made: nat, closure: Closure,
                       sha256: string -> string, log: seq<nat>, chmods: seq<nat>, sealed: seq<seq<string>>)
    requires WellFormed(before) && WellFormed(t) && Extends(before, t) && made >= before.next
    requires Leads(t, t.root, top, made) && Filled(t, made, closure, sha256, log, chmods, sealed)
    ensures |chmods| - |sealed| == |log| + |AllPaths(closure)|
    ensures InnerFirst(t, chmods, |chmods| - |sealed|) && EachOnce(chmods[..|chmods| - |sealed|], chmods)
  {
    SealedWell(before, t, top, made, chmods[..|chmods| - |sealed|], chmods, PartsOf(closure.inventory), sealed);
  }

  /** The sealing of a directory made since `before`. */
  lemma SealedWell(before: Tree, t: Tree, top: seq<string>, made: nat, older: seq<nat>, chmods: seq<nat>,
                   inventory: seq<seq<string>>, sealed: seq<seq<string>>)
    requires WellFormed(before) && WellFormed(t) && Extends(before, t) && made >= before.next
    requires Leads(t, t.root, top, made) && ChangedAs(t, made, older, chmods, sealed)
    requires Sealing.Sorted(sealed) && forall d :: d in sealed <==> Sealing.IsDirectory(inventory, d)
    ensures InnerFirst(t, chmods, |older|) && EachOnce(older, chmods)
  {
    AllInnerFirst(t, top, made, older, chmods, sealed);
    SealingSetIsClosed(inventory, sealed);
    NewIsNoAlias(before, t, made, sealed);
    EachOnceIff(t, top, made, older, chmods, sealed);
  }
}

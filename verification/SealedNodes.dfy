/**
 The sealing loop seen from the file system: which directories had their mode changed, in which
 order, and when each of them only once.
 */
module SealedNodes {
  import opened Wrappers
  import opened DirectoryTree
  import Sealing

  /** From `before` to `after` the log of changed modes grew by what these paths lead to, in order. */
  ghost predicate ChangedAs(t: Tree, made: nat, before: seq<nat>, after: seq<nat>, paths: seq<seq<string>>) {
    && |after| == |before| + |paths| && before <= after
    && forall i :: 0 <= i < |paths| ==> Leads(t, made, paths[i], after[|before| + i])
  }

  lemma ChangedLater(t: Tree, u: Tree, made: nat, before: seq<nat>, after: seq<nat>, paths: seq<seq<string>>)
    requires ChangedAs(t, made, before, after, paths) && Extends(t, u)
    ensures ChangedAs(u, made, before, after, paths)
  {
    forall i | 0 <= i < |paths|
      ensures Leads(u, made, paths[i], after[|before| + i])
    {
      LeadsInExtension(t, u, made, paths[i], after[|before| + i]);
    }
  }

  lemma OneMoreSealed(t: Tree, made: nat,
                      before: seq<nat>, after: seq<nat>, sealed: seq<seq<string>>, parts: seq<string>, node: nat)
    requires ChangedAs(t, made, before, after, sealed) && Leads(t, made, parts, node)
    ensures ChangedAs(t, made, before, after + [node], sealed + [parts])
  {
  }

  /** A path below `made`, seen from the root. */
  lemma FromRoot(t: Tree, top: seq<string>, made: nat, names: seq<string>, node: nat)
    requires Leads(t, t.root, top, made) && Leads(t, made, names, node)
    ensures Leads(t, t.root, top + names, node)
    ensures |Walk(t, t.root, top + names).value| == |top| + |names| + 1
  {
    WalkConcat(t, t.root, top, names);
  }

  /** In a tree with unique parents two paths to one directory are equally long. */
  lemma SameDepth(t: Tree, top: seq<string>, made: nat, d: seq<string>, e: seq<string>, node: nat)
    requires WellFormed(t) && Leads(t, t.root, top, made) && Leads(t, made, d, node) && Leads(t, made, e, node)
    ensures |d| == |e|
  {
    FromRoot(t, top, made, d, node);
    FromRoot(t, top, made, e, node);
    UniqueChain(t, top + d, top + e);
  }

  lemma LeadsThen(t: Tree, a: nat, x: seq<string>, b: nat, y: seq<string>, c: nat)
    requires Leads(t, a, x, b) && Leads(t, b, y, c)
    ensures Leads(t, a, x + y, c)
  {
    WalkConcat(t, a, x, y);
  }

  /** No directory has its mode changed before one that is inside it. */
  lemma InnermostFirst(t: Tree, top: seq<string>, made: nat,
                       before: seq<nat>, after: seq<nat>, sealed: seq<seq<string>>,
                       i: nat, j: nat)
    requires WellFormed(t) && Leads(t, t.root, top, made) && ChangedAs(t, made, before, after, sealed)
    requires Sealing.Sorted(sealed) && i < j < |sealed|
    requires InSubtree(t, after[|before| + i], after[|before| + j])
    ensures after[|before| + i] == after[|before| + j]
  {
    var outer, inner := after[|before| + i], after[|before| + j];
    var names :| Leads(t, outer, names, inner);
    LeadsThen(t, made, sealed[i], outer, names, inner);
    SameDepth(t, top, made, sealed[i] + names, sealed[j], inner);
    assert Sealing.Before(sealed[i], sealed[j]);
    assert names == [];
  }

  /** From position n on, no directory is logged before one that is inside it. */
  ghost predicate InnerFirst(t: Tree, log: seq<nat>, n: int) {
    0 <= n && forall i, j :: n <= i < j < |log| && InSubtree(t, log[i], log[j]) ==> log[i] == log[j]
  }

  lemma AllInnerFirst(t: Tree, top: seq<string>, made: nat, before: seq<nat>, after: seq<nat>, sealed: seq<seq<string>>)
    requires WellFormed(t) && Leads(t, t.root, top, made) && ChangedAs(t, made, before, after, sealed)
    requires Sealing.Sorted(sealed)
    ensures InnerFirst(t, after, |before|)
  {
    forall i, j | |before| <= i < j < |after| && InSubtree(t, after[i], after[j])
      ensures after[i] == after[j]
    {
      InnermostFirst(t, top, made, before, after, sealed, i - |before|, j - |before|);
    }
  }

  // ---------------------------------------------------------------- each directory once

  ghost predicate EachOnce(before: seq<nat>, after: seq<nat>) {
    forall i, j :: |before| <= i < j < |after| ==> after[i] != after[j]
  }

  /** Below one directory, two of these paths name one child by one name. */
  ghost predicate SameChild(t: Tree, made: nat, d: seq<string>, e: seq<string>, p: nat) {
    && d != [] && e != []
    && Leads(t, made, d[..|d| - 1], p) && Leads(t, made, e[..|e| - 1], p)
    && (p, d[|d| - 1]) in t.lookup && (p, e[|e| - 1]) in t.lookup
    && t.lookup[(p, d[|d| - 1])] == t.lookup[(p, e[|e| - 1])]
  }

  /** The paths use no two names for one child of a directory. */
  ghost predicate NoAlias(t: Tree, made: nat, dirs: seq<seq<string>>) {
    forall d, e, p :: d in dirs && e in dirs && SameChild(t, made, d, e, p) ==> d[|d| - 1] == e[|e| - 1]
  }

  predicate FrontClosed(dirs: seq<seq<string>>) {
    forall d :: d in dirs && d != [] ==> d[..|d| - 1] in dirs
  }

  lemma LeadsToParent(t: Tree, made: nat, d: seq<string>, node: nat) returns (p: nat)
    requires Leads(t, made, d, node) && d != []
    ensures Leads(t, made, d[..|d| - 1], p) && (p, d[|d| - 1]) in t.lookup && t.lookup[(p, d[|d| - 1])] == node
  {
    p := Last(Walk(t, made, d[..|d| - 1]).value);
  }

  lemma {:induction false} OnePath(t: Tree, top: seq<string>, made: nat,
                                   dirs: seq<seq<string>>, d: seq<string>, e: seq<string>, node: nat)
    requires WellFormed(t) && Leads(t, t.root, top, made) && NoAlias(t, made, dirs) && FrontClosed(dirs)
    requires d in dirs && e in dirs && Leads(t, made, d, node) && Leads(t, made, e, node)
    ensures d == e
    decreases |d|
  {
    SameDepth(t, top, made, d, e, node);
    if d != [] {
      var p := LeadsToParent(t, made, d, node);
      var q := LeadsToParent(t, made, e, node);
      assert SameChild(t, made, d, e, p);
      OnePath(t, top, made, dirs, d[..|d| - 1], e[..|e| - 1], p);
      assert d == d[..|d| - 1] + [d[|d| - 1]] && e == e[..|e| - 1] + [e[|e| - 1]];
    }
  }

  lemma OneNode(t: Tree, made: nat,
                before: seq<nat>, after: seq<nat>, sealed: seq<seq<string>>, d: seq<string>, node: nat)
      returns (i: nat)
    requires ChangedAs(t, made, before, after, sealed) && d in sealed && Leads(t, made, d, node)
    ensures i < |sealed| && sealed[i] == d && after[|before| + i] == node
  {
    i :| i < |sealed| && sealed[i] == d;
  }

  lemma SortedIsDistinct(sealed: seq<seq<string>>, i: nat, j: nat)
    requires Sealing.Sorted(sealed) && i < j < |sealed|
    ensures sealed[i] != sealed[j]
  {
    Sealing.DescendantsFirst(sealed, i, j);
  }

  lemma NotTwice(t: Tree, top: seq<string>, made: nat,
                 before: seq<nat>, after: seq<nat>, sealed: seq<seq<string>>, k: nat, l: nat)
    requires WellFormed(t) && Leads(t, t.root, top, made) && ChangedAs(t, made, before, after, sealed)
    requires Sealing.Sorted(sealed) && FrontClosed(sealed) && NoAlias(t, made, sealed) && k < l < |sealed|
    ensures after[|before| + k] != after[|before| + l]
  {
    SortedIsDistinct(sealed, k, l);
    if after[|before| + k] == after[|before| + l] {
      OnePath(t, top, made, sealed, sealed[k], sealed[l], after[|before| + k]);
    }
  }

  lemma NoSecondName(t: Tree, made: nat, before: seq<nat>, after: seq<nat>, sealed: seq<seq<string>>,
                     d: seq<string>, e: seq<string>, p: nat)
    requires ChangedAs(t, made, before, after, sealed) && EachOnce(before, after)
    requires d in sealed && e in sealed && SameChild(t, made, d, e, p)
    ensures d == e
  {
    var node := t.lookup[(p, d[|d| - 1])];
    var i := OneNode(t, made, before, after, sealed, d, node);
    var j := OneNode(t, made, before, after, sealed, e, node);
    SameTurn(before, after, |before| + i, |before| + j);
  }

  lemma SameTurn(before: seq<nat>, after: seq<nat>, i: nat, j: nat)
    requires EachOnce(before, after) && |before| <= i < |after| && |before| <= j < |after| && after[i] == after[j]
    ensures i == j
  {
  }

  /** Each directory has its mode changed once, exactly when the sealing set names none of them twice. */
  lemma EachOnceIff(t: Tree, top: seq<string>, made: nat, before: seq<nat>, after: seq<nat>, sealed: seq<seq<string>>)
    requires WellFormed(t) && Leads(t, t.root, top, made) && ChangedAs(t, made, before, after, sealed)
    requires Sealing.Sorted(sealed) && FrontClosed(sealed)
    ensures EachOnce(before, after) <==> NoAlias(t, made, sealed)
  {
    if NoAlias(t, made, sealed) {
      forall i, j | |before| <= i < j < |after|
        ensures after[i] != after[j]
      {
        NotTwice(t, top, made, before, after, sealed, i - |before|, j - |before|);
      }
    }
    if EachOnce(before, after) {
      forall d, e, p | d in sealed && e in sealed && SameChild(t, made, d, e, p)
        ensures d[|d| - 1] == e[|e| - 1]
      {
        NoSecondName(t, made, before, after, sealed, d, e, p);
      }
    }
  }

  /** Nothing below a directory made since `before` has two names. */
  lemma NewIsNoAlias(before: Tree, t: Tree, made: nat, dirs: seq<seq<string>>)
    requires WellFormed(before) && Extends(before, t) && made >= before.next
    ensures NoAlias(t, made, dirs)
  {
    forall d, e, p | d in dirs && e in dirs && SameChild(t, made, d, e, p)
      ensures d[|d| - 1] == e[|e| - 1]
    {
      BelowIsNew(before, t, made, d, t.lookup[(p, d[|d| - 1])]);
      assert (p, d[|d| - 1]) == (p, e[|e| - 1]);
    }
  }

  /** The sealing set of an inventory holds the front of each of its paths. */
  lemma SealingSetIsClosed(inventory: seq<seq<string>>, sealed: seq<seq<string>>)
    requires forall d :: d in sealed <==> Sealing.IsDirectory(inventory, d)
    ensures FrontClosed(sealed)
  {
    forall d | d in sealed && d != []
      ensures d[..|d| - 1] in sealed
    {
      var i :| 0 <= i < |inventory| && Sealing.IsProperFront(inventory[i], d);
      var e := d[..|d| - 1];
      assert inventory[i][..|d|][..|e|] == inventory[i][..|e|];
      assert e == [] || Sealing.IsProperFront(inventory[i], e);
      assert Sealing.IsDirectory(inventory, e);
    }
  }
}

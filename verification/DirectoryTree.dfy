/**
 A directory tree with unique parents, and the walks and identity chains through it.  One
 directory may still be known to its parent by several names, as on a file system that folds
 case.
 */
module DirectoryTree {
  import opened Wrappers

  datatype Tree = Tree(root: nat, lookup: map<(nat, string), nat>, next: nat, files: map<nat, string>)

  predicate WellFormed(t: Tree) {
    && t.root < t.next && (forall n :: n in t.files ==> n < t.next)
    && (forall k :: k in t.lookup ==> k.0 < t.next && t.lookup[k] < t.next && t.lookup[k] != t.root)
    && (forall k, l :: k in t.lookup && l in t.lookup && t.lookup[k] == t.lookup[l] ==> k.0 == l.0)
  }

  /** A new directory under `dir`. */
  function Added(t: Tree, dir: nat, name: string): Tree {
    Tree(t.root, t.lookup[(dir, name) := t.next], t.next + 1, t.files)
  }

  function WithContent(t: Tree, node: nat, bytes: string): Tree {
    t.(files := t.files[node := bytes])
  }

  /** A new, empty file under `dir`. */
  function AddedFile(t: Tree, dir: nat, name: string): Tree {
    WithContent(Added(t, dir, name), t.next, "")
  }

  /** A node from `bound` on has one entry at most. */
  predicate OneEntryFrom(t: Tree, bound: nat) {
    forall k, l :: k in t.lookup && l in t.lookup && t.lookup[k] == t.lookup[l] && t.lookup[k] >= bound ==> k == l
  }

  /** `u` is `t` with one entry for each of some new nodes added, and with every file as it was. */
  predicate Extends(t: Tree, u: Tree) {
    && t.root == u.root && t.next <= u.next && OneEntryFrom(u, t.next)
    && (forall k :: k in t.lookup ==> k in u.lookup && u.lookup[k] == t.lookup[k])
    && (forall k :: k in u.lookup && k !in t.lookup ==> u.lookup[k] >= t.next)
    && (forall n :: n in t.files ==> n in u.files && u.files[n] == t.files[n])
  }

  /** The chain of nodes visited from `start` along `names`, `start` included. */
  function Walk(t: Tree, start: nat, names: seq<string>): (chain: Option<seq<nat>>)
    ensures chain.Some? ==> |chain.value| == |names| + 1 && chain.value[0] == start
  {
    if names == [] then Some([start])
    else
      var n := |names| - 1;
      var front := Walk(t, start, names[..n]);
      if front.None? then None
      else
        var key := (front.value[n], names[n]);
        if key in t.lookup then Some(front.value + [t.lookup[key]]) else None
  }

  function Last(chain: seq<nat>): nat
    requires chain != []
  {
    chain[|chain| - 1]
  }

  /** `node` is `top` or below it. */
  ghost predicate InSubtree(t: Tree, top: nat, node: nat) {
    exists names :: Leads(t, top, names, node)
  }

  predicate Leads(t: Tree, top: nat, names: seq<string>, node: nat) {
    Walk(t, top, names).Some? && Last(Walk(t, top, names).value) == node
  }

  ghost predicate Disjoint(t: Tree, a: nat, b: nat) {
    forall node :: !(InSubtree(t, a, node) && InSubtree(t, b, node))
  }

  /** No directory has two names in its parent. */
  predicate OneName(t: Tree) {
    forall k, l :: k in t.lookup && l in t.lookup && t.lookup[k] == t.lookup[l] ==> k.1 == l.1
  }

  lemma AddedIsWellFormed(t: Tree, dir: nat, name: string)
    requires WellFormed(t) && dir < t.next && (dir, name) !in t.lookup
    ensures WellFormed(Added(t, dir, name)) && Extends(t, Added(t, dir, name))
  {
  }

  lemma ExtendsSelf(t: Tree)
    requires WellFormed(t)
    ensures Extends(t, t)
  {
  }

  lemma ExtendsThen(t: Tree, u: Tree, v: Tree)
    requires Extends(t, u) && Extends(u, v)
    ensures Extends(t, v)
  {
    forall k, l | k in v.lookup && l in v.lookup && v.lookup[k] == v.lookup[l] && v.lookup[k] >= t.next
      ensures k == l
    {
      if v.lookup[k] < u.next {
        assert k in u.lookup && l in u.lookup;
      }
    }
  }

  lemma {:induction false} WalkInExtension(t: Tree, u: Tree, start: nat, names: seq<string>)
    requires Extends(t, u) && Walk(t, start, names).Some?
    ensures Walk(u, start, names) == Walk(t, start, names)
    decreases |names|
  {
    if names != [] {
      WalkInExtension(t, u, start, names[..|names| - 1]);
    }
  }

  lemma LeadsInExtension(t: Tree, u: Tree, start: nat, names: seq<string>, node: nat)
    requires Extends(t, u) && Leads(t, start, names, node)
    ensures Leads(u, start, names, node)
  {
    WalkInExtension(t, u, start, names);
  }

  lemma LeadsOneMore(t: Tree, start: nat, names: seq<string>, i: nat, node: nat)
    requires i < |names| && Leads(t, start, names[..i], node) && (node, names[i]) in t.lookup
    ensures Leads(t, start, names[..i + 1], t.lookup[(node, names[i])])
  {
    assert names[..i + 1][..i] == names[..i];
  }

  /** Whatever is below a new node is new itself. */
  lemma {:induction false} BelowIsNew(t: Tree, u: Tree, start: nat, names: seq<string>, node: nat)
    requires WellFormed(t) && Extends(t, u) && start >= t.next && Leads(u, start, names, node)
    ensures node >= t.next
    decreases |names|
  {
    if names != [] {
      var n := |names| - 1;
      BelowIsNew(t, u, start, names[..n], Last(Walk(u, start, names[..n]).value));
    }
  }

  lemma {:induction false} WalkStaysInside(t: Tree, start: nat, names: seq<string>, i: nat)
    requires WellFormed(t) && start < t.next && Walk(t, start, names).Some? && i <= |names|
    ensures Walk(t, start, names).value[i] < t.next
    decreases |names|
  {
    if 0 < |names| && i < |names| {
      WalkStaysInside(t, start, names[..|names| - 1], i);
    }
  }

  lemma {:induction false} WalkConcat(t: Tree, start: nat, a: seq<string>, b: seq<string>)
    requires Walk(t, start, a).Some?
    ensures var mid := Walk(t, start, a).value;
            var rest := Walk(t, Last(mid), b);
            Walk(t, start, a + b) == if rest.Some? then Some(mid + rest.value[1..]) else None
    decreases |b|
  {
    var mid := Walk(t, start, a).value;
    if b == [] {
      assert a + b == a;
      assert mid + [Last(mid)][1..] == mid;
    } else {
      var n := |b| - 1;
      WalkConcat(t, start, a, b[..n]);
      assert (a + b)[..|a + b| - 1] == a + b[..n];
      var front := Walk(t, Last(mid), b[..n]);
      if front.Some? {
        var whole := mid + front.value[1..];
        assert whole[|a| + n] == front.value[n];
        var rest := Walk(t, Last(mid), b);
        if rest.Some? {
          assert mid + rest.value[1..] == whole + [Last(rest.value)];
        }
      }
    }
  }

  /** Unique parents: two walks from the root to one node visit the same nodes. */
  lemma {:induction false} UniqueChain(t: Tree, a: seq<string>, b: seq<string>)
    requires WellFormed(t) && Walk(t, t.root, a).Some? && Walk(t, t.root, b).Some?
    requires Last(Walk(t, t.root, a).value) == Last(Walk(t, t.root, b).value)
    ensures Walk(t, t.root, a) == Walk(t, t.root, b)
    decreases |a|
  {
    if a != [] && b != [] {
      UniqueChain(t, a[..|a| - 1], b[..|b| - 1]);
    }
  }

  predicate Prefix(a: seq<nat>, b: seq<nat>) {
    |a| <= |b| && b[..|a|] == a
  }

  /** Below a node, every chain starts with the chain of that node. */
  lemma BelowMeansPrefix(t: Tree, top: seq<string>, node: nat) returns (chain: seq<nat>, names: seq<string>)
    requires WellFormed(t) && Walk(t, t.root, top).Some?
    requires InSubtree(t, Last(Walk(t, t.root, top).value), node)
    ensures Walk(t, t.root, names) == Some(chain) && Last(chain) == node
    ensures Prefix(Walk(t, t.root, top).value, chain)
  {
    var mid := Walk(t, t.root, top).value;
    var below :| Leads(t, Last(mid), below, node);
    WalkConcat(t, t.root, top, below);
    names := top + below;
    var rest := Walk(t, Last(mid), below).value;
    chain := mid + rest[1..];
    assert chain[..|mid|] == mid;
    if below == [] {
      assert Last(chain) == Last(mid) == rest[0];
    } else {
      assert Last(chain) == Last(rest);
    }
  }

  /** Two subtrees that meet have comparable chains, and comparable chains make subtrees meet. */
  lemma DisjointIffIncomparable(t: Tree, a: seq<string>, b: seq<string>)
    requires WellFormed(t) && Walk(t, t.root, a).Some? && Walk(t, t.root, b).Some?
    ensures var x, y := Walk(t, t.root, a).value, Walk(t, t.root, b).value;
            Disjoint(t, Last(x), Last(y)) <==> !Prefix(x, y) && !Prefix(y, x)
  {
    var x, y := Walk(t, t.root, a).value, Walk(t, t.root, b).value;
    forall node | InSubtree(t, Last(x), node) && InSubtree(t, Last(y), node)
      ensures Prefix(x, y) || Prefix(y, x)
    {
      var c, m := BelowMeansPrefix(t, a, node);
      var d, n := BelowMeansPrefix(t, b, node);
      UniqueChain(t, m, n);
      PrefixesOfOne(x, y, c);
    }
    if Prefix(x, y) {
      PrefixMeansBelow(t, a, b);
      SelfInSubtree(t, Last(y));
    }
    if Prefix(y, x) {
      PrefixMeansBelow(t, b, a);
      SelfInSubtree(t, Last(x));
    }
  }

  lemma SelfInSubtree(t: Tree, node: nat)
    ensures InSubtree(t, node, node)
  {
    assert Leads(t, node, [], node);
  }

  lemma PrefixesOfOne(x: seq<nat>, y: seq<nat>, c: seq<nat>)
    requires Prefix(x, c) && Prefix(y, c)
    ensures Prefix(x, y) || Prefix(y, x)
  {
    if |x| <= |y| {
      assert y[..|x|] == c[..|y|][..|x|] == c[..|x|];
    } else {
      assert x[..|y|] == c[..|x|][..|y|] == c[..|y|];
    }
  }

  lemma {:induction false} WalkOfFront(t: Tree, start: nat, names: seq<string>, n: nat)
    requires Walk(t, start, names).Some? && n <= |names|
    ensures Walk(t, start, names[..n]) == Some(Walk(t, start, names).value[..n + 1])
    decreases |names|
  {
    if n == |names| {
      assert names[..n] == names;
      assert Walk(t, start, names).value[..n + 1] == Walk(t, start, names).value;
    } else {
      var front := names[..|names| - 1];
      WalkOfFront(t, start, front, n);
      assert front[..n] == names[..n];
      assert Walk(t, start, names).value[..n + 1] == Walk(t, start, front).value[..n + 1];
    }
  }

  lemma PrefixMeansBelow(t: Tree, a: seq<string>, b: seq<string>)
    requires WellFormed(t) && Walk(t, t.root, a).Some? && Walk(t, t.root, b).Some?
    requires Prefix(Walk(t, t.root, a).value, Walk(t, t.root, b).value)
    ensures InSubtree(t, Last(Walk(t, t.root, a).value), Last(Walk(t, t.root, b).value))
  {
    var x, y := Walk(t, t.root, a).value, Walk(t, t.root, b).value;
    var names := WalkRest(t, t.root, b, |a|);
    assert y[..|x|] == x;
    assert Leads(t, Last(x), names, Last(y));
  }

  /** The second part of a walk starts where the first part ends. */
  lemma WalkRest(t: Tree, start: nat, names: seq<string>, n: nat) returns (rest: seq<string>)
    requires Walk(t, start, names).Some? && n <= |names|
    ensures var y := Walk(t, start, names).value; Leads(t, Last(y[..n + 1]), rest, Last(y))
  {
    var y := Walk(t, start, names).value;
    rest := names[n..];
    WalkOfFront(t, start, names, n);
    WalkConcat(t, start, names[..n], rest);
    assert names[..n] + rest == names;
    var w := Walk(t, Last(y[..n + 1]), rest);
    if rest == [] {
      assert y[..n + 1] == y;
    } else {
      assert y == y[..n + 1] + w.value[1..];
    }
  }

  /** Without aliases a chain determines the names along it. */
  lemma {:induction false} ChainGivesNames(t: Tree, a: seq<string>, b: seq<string>)
    requires WellFormed(t) && OneName(t) && Walk(t, t.root, a).Some? && Walk(t, t.root, b).Some?
    requires Prefix(Walk(t, t.root, a).value, Walk(t, t.root, b).value)
    ensures |a| <= |b| && a == b[..|a|]
    decreases |a|
  {
    var x, y := Walk(t, t.root, a).value, Walk(t, t.root, b).value;
    if a != [] {
      var n := |a| - 1;
      WalkOfFront(t, t.root, b, |a|);
      WalkOfFront(t, t.root, b, n);
      WalkOfFront(t, t.root, a, n);
      assert y[..n + 1] == y[..|a| + 1][..n + 1];
      ChainGivesNames(t, a[..n], b);
      assert b[..|a|][..n] == b[..n];
      assert x[|a|] == y[..|x|][|a|];
      assert a == a[..n] + [a[n]] && b[..|a|] == b[..n] + [b[n]];
    }
  }
}

/**
 The descriptor table of one process.  Every system call may fail, as an oracle decides.  A close
 releases its descriptor whether or not it raises, so a run is judged by `Balanced`: which
 descriptors it left open, and that it closed every other one it acquired exactly once.
 */
module Descriptors {
  import opened Wrappers
  import opened DirectoryTree

  /** Python's two exception classes that the callers distinguish. */
  datatype Error = OSError | ValueError

  datatype Errno = NotFound | Exists | Other

  /**
   Descriptors are numbered in the order of their creation; `nodes[fd]` is what fd was opened
   on, `open` are those still open, and `closes` counts every close that was issued.
   */
  datatype Table = Table(open: set<nat>, closes: multiset<nat>, nodes: seq<nat>)

  function Opened(t: Table, node: nat): Table {
    Table(t.open + {|t.nodes|}, t.closes, t.nodes + [node])
  }

  function ClosedAll(t: Table, fds: seq<nat>): Table {
    t.(open := t.open - (set fd | fd in fds), closes := t.closes + multiset(fds))
  }

  predicate Sound(t: Table) {
    forall fd :: fd in t.open ==> fd < |t.nodes|
  }

  predicate IsDescriptor(t: Table, fd: nat) {
    fd < |t.nodes|
  }

  /** The descriptors created from a to b. */
  function Acquired(a: Table, b: Table): set<nat> {
    set fd: nat | |a.nodes| <= fd < |b.nodes| && IsDescriptor(b, fd)
  }

  /** From a to b, exactly `kept` stays open of what was opened, and all the rest was closed once. */
  ghost predicate Balanced(a: Table, b: Table, kept: set<nat>) {
    && a.nodes <= b.nodes
    && kept <= Acquired(a, b)
    && b.open == a.open + kept
    && b.closes == a.closes + multiset(Acquired(a, b) - kept)
  }

  /** A log grew, by numbers from `bound` on only. */
  ghost predicate NewOnly(before: seq<nat>, after: seq<nat>, bound: nat) {
    before <= after && forall i :: |before| <= i < |after| ==> after[i] >= bound
  }

  predicate Distinct(fds: seq<nat>) {
    forall i, j :: 0 <= i < j < |fds| ==> fds[i] != fds[j]
  }

  lemma BalancedStart(a: Table)
    ensures Balanced(a, a, {})
  {
    assert Acquired(a, a) - {} == {};
  }

  lemma BalancedOpen(a: Table, b: Table, kept: set<nat>, node: nat)
    requires Sound(a) && Balanced(a, b, kept)
    ensures Balanced(a, Opened(b, node), kept + {|b.nodes|}) && |b.nodes| !in kept
  {
    OneMoreAcquired(a, b, node);
    NotAcquired(b, |b.nodes|, Acquired(a, b));
    assert Acquired(a, b) + {|b.nodes|} - (kept + {|b.nodes|}) == Acquired(a, b) - kept;
  }

  lemma OneMoreAcquired(a: Table, b: Table, node: nat)
    requires a.nodes <= b.nodes
    ensures Acquired(a, Opened(b, node)) == Acquired(a, b) + {|b.nodes|} && a.nodes <= Opened(b, node).nodes
  {
  }

  lemma NotAcquired(b: Table, fd: nat, fds: set<nat>)
    requires !IsDescriptor(b, fd) && forall x :: x in fds ==> IsDescriptor(b, x)
    ensures fd !in fds
  {
  }

  lemma {:induction false} CountDistinct(fds: seq<nat>, fd: nat)
    requires Distinct(fds)
    ensures multiset(fds)[fd] == if fd in fds then 1 else 0
    decreases |fds|
  {
    if fds != [] {
      var n := |fds| - 1;
      CountDistinct(fds[..n], fd);
      assert fds == fds[..n] + [fds[n]];
    }
  }

  lemma DistinctIsSet(fds: seq<nat>)
    requires Distinct(fds)
    ensures multiset(fds) == multiset(set fd | fd in fds)
  {
    forall fd: nat
      ensures multiset(fds)[fd] == multiset(set x | x in fds)[fd]
    {
      CountDistinct(fds, fd);
    }
  }

  lemma BalancedClose(a: Table, b: Table, kept: set<nat>, fds: seq<nat>)
    requires Sound(a) && Balanced(a, b, kept) && Distinct(fds) && forall fd :: fd in fds ==> fd in kept
    ensures Balanced(a, ClosedAll(b, fds), kept - (set fd | fd in fds))
  {
    var gone := set fd | fd in fds;
    DistinctIsSet(fds);
    assert multiset(Acquired(a, b) - kept) + multiset(gone) == multiset(Acquired(a, b) - (kept - gone));
    assert a.open !! gone;
  }

  lemma BalancedThen(a: Table, b: Table, c: Table, kept: set<nat>, more: set<nat>)
    requires Sound(a) && Balanced(a, b, kept) && Balanced(b, c, more)
    ensures Balanced(a, c, kept + more)
  {
    assert multiset(Acquired(a, b) - kept) + multiset(Acquired(b, c) - more)
        == multiset(Acquired(a, c) - (kept + more));
  }

  class Kernel {
    /** How the n-th call or check ends: None when it works. */
    const answers: nat -> Option<Error>
    var t: Table
    var tree: Tree
    var calls: nat
    /** The descriptors whose close has raised, in order. */
    ghost var raised: seq<nat>
    /** The nodes whose mode was changed, in order. */
    ghost var chmods: seq<nat>
    /** The nodes whose content was read to the end, in order, with what was read. */
    ghost var readings: seq<(nat, string)>
    /** How often a file could not be read to the size that it was said to have. */
    ghost var cut: nat

    ghost predicate Valid()
      reads this
    {
      && Sound(t) && WellFormed(tree)
      && (forall fd :: fd in t.open ==> t.nodes[fd] < tree.next)
    }

    /** Call n works. */
    predicate Works(n: nat) {
      answers(n).None?
    }

    /** The calls from `first` up to `last` all work. */
    ghost predicate Quiet(first: nat, last: nat) {
      forall n :: first <= n < last ==> Works(n)
    }

    lemma QuietSplits(first: nat, mid: nat, last: nat)
      requires first <= mid <= last
      ensures Quiet(first, last) <==> Quiet(first, mid) && Quiet(mid, last)
    {
    }

    lemma QuietOnce(first: nat)
      ensures Quiet(first, first) && (Quiet(first, first + 1) <==> Works(first))
    {
    }

    lemma QuietNow()
      ensures Quiet(calls, calls)
    {
    }

    lemma QuietTwice(first: nat)
      ensures Quiet(first, first + 2) <==> Works(first) && Works(first + 1)
    {
    }

    constructor (tree: Tree, answers: nat -> Option<Error>)
      requires WellFormed(tree)
      ensures Valid() && this.tree == tree && this.answers == answers && t == Table({}, multiset{}, [])
      ensures calls == 0 && raised == [] && chmods == [] && readings == []
    {
      this.tree := tree;
      this.answers := answers;
      t := Table({}, multiset{}, []);
      calls, raised, chmods, readings, cut := 0, [], [], [], 0;
    }

    /** Calls and checks that leave the table alone. */
    method Probe() returns (error: Option<Error>)
      modifies this`calls
      ensures calls == old(calls) + 1 && error == answers(old(calls))
      ensures error.None? <==> Works(old(calls))
    {
      error := answers(calls);
      calls := calls + 1;
    }

    method OpenRoot() returns (r: Result<nat, Errno>)
      requires Valid()
      modifies this`t, this`calls
      ensures Valid() && calls == old(calls) + 1 && (r.Success? <==> Works(old(calls)))
      ensures r.Failure? ==> t == old(t)
      ensures r.Success? ==> r.value == |old(t).nodes| && t == Opened(old(t), tree.root)
    {
      r := OpenPath(tree.root);
    }

    /** `os.open` of an absolute path that leads to `node`. */
    method OpenPath(node: nat) returns (r: Result<nat, Errno>)
      requires Valid() && node < tree.next
      modifies this`t, this`calls
      ensures Valid() && calls == old(calls) + 1 && (r.Success? <==> Works(old(calls)))
      ensures r.Failure? ==> t == old(t)
      ensures r.Success? ==> r.value == |old(t).nodes| && t == Opened(old(t), node)
    {
      var error := Probe();
      if error.Some? {
        return Failure(Other);
      }
      r := Success(|t.nodes|);
      t := Opened(t, node);
    }

    method Dup(fd: nat) returns (r: Result<nat, Errno>)
      requires Valid() && fd in t.open
      modifies this`t, this`calls
      ensures Valid() && calls == old(calls) + 1 && (r.Success? <==> Works(old(calls)))
      ensures r.Failure? ==> t == old(t)
      ensures r.Success? ==> r.value == |old(t).nodes| && t == Opened(old(t), old(t).nodes[fd])
    {
      r := OpenPath(t.nodes[fd]);
    }

    /** `os.open(name, .., dir_fd=dir)` without O_CREAT. */
    method OpenAt(dir: nat, name: string) returns (r: Result<nat, Errno>)
      requires Valid() && dir in t.open
      modifies this`t, this`calls
      ensures Valid() && calls == old(calls) + 1
      ensures r.Failure? ==> t == old(t)
      ensures r.Success? <==> Works(old(calls)) && (old(t).nodes[dir], name) in tree.lookup
      ensures r == Failure(NotFound) <==> Works(old(calls)) && (old(t).nodes[dir], name) !in tree.lookup
      ensures r.Success? ==>
        r.value == |old(t).nodes| && t == Opened(old(t), tree.lookup[(old(t).nodes[dir], name)])
    {
      var error := Probe();
      if error.Some? {
        return Failure(Other);
      }
      var key := (t.nodes[dir], name);
      if key !in tree.lookup {
        return Failure(NotFound);
      }
      r := Success(|t.nodes|);
      t := Opened(t, tree.lookup[key]);
    }

    /** `os.mkdir(name, dir_fd=dir)`: it never succeeds on a name that exists. */
    method MkdirAt(dir: nat, name: string) returns (ok: bool)
      requires Valid() && dir in t.open
      modifies this`tree, this`calls
      ensures Valid() && calls == old(calls) + 1
      ensures ok <==> Works(old(calls)) && (t.nodes[dir], name) !in old(tree).lookup
      ensures !ok ==> tree == old(tree)
      ensures ok ==> tree == Added(old(tree), t.nodes[dir], name)
    {
      var error := Probe();
      ok := error.None? && (t.nodes[dir], name) !in tree.lookup;
      if ok {
        AddedIsWellFormed(tree, t.nodes[dir], name);
        tree := Added(tree, t.nodes[dir], name);
      }
    }

    /** `os.open` with O_CREAT and O_EXCL. */
    method CreateAt(dir: nat, name: string) returns (r: Result<nat, Errno>)
      requires Valid() && dir in t.open
      modifies this`t, this`tree, this`calls
      ensures Valid() && calls == old(calls) + 1
      ensures r.Success? <==> Works(old(calls)) && (old(t).nodes[dir], name) !in old(tree).lookup
      ensures r.Failure? ==> t == old(t) && tree == old(tree)
      ensures r.Success? ==>
        && r.value == |old(t).nodes| && t == Opened(old(t), old(tree).next)
        && tree == AddedFile(old(tree), old(t).nodes[dir], name)
    {
      var node := tree.next;
      var ok := MkdirAt(dir, name);
      if !ok {
        return Failure(Other);
      }
      r := Success(|t.nodes|);
      tree := WithContent(tree, node, "");
      t := Opened(t, node);
    }

    /** Read a whole file. */
    method ReadAll(fd: nat) returns (bytes: Option<string>)
      requires Valid() && fd in t.open
      modifies this`calls, this`readings
      ensures calls == old(calls) + 1
      ensures bytes.Some? <==> Works(old(calls)) && t.nodes[fd] in tree.files
      ensures bytes.Some? ==> bytes.value == tree.files[t.nodes[fd]]
      ensures readings == old(readings) + (if bytes.Some? then [(t.nodes[fd], bytes.value)] else [])
    {
      var error := Probe();
      var node := t.nodes[fd];
      bytes := if error.None? && node in tree.files then Some(tree.files[node]) else None;
      readings := readings + if bytes.Some? then [(node, bytes.value)] else [];
    }

    /** `os.write` at the end of a file: some of the bytes, at least one. */
    method Write(fd: nat, bytes: string) returns (n: Option<nat>)
      requires Valid() && fd in t.open && t.nodes[fd] in tree.files && bytes != ""
      modifies this`tree, this`calls
      ensures Valid() && calls == old(calls) + 1 && (n.Some? <==> Works(old(calls)))
      ensures n.None? ==> tree == old(tree)
      ensures n.Some? ==>
        && 0 < n.value <= |bytes|
        && tree == WithContent(old(tree), t.nodes[fd], old(tree).files[t.nodes[fd]] + bytes[..n.value])
    {
      var error := Probe();
      if error.Some? {
        return None;
      }
      var written: int := *;
      if written <= 0 || |bytes| < written {
        written := |bytes|;
      }
      n := Some(written);
      tree := WithContent(tree, t.nodes[fd], tree.files[t.nodes[fd]] + bytes[..written]);
    }

    /** `os.fchmod`. */
    method Fchmod(fd: nat) returns (error: Option<Error>)
      requires Valid() && fd in t.open
      modifies this`calls, this`chmods
      ensures calls == old(calls) + 1 && error == answers(old(calls)) && (error.None? <==> Works(old(calls)))
      ensures chmods == old(chmods) + (if error.None? then [t.nodes[fd]] else [])
    {
      error := Probe();
      chmods := chmods + if error.None? then [t.nodes[fd]] else [];
    }

    method Close(fd: nat) returns (ok: bool)
      requires Valid()
      modifies this`t, this`calls, this`raised
      ensures Valid() && t == ClosedAll(old(t), [fd])
      ensures calls == old(calls) + 1 && (ok <==> Works(old(calls)))
      ensures raised == old(raised) + (if ok then [] else [fd])
    {
      var error := Probe();
      ok := error.None?;
      if !ok {
        raised := raised + [fd];
      }
      t := ClosedAll(t, [fd]);
    }

    /**
     `_close_all_descriptors`: one failing close keeps none of the others from being tried, and
     the first that failed is the one reported.
     */
    method CloseAll(fds: seq<nat>) returns (first: Option<nat>)
      requires Valid()
      modifies this`t, this`calls, this`raised
      ensures Valid() && t == ClosedAll(old(t), fds) && calls == old(calls) + |fds|
      ensures old(raised) <= raised
      ensures first == if raised == old(raised) then None else Some(raised[|old(raised)|])
      ensures raised == old(raised) <==> Quiet(old(calls), old(calls) + |fds|)
    {
      first := None;
      var i := 0;
      assert t == ClosedAll(t, fds[..0]);
      while i < |fds|
        invariant 0 <= i <= |fds| && Valid() && tree == old(tree)
        invariant t == ClosedAll(old(t), fds[..i]) && calls == old(calls) + i && old(raised) <= raised
        invariant first == if raised == old(raised) then None else Some(raised[|old(raised)|])
        invariant raised == old(raised) <==> Quiet(old(calls), old(calls) + i)
      {
        var closed := Close(fds[i]);
        if !closed && first.None? {
          first := Some(fds[i]);
        }
        QuietSplits(old(calls), old(calls) + i, calls);
        QuietOnce(old(calls) + i);
        assert fds[..i + 1] == fds[..i] + [fds[i]];
        i := i + 1;
      }
      assert fds[..i] == fds;
    }
  }
}

/**
 Which directories the materializer seals, and in which order: `sorted(directory_parts,
 key=lambda item: (-len(item), item))`.
 */
module Sealing {
  import opened Text

  /** The root, and every proper ancestor directory of a file of the inventory. */
  predicate IsDirectory(inventory: seq<seq<string>>, d: seq<string>) {
    d == [] || exists i :: 0 <= i < |inventory| && IsProperFront(inventory[i], d)
  }

  predicate IsProperFront(path: seq<string>, d: seq<string>) {
    0 < |d| < |path| && path[..|d|] == d
  }

  /** `inner` is strictly inside `outer`. */
  predicate Inside(inner: seq<string>, outer: seq<string>) {
    |outer| < |inner| && inner[..|outer|] == outer
  }

  // ---------------------------------------------------------------- Python's order on tuples of strings

  predicate TupleBelow(a: seq<string>, b: seq<string>) {
    b != [] && (a == [] || StringBelow(a[0], b[0]) || (a[0] == b[0] && TupleBelow(a[1..], b[1..])))
  }

  predicate Before(a: seq<string>, b: seq<string>) {
    |a| > |b| || (|a| == |b| && TupleBelow(a, b))
  }

  lemma {:induction false} TupleOrder(a: seq<string>, b: seq<string>, c: seq<string>)
    ensures a == b || TupleBelow(a, b) || TupleBelow(b, a)
    ensures TupleBelow(a, b) && TupleBelow(b, c) ==> TupleBelow(a, c)
    decreases |a|
  {
    if a != [] {
      var b', c' := if b == [] then [] else b[1..], if c == [] then [] else c[1..];
      TupleOrder(a[1..], b', c');
      StringOrder(a[0], if b == [] then "" else b[0], if c == [] then "" else c[0]);
      assert b != [] && a[0] == b[0] && a[1..] == b[1..] ==> a == [b[0]] + b[1..] == b;
    }
  }

  /** `(-len(a), a) < (-len(b), b)`: a is longer, or as long and smaller at the first difference. */
  ghost predicate Precedes(a: seq<string>, b: seq<string>) {
    |a| > |b| || (|a| == |b| && exists i: nat, n: nat :: FirstAt(a, b, i, n))
  }

  /** The components before i agree, those at i agree before n, and there the first string ends or is smaller. */
  predicate FirstAt(a: seq<string>, b: seq<string>, i: nat, n: nat) {
    i < |a| && i < |b| && a[..i] == b[..i] && SmallerAt(a[i], b[i], n)
  }

  lemma {:induction false} BelowIsFirst(a: seq<string>, b: seq<string>)
    requires |a| == |b| && TupleBelow(a, b)
    ensures Precedes(a, b)
    decreases |a|
  {
    if StringBelow(a[0], b[0]) {
      var n := BelowIsSmaller(a[0], b[0]);
      assert FirstAt(a, b, 0, n);
    } else {
      BelowIsFirst(a[1..], b[1..]);
      var i: nat, n: nat :| FirstAt(a[1..], b[1..], i, n);
      assert a[..i + 1] == [a[0]] + a[1..][..i] && b[..i + 1] == [b[0]] + b[1..][..i];
      assert FirstAt(a, b, i + 1, n);
    }
  }

  lemma {:induction false} FirstIsBelow(a: seq<string>, b: seq<string>, i: nat, n: nat)
    requires FirstAt(a, b, i, n)
    ensures TupleBelow(a, b)
    decreases i
  {
    if i == 0 {
      SmallerIsBelow(a[0], b[0], n);
    } else {
      assert a[..i][0] == b[..i][0] && a[..i][1..] == b[..i][1..];
      assert a[1..][..i - 1] == a[..i][1..] && b[1..][..i - 1] == b[..i][1..];
      FirstIsBelow(a[1..], b[1..], i - 1, n);
    }
  }

  lemma BeforeIff(a: seq<string>, b: seq<string>)
    ensures Before(a, b) <==> Precedes(a, b)
  {
    if |a| == |b| && TupleBelow(a, b) {
      BelowIsFirst(a, b);
    }
    forall i: nat, n: nat | FirstAt(a, b, i, n)
      ensures TupleBelow(a, b)
    {
      FirstIsBelow(a, b, i, n);
    }
  }

  predicate Sorted(order: seq<seq<string>>) {
    forall i, j :: 0 <= i < j < |order| ==> Before(order[i], order[j])
  }

  /** Insertion into a sorted sequence. */
  function Insert(order: seq<seq<string>>, d: seq<string>): (r: seq<seq<string>>)
    requires Sorted(order) && d !in order
    ensures Sorted(r) && multiset(r) == multiset(order) + multiset{d}
    ensures forall e :: e in r <==> e in order || e == d
  {
    if order == [] then [d]
    else if Before(d, order[0]) then
      FirstBefore(d, order);
      [d] + order
    else
      var rest := Insert(order[1..], d);
      AfterFirst(d, order);
      assert order == [order[0]] + order[1..];
      [order[0]] + rest
  }

  lemma FirstBefore(d: seq<string>, order: seq<seq<string>>)
    requires Sorted(order) && order != [] && Before(d, order[0])
    ensures Sorted([d] + order)
  {
    forall i | 0 < i < |order|
      ensures Before(d, order[i])
    {
      TupleOrder(d, order[0], order[i]);
    }
  }

  lemma AfterFirst(d: seq<string>, order: seq<seq<string>>)
    requires Sorted(order) && order != [] && d !in order && !Before(d, order[0])
    ensures forall e :: e in order[1..] || e == d ==> Before(order[0], e)
  {
    TupleOrder(d, order[0], []);
    assert d != order[0];
  }

  /** The inner loop: every proper front of one path. */
  method AddFronts(before: set<seq<string>>, path: seq<string>) returns (parts: set<seq<string>>)
    ensures forall d :: d in parts <==> d in before || IsProperFront(path, d)
  {
    parts := before;
    var index := 1;
    while index < |path|
      invariant 1 <= index
      invariant forall d :: d in parts <==> d in before || (|d| < index && IsProperFront(path, d))
    {
      var front := path[..index];
      assert forall d :: |d| == index && IsProperFront(path, d) ==> d == front;
      parts := parts + {front};
      index := index + 1;
    }
  }

  /** The loop over the inventory. */
  method DirectoryParts(inventory: seq<seq<string>>) returns (parts: set<seq<string>>)
    ensures forall d :: d in parts <==> IsDirectory(inventory, d)
  {
    parts := {[]};
    for i := 0 to |inventory|
      invariant forall d :: d in parts <==> IsDirectory(inventory[..i], d)
    {
      parts := AddFronts(parts, inventory[i]);
      OneMoreFile(inventory, i);
    }
    assert inventory[..|inventory|] == inventory;
  }

  lemma OneMoreFile(inventory: seq<seq<string>>, i: nat)
    requires i < |inventory|
    ensures forall d :: IsDirectory(inventory[..i + 1], d) <==>
      IsDirectory(inventory[..i], d) || IsProperFront(inventory[i], d)
  {
    var front := inventory[..i];
    assert inventory[..i + 1] == front + [inventory[i]];
    forall d | IsProperFront(inventory[i], d)
      ensures IsDirectory(inventory[..i + 1], d)
    {
      assert inventory[..i + 1][i] == inventory[i];
    }
    forall d | IsDirectory(front, d) && d != []
      ensures IsDirectory(inventory[..i + 1], d)
    {
      var j :| 0 <= j < |front| && IsProperFront(front[j], d);
      assert inventory[..i + 1][j] == front[j];
    }
  }

  /** The sealing order: exactly the directories of the inventory, each once, deepest first. */
  method SealOrder(inventory: seq<seq<string>>) returns (order: seq<seq<string>>)
    ensures Sorted(order) && forall i, j :: 0 <= i < j < |order| ==> Precedes(order[i], order[j])
    ensures forall d :: d in order <==> IsDirectory(inventory, d)
  {
    var rest := DirectoryParts(inventory);
    order := [];
    while rest != {}
      invariant Sorted(order)
      invariant forall d :: d in order ==> d !in rest
      invariant forall d :: d in order || d in rest <==> IsDirectory(inventory, d)
      decreases rest
    {
      var d :| d in rest;
      order := Insert(order, d);
      rest := rest - {d};
    }
    forall i, j | 0 <= i < j < |order|
      ensures Precedes(order[i], order[j])
    {
      BeforeIff(order[i], order[j]);
    }
  }

  /** Every directory comes after everything inside it, and no directory comes twice. */
  lemma DescendantsFirst(order: seq<seq<string>>, i: nat, j: nat)
    requires Sorted(order) && i < j < |order|
    ensures !Inside(order[j], order[i]) && order[i] != order[j]
  {
    TupleIrreflexive(order[i]);
  }

  lemma {:induction false} TupleIrreflexive(a: seq<string>)
    ensures !TupleBelow(a, a)
    decreases |a|
  {
    if a != [] {
      StringOrder(a[0], a[0], a[0]);
      TupleIrreflexive(a[1..]);
    }
  }
}

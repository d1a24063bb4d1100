/**
 The overlap checks of the materializer.  The code compares identity chains for the protected
 roots, but only path spellings for the source root; the lemmas say what that decides.
 */
module Admission {
  import opened Wrappers
  import opened DirectoryTree
  import opened RuntimeWalk

  /** `_descends_from`, on identity chains. */
  predicate Descends(child: seq<nat>, parent: seq<nat>) {
    Prefix(parent, child)
  }

  /** `_path_descends_from`: the root spelling is the first of the compared parts. */
  predicate PathDescends(child: Path, parent: Path) {
    && child.anchor == parent.anchor
    && |child.names| >= |parent.names| && child.names[..|parent.names|] == parent.names
  }

  /** `_destination_path`; None is the ValueError. */
  function DestinationPath(parent: Path, name: string): Option<Path> {
    if name in {"", ".", ".."} || '/' in name || '\\' in name then None
    else Some(Path(parent.anchor, parent.names + [name]))
  }

  /** `_destination_overlaps_directory`. */
  predicate Overlaps(parent: Pinned, destination: Path, directory: Pinned) {
    || Descends(parent.identities, directory.identities)
    || PathDescends(destination, directory.path)
    || PathDescends(directory.path, destination)
  }

  /** `other` is `path` itself, or is spelled as `path` and further names. */
  predicate Starts(path: Path, other: Path) {
    path.anchor == other.anchor && path.names <= other.names
  }

  /**
   Neither of the source's and the destination's path starts the other, neither of the source's
   and a protected root's chain starts the other, and a protected root's chain does not start the
   destination parent's, nor do their paths start each other.
   */
  predicate Admitted(source: Pinned, parent: Pinned, destination: Path, protected: seq<Pinned>) {
    && !Starts(destination, source.path) && !Starts(source.path, destination)
    && forall i :: 0 <= i < |protected| ==> AdmittedBeside(source, parent, destination, protected[i])
  }

  predicate AdmittedBeside(source: Pinned, parent: Pinned, destination: Path, root: Pinned) {
    && !(root.identities <= source.identities) && !(source.identities <= root.identities)
    && !(root.identities <= parent.identities)
    && !Starts(root.path, destination) && !Starts(destination, root.path)
  }

  /** The comparisons of the code are comparisons of fronts. */
  lemma PathDescendsIff(child: Path, parent: Path)
    ensures PathDescends(child, parent) <==> Starts(parent, child)
  {
  }

  lemma DescendsIff(child: seq<nat>, parent: seq<nat>)
    ensures Descends(child, parent) <==> parent <= child
  {
  }

  /** The loop over the protected roots, as the code runs it; false is the ValueError. */
  method CheckAdmission(source: Pinned, parent: Pinned, destination: Path, protected: seq<Pinned>) returns (ok: bool)
    ensures ok <==> Admitted(source, parent, destination, protected)
    ensures forall before, name ::
      Comparable(before, source, parent, name, destination, protected) ==>
        (ok <==> Apart(before, source, parent, name, protected))
  {
    SaysApart(source, parent, destination, protected);
    PathDescendsIff(source.path, destination);
    PathDescendsIff(destination, source.path);
    if PathDescends(source.path, destination) || PathDescends(destination, source.path) {
      return false;
    }
    for i := 0 to |protected|
      invariant forall j :: 0 <= j < i ==> AdmittedBeside(source, parent, destination, protected[j])
    {
      BesideIff(source, parent, destination, protected[i]);
      if Descends(source.identities, protected[i].identities) || Descends(protected[i].identities, source.identities) {
        return false;
      }
      if Overlaps(parent, destination, protected[i]) {
        return false;
      }
    }
    ok := true;
  }

  lemma BesideIff(source: Pinned, parent: Pinned, destination: Path, root: Pinned)
    ensures AdmittedBeside(source, parent, destination, root)
      <==> && !Descends(source.identities, root.identities) && !Descends(root.identities, source.identities)
           && !Overlaps(parent, destination, root)
  {
    PathDescendsIff(destination, root.path);
    PathDescendsIff(root.path, destination);
    DescendsIff(source.identities, root.identities);
    DescendsIff(root.identities, source.identities);
    DescendsIff(parent.identities, root.identities);
  }

  ghost predicate PinnedIn(t: Tree, p: Pinned) {
    Walk(t, t.root, p.path.names) == Some(p.identities) && p.identities != []
  }

  /** `t` is a later state of a tree in which the destination was made: `before` plus that entry, and more. */
  predicate MadeIn(before: Tree, t: Tree, parent: Pinned, name: string) {
    && WellFormed(before) && WellFormed(t) && parent.identities != []
    && (Last(parent.identities), name) !in before.lookup && Last(parent.identities) < before.next
    && Extends(Added(before, Last(parent.identities), name), t)
  }

  /** What was pinned before is still where it was. */
  lemma PinLasts(before: Tree, t: Tree, parent: Pinned, name: string, other: Pinned)
    requires MadeIn(before, t, parent, name) && PinnedIn(before, other)
    ensures PinnedIn(t, other)
  {
    var added := Added(before, Last(parent.identities), name);
    AddedIsWellFormed(before, Last(parent.identities), name);
    WalkInExtension(before, added, before.root, other.path.names);
    WalkInExtension(added, t, before.root, other.path.names);
  }

  lemma NewChain(t: Tree, parent: Pinned, name: string, made: nat)
    requires PinnedIn(t, parent) && (Last(parent.identities), name) in t.lookup
    requires t.lookup[(Last(parent.identities), name)] == made
    ensures Walk(t, t.root, parent.path.names + [name]) == Some(parent.identities + [made])
  {
    assert (parent.path.names + [name])[..|parent.path.names|] == parent.path.names;
  }

  lemma NewEntry(before: Tree, t: Tree, parent: Pinned, name: string)
    requires MadeIn(before, t, parent, name)
    ensures var key := (Last(parent.identities), name); key in t.lookup && t.lookup[key] == before.next
  {
    assert Added(before, Last(parent.identities), name).lookup[(Last(parent.identities), name)] == before.next;
  }

  /** The new directory's chain is its parent's and itself, and no older chain passes through it. */
  lemma NewDirectory(before: Tree, t: Tree, parent: Pinned, name: string, other: Pinned)
    requires MadeIn(before, t, parent, name) && PinnedIn(before, parent) && PinnedIn(before, other)
    ensures PinnedIn(t, other) && Walk(t, t.root, parent.path.names + [name]) == Some(parent.identities + [before.next])
    ensures !Prefix(parent.identities + [before.next], other.identities)
    ensures Prefix(other.identities, parent.identities + [before.next]) <==> Prefix(other.identities, parent.identities)
  {
    PinLasts(before, t, parent, name, other);
    PinLasts(before, t, parent, name, parent);
    NewEntry(before, t, parent, name);
    NewChain(t, parent, name, before.next);
    OldChain(before, other.path.names, other.identities);
    NotThrough(parent.identities, before.next, other.identities);
  }

  lemma OldChain(t: Tree, names: seq<string>, chain: seq<nat>)
    requires WellFormed(t) && Walk(t, t.root, names) == Some(chain)
    ensures forall i :: 0 <= i < |chain| ==> chain[i] < t.next
  {
    forall i | 0 <= i < |chain|
      ensures chain[i] < t.next
    {
      WalkStaysInside(t, t.root, names, i);
    }
  }

  lemma NotThrough(chain: seq<nat>, added: nat, other: seq<nat>)
    requires forall i :: 0 <= i < |other| ==> other[i] != added
    ensures !Prefix(chain + [added], other)
    ensures Prefix(other, chain + [added]) <==> Prefix(other, chain)
  {
    var whole := chain + [added];
    assert whole[|chain|] == added;
    assert whole[..|whole|] == whole;
    if |other| <= |chain| {
      assert whole[..|other|] == chain[..|other|];
    }
  }

  lemma DestinationDisjointIff(before: Tree, t: Tree, parent: Pinned, name: string, other: Pinned)
    requires MadeIn(before, t, parent, name) && PinnedIn(before, parent) && PinnedIn(before, other)
    ensures Disjoint(t, before.next, Last(other.identities)) <==> !Prefix(other.identities, parent.identities)
  {
    NewDirectory(before, t, parent, name, other);
    DisjointIffIncomparable(t, parent.path.names + [name], other.path.names);
    assert Last(parent.identities + [before.next]) == before.next;
  }

  /** Admission keeps the destination's whole subtree, and the source's, apart from every protected subtree. */
  lemma ProtectedRootsAreApart(before: Tree, t: Tree, source: Pinned, parent: Pinned, name: string, destination: Path,
                               protected: seq<Pinned>, i: nat)
    requires MadeIn(before, t, parent, name) && IsBelow(destination, parent.path, name)
    requires PinnedIn(before, source) && PinnedIn(before, parent)
    requires i < |protected| && PinnedIn(before, protected[i])
    requires Admitted(source, parent, destination, protected)
    ensures Disjoint(t, before.next, Last(protected[i].identities))
    ensures Disjoint(t, Last(source.identities), Last(protected[i].identities))
  {
    DestinationDisjointIff(before, t, parent, name, protected[i]);
    NewDirectory(before, t, parent, name, protected[i]);
    NewDirectory(before, t, parent, name, source);
    DisjointIffIncomparable(t, source.path.names, protected[i].path.names);
  }

  /**
   The source is compared by path only.  After an admission the destination is apart from the
   source exactly when the source's identity chain is no prefix of the destination parent's,
   which is the comparison the code makes for protected roots and not for the source.
   */
  lemma SourceApartIff(before: Tree, t: Tree, source: Pinned, parent: Pinned, name: string)
    requires MadeIn(before, t, parent, name) && PinnedIn(before, source) && PinnedIn(before, parent)
    ensures Disjoint(t, before.next, Last(source.identities)) <==> !Descends(parent.identities, source.identities)
  {
    DestinationDisjointIff(before, t, parent, name, source);
  }

  /** With one spelling of the root and one name per directory, the path comparison decides it. */
  lemma SourceIsApart(before: Tree, t: Tree, source: Pinned, parent: Pinned, name: string, destination: Path,
                      protected: seq<Pinned>)
    requires MadeIn(before, t, parent, name) && IsBelow(destination, parent.path, name)
    requires PinnedIn(before, source) && PinnedIn(before, parent)
    requires Admitted(source, parent, destination, protected)
    requires OneName(before) && source.path.anchor == parent.path.anchor
    ensures Disjoint(t, before.next, Last(source.identities))
  {
    SourceApartIff(before, t, source, parent, name);
    if Descends(parent.identities, source.identities) {
      ChainGivesNames(before, source.path.names, parent.path.names);
    }
  }

  // ---------------------------------------------------------------- what is admitted

  /** The destination, when it is made below its parent, the source and every protected root lie apart. */
  ghost predicate Apart(before: Tree, source: Pinned, parent: Pinned, name: string, protected: seq<Pinned>)
    requires source.identities != [] && parent.identities != []
    requires forall i :: 0 <= i < |protected| ==> protected[i].identities != []
  {
    var t := Added(before, Last(parent.identities), name);
    && Disjoint(t, before.next, Last(source.identities))
    && forall i :: 0 <= i < |protected| ==>
         && Disjoint(t, before.next, Last(protected[i].identities))
         && Disjoint(t, Last(source.identities), Last(protected[i].identities))
  }

  /** The pins hold, and the destination's name is new in its parent. */
  ghost predicate Placed(before: Tree, source: Pinned, parent: Pinned, name: string, protected: seq<Pinned>) {
    && WellFormed(before) && PinnedIn(before, source) && PinnedIn(before, parent)
    && (forall i :: 0 <= i < |protected| ==> PinnedIn(before, protected[i]))
    && (Last(parent.identities), name) !in before.lookup
  }

  /** The destination is spelled as its parent and one name. */
  predicate IsBelow(destination: Path, parent: Path, name: string) {
    destination.anchor == parent.anchor && destination.names == parent.names + [name]
  }

  lemma AddedIsMade(before: Tree, parent: Pinned, name: string)
    requires WellFormed(before) && PinnedIn(before, parent) && (Last(parent.identities), name) !in before.lookup
    ensures MadeIn(before, Added(before, Last(parent.identities), name), parent, name)
  {
    OldChain(before, parent.path.names, parent.identities);
    AddedIsWellFormed(before, Last(parent.identities), name);
    ExtendsSelf(Added(before, Last(parent.identities), name));
  }

  /** Nothing that is pinned has the spelling of the new destination, or one below it. */
  lemma NothingBelowNew(before: Tree, parent: Pinned, name: string, other: Pinned)
    requires WellFormed(before) && PinnedIn(before, parent) && PinnedIn(before, other)
    requires (Last(parent.identities), name) !in before.lookup
    ensures !(parent.path.names + [name] <= other.path.names)
  {
    var whole := parent.path.names + [name];
    if whole <= other.path.names {
      assert other.path.names[..|whole|] == whole && whole[..|whole| - 1] == parent.path.names;
      WalkOfFront(before, before.root, other.path.names, |whole|);
    }
  }

  /** A spelling that starts the destination's belongs to a directory that the destination lies below. */
  lemma SpelledAboveIsAbove(before: Tree, parent: Pinned, name: string, other: Pinned)
    requires WellFormed(before) && PinnedIn(before, parent) && PinnedIn(before, other)
    requires (Last(parent.identities), name) !in before.lookup
    requires other.path.names <= parent.path.names + [name]
    ensures Prefix(other.identities, parent.identities)
  {
    var n := |other.path.names|;
    assert n == |parent.path.names| + 1 ==> parent.path.names + [name] == other.path.names;
    NothingBelowNew(before, parent, name, other);
    assert parent.path.names[..n] == other.path.names;
    WalkOfFront(before, before.root, parent.path.names, n);
  }

  /** A directory apart from the new destination passes the path comparisons with it. */
  lemma ApartIsSpelledApart(before: Tree, parent: Pinned, name: string, destination: Path, other: Pinned)
    requires WellFormed(before) && PinnedIn(before, parent) && PinnedIn(before, other)
    requires (Last(parent.identities), name) !in before.lookup && IsBelow(destination, parent.path, name)
    requires Disjoint(Added(before, Last(parent.identities), name), before.next, Last(other.identities))
    ensures !Starts(destination, other.path) && !Starts(other.path, destination)
    ensures !Prefix(other.identities, parent.identities)
  {
    AddedIsMade(before, parent, name);
    DestinationDisjointIff(before, Added(before, Last(parent.identities), name), parent, name, other);
    NothingBelowNew(before, parent, name, other);
    if other.path.names <= destination.names {
      SpelledAboveIsAbove(before, parent, name, other);
    }
  }

  /** Two old directories that are apart have incomparable chains. */
  lemma ApartIsIncomparable(before: Tree, parent: Pinned, name: string, source: Pinned, root: Pinned)
    requires WellFormed(before) && PinnedIn(before, parent) && PinnedIn(before, source) && PinnedIn(before, root)
    requires (Last(parent.identities), name) !in before.lookup
    requires Disjoint(Added(before, Last(parent.identities), name), Last(source.identities), Last(root.identities))
    ensures !Prefix(root.identities, source.identities) && !Prefix(source.identities, root.identities)
  {
    AddedIsMade(before, parent, name);
    var t := Added(before, Last(parent.identities), name);
    PinLasts(before, t, parent, name, source);
    PinLasts(before, t, parent, name, root);
    DisjointIffIncomparable(t, source.path.names, root.path.names);
  }

  /** Disjointness is enough for an admission, in every tree and for every spelling of the root. */
  lemma ApartIsAdmitted(before: Tree, source: Pinned, parent: Pinned, name: string, destination: Path,
                        protected: seq<Pinned>)
    requires Placed(before, source, parent, name, protected) && IsBelow(destination, parent.path, name)
    requires Apart(before, source, parent, name, protected)
    ensures Admitted(source, parent, destination, protected)
  {
    ApartIsSpelledApart(before, parent, name, destination, source);
    forall i | 0 <= i < |protected|
      ensures AdmittedBeside(source, parent, destination, protected[i])
    {
      ApartIsSpelledApart(before, parent, name, destination, protected[i]);
      ApartIsIncomparable(before, parent, name, source, protected[i]);
      DescendsIff(source.identities, protected[i].identities);
      DescendsIff(protected[i].identities, source.identities);
      DescendsIff(parent.identities, protected[i].identities);
    }
  }

  /** With one name for each directory and one spelling of the root, disjointness is also necessary. */
  lemma AdmittedIsApart(before: Tree, source: Pinned, parent: Pinned, name: string, destination: Path,
                        protected: seq<Pinned>)
    requires Placed(before, source, parent, name, protected) && IsBelow(destination, parent.path, name)
    requires OneName(before) && source.path.anchor == parent.path.anchor
    requires Admitted(source, parent, destination, protected)
    ensures Apart(before, source, parent, name, protected)
  {
    AddedIsMade(before, parent, name);
    var t := Added(before, Last(parent.identities), name);
    SourceIsApart(before, t, source, parent, name, destination, protected);
    forall i | 0 <= i < |protected|
      ensures Disjoint(t, before.next, Last(protected[i].identities))
      ensures Disjoint(t, Last(source.identities), Last(protected[i].identities))
    {
      ProtectedRootsAreApart(before, t, source, parent, name, destination, protected, i);
    }
  }

  lemma AdmittedIff(before: Tree, source: Pinned, parent: Pinned, name: string, destination: Path,
                    protected: seq<Pinned>)
    requires Placed(before, source, parent, name, protected) && IsBelow(destination, parent.path, name)
    requires OneName(before) && source.path.anchor == parent.path.anchor
    ensures Admitted(source, parent, destination, protected) <==> Apart(before, source, parent, name, protected)
  {
    if Admitted(source, parent, destination, protected) {
      AdmittedIsApart(before, source, parent, name, destination, protected);
    }
    if Apart(before, source, parent, name, protected) {
      ApartIsAdmitted(before, source, parent, name, destination, protected);
    }
  }

  /** A request whose spellings say where things are. */
  ghost predicate Comparable(before: Tree, source: Pinned, parent: Pinned, name: string, destination: Path,
                             protected: seq<Pinned>)
  {
    && Placed(before, source, parent, name, protected) && IsBelow(destination, parent.path, name)
    && OneName(before) && source.path.anchor == parent.path.anchor
  }

  lemma SaysApart(source: Pinned, parent: Pinned, destination: Path, protected: seq<Pinned>)
    ensures forall before, name ::
      Comparable(before, source, parent, name, destination, protected) ==>
        (Admitted(source, parent, destination, protected) <==> Apart(before, source, parent, name, protected))
  {
    forall before, name | Comparable(before, source, parent, name, destination, protected)
      ensures Admitted(source, parent, destination, protected) <==> Apart(before, source, parent, name, protected)
    {
      AdmittedIff(before, source, parent, name, destination, protected);
    }
  }

  /** The name that `_destination_path` takes: one component, and neither of the dots. */
  lemma DestinationPathIs(parent: Path, name: string)
    ensures DestinationPath(parent, name).Some?
       <==> name != "" && name != "." && name != ".." && '/' !in name && '\\' !in name
    ensures DestinationPath(parent, name).Some? ==> IsBelow(DestinationPath(parent, name).value, parent, name)
  {
  }

  const SAMPLE := Tree(0, map[(0, "w") := 1, (0, "p") := 2], 3, map[])
  const SAMPLE_SOURCE := Pinned(Path(DoubleSlash, ["w"]), 0, [0, 1])
  const SAMPLE_PARENT := Pinned(Path(Slash, ["w"]), 1, [0, 1])
  const SAMPLE_ROOT := Pinned(Path(Slash, ["p"]), 2, [0, 2])

  /** A source given as `//w` and a destination `/w/out` pass every check, beside a protected root `/p`, and overlap. */
  lemma DoubleSlashOverlaps()
    ensures PinnedIn(SAMPLE, SAMPLE_SOURCE) && PinnedIn(SAMPLE, SAMPLE_PARENT) && PinnedIn(SAMPLE, SAMPLE_ROOT)
    ensures OneName(SAMPLE) && MadeIn(SAMPLE, Added(SAMPLE, 1, "out"), SAMPLE_PARENT, "out")
    ensures DestinationPath(SAMPLE_PARENT.path, "out").Some?
    ensures Admitted(SAMPLE_SOURCE, SAMPLE_PARENT, DestinationPath(SAMPLE_PARENT.path, "out").value, [SAMPLE_ROOT])
    ensures !Disjoint(Added(SAMPLE, 1, "out"), SAMPLE.next, Last(SAMPLE_SOURCE.identities))
  {
    SampleIsPinned();
    SampleIsAdmitted();
    SampleIsMade();
    SourceApartIff(SAMPLE, Added(SAMPLE, 1, "out"), SAMPLE_SOURCE, SAMPLE_PARENT, "out");
  }

  lemma SampleIsPinned()
    ensures PinnedIn(SAMPLE, SAMPLE_SOURCE) && PinnedIn(SAMPLE, SAMPLE_PARENT) && PinnedIn(SAMPLE, SAMPLE_ROOT)
  {
    WalkOfOne(SAMPLE, "w", 1);
    WalkOfOne(SAMPLE, "p", 2);
  }

  lemma SampleIsWellFormed()
    ensures WellFormed(SAMPLE) && OneName(SAMPLE)
  {
    assert SAMPLE.lookup.Keys == {(0, "w"), (0, "p")};
  }

  lemma SampleIsMade()
    ensures OneName(SAMPLE) && MadeIn(SAMPLE, Added(SAMPLE, 1, "out"), SAMPLE_PARENT, "out")
  {
    SampleIsWellFormed();
    AddedIsWellFormed(SAMPLE, 1, "out");
    ExtendsSelf(Added(SAMPLE, 1, "out"));
  }

  lemma SampleIsAdmitted()
    ensures DestinationPath(SAMPLE_PARENT.path, "out").Some?
    ensures Admitted(SAMPLE_SOURCE, SAMPLE_PARENT, DestinationPath(SAMPLE_PARENT.path, "out").value, [SAMPLE_ROOT])
  {
    assert [0, 1][1] != [0, 2][1];
    assert ["w", "out"][0] != ["p"][0] && ["w"][0] != ["p"][0];
  }

  lemma WalkOfOne(t: Tree, name: string, node: nat)
    requires (t.root, name) in t.lookup && t.lookup[(t.root, name)] == node
    ensures Walk(t, t.root, [name]) == Some([t.root, node])
  {
    assert [name][..0] == [];
    assert Walk(t, t.root, []) == Some([t.root]);
    assert [t.root] + [node] == [t.root, node];
  }
}

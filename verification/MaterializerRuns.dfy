/** Two runs of the materializer in which every call works: an ordinary one, and one that overlaps its source. */
module MaterializerRuns {
  import opened Wrappers
  import opened DirectoryTree
  import opened Descriptors
  import opened RuntimeWalk
  import opened Admission
  import opened Materializer

  // ---------------------------------------------------------------- a run that succeeds

  const HOME := Tree(0, map[(0, "s") := 1, (0, "p") := 2, (0, "d") := 3, (1, MANIFEST) := 4], 5, map[4 := "{}"])
  const SOURCE := Path(Slash, ["s"])
  const TARGET := Path(Slash, ["d", "out"])
  const GUARDED := Path(Slash, ["p"])
  const NO_FILES := Closure([], "digest")

  lemma HomeIsWellFormed()
    ensures WellFormed(HOME)
  {
    assert HOME.lookup.Keys == {(0, "s"), (0, "p"), (0, "d"), (1, MANIFEST)};
  }

  lemma HomeLeads()
    ensures PinAt(HOME, SOURCE) == Pinned(SOURCE, 0, [0, 1]) && Leading(HOME, SOURCE)
    ensures PinAt(HOME, GUARDED) == Pinned(GUARDED, 0, [0, 2]) && Leading(HOME, GUARDED)
    ensures ParentOf(TARGET) == Path(Slash, ["d"]) && NameOf(TARGET) == "out" && Leading(HOME, ParentOf(TARGET))
    ensures PinAt(HOME, ParentOf(TARGET)) == Pinned(ParentOf(TARGET), 0, [0, 3])
  {
    WalkOfOne(HOME, "s", 1);
    WalkOfOne(HOME, "p", 2);
    WalkOfOne(HOME, "d", 3);
    assert TARGET.names[..1] == ["d"];
  }

  const HOME_PIN := Pinned(SOURCE, 0, [0, 1])
  const GUARDED_PIN := Pinned(GUARDED, 0, [0, 2])
  const PARENT_PIN := Pinned(Path(Slash, ["d"]), 0, [0, 3])

  lemma HomeIsApart()
    ensures Apart(HOME, HOME_PIN, PARENT_PIN, "out", [GUARDED_PIN])
  {
    HomeIsWellFormed();
    HomeLeads();
    AddedIsMade(HOME, PARENT_PIN, "out");
    var t := Added(HOME, 3, "out");
    DestinationDisjointIff(HOME, t, PARENT_PIN, "out", HOME_PIN);
    DestinationDisjointIff(HOME, t, PARENT_PIN, "out", GUARDED_PIN);
    PinLasts(HOME, t, PARENT_PIN, "out", HOME_PIN);
    PinLasts(HOME, t, PARENT_PIN, "out", GUARDED_PIN);
    DisjointIffIncomparable(t, ["s"], ["p"]);
    assert [0, 3][1] != [0, 1][1] && [0, 3][1] != [0, 2][1] && [0, 1][1] != [0, 2][1];
  }

  lemma HomeIsSound()
    ensures SourceSound(HOME, 1, NO_FILES, _ => "digest")
  {
    assert [MANIFEST][..0] == [];
    assert Walk(HOME, 1, []) == Some([1]);
    assert (1, MANIFEST) in HOME.lookup && HOME.lookup[(1, MANIFEST)] == 4;
  }

  lemma HomeIsGrantable()
    ensures Grantable(HOME, SOURCE, TARGET, Path(Slash, ["d"]), "out", [GUARDED], Some(NO_FILES), _ => "digest")
  {
    HomeLeads();
    HomeIsApart();
    HomeIsSound();
    assert PinsAt(HOME, [GUARDED]) == [GUARDED_PIN];
    assert TARGET.names == ["d"] + ["out"];
    assert (3, "out") !in HOME.lookup;
  }

  /** With every call working, this request is granted. */
  method GrantedRun() returns (k: Kernel, r: Result<Materialized, Error>)
    ensures fresh(k) && k.Valid() && r.Success? && k.t.open == {}
  {
    HomeIsWellFormed();
    HomeIsGrantable();
    k := new Kernel(HOME, _ => None);
    r := Materialize(k, SOURCE, TARGET, [GUARDED], Some(NO_FILES), _ => "digest");
  }

  // ---------------------------------------------------------------- a run that succeeds, and overlaps

  const ALIASED := Path(DoubleSlash, ["s"])
  const INSIDE := Path(Slash, ["s", "out"])

  lemma AliasedLeads()
    ensures PinAt(HOME, ALIASED) == Pinned(ALIASED, 0, [0, 1]) && Leading(HOME, ALIASED)
    ensures ParentOf(INSIDE) == Path(Slash, ["s"]) && NameOf(INSIDE) == "out" && Leading(HOME, ParentOf(INSIDE))
    ensures PinAt(HOME, ParentOf(INSIDE)) == Pinned(ParentOf(INSIDE), 0, [0, 1])
  {
    WalkOfOne(HOME, "s", 1);
    assert INSIDE.names[..1] == ["s"];
  }

  lemma AliasedIsAdmitted()
    ensures DestinationPath(Path(Slash, ["s"]), "out") == Some(INSIDE)
    ensures Admitted(Pinned(ALIASED, 0, [0, 1]), Pinned(Path(Slash, ["s"]), 0, [0, 1]), INSIDE,
                     [Pinned(GUARDED, 0, [0, 2])])
  {
    assert ["s"] + ["out"] == ["s", "out"];
    assert ["p"][0] != ["s", "out"][0] && [0, 1][1] != [0, 2][1];
  }

  lemma AliasedIsAcceptable()
    ensures Acceptable(HOME, ALIASED, INSIDE, [GUARDED], Some(NO_FILES), _ => "digest")
  {
    HomeLeads();
    AliasedLeads();
    AliasedIsAdmitted();
    HomeIsSound();
    assert PinsAt(HOME, [GUARDED]) == [Pinned(GUARDED, 0, [0, 2])];
    assert (1, "out") !in HOME.lookup;
  }

  /** A source `//s` is copied into its own directory `/s/out`: every check passes, and the run succeeds. */
  method OverlappingRun() returns (k: Kernel, r: Result<Materialized, Error>)
    ensures fresh(k) && k.Valid() && r.Success? && r.value.source.path == ALIASED && r.value.source.identities != []
    ensures !Disjoint(k.tree, r.value.made, Last(r.value.source.identities))
  {
    HomeIsWellFormed();
    AliasedIsAcceptable();
    k := new Kernel(HOME, _ => None);
    r := Materialize(k, ALIASED, INSIDE, [GUARDED], Some(NO_FILES), _ => "digest");
    OverlapsThere(k.tree, r.value, k.chmods);
  }

  lemma OverlapsThere(after: Tree, m: Materialized, chmods: seq<nat>)
    requires Delivered(HOME, after, m, ALIASED, INSIDE, [GUARDED], NO_FILES, _ => "digest", [], chmods)
    ensures m.source.identities != [] && !Disjoint(after, m.made, Last(m.source.identities))
  {
    AliasedLeads();
    WalkOfOne(HOME, "s", 1);
    SourceApartIff(HOME, after, m.source, m.parent, NameOf(INSIDE));
  }
}

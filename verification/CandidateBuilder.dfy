/**
 The create-only publication of a candidate: plan, preflight, copy, and a manifest that appears
 under its name in one link.
 */
module CandidateBuilder {
  import opened Text
  import opened Wrappers
  import opened CandidateDisk
  import opened CandidateWorld

  /** `CandidateBuildError`, and every other exception. */
  datatype Fault = Refused | Crashed

  // ---------------------------------------------------------------- the plan

  /** How `parent.resolve(strict=True)` ends. */
  datatype Resolution = Missing | Broken | At(parent: Path, isDirectory: bool)

  datatype Argument = Argument(resolution: Resolution, name: string)

  predicate IsLeaf(a: Argument) {
    a.name !in {"", ".", ".."} && a.resolution.At? && a.resolution.isDirectory
  }

  predicate Apart(a: Path, b: Path) {
    !(a <= b) && !(b <= a)
  }

  /** Two different new names in one directory that neither contains the repository nor lies in it. */
  predicate Planned(out: Argument, manifest: Argument, root: Path) {
    && out.resolution.At? && out.resolution.isDirectory && manifest.resolution == out.resolution
    && out.name != "" && out.name != "." && out.name != ".."
    && manifest.name != "" && manifest.name != "." && manifest.name != ".." && manifest.name != out.name
    && !(out.resolution.parent <= root) && !(root <= out.resolution.parent)
  }

  lemma PrefixesCompare(a: Path, b: Path, c: Path)
    requires a <= c && b <= c
    ensures a <= b || b <= a
  {
    if |a| <= |b| {
      assert a == b[..|a|];
    } else {
      assert b == a[..|b|];
    }
  }

  /** Whatever is created below the output leaf is outside the repository, and the repository is not below it. */
  lemma OutputIsOutside(parent: Path, name: string, root: Path, below: Path)
    requires Apart(parent, root)
    ensures Apart(parent + [name] + below, root)
  {
    var path := parent + [name] + below;
    assert parent <= path;
    if root <= path || path <= root {
      PrefixesCompare(parent, root, if root <= path then path else root);
    }
  }

  /** `_check_parent_boundary`, as membership in `parents`. */
  method CheckParentBoundary(parent: Path, root: Path) returns (ok: bool)
    ensures ok <==> Apart(parent, root)
  {
    if parent == root {
      return false;
    }
    var i := 0;
    while i < |parent|
      invariant 0 <= i <= |parent| && (root <= parent ==> i <= |root|)
    {
      if parent[..i] == root {
        return false;
      }
      i := i + 1;
    }
    i := 0;
    while i < |root|
      invariant 0 <= i <= |root| && (parent <= root ==> i <= |parent|)
    {
      if root[..i] == parent {
        return false;
      }
      i := i + 1;
    }
    ok := true;
  }

  /**
   `_plan_targets`: it only looks, and it accepts a plan whose two leaves it has both seen absent;
   it refuses a plan only when it has seen one of them.
   */
  method PlanTargets(w: World, out: Argument, manifest: Argument, root: Path) returns (fault: Option<Fault>)
    requires w.Valid()
    modifies w
    ensures w.Valid() && Observes(old(w.log), old(w.disk), w.log, w.disk)
    ensures fault.None? ==> Planned(out, manifest, root) && BothAbsent(w.log.trace, |old(w.log).trace|, out, manifest)
    ensures fault.Some? && Planned(out, manifest, root) ==>
      || Looked(w.log.trace, |old(w.log).trace|, out.resolution.parent + [out.name], true)
      || Looked(w.log.trace, |old(w.log).trace|, manifest.resolution.parent + [manifest.name], true)
  {
    if !IsLeaf(out) || !IsLeaf(manifest) {
      return Some(if out.resolution.Broken? || manifest.resolution.Broken? then Crashed else Refused);
    }
    if out.resolution.parent != manifest.resolution.parent || out.name == manifest.name {
      return Some(Refused);
    }
    var outside := CheckParentBoundary(out.resolution.parent, root);
    if !outside {
      return Some(Refused);
    }
    fault := RejectExisting(w, out, manifest);
  }

  /** Where an accepted argument points to. */
  function Leaf(a: Argument): Path
    requires IsLeaf(a)
  {
    a.resolution.parent + [a.name]
  }

  /** Each of the two names was looked up in its directory, and was not there. */
  ghost predicate BothAbsent(trace: seq<Step>, from: nat, out: Argument, manifest: Argument)
    requires out.resolution.At? && manifest.resolution.At?
  {
    && Looked(trace, from, out.resolution.parent + [out.name], false)
    && Looked(trace, from, manifest.resolution.parent + [manifest.name], false)
  }

  /** `_reject_existing_leaf`, for both leaves. */
  method RejectExisting(w: World, out: Argument, manifest: Argument) returns (fault: Option<Fault>)
    requires w.Valid() && IsLeaf(out) && IsLeaf(manifest)
    modifies w
    ensures w.Valid() && Observes(old(w.log), old(w.disk), w.log, w.disk)
    ensures fault.None? ==> BothAbsent(w.log.trace, |old(w.log).trace|, out, manifest)
    ensures fault.Some? ==>
      || Looked(w.log.trace, |old(w.log).trace|, Leaf(out), true)
      || Looked(w.log.trace, |old(w.log).trace|, Leaf(manifest), true)
  {
    var there := w.LinkExists(Leaf(out));
    if there {
      return Some(Refused);
    }
    ghost var b, db := w.log, w.disk;
    there := w.LinkExists(Leaf(manifest));
    ObservesThen(old(w.log), old(w.disk), b, db, w.log, w.disk);
    LookedLater(b.trace, w.log.trace, |old(w.log).trace|, Leaf(out), false);
    fault := if there then Some(Refused) else None;
  }

  // ---------------------------------------------------------------- the inputs

  const EXCLUDED_TOP_LEVEL: set<string> := {
    "build", "dist", "first_agent.egg-info", ".git", ".venv", ".local", ".pytest_cache", ".ruff_cache", "__pycache__",
    "graphify-out", ".ua", ".claude", ".codex", ".opencode", "node_modules"
  }

  const PRIVATE_NAMES: set<string> := {".env", ".netrc", ".git-credentials", "config.yaml"}

  predicate EndsWith(s: string, suffix: string) {
    |suffix| <= |s| && s[|s| - |suffix|..] == suffix
  }

  /** `_is_private`. */
  predicate IsPrivate(rel: string) {
    var parts := Split(rel);
    var name := parts[|parts| - 1];
    || parts[0] in EXCLUDED_TOP_LEVEL
    || "__pycache__" in parts[..|parts| - 1]
    || (exists i :: 0 <= i < |parts| && EndsWith(parts[i], ".egg-info"))
    || HasPrivateName(name)
  }

  /** The tests of the last component. */
  predicate HasPrivateName(name: string) {
    || name in PRIVATE_NAMES || ".env" <= name
    || EndsWith(name, ".pem") || EndsWith(name, ".key") || EndsWith(name, ".pyc") || EndsWith(name, ".pyo")
  }

  /** `s` is something followed by `suffix`. */
  ghost predicate HasSuffix(s: string, suffix: string) {
    exists stem: string :: s == stem + suffix
  }

  /** What is never published, by the components of its path. */
  ghost predicate LeftOut(parts: seq<string>)
    requires parts != []
  {
    || LeftOutTop(parts[0])
    || (exists i :: 0 <= i < |parts| - 1 && parts[i] == "__pycache__")
    || (exists i :: 0 <= i < |parts| && HasSuffix(parts[i], ".egg-info"))
    || LeftOutName(parts[|parts| - 1])
  }

  predicate LeftOutTop(top: string) {
    top in ["build", "dist", "first_agent.egg-info", ".git", ".venv", ".local", ".pytest_cache", ".ruff_cache",
            "__pycache__", "graphify-out", ".ua", ".claude", ".codex", ".opencode", "node_modules"]
  }

  ghost predicate LeftOutName(name: string) {
    || name == ".env" || name == ".netrc" || name == ".git-credentials" || name == "config.yaml"
    || (exists rest: string :: name == ".env" + rest)
    || HasSuffix(name, ".pem") || HasSuffix(name, ".key") || HasSuffix(name, ".pyc") || HasSuffix(name, ".pyo")
  }

  lemma EndsWithIff(s: string, suffix: string)
    ensures EndsWith(s, suffix) <==> HasSuffix(s, suffix)
  {
    if EndsWith(s, suffix) {
      assert s == s[..|s| - |suffix|] + suffix;
    }
    forall stem: string | s == stem + suffix
      ensures EndsWith(s, suffix)
    {
      assert s[|s| - |suffix|..] == suffix;
    }
  }

  lemma EnvIff(name: string)
    ensures ".env" <= name <==> exists rest: string :: name == ".env" + rest
  {
    if ".env" <= name {
      assert name == ".env" + name[4..];
    }
  }

  lemma InnerIff(parts: seq<string>)
    requires parts != []
    ensures "__pycache__" in parts[..|parts| - 1] <==> exists i :: 0 <= i < |parts| - 1 && parts[i] == "__pycache__"
  {
    var front := parts[..|parts| - 1];
    if "__pycache__" in front {
      var i :| 0 <= i < |front| && front[i] == "__pycache__";
      assert parts[i] == "__pycache__";
    }
    forall i | 0 <= i < |parts| - 1 && parts[i] == "__pycache__"
      ensures "__pycache__" in front
    {
      assert front[i] == "__pycache__";
    }
  }

  lemma TopIff(top: string)
    ensures top in EXCLUDED_TOP_LEVEL <==> LeftOutTop(top)
  {
  }

  lemma NameIff(name: string)
    ensures HasPrivateName(name) <==> LeftOutName(name)
  {
    EnvIff(name);
    EndsWithIff(name, ".pem");
    EndsWithIff(name, ".key");
    EndsWithIff(name, ".pyc");
    EndsWithIff(name, ".pyo");
  }

  lemma EggIff(parts: seq<string>)
    ensures (exists i :: 0 <= i < |parts| && EndsWith(parts[i], ".egg-info"))
       <==> exists i :: 0 <= i < |parts| && HasSuffix(parts[i], ".egg-info")
  {
    forall i | 0 <= i < |parts|
      ensures EndsWith(parts[i], ".egg-info") <==> HasSuffix(parts[i], ".egg-info")
    {
      EndsWithIff(parts[i], ".egg-info");
    }
  }

  /** `_is_private` finds exactly those. */
  lemma PrivateIff(rel: string)
    ensures IsPrivate(rel) <==> LeftOut(Split(rel))
  {
    var parts := Split(rel);
    TopIff(parts[0]);
    InnerIff(parts);
    EggIff(parts);
    NameIff(parts[|parts| - 1]);
  }

  predicate Distinct(paths: seq<string>) {
    forall i, j :: 0 <= i < j < |paths| ==> paths[i] != paths[j]
  }

  /** Two kept paths come in the order in which `all` has them. */
  ghost predicate InOrder(paths: seq<string>, all: seq<string>) {
    forall i, j :: 0 <= i < j < |paths| ==> Follow(all, paths[i], paths[j])
  }

  ghost predicate Follow(all: seq<string>, first: string, second: string) {
    exists p, q :: 0 <= p < q < |all| && all[p] == first && all[q] == second
  }

  /** `paths` are those of `all` that are published, each once, in the same order. */
  ghost predicate AreThePublic(paths: seq<string>, all: seq<string>) {
    && Distinct(paths) && InOrder(paths, all)
    && forall rel :: rel in paths <==> rel in all && !LeftOut(Split(rel))
  }

  lemma OneMorePublic(paths: seq<string>, all: seq<string>, i: nat)
    requires i < |all| && Distinct(all) && AreThePublic(paths, all[..i])
    ensures AreThePublic(if LeftOut(Split(all[i])) then paths else paths + [all[i]], all[..i + 1])
  {
    var keep := !LeftOut(Split(all[i]));
    var more := if keep then paths + [all[i]] else paths;
    NotYet(all, i);
    InOrderMore(paths, all, i, more);
    MembersMore(paths, all, i, more);
  }

  lemma MembersMore(paths: seq<string>, all: seq<string>, i: nat, more: seq<string>)
    requires i < |all| && (more == paths || more == paths + [all[i]])
    ensures forall rel :: rel in more <==> rel in paths || (rel == all[i] && more != paths)
    ensures forall rel :: rel in all[..i + 1] <==> rel in all[..i] || rel == all[i]
  {
    assert all[..i + 1] == all[..i] + [all[i]];
  }

  lemma InOrderMore(paths: seq<string>, all: seq<string>, i: nat, more: seq<string>)
    requires i < |all| && InOrder(paths, all[..i]) && (forall rel :: rel in paths ==> rel in all[..i])
    requires more == paths || more == paths + [all[i]]
    ensures InOrder(more, all[..i + 1])
  {
    forall p, q | 0 <= p < q < |more|
      ensures Follow(all[..i + 1], more[p], more[q])
    {
      FollowMore(paths, all, i, more, p, q);
    }
  }

  lemma NotYet(all: seq<string>, i: nat)
    requires i < |all| && Distinct(all)
    ensures all[i] !in all[..i]
  {
  }

  lemma FollowMore(paths: seq<string>, all: seq<string>, i: nat, more: seq<string>, p: nat, q: nat)
    requires i < |all| && InOrder(paths, all[..i]) && (forall rel :: rel in paths ==> rel in all[..i])
    requires (more == paths || more == paths + [all[i]]) && p < q < |more|
    ensures Follow(all[..i + 1], more[p], more[q])
  {
    if q < |paths| {
      var x, y :| 0 <= x < y < i && all[..i][x] == paths[p] && all[..i][y] == paths[q];
      assert all[..i + 1][x] == paths[p] && all[..i + 1][y] == paths[q];
    } else {
      assert paths[p] in all[..i];
      var x :| 0 <= x < i && all[..i][x] == paths[p];
      assert all[..i + 1][x] == paths[p] && all[..i + 1][i] == all[i];
    }
  }

  /** The loop of `_source_paths` over the sorted union. */
  method SourcePaths(all: seq<string>) returns (kept: seq<string>)
    requires Distinct(all)
    ensures AreThePublic(kept, all)
  {
    kept := [];
    for i := 0 to |all|
      invariant AreThePublic(kept, all[..i])
    {
      PrivateIff(all[i]);
      OneMorePublic(kept, all, i);
      if !IsPrivate(all[i]) {
        kept := kept + [all[i]];
      }
    }
    assert all[..|all|] == all;
  }

  /** From step `from` on, some read of `path` gave bytes with this digest. */
  ghost predicate ReadAs(trace: seq<Step>, from: nat, path: Path, digest: string, sha256: string -> string) {
    exists j: nat :: from <= j && IsReadAs(trace, j, path, digest, sha256)
  }

  ghost predicate IsReadAs(trace: seq<Step>, j: nat, path: Path, digest: string, sha256: string -> string) {
    j < |trace| && trace[j].act.ReadFile? && trace[j].path == path && sha256(trace[j].act.bytes) == digest
  }

  lemma ReadAsLater(a: seq<Step>, b: seq<Step>, from: nat, path: Path, digest: string, sha256: string -> string)
    requires ReadAs(a, from, path, digest, sha256) && a <= b
    ensures ReadAs(b, from, path, digest, sha256)
  {
    var j: nat :| from <= j && IsReadAs(a, j, path, digest, sha256);
    assert b[j] == a[j];
    assert IsReadAs(b, j, path, digest, sha256);
  }

  lemma ReadSince(trace: seq<Step>, from: nat, later: nat, path: Path, digest: string, sha256: string -> string)
    requires from <= later && ReadAs(trace, later, path, digest, sha256)
    ensures ReadAs(trace, from, path, digest, sha256)
  {
    var j: nat :| later <= j && IsReadAs(trace, j, path, digest, sha256);
  }

  function Source(root: Path, rel: string): Path {
    root + Split(rel)
  }

  /** There is a regular file at `path`, and no link. */
  predicate IsRegular(d: Disk, path: Path) {
    EntryAt(d, path).Some? && EntryAt(d, path).value.File?
  }

  /** Not a link, and then a regular file by `os.stat`. */
  method IsRegularFile(w: World, path: Path) returns (regular: bool)
    requires w.Valid()
    modifies w
    ensures w.Valid() && Observes(old(w.log), old(w.disk), w.log, w.disk)
    ensures regular ==> SeenRegular(w.log.trace, |old(w.log).trace|, path)
    ensures old(w.calls) <= w.calls
    ensures w.Alone(old(w.calls), w.calls) ==> w.disk == old(w.disk) && (regular <==> IsRegular(w.disk, path))
  {
    ghost var first := w.calls;
    var link := w.IsLink(path);
    if link {
      return false;
    }
    ghost var b, db := w.log, w.disk;
    var kind := w.Stat(path);
    w.AloneSplits(first, first + 1, w.calls);
    ObservesThen(old(w.log), old(w.disk), b, db, w.log, w.disk);
    regular := kind.Some? && kind.value.0;
    if regular {
      assert w.log.trace[|old(w.log).trace|] == b.trace[|old(w.log).trace|];
      assert NoLinkAt(w.log.trace, |old(w.log).trace|, path);
    }
  }

  /** The file that the builder made at `path` still holds bytes with this digest. */
  ghost predicate Holds(log: Log, d: Disk, path: Path, digest: string, sha256: string -> string) {
    path in log.made && log.made[path] in d.contents && sha256(d.contents[log.made[path]]) == digest
  }

  /** `_sha256` of a file. */
  method DigestOf(w: World, path: Path, sha256: string -> string) returns (digest: Option<string>)
    requires w.Valid()
    modifies w
    ensures w.Valid() && Observes(old(w.log), old(w.disk), w.log, w.disk)
    ensures digest.Some? ==> ReadAs(w.log.trace, |old(w.log).trace|, path, digest.value, sha256)
    ensures digest.Some? && Respectful(w.log.trace) && path in w.log.made ==>
      Holds(w.log, w.disk, path, digest.value, sha256)
    ensures w.calls == old(w.calls) + 1 && w.disk == old(w.Met())
    ensures w.works(old(w.calls)) && IsRegular(w.disk, path) ==> digest == Some(sha256(Bytes(w.disk, path)))
  {
    var bytes := w.Read(path);
    if bytes.None? {
      return None;
    }
    SawAs(w.log.trace, |old(w.log).trace|, path, bytes.value, sha256);
    digest := Some(sha256(bytes.value));
  }

  lemma SawAs(trace: seq<Step>, from: nat, path: Path, bytes: string, sha256: string -> string)
    requires SawBytes(trace, from, path, bytes)
    ensures ReadAs(trace, from, path, sha256(bytes), sha256)
  {
    var j: nat :| from <= j && IsRead(trace, j, path, bytes);
    assert IsReadAs(trace, j, path, sha256(bytes), sha256);
  }

  /** One turn of `_preflight`. */
  method FreezeOne(w: World, path: Path, sha256: string -> string) returns (digest: Option<string>)
    requires w.Valid()
    modifies w
    ensures w.Valid() && Observes(old(w.log), old(w.disk), w.log, w.disk)
    ensures digest.Some? ==> InputRead(w.log.trace, |old(w.log).trace|, path, digest.value, sha256)
    ensures old(w.calls) <= w.calls
    ensures w.Alone(old(w.calls), w.calls) ==>
      w.disk == old(w.disk) && digest == if IsRegular(w.disk, path) then Some(sha256(Bytes(w.disk, path))) else None
  {
    digest := None;
    var regular := IsRegularFile(w, path);
    if regular {
      ghost var b, db, mid := w.log, w.disk, w.calls;
      digest := DigestOf(w, path, sha256);
      w.AloneSplits(old(w.calls), mid, w.calls);
      ObservesThen(old(w.log), old(w.disk), b, db, w.log, w.disk);
      if digest.Some? {
        SeenLater(b.trace, w.log.trace, |old(w.log).trace|, |old(w.log).trace|, path);
        ReadSince(w.log.trace, |old(w.log).trace|, |b.trace|, path, digest.value, sha256);
      }
    }
  }

  /** From step `from` on, an input was found to be a regular file, and bytes with this digest were read from it. */
  ghost predicate InputRead(trace: seq<Step>, from: nat, path: Path, digest: string, sha256: string -> string) {
    SeenRegular(trace, from, path) && ReadAs(trace, from, path, digest, sha256)
  }

  lemma InputReadLater(a: seq<Step>, b: seq<Step>, from: nat, later: nat, path: Path, digest: string,
                       sha256: string -> string)
    requires InputRead(a, later, path, digest, sha256) && a <= b && from <= later
    ensures InputRead(b, from, path, digest, sha256)
  {
    SeenLater(a, b, from, later, path);
    ReadAsLater(a, b, later, path, digest, sha256);
    ReadSince(b, from, later, path, digest, sha256);
  }

  /** A digest for each of `paths` and for nothing else, each of bytes read from a regular file, from step `from` on. */
  ghost predicate FrozenAs(trace: seq<Step>, from: nat, root: Path, paths: seq<string>, frozen: map<string, string>,
                           sha256: string -> string)
  {
    && (forall rel :: rel in frozen <==> rel in paths)
    && (forall rel :: rel in frozen ==> InputRead(trace, from, Source(root, rel), frozen[rel], sha256))
  }

  lemma FrozenLater(a: seq<Step>, b: seq<Step>, from: nat, root: Path, paths: seq<string>, frozen: map<string, string>,
                    sha256: string -> string)
    requires FrozenAs(a, from, root, paths, frozen, sha256) && a <= b
    ensures FrozenAs(b, from, root, paths, frozen, sha256)
  {
    forall rel | rel in frozen
      ensures InputRead(b, from, Source(root, rel), frozen[rel], sha256)
    {
      InputReadLater(a, b, from, from, Source(root, rel), frozen[rel], sha256);
    }
  }

  lemma OneMoreFrozen(a: seq<Step>, b: seq<Step>, from: nat, root: Path,
                      paths: seq<string>, frozen: map<string, string>,
                      rel: string, digest: string, sha256: string -> string)
    requires FrozenAs(a, from, root, paths, frozen, sha256) && a <= b && from <= |a|
    requires InputRead(b, |a|, Source(root, rel), digest, sha256)
    ensures FrozenAs(b, from, root, paths + [rel], frozen[rel := digest], sha256)
  {
    var more := frozen[rel := digest];
    FrozenLater(a, b, from, root, paths, frozen, sha256);
    InputReadLater(b, b, from, |a|, Source(root, rel), digest, sha256);
    forall other
      ensures other in more <==> other in paths + [rel]
      ensures other in more ==> InputRead(b, from, Source(root, other), more[other], sha256)
    {
      if other in frozen && other != rel {
        assert InputRead(b, from, Source(root, other), frozen[other], sha256);
      }
    }
  }

  /** The turn at position i. */
  method FreezeNext(w: World, root: Path, paths: seq<string>, i: nat, frozen: map<string, string>,
                    sha256: string -> string,
                    ghost a: Log, ghost da: Disk)
      returns (more: Option<map<string, string>>)
    requires w.Valid() && i < |paths| && Observes(a, da, w.log, w.disk)
    requires FrozenAs(w.log.trace, |a.trace|, root, paths[..i], frozen, sha256)
    modifies w
    ensures w.Valid() && Observes(a, da, w.log, w.disk)
    ensures more.Some? ==> FrozenAs(w.log.trace, |a.trace|, root, paths[..i + 1], more.value, sha256)
    ensures old(w.calls) <= w.calls
    ensures w.Alone(old(w.calls), w.calls) ==>
      w.disk == old(w.disk) && (more.Some? <==> IsRegular(w.disk, Source(root, paths[i])))
  {
    ghost var b, db := w.log, w.disk;
    var digest := FreezeOne(w, Source(root, paths[i]), sha256);
    ObservesThen(a, da, b, db, w.log, w.disk);
    if digest.None? {
      return None;
    }
    FrozenNext(b.trace, w.log.trace, |a.trace|, root, paths, i, frozen, digest.value, sha256);
    more := Some(frozen[paths[i] := digest.value]);
  }

  lemma FrozenNext(a: seq<Step>, b: seq<Step>, from: nat, root: Path, paths: seq<string>, i: nat,
                   frozen: map<string, string>, digest: string, sha256: string -> string)
    requires i < |paths| && FrozenAs(a, from, root, paths[..i], frozen, sha256) && a <= b && from <= |a|
    requires InputRead(b, |a|, Source(root, paths[i]), digest, sha256)
    ensures FrozenAs(b, from, root, paths[..i + 1], frozen[paths[i] := digest], sha256)
  {
    OneMoreFrozen(a, b, from, root, paths[..i], frozen, paths[i], digest, sha256);
    assert paths[..i + 1] == paths[..i] + [paths[i]];
  }

  ghost predicate AllRegular(d: Disk, root: Path, paths: seq<string>) {
    forall rel :: rel in paths ==> IsRegular(d, Source(root, rel))
  }

  lemma NextRegular(d: Disk, root: Path, paths: seq<string>, i: nat)
    requires i < |paths|
    ensures AllRegular(d, root, paths[..i + 1]) <==>
            AllRegular(d, root, paths[..i]) && IsRegular(d, Source(root, paths[i]))
    ensures !AllRegular(d, root, paths[..i + 1]) ==> !AllRegular(d, root, paths)
  {
    assert paths[..i + 1] == paths[..i] + [paths[i]];
  }

  /**
   `_preflight`: a digest for every path and nothing else, and not one change of the disk by the
   builder.  Left alone, with every call working, it succeeds exactly when every path is a regular file.
   */
  method Preflight(w: World, root: Path, paths: seq<string>, sha256: string -> string)
      returns (frozen: Option<map<string, string>>)
    requires w.Valid()
    modifies w
    ensures w.Valid() && Observes(old(w.log), old(w.disk), w.log, w.disk)
    ensures frozen.Some? ==> FrozenAs(w.log.trace, |old(w.log).trace|, root, paths, frozen.value, sha256)
    ensures old(w.calls) <= w.calls
    ensures w.Alone(old(w.calls), w.calls) ==>
      w.disk == old(w.disk) && (frozen.Some? <==> AllRegular(w.disk, root, paths))
  {
    frozen := Some(map[]);
    var i := 0;
    while i < |paths|
      invariant 0 <= i <= |paths| && w.Valid() && frozen.Some? && old(w.calls) <= w.calls
      invariant w.Alone(old(w.calls), w.calls) ==>
        w.disk == old(w.disk) && AllRegular(w.disk, root, paths[..i])
      invariant Observes(old(w.log), old(w.disk), w.log, w.disk)
      invariant FrozenAs(w.log.trace, |old(w.log).trace|, root, paths[..i], frozen.value, sha256)
    {
      ghost var mid := w.calls;
      frozen := FreezeNext(w, root, paths, i, frozen.value, sha256, old(w.log), old(w.disk));
      w.AloneSplits(old(w.calls), mid, w.calls);
      NextRegular(w.disk, root, paths, i);
      if frozen.None? {
        return;
      }
      i := i + 1;
    }
    assert paths[..i] == paths;
  }

  // ---------------------------------------------------------------- the copy

  function Target(out: Path, rel: string): Path {
    out + Split(rel)
  }

  /** Source and target lie where the slashes of the path lead, below the root and below the output. */
  lemma SpelledBelow(base: Path, rel: string)
    ensures var parts := Target(base, rel)[|base|..];
      && base <= Target(base, rel) && parts != [] && JoinSlash(parts) == rel
      && forall i :: 0 <= i < |parts| ==> '/' !in parts[i]
    ensures Source(base, rel) == Target(base, rel)
  {
    assert Target(base, rel)[|base|..] == Split(rel);
  }

  /** The directories above a path, outermost first; the last one is its parent. */
  function DirectoriesAbove(path: Path): (dirs: seq<Path>) {
    if |path| <= 1 then [] else DirectoriesAbove(path[..|path| - 1]) + [path[..|path| - 1]]
  }

  /** They are its proper fronts, from the shortest to the longest. */
  lemma {:induction false} AboveAre(path: Path)
    ensures |DirectoriesAbove(path)| == if path == [] then 0 else |path| - 1
    ensures forall i :: 0 <= i < |DirectoriesAbove(path)| ==> DirectoriesAbove(path)[i] == path[..i + 1]
    decreases |path|
  {
    if |path| > 1 {
      AboveAre(path[..|path| - 1]);
    }
  }

  lemma {:induction false} AboveIsFront(path: Path, dir: Path)
    requires dir in DirectoriesAbove(path)
    ensures dir <= path
    decreases |path|
  {
    var front := path[..|path| - 1];
    if dir != front {
      AboveIsFront(front, dir);
    }
  }

  /** One directory of `os.makedirs`; what is there already is tolerated. */
  method MakeOne(w: World, dir: Path, last: bool) returns (ok: bool)
    requires w.Valid()
    modifies w
    ensures w.Valid() && Passive(old(w.log), old(w.disk), w.log, w.disk)
    ensures forall p :: p in w.log.dirs ==> p in old(w.log).dirs || p == dir
  {
    ok := w.MakeDir(dir);
    if !ok {
      ghost var b, db := w.log, w.disk;
      var kind := w.Stat(dir);
      PassiveThen(old(w.log), old(w.disk), b, db, w.log, w.disk);
      ok := kind.Some? && (!last || kind.value.1);
    }
  }

  /** Not a link, and then a directory by `os.stat`. */
  method IsRealDirectory(w: World, path: Path) returns (found: bool)
    requires w.Valid()
    modifies w
    ensures w.Valid() && Observes(old(w.log), old(w.disk), w.log, w.disk)
    ensures found ==> SeenDirectory(w.log.trace, |old(w.log).trace|, path)
  {
    var link := w.IsLink(path);
    if link {
      return false;
    }
    ghost var b, db := w.log, w.disk;
    var kind := w.Stat(path);
    ObservesThen(old(w.log), old(w.disk), b, db, w.log, w.disk);
    found := kind.Some? && kind.value.1;
    if found {
      assert w.log.trace[|old(w.log).trace|] == b.trace[|old(w.log).trace|];
      assert NoLinkAt(w.log.trace, |old(w.log).trace|, path);
    }
  }

  /** `_ensure_directory`: only directories are created, and the last one is neither link nor file. */
  method EnsureDirectory(w: World, dirs: seq<Path>) returns (ok: bool)
    requires w.Valid()
    modifies w
    ensures w.Valid() && Passive(old(w.log), old(w.disk), w.log, w.disk)
    ensures forall p :: p in w.log.dirs ==> p in old(w.log).dirs || p in dirs
    ensures ok && dirs != [] ==> SeenDirectory(w.log.trace, |old(w.log).trace|, dirs[|dirs| - 1])
  {
    ok := true;
    var i := 0;
    while i < |dirs| && ok
      invariant 0 <= i <= |dirs| && w.Valid() && Passive(old(w.log), old(w.disk), w.log, w.disk)
      invariant forall p :: p in w.log.dirs ==> p in old(w.log).dirs || p in dirs
    {
      ghost var b, db := w.log, w.disk;
      ok := MakeOne(w, dirs[i], i == |dirs| - 1);
      PassiveThen(old(w.log), old(w.disk), b, db, w.log, w.disk);
      i := i + 1;
    }
    if ok && dirs != [] {
      ghost var b, db := w.log, w.disk;
      ok := IsRealDirectory(w, dirs[|dirs| - 1]);
      PassiveThen(old(w.log), old(w.disk), b, db, w.log, w.disk);
      if ok {
        DirectoryLater(w.log.trace, w.log.trace, |old(w.log).trace|, |b.trace|, dirs[|dirs| - 1]);
      }
    }
  }

  /** `target` was created exclusively, and a later read of it gave bytes with this digest. */
  ghost predicate Verified(trace: seq<Step>, target: Path, digest: string, sha256: string -> string) {
    exists i: nat :: IsCreation(trace, i, target) && ReadAs(trace, i + 1, target, digest, sha256)
  }

  lemma VerifiedLater(a: seq<Step>, b: seq<Step>, target: Path, digest: string, sha256: string -> string)
    requires Verified(a, target, digest, sha256) && a <= b
    ensures Verified(b, target, digest, sha256)
  {
    var i: nat :| IsCreation(a, i, target) && ReadAs(a, i + 1, target, digest, sha256);
    assert b[i] == a[i];
    assert IsCreation(b, i, target);
    ReadAsLater(a, b, i + 1, target, digest, sha256);
  }

  /** From a to b one target was copied. */
  ghost predicate Copied(a: Log, da: Disk, b: Log, db: Disk, target: Path, digest: string, sha256: string -> string) {
    && Follows(a, da, b, db) && b.created == a.created + [target]
    && b.linked == a.linked && b.removed == a.removed
    && Verified(b.trace, target, digest, sha256)
    && (Respectful(b.trace) ==>
          && SameContents(a.own, da, db) && target !in a.made
          && (forall path :: path in a.made ==> path in b.made && b.made[path] == a.made[path])
          && Holds(b, db, target, digest, sha256))
  }

  /** From a to b nothing was linked, and at most the target was created. */
  ghost predicate Stopped(a: Log, b: Log, target: Path) {
    && a.trace <= b.trace && b.linked == a.linked && b.removed == a.removed
    && (b.created == a.created || b.created == a.created + [target])
  }

  /** From a to b a target just created was written, and read back with this digest. */
  ghost predicate Filled(a: Log, da: Disk, b: Log, db: Disk, target: Path, n: nat, digest: string,
                         sha256: string -> string) {
    && Follows(a, da, b, db) && b.own == a.own && SameLists(a, b)
    && ReadAs(b.trace, |a.trace|, target, digest, sha256)
    && (Respectful(b.trace) ==>
          SameContents(a.own - {n}, da, db) && (target in b.made ==> Holds(b, db, target, digest, sha256)))
  }

  lemma FilledBy(a: Log, da: Disk, b: Log, db: Disk, c: Log, dc: Disk, target: Path, n: nat, digest: string,
                 sha256: string -> string)
    requires Writes(a, da, b, db, n) && Observes(b, db, c, dc) && ReadAs(c.trace, |b.trace|, target, digest, sha256)
    requires Respectful(c.trace) && target in c.made ==> Holds(c, dc, target, digest, sha256)
    ensures Filled(a, da, c, dc, target, n, digest, sha256)
  {
    FollowsThen(a, da, b, db, c, dc);
    ReadSince(c.trace, |a.trace|, |b.trace|, target, digest, sha256);
  }

  lemma CopiedBy(a: Log, da: Disk, b: Log, db: Disk, c: Log, dc: Disk, target: Path, n: nat, digest: string,
                 sha256: string -> string)
    requires NewFile(a, da, b, db, target, n) && Filled(b, db, c, dc, target, n, digest, sha256)
    requires forall m :: m in a.own ==> m < da.next
    ensures Copied(a, da, c, dc, target, digest, sha256)
  {
    FollowsThen(a, da, b, db, c, dc);
    var i: nat :| |a.trace| <= i && IsCreation(b.trace, i, target);
    assert c.trace[i] == b.trace[i];
    assert IsCreation(c.trace, i, target);
    ReadSince(c.trace, i + 1, |b.trace|, target, digest, sha256);
    assert Verified(c.trace, target, digest, sha256);
  }

  /** There is an empty file with this number at `target`. */
  predicate NewAt(d: Disk, target: Path, handle: nat) {
    EntryAt(d, target) == Some(File(handle)) && handle in d.contents && d.contents[handle] == ""
  }

  lemma WrittenAt(d: Disk, e: Disk, target: Path, handle: nat, payload: string)
    requires NewAt(d, target, handle) && e.names == d.names && e.follow == d.follow && e.next == d.next
    requires e.contents == d.contents[handle := payload]
    ensures IsRegular(e, target) && Bytes(e, target) == payload
  {
    SameNames(d, e, target);
  }

  /** Write the new file, and read it back. */
  method FillTarget(w: World, handle: nat, target: Path, payload: string, digest: string, sha256: string -> string)
      returns (fault: Option<Fault>)
    requires w.Valid() && handle in w.log.own
    modifies w
    ensures w.Valid()
    ensures fault.None? ==> Filled(old(w.log), old(w.disk), w.log, w.disk, target, handle, digest, sha256)
    ensures old(w.log).trace <= w.log.trace && w.log.created == old(w.log).created
    ensures w.log.linked == old(w.log).linked && w.log.removed == old(w.log).removed && w.log.dirs == old(w.log).dirs
    ensures old(w.calls) <= w.calls
    ensures NewAt(old(w.disk), target, handle) && w.Alone(old(w.calls), w.calls) ==>
      (fault.None? <==> sha256(payload) == digest)
  {
    ghost var d0, first := w.disk, w.calls;
    var ok := w.WriteHandle(handle, target, payload);
    if !ok {
      return Some(Crashed);
    }
    ghost var b, db := w.log, w.disk;
    var back := DigestOf(w, target, sha256);
    w.AloneSplits(first, first + 1, w.calls);
    if NewAt(d0, target, handle) && w.Alone(first, w.calls) {
      WrittenAt(d0, db, target, handle, payload);
    }
    if back.None? {
      return Some(Crashed);
    }
    if back.value != digest {
      return Some(Refused);
    }
    FilledBy(old(w.log), old(w.disk), b, db, w.log, w.disk, target, handle, digest, sha256);
    fault := None;
  }

  /** `_write_exclusive` and the read-back. */
  method WriteTarget(w: World, target: Path, payload: string, digest: string, sha256: string -> string)
      returns (fault: Option<Fault>)
    requires w.Valid()
    modifies w
    ensures w.Valid()
    ensures fault.None? ==> Copied(old(w.log), old(w.disk), w.log, w.disk, target, digest, sha256)
    ensures fault.Some? ==> Stopped(old(w.log), w.log, target)
    ensures w.log.dirs == old(w.log).dirs && old(w.calls) <= w.calls
    ensures w.Alone(old(w.calls), w.calls) ==>
      (fault.None? <==> Free(old(w.disk), target) && sha256(payload) == digest)
  {
    ghost var first := w.calls;
    if Free(w.Met(), target) {
      NewFileThere(w.Met(), target);
    }
    var handle := w.CreateExclusive(target);
    if handle.None? {
      return Some(Refused);
    }
    ghost var b, db := w.log, w.disk;
    fault := FillTarget(w, handle.value, target, payload, digest, sha256);
    w.AloneSplits(first, first + 1, w.calls);
    if fault.None? {
      CopiedBy(old(w.log), old(w.disk), b, db, w.log, w.disk, target, handle.value, digest, sha256);
    }
  }
}

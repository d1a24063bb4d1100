/** `_OwnedBrowserProcesses`: which processes descend from the runner, and when they are known to be gone. */
module ProcessTree {
  import opened Wrappers

  /** One line of `ps`: a process, its parent and its start time. */
  datatype Entry = Entry(parent: int, started: string)

  datatype Identity = Identity(pid: int, started: string)

  // ---------------------------------------------------------------- descent

  /** `path` leads from `root` to its last element, each pid being the parent of the next. */
  predicate IsDescent(s: map<int, Entry>, root: int, path: seq<int>) {
    path != [] && path[0] == root
    && forall i :: 0 < i < |path| ==> path[i] in s && s[path[i]].parent == path[i - 1]
  }

  ghost predicate Descends(s: map<int, Entry>, root: int, pid: int) {
    exists path :: IsDescent(s, root, path) && path[|path| - 1] == pid
  }

  /** `order` is one iteration of `snapshot.items()`: every pid once. */
  ghost predicate Iterates(s: map<int, Entry>, order: seq<int>) {
    forall pid :: pid in order <==> pid in s
  }

  predicate Closed(s: map<int, Entry>, pids: set<int>) {
    forall pid :: pid in s && s[pid].parent in pids ==> pid in pids
  }

  lemma DescendsStep(s: map<int, Entry>, root: int, pid: int)
    requires pid in s && Descends(s, root, s[pid].parent)
    ensures Descends(s, root, pid)
  {
    var path :| IsDescent(s, root, path) && path[|path| - 1] == s[pid].parent;
    assert IsDescent(s, root, path + [pid]);
    assert (path + [pid])[|path|] == pid;
  }

  lemma ClosedStep(s: map<int, Entry>, pids: set<int>, pid: int)
    requires Closed(s, pids) && pid in s && s[pid].parent in pids
    ensures pid in pids
  {
  }

  lemma {:induction false} ClosedHoldsDescents(s: map<int, Entry>, root: int, pids: set<int>, path: seq<int>)
    requires Closed(s, pids) && root in pids && IsDescent(s, root, path)
    ensures path[|path| - 1] in pids
    decreases |path|
  {
    var n := |path| - 1;
    if n > 0 {
      ClosedHoldsDescents(s, root, pids, path[..n]);
      ClosedStep(s, pids, path[n]);
    }
  }

  /** The changed-flag loop ends for every snapshot, parent cycles included, with exactly the descendants. */
  method DescendantPids(s: map<int, Entry>, root: int, order: seq<int>) returns (pids: set<int>)
    requires Iterates(s, order)
    ensures forall pid :: pid in pids <==> Descends(s, root, pid)
  {
    pids := {root};
    RootDescends(s, root);
    var changed := true;
    while changed
      invariant root in pids
      invariant forall pid :: pid in pids ==> Descends(s, root, pid)
      invariant !changed ==> Closed(s, pids)
      decreases s.Keys - pids, changed
    {
      ghost var before := pids;
      changed := false;
      var i := 0;
      while i < |order|
        invariant 0 <= i <= |order| && before <= pids
        invariant forall pid :: pid in pids ==> Descends(s, root, pid)
        invariant changed ==> s.Keys - pids < s.Keys - before
        invariant !changed ==> pids == before
        invariant !changed ==> forall j :: 0 <= j < i && order[j] in s && s[order[j]].parent in pids ==>
          order[j] in pids
      {
        var pid := order[i];
        if s[pid].parent in pids && pid !in pids {
          DescendsStep(s, root, pid);
          assert pid in s.Keys - before;
          pids := pids + {pid};
          changed := true;
        }
        i := i + 1;
      }
    }
    forall pid | Descends(s, root, pid)
      ensures pid in pids
    {
      var path :| IsDescent(s, root, path) && path[|path| - 1] == pid;
      ClosedHoldsDescents(s, root, pids, path);
    }
  }

  lemma RootDescends(s: map<int, Entry>, root: int)
    ensures Descends(s, root, root)
  {
    assert IsDescent(s, root, [root]);
    assert [root][0] == root;
  }

  /** The identities that `_descendants` returns. */
  ghost predicate IsDescendant(s: map<int, Entry>, root: int, id: Identity) {
    id.pid != root && id.pid in s && id.started == s[id.pid].started && Descends(s, root, id.pid)
  }

  /** `_descendants`: the result does not depend on the order of iteration. */
  method Descendants(s: map<int, Entry>, root: int, order: seq<int>) returns (ids: set<Identity>)
    requires Iterates(s, order)
    ensures forall id :: id in ids <==> IsDescendant(s, root, id)
  {
    var pids := DescendantPids(s, root, order);
    ids := set pid | pid in pids && pid != root && pid in s :: Identity(pid, s[pid].started);
  }

  function Live(s: map<int, Entry>): set<Identity> {
    set pid | pid in s :: Identity(pid, s[pid].started)
  }

  /** The snapshot has this very process: the pid, started at the same time. */
  predicate Runs(s: map<int, Entry>, id: Identity) {
    id.pid in s && s[id.pid].started == id.started
  }

  lemma LiveRuns(s: map<int, Entry>)
    ensures forall id :: id in Live(s) <==> Runs(s, id)
  {
  }

  /** Some order of iteration; any will do. */
  method Iterate(s: map<int, Entry>) returns (order: seq<int>)
    ensures Iterates(s, order)
  {
    order := Listed(s.Keys);
  }

  method Pick<T>(s: set<T>) returns (x: T)
    requires s != {}
    ensures x in s
  {
    x :| x in s;
  }

  method Listed(pids: set<int>) returns (order: seq<int>)
    ensures forall pid :: pid in order <==> pid in pids
  {
    order := [];
    var rest := pids;
    while rest != {}
      invariant forall pid :: pid in order || pid in rest <==> pid in pids
      decreases rest
    {
      var pid := Pick(rest);
      order := order + [pid];
      rest := rest - {pid};
    }
  }

  // ---------------------------------------------------------------- the tracker

  /** One call of the snapshotter: None when it raises. */
  datatype Event = Observed(snapshot: Option<map<int, Entry>>)

  /** Everything that descends from `root` in a snapshot of the history and not in the baseline. */
  ghost predicate OwnedSince(history: seq<Option<map<int, Entry>>>, baseline: map<int, Entry>, root: int,
                             id: Identity) {
    && !IsDescendant(baseline, root, id)
    && exists i :: 0 <= i < |history| && history[i].Some? && IsDescendant(history[i].value, root, id)
  }

  class OwnedProcesses {
    const root: int
    const baseline: set<Identity>
    var owned: set<Identity>
    var uncertain: bool
    ghost const first: map<int, Entry>
    ghost var history: seq<Option<map<int, Entry>>>

    /** The history of observations determines both fields. */
    ghost predicate Valid()
      reads this
    {
      && (forall id :: id in baseline <==> IsDescendant(first, root, id))
      && (forall id :: id in owned <==> OwnedSince(history, first, root, id))
      && (uncertain <==> exists i :: 0 <= i < |history| && history[i].None?)
    }

    constructor (root: int, first: map<int, Entry>)
      ensures Valid() && this.root == root && this.first == first && history == [] && owned == {}
    {
      this.root := root;
      this.first := first;
      var order := Iterate(first);
      var ids := Descendants(first, root, order);
      baseline := ids;
      owned := {};
      uncertain := false;
      history := [];
    }

    /** `observe`: a failing snapshotter leaves what is owned alone, and makes the tracker uncertain for good. */
    method Observe(snapshot: Option<map<int, Entry>>) returns (any: bool)
      requires Valid()
      modifies this
      ensures Valid() && history == old(history) + [snapshot]
      ensures any <==> snapshot.Some? && owned != {}
    {
      history := history + [snapshot];
      if snapshot.None? {
        uncertain := true;
        assert history[|history| - 1].None?;
        SameOwned(old(history), snapshot, first, root);
        return false;
      }
      var order := Iterate(snapshot.value);
      var ids := Descendants(snapshot.value, root, order);
      owned := owned + (ids - baseline);
      SameOwned(old(history), snapshot, first, root);
      SameUncertain(old(history), snapshot);
      any := owned != {};
    }

    /**
     `confirmed_gone`: `later` are the answers of the snapshotter from now on, and the deadline
     has passed once the one at `due` is read.  True if and only if no observation has failed,
     something was owned, and in time some snapshot holds none of the owned identities, with no
     failing one before it.
     */
    method ConfirmedGone(later: seq<Option<map<int, Entry>>>, due: nat) returns (gone: bool)
      requires Valid() && due < |later|
      ensures gone <==>
        && (forall i :: 0 <= i < |history| ==> history[i].Some?)
        && (exists id :: OwnedSince(history, first, root, id))
        && (exists i :: 0 <= i <= due && AllRead(later, i)
              && forall id :: OwnedSince(history, first, root, id) ==> !Runs(later[i].value, id))
    {
      if uncertain || owned == {} {
        if id :| OwnedSince(history, first, root, id) {
          assert id in owned || uncertain;
        }
        return false;
      }
      var id :| id in owned;
      assert OwnedSince(history, first, root, id);
      var i := 0;
      while true
        invariant 0 <= i <= due
        invariant forall j :: 0 <= j < i ==> later[j].Some? && exists id :: id in owned && Runs(later[j].value, id)
        decreases due - i
      {
        if later[i].None? {
          return false;
        }
        LiveRuns(later[i].value);
        if owned !! Live(later[i].value) {
          assert AllRead(later, i);
          return true;
        }
        if i == due {
          return false;
        }
        i := i + 1;
      }
    }
  }

  predicate AllRead(later: seq<Option<map<int, Entry>>>, i: int) {
    0 <= i < |later| && forall j :: 0 <= j <= i ==> later[j].Some?
  }

  lemma SameOwned(history: seq<Option<map<int, Entry>>>, next: Option<map<int, Entry>>, first: map<int, Entry>,
                  root: int)
    ensures forall id :: OwnedSince(history + [next], first, root, id) <==>
      OwnedSince(history, first, root, id)
      || (next.Some? && IsDescendant(next.value, root, id) && !IsDescendant(first, root, id))
  {
    var longer := history + [next];
    forall id | OwnedSince(history, first, root, id)
      ensures OwnedSince(longer, first, root, id)
    {
      var i :| 0 <= i < |history| && history[i].Some? && IsDescendant(history[i].value, root, id);
      assert longer[i] == history[i];
    }
    assert longer[|history|] == next;
  }

  lemma SameUncertain(history: seq<Option<map<int, Entry>>>, next: Option<map<int, Entry>>)
    requires next.Some?
    ensures (exists i :: 0 <= i < |history + [next]| && (history + [next])[i].None?)
       <==> (exists i :: 0 <= i < |history| && history[i].None?)
  {
    var longer := history + [next];
    if i :| 0 <= i < |history| && history[i].None? {
      assert longer[i].None?;
    }
  }
}

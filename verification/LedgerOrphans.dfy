/**
 When the close of the ledger raises, `record` raises without closing its lock descriptor.
 This module says exactly when a flock is held by a call that is over, and what that costs the
 other calls.
 */
module LedgerOrphans {
  import opened Wrappers
  import opened LedgerFormat
  import opened LedgerProtocol
  import opened LedgerSafety
  import opened LedgerRuns

  /** A call that is over still holds a flock. */
  predicate Orphaned(s: State, id: CallId) {
    id !in s.calls && exists ino :: ino in s.shared.holders && s.shared.holders[ino] == id
  }

  /** Only the lock file is ever locked, and a holder that is still running has not closed it yet. */
  predicate HoldersValid(s: State) {
    forall ino :: ino in s.shared.holders ==> HolderValid(s, ino, s.shared.holders[ino])
  }

  predicate HolderValid(s: State, ino: nat, id: CallId) {
    && LockName in s.shared.names && s.shared.names[LockName] == ino
    && (id in s.calls ==> Critical(s.calls[id]) || s.calls[id].pc == CloseLock)
  }

  /** The step at which a call leaves without closing its lock descriptor. */
  predicate Leaks(s: State, step: Step, id: CallId) {
    step == Advance(id, Fails) && id in s.calls && s.calls[id].pc == CloseLedger
  }

  // ---------------------------------------------------------------- one step

  /** The pcs between taking the flock and closing its descriptor. */
  predicate Holding(c: Locals) {
    Critical(c) || c.pc == CloseLock
  }

  /** The call moves on, and keeps the flock if it has it. */
  predicate Moves(s: State, s': State, id: CallId) {
    && id in s.calls && id in s'.calls && (Holding(s.calls[id]) ==> Holding(s'.calls[id]))
    && s'.shared.holders == s.shared.holders
    && (LockName in s.shared.names ==>
          LockName in s'.shared.names && s'.shared.names[LockName] == s.shared.names[LockName])
    && s'.calls - {id} == s.calls - {id}
  }

  lemma Others(s: State, s': State, id: CallId, q: CallId)
    requires s'.calls - {id} == s.calls - {id} && q != id
    ensures q in s.calls <==> q in s'.calls
    ensures q in s.calls ==> s'.calls[q] == s.calls[q]
  {
    assert q in s.calls <==> q in s.calls - {id};
    assert q in s'.calls <==> q in s'.calls - {id};
    assert q in s.calls ==> (s.calls - {id})[q] == s.calls[q];
    assert q in s'.calls ==> (s'.calls - {id})[q] == s'.calls[q];
  }

  lemma PutMoves(s: State, id: CallId, c: Locals)
    requires id in s.calls && (Holding(s.calls[id]) ==> Holding(c))
    ensures Moves(s, Put(s, id, c), id)
  {
    assert Put(s, id, c).calls - {id} == s.calls - {id};
  }

  lemma MovesKeep(s: State, s': State, id: CallId)
    requires HoldersValid(s) && Moves(s, s', id)
    ensures HoldersValid(s') && forall q :: Orphaned(s', q) <==> Orphaned(s, q)
  {
    forall ino | ino in s'.shared.holders
      ensures HolderValid(s', ino, s'.shared.holders[ino])
    {
      assert HolderValid(s, ino, s.shared.holders[ino]);
      if s.shared.holders[ino] != id {
        Others(s, s', id, s.shared.holders[ino]);
      }
    }
    forall q
      ensures Orphaned(s', q) <==> Orphaned(s, q)
    {
      if q != id {
        Others(s, s', id, q);
      }
    }
  }

  /** A call that is over holds nothing unless it leaked. */
  lemma EndKeeps(s: State, s': State, id: CallId)
    requires HoldersValid(s) && id in s.calls && s'.calls == s.calls - {id}
    requires s'.shared.names == s.shared.names
    requires s'.shared.holders == Release(s.shared, id).holders
    ensures HoldersValid(s') && forall q :: Orphaned(s', q) <==> Orphaned(s, q)
  {
    ReleaseIs(s, s', id);
  }

  lemma ReleaseIs(s: State, s': State, id: CallId)
    requires HoldersValid(s) && id in s.calls && s'.calls - {id} == s.calls - {id}
    requires s'.shared.names == s.shared.names && s'.shared.holders == Release(s.shared, id).holders
    ensures HoldersValid(s') && forall q :: Orphaned(s', q) <==> Orphaned(s, q)
  {
    forall ino | ino in s'.shared.holders
      ensures HolderValid(s', ino, s'.shared.holders[ino])
    {
      assert HolderValid(s, ino, s.shared.holders[ino]);
      Others(s, s', id, s.shared.holders[ino]);
    }
    forall q
      ensures Orphaned(s', q) <==> Orphaned(s, q)
    {
      if q != id {
        Others(s, s', id, q);
        if Orphaned(s, q) {
          var ino :| ino in s.shared.holders && s.shared.holders[ino] == q;
          assert s'.shared.holders[ino] == q;
        }
      }
    }
  }

  /** A call past its locks holds nothing, so releasing nothing changes nothing. */
  lemma HoldsNothing(s: State, id: CallId)
    requires HoldersValid(s) && id in s.calls && !Holding(s.calls[id])
    ensures Release(s.shared, id).holders == s.shared.holders
  {
    forall ino | ino in s.shared.holders
      ensures s.shared.holders[ino] != id
    {
      assert HolderValid(s, ino, s.shared.holders[ino]);
    }
  }

  lemma OpeningMoves(lib: Library, s: State, id: CallId, n: nat)
    requires Enabled(s, Advance(id, Works(n)))
    requires s.calls[id].pc.OpenParent? || s.calls[id].pc.OpenFile? || s.calls[id].pc.CloseCreated?
    ensures Moves(s, AfterSuccess(lib, s, id, n), id)
  {
    PutMoves(s, id, AfterSuccess(lib, s, id, n).calls[id]);
  }

  lemma CreatingMoves(lib: Library, s: State, id: CallId, n: nat)
    requires Enabled(s, Advance(id, Works(n))) && s.calls[id].pc.CreateFile?
    ensures Moves(s, AfterSuccess(lib, s, id, n), id)
  {
    PutMoves(s, id, AfterSuccess(lib, s, id, n).calls[id]);
  }

  lemma ReopeningMoves(lib: Library, s: State, id: CallId, n: nat)
    requires Inv(lib, s) && Enabled(s, Advance(id, Works(n))) && s.calls[id].pc.ReopenFile?
    ensures Moves(s, AfterSuccess(lib, s, id, n), id)
  {
    assert CallValid(lib, s.shared, id, s.calls[id]);
    PutMoves(s, id, AfterSuccess(lib, s, id, n).calls[id]);
  }

  lemma UsingMoves(lib: Library, s: State, id: CallId, n: nat)
    requires Inv(lib, s) && Enabled(s, Advance(id, Works(n)))
    requires s.calls[id].pc.StatFile? || s.calls[id].pc in {ReadLedger, Sync, CloseLedger}
    ensures Moves(s, AfterSuccess(lib, s, id, n), id)
  {
    assert CallValid(lib, s.shared, id, s.calls[id]);
    PutMoves(s, id, AfterSuccess(lib, s, id, n).calls[id]);
  }

  lemma WritingMoves(lib: Library, s: State, id: CallId, n: nat)
    requires Inv(lib, s) && Enabled(s, Advance(id, Works(n))) && s.calls[id].pc in {CheckBudget, Append}
    ensures Moves(s, AfterSuccess(lib, s, id, n), id)
  {
    assert CallValid(lib, s.shared, id, s.calls[id]);
    PutMoves(s, id, AfterSuccess(lib, s, id, n).calls[id]);
  }

  lemma TakingKeeps(lib: Library, s: State, id: CallId, n: nat)
    requires Inv(lib, s) && HoldersValid(s) && Enabled(s, Advance(id, Works(n))) && s.calls[id].pc == WaitLock
    ensures var s' := AfterSuccess(lib, s, id, n);
            HoldersValid(s') && forall q :: Orphaned(s', q) <==> Orphaned(s, q)
  {
    var s', ino := AfterSuccess(lib, s, id, n), s.calls[id].lock.value;
    assert CallValid(lib, s.shared, id, s.calls[id]);
    forall i | i in s.shared.holders
      ensures i == ino
    {
      assert HolderValid(s, i, s.shared.holders[i]);
    }
    assert s.shared.holders == map[];
    assert s'.shared.holders == map[ino := id];
    assert HolderValid(s', ino, id);
  }

  lemma SuccessKeepsHolders(lib: Library, s: State, id: CallId, n: nat)
    requires Inv(lib, s) && HoldersValid(s) && Enabled(s, Advance(id, Works(n)))
    ensures var s' := AfterSuccess(lib, s, id, n);
            HoldersValid(s') && forall q :: Orphaned(s', q) <==> Orphaned(s, q)
  {
    var s' := AfterSuccess(lib, s, id, n);
    match s.calls[id].pc
    case WaitLock => TakingKeeps(lib, s, id, n);
    case CloseLock =>
      assert s'.calls - {id} == s.calls - {id};
      ReleaseIs(s, s', id);
    case CloseParent =>
      HoldsNothing(s, id);
      EndKeeps(s, s', id);
    case _ =>
      SuccessMoves(lib, s, id, n);
      MovesKeep(s, s', id);
  }

  lemma SuccessMoves(lib: Library, s: State, id: CallId, n: nat)
    requires Inv(lib, s) && Enabled(s, Advance(id, Works(n)))
    requires s.calls[id].pc !in {WaitLock, CloseLock, CloseParent}
    ensures Moves(s, AfterSuccess(lib, s, id, n), id)
  {
    var pc := s.calls[id].pc;
    if pc.OpenParent? || pc.OpenFile? || pc.CloseCreated? {
      OpeningMoves(lib, s, id, n);
    } else if pc.CreateFile? {
      CreatingMoves(lib, s, id, n);
    } else if pc.ReopenFile? {
      ReopeningMoves(lib, s, id, n);
    } else if pc in {CheckBudget, Append} {
      WritingMoves(lib, s, id, n);
    } else {
      UsingMoves(lib, s, id, n);
    }
  }

  /** A call that ends gives its flock up, except when it leaks. */
  lemma FailureKeepsHolders(lib: Library, s: State, id: CallId)
    requires Inv(lib, s) && HoldersValid(s) && id in s.calls && s.calls[id].pc != CloseLedger
    ensures HoldersValid(AfterFailure(s, id)) && forall q :: Orphaned(AfterFailure(s, id), q) <==> Orphaned(s, q)
  {
    var s' := AfterFailure(s, id);
    if s.calls[id].pc in {OpenParent, CloseParent} {
      HoldsNothing(s, id);
      EndKeeps(s, s', id);
    } else if s.calls[id].pc == CloseLock {
      EndKeeps(s, s', id);
    } else {
      assert CallValid(lib, s.shared, id, s.calls[id]);
      PutMoves(s, id, Cleanup(s.calls[id]));
      MovesKeep(s, s', id);
    }
  }

  lemma LeakKeepsHolders(lib: Library, s: State, id: CallId)
    requires Inv(lib, s) && HoldersValid(s) && Leaks(s, Advance(id, Fails), id)
    ensures HoldersValid(AfterFailure(s, id))
    ensures forall q :: Orphaned(AfterFailure(s, id), q) <==> Orphaned(s, q) || q == id
  {
    var s', c := AfterFailure(s, id), s.calls[id];
    assert CallValid(lib, s.shared, id, c);
    assert s'.shared.holders[c.lock.value] == id;
    forall ino | ino in s'.shared.holders
      ensures HolderValid(s', ino, s'.shared.holders[ino])
    {
      assert HolderValid(s, ino, s.shared.holders[ino]);
    }
  }

  lemma OtherStepKeepsHolders(lib: Library, s: State, step: Step)
    requires Inv(lib, s) && HoldersValid(s) && Enabled(s, step) && !step.Advance?
    ensures HoldersValid(Apply(lib, s, step))
  {
    var s' := Apply(lib, s, step);
    forall ino | ino in s'.shared.holders
      ensures HolderValid(s', ino, s'.shared.holders[ino])
    {
      assert HolderValid(s, ino, s.shared.holders[ino]);
    }
  }

  lemma OrphansOfOtherStep(lib: Library, s: State, step: Step, id: CallId)
    requires Inv(lib, s) && HoldersValid(s) && Enabled(s, step) && !step.Advance?
    ensures Orphaned(Apply(lib, s, step), id) <==> Orphaned(s, id) && step != Exit(id.process)
  {
    var s' := Apply(lib, s, step);
    if Orphaned(s, id) && step != Exit(id.process) {
      var ino :| ino in s.shared.holders && s.shared.holders[ino] == id;
      assert ino in s'.shared.holders && s'.shared.holders[ino] == id;
    }
    if Orphaned(s', id) {
      var ino :| ino in s'.shared.holders && s'.shared.holders[ino] == id;
      assert ino in s.shared.holders && s.shared.holders[ino] == id;
    }
  }

  /** One step strands a flock when it leaks, and frees one when its process ends. */
  lemma OrphansOfStep(lib: Library, s: State, step: Step, id: CallId)
    requires Inv(lib, s) && HoldersValid(s) && Enabled(s, step)
    ensures HoldersValid(Apply(lib, s, step))
    ensures Orphaned(Apply(lib, s, step), id)
            <==> (Orphaned(s, id) && step != Exit(id.process)) || Leaks(s, step, id)
  {
    match step
    case Advance(q, Works(n)) => SuccessKeepsHolders(lib, s, q, n);
    case Advance(q, Fails) =>
      if s.calls[q].pc == CloseLedger {
        LeakKeepsHolders(lib, s, q);
      } else {
        FailureKeepsHolders(lib, s, q);
      }
    case _ =>
      OtherStepKeepsHolders(lib, s, step);
      OrphansOfOtherStep(lib, s, step, id);
  }

  // ---------------------------------------------------------------- whole runs

  lemma {:induction false} RunHolders(lib: Library, run: Run, i: nat)
    requires Lawful(lib) && IsRun(lib, run) && i < |run.states|
    ensures HoldersValid(run.states[i])
  {
    if i > 0 {
      RunHolders(lib, run, i - 1);
      RunInv(lib, run, i - 1);
      OrphansOfStep(lib, run.states[i - 1], run.steps[i - 1], FIRST);
    }
  }

  /** No step from i up to j is the end of the process. */
  predicate Lives(run: Run, process: nat, i: nat, j: nat) {
    forall k :: i <= k < j && k < |run.steps| ==> run.steps[k] != Exit(process)
  }

  predicate LeakedAt(run: Run, id: CallId, j: nat) {
    j < |run.steps| && j < |run.states| && Leaks(run.states[j], run.steps[j], id)
  }

  /** Some step before i was the failing close of this call, and its process has not ended since. */
  ghost predicate LeakedBefore(run: Run, id: CallId, i: nat) {
    exists j: nat :: j < i && LeakedAt(run, id, j) && Lives(run, id.process, j, i)
  }

  lemma LeakedNext(run: Run, id: CallId, i: nat)
    requires i < |run.steps| && |run.states| == |run.steps| + 1
    ensures LeakedBefore(run, id, i + 1)
            <==> (LeakedBefore(run, id, i) && run.steps[i] != Exit(id.process))
                 || Leaks(run.states[i], run.steps[i], id)
  {
    if LeakedBefore(run, id, i) && run.steps[i] != Exit(id.process) {
      var j: nat :| j < i && LeakedAt(run, id, j) && Lives(run, id.process, j, i);
      assert Lives(run, id.process, j, i + 1);
    }
    if Leaks(run.states[i], run.steps[i], id) {
      assert LeakedAt(run, id, i) && Lives(run, id.process, i, i + 1);
    }
    if LeakedBefore(run, id, i + 1) {
      var j: nat :| j < i + 1 && LeakedAt(run, id, j) && Lives(run, id.process, j, i + 1);
      assert run.steps[i] != Exit(id.process);
      if j < i {
        assert Lives(run, id.process, j, i);
      }
    }
  }

  /**
   A call that is over holds a flock exactly when its close of the ledger raised and its
   process has not ended since.
   */
  lemma {:induction false} OrphanedIff(lib: Library, run: Run, id: CallId, i: nat)
    requires Lawful(lib) && IsRun(lib, run) && i < |run.states|
    ensures Orphaned(run.states[i], id) <==> LeakedBefore(run, id, i)
  {
    if i > 0 {
      OrphanedIff(lib, run, id, i - 1);
      RunInv(lib, run, i - 1);
      RunHolders(lib, run, i - 1);
      OrphansOfStep(lib, run.states[i - 1], run.steps[i - 1], id);
      LeakedNext(run, id, i - 1);
    }
  }

  // ---------------------------------------------------------------- what it costs

  /** While a finished call holds the flock, no other is between taking it and closing the ledger. */
  lemma NobodyIsCritical(lib: Library, s: State, id: CallId, q: CallId)
    requires Inv(lib, s) && HoldersValid(s) && Orphaned(s, id) && q in s.calls
    ensures !Critical(s.calls[q])
  {
    var ino :| ino in s.shared.holders && s.shared.holders[ino] == id;
    assert HolderValid(s, ino, id);
    assert CallValid(lib, s.shared, q, s.calls[q]);
  }

  predicate TakesLock(s: State, step: Step) {
    step.Advance? && step.answer.Works? && step.id in s.calls && s.calls[step.id].pc == WaitLock
  }

  lemma NobodyTakesIt(lib: Library, s: State, id: CallId, step: Step)
    requires Inv(lib, s) && HoldersValid(s) && Orphaned(s, id) && Enabled(s, step)
    ensures !TakesLock(s, step) && LedgerBytes(Apply(lib, s, step).shared) == LedgerBytes(s.shared)
  {
    var ino :| ino in s.shared.holders && s.shared.holders[ino] == id;
    assert HolderValid(s, ino, id);
    BytesOfStep(lib, s, step);
    if step.Advance? {
      assert CallValid(lib, s.shared, step.id, s.calls[step.id]);
      NobodyIsCritical(lib, s, id, step.id);
    }
  }

  /**
   From a failing close of the ledger until that process ends, no call takes the flock and the
   ledger keeps its bytes: `record` does not answer anybody it has not answered or reserved for.
   */
  lemma {:induction false} OrphanBlocks(lib: Library, run: Run, id: CallId, i: nat, j: nat)
    requires Lawful(lib) && IsRun(lib, run) && i <= j < |run.states|
    requires Orphaned(run.states[i], id) && Lives(run, id.process, i, j)
    ensures Orphaned(run.states[j], id) && BytesAt(run, j) == BytesAt(run, i)
    ensures forall k :: i <= k < j ==> !TakesLock(run.states[k], run.steps[k])
    decreases j
  {
    if i < j {
      assert Lives(run, id.process, i, j - 1);
      OrphanBlocks(lib, run, id, i, j - 1);
      BlocksNext(lib, run, id, j - 1);
    }
  }

  lemma BlocksNext(lib: Library, run: Run, id: CallId, i: nat)
    requires Lawful(lib) && IsRun(lib, run) && i < |run.steps|
    requires Orphaned(run.states[i], id) && run.steps[i] != Exit(id.process)
    ensures Orphaned(run.states[i + 1], id) && BytesAt(run, i + 1) == BytesAt(run, i)
    ensures !TakesLock(run.states[i], run.steps[i])
  {
    RunInv(lib, run, i);
    RunHolders(lib, run, i);
    OrphansOfStep(lib, run.states[i], run.steps[i], id);
    NobodyTakesIt(lib, run.states[i], id, run.steps[i]);
  }

  // ---------------------------------------------------------------- a run in which it happens

  const FIRST := CallId(1, 0)
  const SECOND := CallId(2, 0)

  /** Two empty files and nobody running. */
  const FRESH := State(Shared(map[LockName := 0, LedgerName := 1], map[0 := "", 1 := ""], map[], {}), map[], {})

  /** One more step of a run. */
  function Extended(lib: Library, run: Run, step: Step): (longer: Run)
    requires IsRun(lib, run) && Enabled(run.states[|run.steps|], step)
    ensures IsRun(lib, longer) && longer.steps == run.steps + [step]
    ensures longer.states == run.states + [Apply(lib, run.states[|run.steps|], step)]
  {
    Run(run.states + [Apply(lib, run.states[|run.steps|], step)], run.steps + [step])
  }

  function Final(run: Run): State
    requires |run.states| > 0
  {
    run.states[|run.states| - 1]
  }

  /** A web call that has its lock descriptor and asks for the flock. */
  function AtLock(lib: Library): Locals {
    Locals(WaitLock, Call(Record(Web, lib.sha256("host")), None), Some(0), None, "", "", 0, false)
  }

  lemma ToItsLock(lib: Library, run: Run, id: CallId) returns (longer: Run)
    requires Lawful(lib) && IsRun(lib, run) && Final(run).shared.names == FRESH.shared.names
    requires id !in Final(run).started
    ensures IsRun(lib, longer) && Final(longer).shared == Final(run).shared
    ensures Final(longer).calls == Final(run).calls[id := AtLock(lib)]
    ensures Final(longer).started == Final(run).started + {id}
  {
    longer := Extended(lib, run, Start(id, "web", "host", None));
    longer := Extended(lib, longer, Advance(id, Works(0)));
    longer := Extended(lib, longer, Advance(id, Works(0)));
    longer := Extended(lib, longer, Advance(id, Works(0)));
  }

  /** With the flock, the call opens its ledger, fails to stat it, and then fails to close it. */
  lemma LeakingSteps(lib: Library, run: Run, id: CallId) returns (longer: Run)
    requires Lawful(lib) && IsRun(lib, run) && Final(run).shared == FRESH.shared
    requires Final(run).calls == map[id := AtLock(lib)]
    ensures IsRun(lib, longer) && Final(longer).shared == FRESH.shared.(holders := map[0 := id])
    ensures Final(longer).calls == map[] && Final(longer).started == Final(run).started
    ensures |longer.steps| > 0 && Leaks(longer.states[|longer.steps| - 1], longer.steps[|longer.steps| - 1], id)
  {
    longer := Extended(lib, run, Advance(id, Works(0)));
    longer := Extended(lib, longer, Advance(id, Works(0)));
    longer := Extended(lib, longer, Advance(id, Fails));
    longer := Extended(lib, longer, Advance(id, Fails));
  }

  /** The first call leaks; the second, in another process, then waits until the first process ends. */
  lemma LeakingRun(lib: Library) returns (run: Run)
    requires Lawful(lib)
    ensures IsRun(lib, run) && Orphaned(Final(run), FIRST)
    ensures SECOND in Final(run).calls && Final(run).calls[SECOND].pc == WaitLock
    ensures forall n :: !Enabled(Final(run), Advance(SECOND, Works(n)))
    ensures forall n :: Enabled(Apply(lib, Final(run), Exit(FIRST.process)), Advance(SECOND, Works(n)))
  {
    run := ToItsLock(lib, Run([FRESH], []), FIRST);
    run := LeakingSteps(lib, run, FIRST);
    run := ToItsLock(lib, run, SECOND);
    assert Final(run).shared.holders[0] == FIRST;
  }
}

/**
 What the ledger protocol guarantees over whole runs: it refines an atomic bounded counter,
 the budget holds, a torn or oversized ledger stays as it is, and the file has one shape.
 */
module LedgerRuns {
  import opened Wrappers
  import opened LedgerFormat
  import opened LedgerProtocol
  import opened LedgerSafety

  // ---------------------------------------------------------------- the atomic counter

  datatype Atomic = Atomic(records: seq<Record>, answered: set<nat>)

  datatype Action = Stutter | Reserve(call: Call) | Refuse(call: Call) | Reply(slot: nat, record: Record)

  /**
   A call takes one slot within its budget, is refused only when its budget is used up, and
   answers at most once, for a slot of its own record.
   */
  predicate AtomicNext(a: Atomic, action: Action, b: Atomic) {
    match action
    case Stutter => b == a
    case Reserve(call) => BudgetLeft(call, a.records) && b == a.(records := a.records + [call.record])
    case Refuse(call) => !BudgetLeft(call, a.records) && b == a
    case Reply(slot, record) =>
      && slot < |a.records| && a.records[slot] == record && slot !in a.answered
      && b == a.(answered := a.answered + {slot})
  }

  function Abs(lib: Library, s: State): Atomic {
    Atomic(Log(lib, s.shared), s.shared.answered)
  }

  /** The write that completes the record of a call. */
  predicate Reserves(s: State, step: Step) {
    && step.Advance? && step.answer.Works? && step.id in s.calls
    && s.calls[step.id].pc == Append && step.answer.n == |s.calls[step.id].remaining|
  }

  /** The budget check that raises `ModelAttemptBudgetExhaustedError`. */
  predicate Refuses(lib: Library, s: State, step: Step) {
    && step.Advance? && step.answer.Works? && step.id in s.calls && s.calls[step.id].pc == CheckBudget
    && Decode(lib, s.calls[step.id].existing).Some?
    && !BudgetLeft(s.calls[step.id].call, Decode(lib, s.calls[step.id].existing).value)
  }

  function ActionOf(lib: Library, s: State, step: Step): Action {
    if Reserves(s, step) then Reserve(s.calls[step.id].call)
    else if Refuses(lib, s, step) then Refuse(s.calls[step.id].call)
    else if step.Advance? && step.answer.Works? && step.id in s.calls && s.calls[step.id].pc == CloseParent
            && s.calls[step.id].succeeded
    then Reply(s.calls[step.id].slot, s.calls[step.id].call.record)
    else Stutter
  }

  predicate Writes(s: State, step: Step) {
    step.Advance? && step.answer.Works? && step.id in s.calls && s.calls[step.id].pc == Append && step.answer.n > 0
  }

  /** The bytes change only when a call writes, and then by the front of what it has left to write. */
  lemma BytesOfStep(lib: Library, s: State, step: Step)
    requires Inv(lib, s) && Enabled(s, step)
    ensures var before, after := LedgerBytes(s.shared), LedgerBytes(Apply(lib, s, step).shared);
            if Writes(s, step) then after == before + s.calls[step.id].remaining[..step.answer.n]
            else after == before
  {
    if step.Advance? && step.answer.Works? {
      var c, m, n := s.calls[step.id], s.shared, step.answer.n;
      assert CallValid(lib, m, step.id, c);
      match c.pc
      case Append =>
        if n > 0 {
          WriteBytes(m, c.ledger.value, c.remaining[..n]);
        } else {
          EmptyWriteKeeps(lib, s, step.id);
        }
      case CreateFile(name) =>
        if name !in m.names {
          CreateKeepsBytes(lib, m, name, n);
        }
      case _ =>
    }
  }

  lemma WriteRefines(lib: Library, s: State, step: Step)
    requires Lawful(lib) && Inv(lib, s) && Enabled(s, step) && Writes(s, step)
    ensures AtomicNext(Abs(lib, s), ActionOf(lib, s, step), Abs(lib, Apply(lib, s, step)))
  {
    var c, n := s.calls[step.id], step.answer.n;
    assert CallValid(lib, s.shared, step.id, c);
    BytesOfStep(lib, s, step);
    WriteEffect(lib, LedgerBytes(s.shared), c, n);
    RecordsOfWhole(lib, c.existing, c.call.record);
  }

  /** The last step of a call that succeeded answers for its slot, and for no other. */
  lemma ReplyRefines(lib: Library, s: State, id: CallId, n: nat)
    requires Lawful(lib) && Inv(lib, s) && Enabled(s, Advance(id, Works(n))) && s.calls[id].pc == CloseParent
    ensures AtomicNext(Abs(lib, s), ActionOf(lib, s, Advance(id, Works(n))), Abs(lib, AfterSuccess(lib, s, id, n)))
  {
    assert CallValid(lib, s.shared, id, s.calls[id]);
    BytesOfStep(lib, s, Advance(id, Works(n)));
  }

  /** The budget is checked against the log as it is. */
  lemma CheckRefines(lib: Library, s: State, id: CallId, n: nat)
    requires Lawful(lib) && Inv(lib, s) && Enabled(s, Advance(id, Works(n))) && s.calls[id].pc == CheckBudget
    ensures AtomicNext(Abs(lib, s), ActionOf(lib, s, Advance(id, Works(n))), Abs(lib, AfterSuccess(lib, s, id, n)))
  {
    assert CallValid(lib, s.shared, id, s.calls[id]);
  }

  /** No other step changes the log or the answers. */
  lemma StutterKeeps(lib: Library, s: State, step: Step)
    requires Inv(lib, s) && Enabled(s, step) && !Writes(s, step)
    requires step.Advance? && step.answer.Works? ==> s.calls[step.id].pc !in {CheckBudget, CloseParent}
    ensures Abs(lib, Apply(lib, s, step)) == Abs(lib, s)
  {
    BytesOfStep(lib, s, step);
    AnswersStay(lib, s, step);
  }

  lemma AnswersStay(lib: Library, s: State, step: Step)
    requires Enabled(s, step) && (step.Advance? && step.answer.Works? ==> s.calls[step.id].pc != CloseParent)
    ensures Apply(lib, s, step).shared.answered == s.shared.answered
  {
  }

  lemma NoWriteNoRecord(lib: Library, s: State, step: Step)
    requires Inv(lib, s) && Enabled(s, step) && !Writes(s, step)
    ensures !Reserves(s, step)
  {
    if step.Advance? {
      assert CallValid(lib, s.shared, step.id, s.calls[step.id]);
    }
  }

  lemma StepRefines(lib: Library, s: State, step: Step)
    requires Lawful(lib) && Inv(lib, s) && Enabled(s, step)
    ensures AtomicNext(Abs(lib, s), ActionOf(lib, s, step), Abs(lib, Apply(lib, s, step)))
  {
    if Writes(s, step) {
      WriteRefines(lib, s, step);
    } else if step.Advance? && step.answer.Works? && s.calls[step.id].pc == CheckBudget {
      CheckRefines(lib, s, step.id, step.answer.n);
    } else if step.Advance? && step.answer.Works? && s.calls[step.id].pc == CloseParent {
      ReplyRefines(lib, s, step.id, step.answer.n);
    } else {
      StutterKeeps(lib, s, step);
      NoWriteNoRecord(lib, s, step);
    }
  }

  // ---------------------------------------------------------------- runs

  datatype Run = Run(states: seq<State>, steps: seq<Step>)

  predicate IsRun(lib: Library, run: Run) {
    && |run.states| == |run.steps| + 1
    && Init(run.states[0])
    && (forall i :: 0 <= i < |run.steps| ==>
          Enabled(run.states[i], run.steps[i]) && run.states[i + 1] == Apply(lib, run.states[i], run.steps[i]))
  }

  function BytesAt(run: Run, i: nat): string
    requires i < |run.states|
  {
    LedgerBytes(run.states[i].shared)
  }

  lemma {:induction false} RunInv(lib: Library, run: Run, i: nat)
    requires Lawful(lib) && IsRun(lib, run) && i < |run.states|
    ensures Inv(lib, run.states[i])
  {
    if i == 0 {
      InitInv(lib, run.states[0]);
    } else {
      RunInv(lib, run, i - 1);
      StepKeeps(lib, run.states[i - 1], run.steps[i - 1]);
    }
  }

  /** Every interleaving, with every failure and crash, is a run of the atomic counter. */
  lemma RunRefines(lib: Library, run: Run, i: nat)
    requires Lawful(lib) && IsRun(lib, run) && i < |run.steps|
    ensures AtomicNext(Abs(lib, run.states[i]), ActionOf(lib, run.states[i], run.steps[i]), Abs(lib, run.states[i + 1]))
  {
    RunInv(lib, run, i);
    StepRefines(lib, run.states[i], run.steps[i]);
  }

  /** At no moment are two calls between reading the ledger and finishing their append. */
  lemma OneWriter(lib: Library, run: Run, i: nat, id: CallId, other: CallId)
    requires Lawful(lib) && IsRun(lib, run) && i < |run.states|
    requires id in run.states[i].calls && other in run.states[i].calls
    requires Critical(run.states[i].calls[id]) && Critical(run.states[i].calls[other])
    ensures id == other
  {
    RunInv(lib, run, i);
    MutualExclusion(lib, run.states[i], id, other);
  }

  // ---------------------------------------------------------------- the budget

  /** Every model call of the run carries a limit of at most `cap`. */
  predicate Capped(steps: seq<Step>, cap: nat) {
    forall i :: 0 <= i < |steps| && steps[i].Start? && steps[i].kind == "model" ==>
      steps[i].limit.Some? && steps[i].limit.value <= cap
  }

  predicate CallsCapped(s: State, cap: nat) {
    forall id :: id in s.calls && s.calls[id].call.record.kind == Model ==>
      s.calls[id].call.limit.Some? && s.calls[id].call.limit.value <= cap
  }

  lemma CallsStayCapped(lib: Library, s: State, step: Step, cap: nat)
    requires Enabled(s, step) && CallsCapped(s, cap) && Capped([step], cap)
    ensures CallsCapped(Apply(lib, s, step), cap)
  {
    assert [step][0] == step;
    match step
    case Start(_, _, _, _) =>
    case Exit(_) =>
    case Advance(id, answer) =>
      var s' := Apply(lib, s, step);
      assert id in s'.calls ==> s'.calls[id].call == s.calls[id].call;
      assert forall q :: q in s'.calls && q != id ==> q in s.calls && s'.calls[q] == s.calls[q];
  }

  lemma {:induction false} RunCapped(lib: Library, run: Run, cap: nat, i: nat)
    requires Lawful(lib) && IsRun(lib, run) && Capped(run.steps, cap) && i < |run.states|
    requires ModelCount(Log(lib, run.states[0].shared)) <= cap
    ensures CallsCapped(run.states[i], cap) && ModelCount(Log(lib, run.states[i].shared)) <= cap
  {
    if i > 0 {
      var s, step := run.states[i - 1], run.steps[i - 1];
      RunCapped(lib, run, cap, i - 1);
      RunRefines(lib, run, i - 1);
      CallsStayCapped(lib, s, step, cap);
      if Reserves(s, step) {
        TallyAppend(Log(lib, s.shared), s.calls[step.id].call.record);
      }
    }
  }

  /** The slots that were answered, or are about to be. */
  function Claimed(s: State): set<nat> {
    s.shared.answered + set id | id in s.calls && Committed(s.calls[id]) :: s.calls[id].slot
  }

  lemma ClaimOfWriter(lib: Library, s: State, id: CallId, n: nat)
    requires Lawful(lib) && Inv(lib, s) && Enabled(s, Advance(id, Works(n))) && s.calls[id].pc == Append
    ensures var s' := AfterSuccess(lib, s, id, n);
            id in s'.calls && Committed(s'.calls[id]) ==>
              Reserves(s, Advance(id, Works(n))) && s'.calls[id].slot == |Log(lib, s.shared)|
  {
    assert CallValid(lib, s.shared, id, s.calls[id]);
    PartRecords(lib, LedgerBytes(s.shared), s.calls[id]);
  }

  lemma ClaimOfMover(lib: Library, s: State, id: CallId, n: nat)
    requires Inv(lib, s) && Enabled(s, Advance(id, Works(n))) && s.calls[id].pc != Append
    ensures var c, s' := s.calls[id], AfterSuccess(lib, s, id, n);
            id in s'.calls && Committed(s'.calls[id]) ==> Committed(c) && s'.calls[id].slot == c.slot
  {
    assert CallValid(lib, s.shared, id, s.calls[id]);
  }

  lemma OthersStay(lib: Library, s: State, step: Step)
    requires Enabled(s, step)
    ensures var s' := Apply(lib, s, step);
            forall q :: q in s'.calls && !(step.Advance? && q == step.id) && Committed(s'.calls[q]) ==>
              q in s.calls && s'.calls[q] == s.calls[q]
    ensures forall slot :: slot in Apply(lib, s, step).shared.answered ==> slot in Claimed(s)
  {
    if step.Advance? && step.answer.Works? && s.calls[step.id].pc == CloseParent && s.calls[step.id].succeeded {
      assert s.calls[step.id].slot in Claimed(s);
    }
  }

  /** Only a reservation claims a slot, and it claims a new one. */
  lemma ClaimsOfStep(lib: Library, s: State, step: Step)
    requires Lawful(lib) && Inv(lib, s) && Enabled(s, step)
    ensures forall slot :: slot in Claimed(Apply(lib, s, step)) ==>
              slot in Claimed(s) || (Reserves(s, step) && slot == |Log(lib, s.shared)|)
  {
    var s' := Apply(lib, s, step);
    OthersStay(lib, s, step);
    forall q | q in s'.calls && Committed(s'.calls[q])
      ensures s'.calls[q].slot in Claimed(s)
           || (Reserves(s, step) && s'.calls[q].slot == |Log(lib, s.shared)|)
    {
      if step.Advance? && q == step.id {
        MoverClaims(lib, s, step);
      } else {
        assert s.calls[q].slot in Claimed(s);
      }
    }
  }

  lemma MoverClaims(lib: Library, s: State, step: Step)
    requires Lawful(lib) && Inv(lib, s) && Enabled(s, step) && step.Advance?
    ensures var s' := Apply(lib, s, step);
            step.id in s'.calls && Committed(s'.calls[step.id]) ==>
              s'.calls[step.id].slot in Claimed(s)
              || (Reserves(s, step) && s'.calls[step.id].slot == |Log(lib, s.shared)|)
  {
    if step.answer.Works? {
      if s.calls[step.id].pc == Append {
        ClaimOfWriter(lib, s, step.id, step.answer.n);
      } else {
        ClaimOfMover(lib, s, step.id, step.answer.n);
      }
    } else {
      assert CallValid(lib, s.shared, step.id, s.calls[step.id]);
    }
    if Committed(s.calls[step.id]) {
      assert s.calls[step.id].slot in Claimed(s);
    }
  }

  lemma {:induction false} ClaimsAreNew(lib: Library, run: Run, i: nat)
    requires Lawful(lib) && IsRun(lib, run) && i < |run.states|
    ensures |Log(lib, run.states[0].shared)| <= |Log(lib, run.states[i].shared)|
    ensures forall slot :: slot in Claimed(run.states[i]) ==> |Log(lib, run.states[0].shared)| <= slot
  {
    if i > 0 {
      ClaimsAreNew(lib, run, i - 1);
      RunInv(lib, run, i - 1);
      RunRefines(lib, run, i - 1);
      ClaimsOfStep(lib, run.states[i - 1], run.steps[i - 1]);
    }
  }

  function ReservedBy(s: State, step: Step): seq<Record> {
    if Reserves(s, step) then [s.calls[step.id].call.record] else []
  }

  /** The records reserved by the steps from i up to j. */
  function Reserved(run: Run, i: nat, j: nat): seq<Record>
    requires i <= j <= |run.steps| < |run.states|
    decreases j
  {
    if i == j then [] else Reserved(run, i, j - 1) + ReservedBy(run.states[j - 1], run.steps[j - 1])
  }

  lemma LogOfStep(lib: Library, run: Run, i: nat)
    requires Lawful(lib) && IsRun(lib, run) && i < |run.steps|
    ensures Log(lib, run.states[i + 1].shared)
         == Log(lib, run.states[i].shared) + ReservedBy(run.states[i], run.steps[i])
  {
    RunRefines(lib, run, i);
  }

  lemma {:induction false} LogIsReservations(lib: Library, run: Run, i: nat, j: nat)
    requires Lawful(lib) && IsRun(lib, run) && i <= j <= |run.steps|
    ensures Log(lib, run.states[j].shared) == Log(lib, run.states[i].shared) + Reserved(run, i, j)
    decreases j
  {
    if i == j {
      NothingReserved(lib, run, i);
    } else {
      LogIsReservations(lib, run, i, j - 1);
      AddReserved(lib, run, i, j - 1, Log(lib, run.states[i].shared));
    }
  }

  lemma NothingReserved(lib: Library, run: Run, i: nat)
    requires i <= |run.steps| < |run.states|
    ensures Log(lib, run.states[i].shared) + Reserved(run, i, i) == Log(lib, run.states[i].shared)
  {
  }

  lemma AddReserved(lib: Library, run: Run, i: nat, j: nat, first: seq<Record>)
    requires Lawful(lib) && IsRun(lib, run) && i <= j < |run.steps|
    requires Log(lib, run.states[j].shared) == first + Reserved(run, i, j)
    ensures Log(lib, run.states[j + 1].shared) == first + Reserved(run, i, j + 1)
  {
    LogOfStep(lib, run, j);
    Regroup(first, Reserved(run, i, j), ReservedBy(run.states[j], run.steps[j]));
  }

  lemma Regroup(a: seq<Record>, b: seq<Record>, c: seq<Record>)
    ensures a + b + c == a + (b + c)
  {
  }

  lemma {:induction false} ModelCountAppend(a: seq<Record>, b: seq<Record>)
    ensures ModelCount(a + b) == ModelCount(a) + ModelCount(b)
    decreases |b|
  {
    if b == [] {
      assert a + b == a;
    } else {
      var n := |b| - 1;
      assert (a + b)[..|a + b| - 1] == a + b[..n];
      ModelCountAppend(a, b[..n]);
    }
  }

  /** A set of model positions at or after `base` is no larger than the number of model records there. */
  lemma {:induction false} SlotsAreRecords(rs: seq<Record>, base: nat, slots: set<nat>)
    requires base <= |rs|
    requires forall slot :: slot in slots ==> base <= slot < |rs| && rs[slot].kind == Model
    ensures |slots| <= ModelCount(rs) - ModelCount(rs[..base])
    decreases |rs|
  {
    if |rs| == base {
      assert slots == {};
      assert rs[..base] == rs;
    } else {
      var n := |rs| - 1;
      var rest := slots - {n};
      assert rs[..n][..base] == rs[..base];
      SlotsAreRecords(rs[..n], base, rest);
      assert n in slots ==> slots == rest + {n};
      assert n !in slots ==> slots == rest;
    }
  }

  function ModelReplies(lib: Library, s: State): set<nat> {
    set slot | slot in s.shared.answered && slot < |Log(lib, s.shared)| && Log(lib, s.shared)[slot].kind == Model
  }

  /**
   The budget: with limits of at most `cap` on a ledger that starts with at most `cap` model
   records, the successful model calls of the run never outnumber the model records it added,
   and the ledger never has more than `cap`.
   */
  lemma RepliesWithinBudget(lib: Library, run: Run, cap: nat, i: nat)
    requires Lawful(lib) && IsRun(lib, run) && Capped(run.steps, cap) && i < |run.states|
    requires ModelCount(Log(lib, run.states[0].shared)) <= cap
    ensures var before, now := Log(lib, run.states[0].shared), Log(lib, run.states[i].shared);
            |ModelReplies(lib, run.states[i])| <= ModelCount(now) - ModelCount(before) <= ModelCount(now) <= cap
  {
    var before, now := Log(lib, run.states[0].shared), Log(lib, run.states[i].shared);
    RunCapped(lib, run, cap, i);
    ClaimsAreNew(lib, run, i);
    LogIsReservations(lib, run, 0, i);
    assert now[..|before|] == before;
    forall slot | slot in ModelReplies(lib, run.states[i])
      ensures |before| <= slot
    {
      assert slot in Claimed(run.states[i]);
    }
    SlotsAreRecords(now, |before|, ModelReplies(lib, run.states[i]));
  }

  /** A call is refused exactly when it is a model call that reads its limit of model records. */
  lemma RefusedByRecord(lib: Library, run: Run, i: nat, id: CallId)
    requires Lawful(lib) && IsRun(lib, run) && i < |run.steps| && id in run.states[i].calls
    requires run.steps[i].Advance? && run.steps[i].id == id && run.steps[i].answer.Works?
    requires run.states[i].calls[id].pc == CheckBudget && Decode(lib, BytesAt(run, i)).Some?
    ensures var call, log := run.states[i].calls[id].call, Log(lib, run.states[i].shared);
            ActionOf(lib, run.states[i], run.steps[i]) == Refuse(call)
            <==> call.record.kind == Model && call.limit.Some? && ModelCount(log) >= call.limit.value
  {
    RunInv(lib, run, i);
    assert CallValid(lib, run.states[i].shared, id, run.states[i].calls[id]);
    DecodedIsLog(lib, run.states[i].shared);
  }

  /** In no run is a web call refused for the budget, and none of its steps uses the budget. */
  lemma WebRecordIsFree(lib: Library, run: Run, i: nat)
    requires Lawful(lib) && IsRun(lib, run) && i < |run.steps| && run.steps[i].Advance?
    requires run.steps[i].id in run.states[i].calls
    requires run.states[i].calls[run.steps[i].id].call.record.kind == Web
    ensures !ActionOf(lib, run.states[i], run.steps[i]).Refuse?
    ensures ModelCount(Log(lib, run.states[i + 1].shared)) == ModelCount(Log(lib, run.states[i].shared))
  {
    LogOfStep(lib, run, i);
    if Reserves(run.states[i], run.steps[i]) {
      TallyAppend(Log(lib, run.states[i].shared), run.states[i].calls[run.steps[i].id].call.record);
    } else {
      assert Log(lib, run.states[i].shared) + [] == Log(lib, run.states[i].shared);
    }
  }

  // ---------------------------------------------------------------- a closed ledger stays closed

  /** The decoder refuses the file and no call is in the middle of a write. */
  predicate Closed(lib: Library, s: State) {
    Decode(lib, LedgerBytes(s.shared)).None? && forall id :: id in s.calls ==> s.calls[id].pc != Append
  }

  /** On a refused file no call gets past the budget check. */
  lemma NobodyStarts(lib: Library, s: State, step: Step, id: CallId)
    requires Inv(lib, s) && Enabled(s, step) && Closed(lib, s) && step.Advance? && id == step.id
    requires id in Apply(lib, s, step).calls
    ensures Apply(lib, s, step).calls[id].pc != Append
  {
    assert CallValid(lib, s.shared, id, s.calls[id]);
  }

  lemma NobodyWrites(lib: Library, s: State, step: Step)
    requires Inv(lib, s) && Enabled(s, step) && Closed(lib, s)
    ensures var s' := Apply(lib, s, step); forall id :: id in s'.calls ==> s'.calls[id].pc != Append
  {
    forall id | id in Apply(lib, s, step).calls
      ensures Apply(lib, s, step).calls[id].pc != Append
    {
      if step.Advance? && id == step.id {
        NobodyStarts(lib, s, step, id);
      } else {
        OtherCallStays(lib, s, step, id);
      }
    }
  }

  lemma OtherCallStays(lib: Library, s: State, step: Step, id: CallId)
    requires Enabled(s, step) && id in Apply(lib, s, step).calls && !(step.Advance? && id == step.id)
    ensures Apply(lib, s, step).calls[id].pc == OpenParent
         || (id in s.calls && Apply(lib, s, step).calls[id] == s.calls[id])
  {
  }

  lemma ClosedStays(lib: Library, s: State, step: Step, s': State)
    requires Lawful(lib) && Inv(lib, s) && Enabled(s, step) && Closed(lib, s) && s' == Apply(lib, s, step)
    ensures Closed(lib, s') && LedgerBytes(s'.shared) == LedgerBytes(s.shared) && Claimed(s') <= Claimed(s)
  {
    BytesOfStep(lib, s, step);
    ClaimsOfStep(lib, s, step);
    NobodyWrites(lib, s, step);
  }

  lemma ClosedNext(lib: Library, run: Run, i: nat)
    requires Lawful(lib) && IsRun(lib, run) && i < |run.steps| && Closed(lib, run.states[i])
    ensures Closed(lib, run.states[i + 1]) && BytesAt(run, i + 1) == BytesAt(run, i)
    ensures Claimed(run.states[i + 1]) <= Claimed(run.states[i])
  {
    RunInv(lib, run, i);
    ClosedStays(lib, run.states[i], run.steps[i], run.states[i + 1]);
  }

  /**
   Once closed, the bytes never change again and no further call is ever answered, except those
   whose record was complete before.
   */
  lemma {:induction false} ClosedForever(lib: Library, run: Run, i: nat, j: nat)
    requires Lawful(lib) && IsRun(lib, run) && i <= j < |run.states| && Closed(lib, run.states[i])
    ensures Closed(lib, run.states[j]) && BytesAt(run, j) == BytesAt(run, i)
    ensures Claimed(run.states[j]) <= Claimed(run.states[i])
    decreases j
  {
    if i < j {
      ClosedForever(lib, run, i, j - 1);
      ClosedNext(lib, run, j - 1);
    }
  }

  /** The writer stops: its write fails, reports no byte, or its process dies. */
  predicate StopsWriter(s: State, step: Step, id: CallId) {
    match step
    case Start(_, _, _, _) => false
    case Exit(process) => process == id.process
    case Advance(q, answer) => q == id && (answer == Fails || answer == Works(0))
  }

  lemma OnlyWriter(lib: Library, s: State, step: Step, id: CallId)
    requires Inv(lib, s) && Enabled(s, step) && id in s.calls && s.calls[id].pc == Append && StopsWriter(s, step, id)
    ensures forall q :: q in Apply(lib, s, step).calls ==> Apply(lib, s, step).calls[q].pc != Append
  {
    var s' := Apply(lib, s, step);
    forall q | q in s'.calls
      ensures s'.calls[q].pc != Append
    {
      if q in s.calls && q != id && Critical(s.calls[q]) {
        MutualExclusion(lib, s, id, q);
      }
    }
  }

  lemma TornBytes(lib: Library, bytes: string, c: Locals)
    requires Lawful(lib) && IsRecord(c.call.record) && Writing(lib, bytes, c)
    requires |c.remaining| < |Payload(c.call.record)|
    ensures Decode(lib, bytes).None?
  {
    RecordsOfWhole(lib, c.existing, c.call.record);
    TornLine(lib, c.existing, c.call.record, |Payload(c.call.record)| - |c.remaining|);
  }

  /** Leaving a line half written closes the ledger. */
  lemma TornCloses(lib: Library, s: State, step: Step, id: CallId)
    requires Lawful(lib) && Inv(lib, s) && Enabled(s, step) && id in s.calls && s.calls[id].pc == Append
    requires |s.calls[id].remaining| < |Payload(s.calls[id].call.record)| && StopsWriter(s, step, id)
    ensures Closed(lib, Apply(lib, s, step))
    ensures LedgerBytes(Apply(lib, s, step).shared) == LedgerBytes(s.shared)
  {
    assert CallValid(lib, s.shared, id, s.calls[id]);
    BytesOfStep(lib, s, step);
    TornBytes(lib, LedgerBytes(s.shared), s.calls[id]);
    OnlyWriter(lib, s, step, id);
  }

  // ---------------------------------------------------------------- growth

  lemma GrowthOfStep(lib: Library, run: Run, i: nat)
    requires Lawful(lib) && IsRun(lib, run) && i < |run.steps|
    ensures BytesAt(run, i) <= BytesAt(run, i + 1)
    ensures |BytesAt(run, i + 1)| <= MAX_LEDGER_BYTES + 149 || BytesAt(run, i + 1) == BytesAt(run, i)
  {
    RunInv(lib, run, i);
    var s, step := run.states[i], run.steps[i];
    BytesOfStep(lib, s, step);
    if Writes(s, step) {
      var c := s.calls[step.id];
      assert CallValid(lib, s.shared, step.id, c);
      LineShape(c.call.record);
    }
  }

  predicate Grown(a: string, b: string) {
    a <= b && (|b| <= MAX_LEDGER_BYTES + 149 || b == a)
  }

  lemma GrownThen(a: string, b: string, c: string)
    requires Grown(a, b) && Grown(b, c)
    ensures Grown(a, c)
  {
  }

  /** Contents are only ever extended, and stop growing past the read limit. */
  lemma {:induction false} OnlyGrows(lib: Library, run: Run, i: nat, j: nat)
    requires Lawful(lib) && IsRun(lib, run) && i <= j < |run.states|
    ensures BytesAt(run, i) <= BytesAt(run, j)
    ensures |BytesAt(run, j)| <= MAX_LEDGER_BYTES + 149 || BytesAt(run, j) == BytesAt(run, i)
    decreases j
  {
    if i < j {
      OnlyGrows(lib, run, i, j - 1);
      GrowthOfStep(lib, run, j - 1);
      GrownThen(BytesAt(run, i), BytesAt(run, j - 1), BytesAt(run, j));
    }
  }

  // ---------------------------------------------------------------- the shape of the file

  /** The front of one line, without its line feed. */
  ghost predicate TornTail(tail: string) {
    tail == "" || exists r :: IsTornLine(r, tail)
  }

  predicate IsTornLine(r: Record, tail: string) {
    IsRecord(r) && |tail| < |Payload(r)| && tail == Payload(r)[..|tail|]
  }

  /** What the ledger started with, the records reserved since, and at most one torn line. */
  ghost predicate Shaped(base: string, bytes: string, rs: seq<Record>, tail: string) {
    && bytes == base + EncodeAll(rs) + tail
    && (forall r :: r in rs ==> IsRecord(r))
    && TornTail(tail)
  }

  lemma TailIsUnbroken(tail: string)
    requires TornTail(tail)
    ensures Unbroken(tail)
  {
    if tail != "" {
      var r :| IsTornLine(r, tail);
      LineShape(r);
      assert tail == Line(r)[..|tail|];
    }
  }

  lemma UniqueSplit(head: string, tail: string, other: string, rest: string)
    requires Terminated(head) && Terminated(other) && Unbroken(tail) && Unbroken(rest)
    requires head + tail == other + rest
    ensures head == other
  {
    WholeLinesBefore(head, tail);
    WholeLinesBefore(other, rest);
  }

  lemma DonePartIsUnbroken(r: Record, done: nat)
    requires IsRecord(r) && done < |Payload(r)|
    ensures Unbroken(Payload(r)[..done])
  {
    LineShape(r);
    assert Payload(r)[..done] == Line(r)[..done];
  }

  /** A file that a writer extends splits in one way. */
  lemma SameSplit(lib: Library, base: string, bytes: string, rs: seq<Record>, tail: string, c: Locals)
    requires Lawful(lib) && IsRecord(c.call.record) && Writing(lib, bytes, c)
    requires Terminated(base) && Shaped(base, bytes, rs, tail)
    ensures c.existing == base + EncodeAll(rs)
  {
    var done := |Payload(c.call.record)| - |c.remaining|;
    DonePartIsUnbroken(c.call.record, done);
    TailIsUnbroken(tail);
    RoundTrip(lib, base, rs);
    UniqueSplit(c.existing, Payload(c.call.record)[..done], base + EncodeAll(rs), tail);
  }

  lemma ShapeOfPart(base: string, rs: seq<Record>, r: Record, done: nat)
    requires (forall q :: q in rs ==> IsRecord(q)) && IsRecord(r) && done < |Payload(r)|
    ensures Shaped(base, base + EncodeAll(rs) + Payload(r)[..done], rs, Payload(r)[..done])
  {
    assert IsTornLine(r, Payload(r)[..done]);
  }

  lemma ShapeOfWhole(base: string, rs: seq<Record>, r: Record)
    requires (forall q :: q in rs ==> IsRecord(q)) && IsRecord(r)
    ensures Shaped(base, base + EncodeAll(rs) + Payload(r), rs + [r], "")
  {
    EncodeLast(base, rs, r);
    assert base + EncodeAll(rs + [r]) + "" == base + EncodeAll(rs + [r]);
  }

  lemma ShapeOfWrite(lib: Library, base: string, bytes: string, c: Locals, n: nat, rs: seq<Record>, tail: string)
      returns (tail': string)
    requires Lawful(lib) && IsRecord(c.call.record) && Writing(lib, bytes, c) && 0 < n <= |c.remaining|
    requires Terminated(base) && Shaped(base, bytes, rs, tail)
    ensures Shaped(base, bytes + c.remaining[..n], if n == |c.remaining| then rs + [c.call.record] else rs, tail')
  {
    SameSplit(lib, base, bytes, rs, tail, c);
    NextBytes(lib, bytes, c, n);
    tail' := ShapeOfNext(base, c.existing, bytes + c.remaining[..n], rs, c.call.record, |c.remaining|, n);
  }

  lemma ShapeOfNext(base: string, existing: string, bytes: string, rs: seq<Record>, r: Record, left: nat, n: nat)
      returns (tail: string)
    requires (forall q :: q in rs ==> IsRecord(q)) && IsRecord(r) && existing == base + EncodeAll(rs)
    requires 0 < n <= left <= |Payload(r)| && bytes == existing + Payload(r)[..|Payload(r)| - left + n]
    requires n == left ==> bytes == existing + Payload(r)
    ensures Shaped(base, bytes, if n == left then rs + [r] else rs, tail)
  {
    if n < left {
      tail := Payload(r)[..|Payload(r)| - left + n];
      ShapeOfPart(base, rs, r, |Payload(r)| - left + n);
    } else {
      tail := "";
      ShapeOfWhole(base, rs, r);
    }
  }

  lemma NextBytes(lib: Library, bytes: string, c: Locals, n: nat)
    requires Writing(lib, bytes, c) && n <= |c.remaining|
    ensures var p := Payload(c.call.record);
            && bytes + c.remaining[..n] == c.existing + p[..|p| - |c.remaining| + n]
            && (n == |c.remaining| ==> bytes + c.remaining[..n] == c.existing + p)
  {
    Grow(c.existing, bytes, c.remaining, Payload(c.call.record), n);
  }

  lemma ShapeOfStep(lib: Library, base: string, s: State, step: Step, rs: seq<Record>, tail: string)
      returns (tail': string)
    requires Lawful(lib) && Inv(lib, s) && Enabled(s, step)
    requires Terminated(base) && Shaped(base, LedgerBytes(s.shared), rs, tail)
    ensures Shaped(base, LedgerBytes(Apply(lib, s, step).shared), rs + ReservedBy(s, step), tail')
  {
    BytesOfStep(lib, s, step);
    if Writes(s, step) {
      assert CallValid(lib, s.shared, step.id, s.calls[step.id]);
      tail' := ShapeOfWrite(lib, base, LedgerBytes(s.shared), s.calls[step.id], step.answer.n, rs, tail);
      assert rs + [] == rs;
    } else {
      NoWriteNoRecord(lib, s, step);
      tail' := tail;
      assert rs + [] == rs;
    }
  }

  lemma ShapeBegins(base: string)
    ensures Shaped(base, base, [], "")
  {
    assert base + EncodeAll([]) + "" == base;
  }

  /**
   At every moment the ledger is its first content, the encodings of the reserved records in
   order, and at most one torn line; a first content that the decoder refuses is never touched.
   */
  lemma {:induction false} LedgerShape(lib: Library, run: Run, i: nat) returns (tail: string)
    requires Lawful(lib) && IsRun(lib, run) && i < |run.states|
    ensures Decode(lib, BytesAt(run, 0)).Some? ==> Shaped(BytesAt(run, 0), BytesAt(run, i), Reserved(run, 0, i), tail)
    ensures Decode(lib, BytesAt(run, 0)).None? ==> BytesAt(run, i) == BytesAt(run, 0)
  {
    var base := BytesAt(run, 0);
    if Decode(lib, base).None? {
      tail := "";
      ClosedForever(lib, run, 0, i);
    } else if i == 0 {
      tail := "";
      ShapeBegins(base);
    } else {
      tail := LedgerShape(lib, run, i - 1);
      tail := ShapeAt(lib, run, i - 1, tail);
    }
  }

  lemma ShapeAt(lib: Library, run: Run, i: nat, tail: string) returns (tail': string)
    requires Lawful(lib) && IsRun(lib, run) && i < |run.steps| && Terminated(BytesAt(run, 0))
    requires Shaped(BytesAt(run, 0), BytesAt(run, i), Reserved(run, 0, i), tail)
    ensures Shaped(BytesAt(run, 0), BytesAt(run, i + 1), Reserved(run, 0, i + 1), tail')
  {
    RunInv(lib, run, i);
    tail' := ShapeOfStep(lib, BytesAt(run, 0), run.states[i], run.steps[i], Reserved(run, 0, i), tail);
  }

  // ---------------------------------------------------------------- the driver's two readings

  /** The difference of two readings is what was reserved in between, kind by kind. */
  lemma ReadingsDiffer(lib: Library, run: Run, i: nat, j: nat)
    requires Lawful(lib) && IsRun(lib, run) && i <= j <= |run.steps|
    requires Decode(lib, BytesAt(run, i)).Some? && Decode(lib, BytesAt(run, j)).Some?
    ensures var first, second := CountText(lib, BytesAt(run, i)), CountText(lib, BytesAt(run, j));
            var between := Tally(Reserved(run, i, j));
            && first.Some? && second.Some?
            && second.value.model - first.value.model == between.model
            && second.value.web - first.value.web == between.web
  {
    RecorderAndDriverAgree(lib, BytesAt(run, i));
    RecorderAndDriverAgree(lib, BytesAt(run, j));
    DecodedIsLog(lib, run.states[i].shared);
    DecodedIsLog(lib, run.states[j].shared);
    LogIsReservations(lib, run, i, j);
    ModelCountAppend(Log(lib, run.states[i].shared), Reserved(run, i, j));
  }

  lemma DecodedIsLog(lib: Library, m: Shared)
    requires Lawful(lib) && Decode(lib, LedgerBytes(m)).Some?
    ensures Log(lib, m) == Decode(lib, LedgerBytes(m)).value
  {
    DecodeEmpty(lib);
  }
}

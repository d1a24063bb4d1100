/**
 The calls of a run in terms of the arguments of `record`: which strings start a call, what is
 refused, what is written and who is answered.
 */
module LedgerCalls {
  import opened Wrappers
  import opened Text
  import opened LedgerFormat
  import opened LedgerProtocol
  import opened LedgerSafety
  import opened LedgerRuns

  // ---------------------------------------------------------------- starting

  /** The two checks at the head of `record`, on the strings. */
  predicate GoodArguments(kind: string, destination: string) {
    && (kind == "model" || kind == "web")
    && destination != "" && forall i :: 0 <= i < |destination| ==> destination[i] as int >= 0x20
  }

  /** The facts of a call that come from its arguments. */
  predicate IsCallOf(lib: Library, call: Call, kind: string, destination: string, limit: Option<nat>) {
    && (call.record.kind == Model <==> kind == "model") && (call.record.kind == Web <==> kind == "web")
    && call.record.digest == lib.sha256(destination) && call.limit == limit
  }

  /** A call starts exactly for good arguments, with its own kind, digest and limit; otherwise nothing happens. */
  lemma StartedIff(lib: Library, run: Run, i: nat)
    requires Lawful(lib) && IsRun(lib, run) && i < |run.steps| && run.steps[i].Start?
    ensures var Start(id, kind, destination, limit) := run.steps[i];
            var before, after := run.states[i], run.states[i + 1];
            && id !in before.calls && after.shared == before.shared
            && (id in after.calls <==>
                  && (kind == "model" || kind == "web")
                  && destination != "" && forall k :: 0 <= k < |destination| ==> destination[k] as int >= 0x20)
            && (id in after.calls ==> IsCallOf(lib, after.calls[id].call, kind, destination, limit))
            && (id !in after.calls ==> after == before)
  {
    RunInv(lib, run, i);
    var Start(id, kind, destination, limit) := run.steps[i];
    if !GoodArguments(kind, destination) && (kind == "model" || kind == "web") && destination != "" {
      var k :| 0 <= k < |destination| && (destination[k] as int) < 0x20;
      assert destination[k] < ' ';
    }
  }

  /** The step that started a call: its arguments are good, and they are what the call still carries. */
  ghost predicate StartOf(lib: Library, run: Run, i: nat, id: CallId, j: nat)
    requires i < |run.states| && id in run.states[i].calls
  {
    && j < i && j < |run.steps| && run.steps[j].Start? && run.steps[j].id == id
    && GoodArguments(run.steps[j].kind, run.steps[j].destination)
    && IsCallOf(lib, run.states[i].calls[id].call, run.steps[j].kind, run.steps[j].destination, run.steps[j].limit)
  }

  /** A step other than the start of a call leaves what the call was started with. */
  lemma CallStays(lib: Library, s: State, step: Step, id: CallId)
    requires Enabled(s, step) && id in Apply(lib, s, step).calls && !(step.Start? && step.id == id)
    ensures id in s.calls && Apply(lib, s, step).calls[id].call == s.calls[id].call
  {
  }

  lemma {:induction false} EveryCallWasStarted(lib: Library, run: Run, i: nat, id: CallId) returns (j: nat)
    requires Lawful(lib) && IsRun(lib, run) && i < |run.states| && id in run.states[i].calls
    ensures StartOf(lib, run, i, id, j)
  {
    if run.steps[i - 1].Start? && run.steps[i - 1].id == id {
      j := i - 1;
      StartedIff(lib, run, j);
    } else {
      CallStays(lib, run.states[i - 1], run.steps[i - 1], id);
      j := EveryCallWasStarted(lib, run, i - 1, id);
    }
  }

  /** Step `j` starts the call `id` with good arguments of this kind. */
  predicate StartsAs(run: Run, j: nat, id: CallId, kind: string) {
    && j < |run.steps| && run.steps[j].Start? && run.steps[j].id == id && run.steps[j].kind == kind
    && GoodArguments(kind, run.steps[j].destination)
  }

  lemma StartedStays(lib: Library, s: State, step: Step)
    requires Enabled(s, step)
    ensures s.started <= Apply(lib, s, step).started
  {
  }

  lemma {:induction false} StartedSince(lib: Library, run: Run, j: nat, i: nat)
    requires IsRun(lib, run) && j < i < |run.states| && run.steps[j].Start?
    requires GoodArguments(run.steps[j].kind, run.steps[j].destination)
    ensures run.steps[j].id in run.states[i].started
    decreases i
  {
    if i - 1 > j {
      StartedSince(lib, run, j, i - 1);
      StartedStays(lib, run.states[i - 1], run.steps[i - 1]);
    }
  }

  /** A call is started once. */
  lemma OneStart(lib: Library, run: Run, j: nat, k: nat, id: CallId, kind: string, other: string)
    requires IsRun(lib, run) && StartsAs(run, j, id, kind) && StartsAs(run, k, id, other)
    ensures j == k && kind == other
  {
    if j < k {
      StartedSince(lib, run, j, k);
    } else if k < j {
      StartedSince(lib, run, k, j);
    }
  }

  /** What a call carries is what its start says, whichever start of it with good arguments is looked at. */
  lemma CallIsOf(lib: Library, run: Run, i: nat, id: CallId, j: nat)
    requires Lawful(lib) && IsRun(lib, run) && i < |run.states| && id in run.states[i].calls
    requires j < |run.steps| && run.steps[j].Start? && StartsAs(run, j, id, run.steps[j].kind)
    ensures StartOf(lib, run, i, id, j)
  {
    var k := EveryCallWasStarted(lib, run, i, id);
    OneStart(lib, run, j, k, id, run.steps[j].kind, run.steps[k].kind);
  }

  // ---------------------------------------------------------------- the budget

  /** The line that `record` writes for these arguments, up to its line feed. */
  function LineOf(lib: Library, kind: string, destination: string): string {
    "{\"destination_digest\":\"" + lib.sha256(destination) + "\",\"kind\":\"" + kind
    + "\",\"schema\":\"first-agent/transport-attempt/v1\"}"
  }

  lemma PayloadIsLine(lib: Library, call: Call, kind: string, destination: string, limit: Option<nat>)
    requires GoodArguments(kind, destination) && IsCallOf(lib, call, kind, destination, limit)
    ensures Payload(call.record) == LineOf(lib, kind, destination) + "\n"
  {
  }

  /**
   At its budget check, on a ledger that decodes, a call is refused exactly when it was started
   as "model" with a limit that the model records of the log have reached.  A refused call goes
   to its `finally`; any other goes on to write the line of its own arguments.
   */
  lemma RefusedIff(lib: Library, run: Run, i: nat, j: nat, id: CallId)
    requires Lawful(lib) && IsRun(lib, run) && i < |run.steps| && id in run.states[i].calls
    requires j < |run.steps| && run.steps[j].Start? && StartsAs(run, j, id, run.steps[j].kind)
    requires run.steps[i].Advance? && run.steps[i].id == id && run.steps[i].answer.Works?
    requires run.states[i].calls[id].pc == CheckBudget && Decode(lib, BytesAt(run, i)).Some?
    ensures var Start(_, kind, destination, limit) := run.steps[j];
            var log, after := Log(lib, run.states[i].shared), run.states[i + 1];
            && j < i && BytesAt(run, i + 1) == BytesAt(run, i) && id in after.calls
            && (ActionOf(lib, run.states[i], run.steps[i]).Refuse?
                <==> kind == "model" && limit.Some? && ModelCount(log) >= limit.value)
            && (if kind == "model" && limit.Some? && ModelCount(log) >= limit.value
                then after.calls[id].pc == CloseLedger
                else after.calls[id].pc == Append
                     && after.calls[id].remaining == LineOf(lib, kind, destination) + "\n")
  {
    CallIsOf(lib, run, i, id, j);
    RefusedByRecord(lib, run, i, id);
    RunInv(lib, run, i);
    BytesOfStep(lib, run.states[i], run.steps[i]);
    CheckedStep(lib, run, i, id);
    PayloadIsLine(lib, run.states[i].calls[id].call, run.steps[j].kind, run.steps[j].destination, run.steps[j].limit);
  }

  lemma CheckedStep(lib: Library, run: Run, i: nat, id: CallId)
    requires Lawful(lib) && IsRun(lib, run) && i < |run.steps| && id in run.states[i].calls
    requires run.steps[i].Advance? && run.steps[i].id == id && run.steps[i].answer.Works?
    requires run.states[i].calls[id].pc == CheckBudget && Decode(lib, BytesAt(run, i)).Some?
    ensures id in run.states[i + 1].calls && !Writes(run.states[i], run.steps[i])
    ensures var call, after := run.states[i].calls[id].call, run.states[i + 1].calls[id];
            if BudgetLeft(call, Log(lib, run.states[i].shared))
            then after.pc == Append && after.remaining == Payload(call.record)
            else after.pc == CloseLedger
  {
    RunInv(lib, run, i);
    assert CallValid(lib, run.states[i].shared, id, run.states[i].calls[id]);
    DecodedIsLog(lib, run.states[i].shared);
  }

  /** A call started as "web" is never refused for the budget, and none of its steps uses it. */
  lemma WebIsFree(lib: Library, run: Run, i: nat, j: nat)
    requires Lawful(lib) && IsRun(lib, run) && i < |run.steps| && run.steps[i].Advance?
    requires StartsAs(run, j, run.steps[i].id, "web") && run.steps[i].id in run.states[i].calls
    ensures !ActionOf(lib, run.states[i], run.steps[i]).Refuse?
    ensures ModelCount(Log(lib, run.states[i + 1].shared)) == ModelCount(Log(lib, run.states[i].shared))
  {
    CallIsOf(lib, run, i, run.steps[i].id, j);
    WebRecordIsFree(lib, run, i);
  }

  // ---------------------------------------------------------------- what is written

  /** A step that completes a record adds one, of the kind and digest of the arguments of its call. */
  lemma ReservedIsOfStart(lib: Library, run: Run, i: nat) returns (j: nat)
    requires Lawful(lib) && IsRun(lib, run) && i < |run.steps| && Reserves(run.states[i], run.steps[i])
    ensures j < i && run.steps[j].Start? && StartsAs(run, j, run.steps[i].id, run.steps[j].kind)
    ensures var log, log' := Log(lib, run.states[i].shared), Log(lib, run.states[i + 1].shared);
            && |log'| == |log| + 1 && log'[..|log|] == log
            && (log'[|log|].kind == Model <==> run.steps[j].kind == "model")
            && log'[|log|].digest == lib.sha256(run.steps[j].destination)
    ensures var c := run.states[i].calls[run.steps[i].id];
            && Decode(lib, c.existing).Some?
            && BytesAt(run, i + 1) == c.existing + LineOf(lib, run.steps[j].kind, run.steps[j].destination) + "\n"
  {
    var id := run.steps[i].id;
    j := EveryCallWasStarted(lib, run, i, id);
    LogOfStep(lib, run, i);
    WholeLine(lib, run, i, id);
    PayloadIsLine(lib, run.states[i].calls[id].call, run.steps[j].kind, run.steps[j].destination, run.steps[j].limit);
  }

  lemma WholeLine(lib: Library, run: Run, i: nat, id: CallId)
    requires Lawful(lib) && IsRun(lib, run) && i < |run.steps| && Reserves(run.states[i], run.steps[i])
    requires id == run.steps[i].id
    ensures Decode(lib, run.states[i].calls[id].existing).Some?
    ensures BytesAt(run, i + 1) == run.states[i].calls[id].existing + Payload(run.states[i].calls[id].call.record)
  {
    RunInv(lib, run, i);
    var s, c := run.states[i], run.states[i].calls[id];
    assert CallValid(lib, s.shared, id, c);
    BytesOfStep(lib, s, run.steps[i]);
    NextBytes(lib, LedgerBytes(s.shared), c, |c.remaining|);
  }

  // ---------------------------------------------------------------- who is answered

  /** Step `i` returns normally from a call. */
  predicate Answers(run: Run, i: nat) {
    && i < |run.steps| && i < |run.states| && run.steps[i].Advance? && run.steps[i].answer.Works?
    && run.steps[i].id in run.states[i].calls
    && run.states[i].calls[run.steps[i].id].pc == CloseParent && run.states[i].calls[run.steps[i].id].succeeded
  }

  ghost predicate StartedAsModel(run: Run, id: CallId) {
    exists j: nat :: StartsAs(run, j, id, "model")
  }

  /** How many calls that were started as "model" have returned normally before state `i`. */
  ghost function ModelAnswers(run: Run, i: nat): nat
    requires i <= |run.steps|
  {
    if i == 0 then 0
    else ModelAnswers(run, i - 1) + if Answers(run, i - 1) && StartedAsModel(run, run.steps[i - 1].id) then 1 else 0
  }

  lemma ModelIffStarted(lib: Library, run: Run, i: nat, id: CallId)
    requires Lawful(lib) && IsRun(lib, run) && i < |run.states| && id in run.states[i].calls
    ensures StartedAsModel(run, id) <==> run.states[i].calls[id].call.record.kind == Model
  {
    var j := EveryCallWasStarted(lib, run, i, id);
    if StartedAsModel(run, id) {
      var k: nat :| StartsAs(run, k, id, "model");
      OneStart(lib, run, j, k, id, run.steps[j].kind, "model");
    } else {
      assert !StartsAs(run, j, id, "model");
    }
  }

  function ModelSlots(log: seq<Record>, answered: set<nat>): set<nat> {
    set slot | slot in answered && slot < |log| && log[slot].kind == Model
  }

  lemma OneMoreSlot(log: seq<Record>, more: seq<Record>, answered: set<nat>, slot: nat)
    requires slot < |log| && slot !in answered && more == []
    ensures |ModelSlots(log + more, answered + {slot})|
         == |ModelSlots(log, answered)| + if log[slot].kind == Model then 1 else 0
  {
    assert log + more == log;
    assert ModelSlots(log, answered + {slot})
        == if log[slot].kind == Model then ModelSlots(log, answered) + {slot} else ModelSlots(log, answered);
  }

  lemma SameSlots(log: seq<Record>, more: seq<Record>, answered: set<nat>)
    requires forall slot :: slot in answered ==> slot < |log|
    ensures ModelSlots(log + more, answered) == ModelSlots(log, answered)
  {
  }

  lemma AnswerOfStep(lib: Library, run: Run, i: nat)
    requires Lawful(lib) && IsRun(lib, run) && i < |run.steps|
    ensures var s, s' := run.states[i], run.states[i + 1];
            if Answers(run, i)
            then
              var c := s.calls[run.steps[i].id];
              AtomicNext(Abs(lib, s), Reply(c.slot, c.call.record), Abs(lib, s'))
            else s'.shared.answered == s.shared.answered
  {
    RunRefines(lib, run, i);
  }

  /** Each normal return answers a slot that was not answered before, and it holds a record of the call's kind. */
  lemma AnswerAdds(lib: Library, run: Run, i: nat)
    requires Lawful(lib) && IsRun(lib, run) && i < |run.steps|
    ensures |ModelReplies(lib, run.states[i + 1])| == |ModelReplies(lib, run.states[i])|
            + if Answers(run, i) && StartedAsModel(run, run.steps[i].id) then 1 else 0
  {
    RunInv(lib, run, i);
    AnswerOfStep(lib, run, i);
    LogOfStep(lib, run, i);
    var s, s' := run.states[i], run.states[i + 1];
    var log, more := Log(lib, s.shared), ReservedBy(s, run.steps[i]);
    SlotsOf(lib, s);
    SlotsOf(lib, s');
    if Answers(run, i) {
      var c := s.calls[run.steps[i].id];
      ModelIffStarted(lib, run, i, run.steps[i].id);
      OneMoreSlot(log, more, s.shared.answered, c.slot);
    } else {
      SameSlots(log, more, s.shared.answered);
    }
  }

  lemma SlotsOf(lib: Library, s: State)
    ensures ModelReplies(lib, s) == ModelSlots(Log(lib, s.shared), s.shared.answered)
  {
  }

  lemma {:induction false} AnswersAreReplies(lib: Library, run: Run, i: nat)
    requires Lawful(lib) && IsRun(lib, run) && i <= |run.steps|
    ensures ModelAnswers(run, i) == |ModelReplies(lib, run.states[i])|
  {
    if i == 0 {
      assert ModelReplies(lib, run.states[0]) == {};
    } else {
      AnswersAreReplies(lib, run, i - 1);
      AnswerAdds(lib, run, i - 1);
    }
  }

  /**
   The budget: when every call started as "model" has a limit of at most `cap`, on a ledger that
   starts with at most `cap` model records, no more such calls return normally than model records
   were added, and the ledger never holds more than `cap` of them.
   */
  lemma BudgetHolds(lib: Library, run: Run, cap: nat, i: nat)
    requires Lawful(lib) && IsRun(lib, run) && i < |run.states|
    requires forall j :: 0 <= j < |run.steps| && run.steps[j].Start? && run.steps[j].kind == "model" ==>
               run.steps[j].limit.Some? && run.steps[j].limit.value <= cap
    requires ModelCount(Log(lib, run.states[0].shared)) <= cap
    ensures var before, now := ModelCount(Log(lib, run.states[0].shared)), ModelCount(Log(lib, run.states[i].shared));
            before + ModelAnswers(run, i) <= now <= cap
  {
    AnswersAreReplies(lib, run, i);
    RepliesWithinBudget(lib, run, cap, i);
  }

  /** A call that reached its success went through an fsync that worked, after its whole line was written. */
  lemma {:induction false} SucceededIsSynced(lib: Library, run: Run, i: nat, id: CallId) returns (k: nat)
    requires Lawful(lib) && IsRun(lib, run) && i < |run.states|
    requires id in run.states[i].calls && run.states[i].calls[id].succeeded
    ensures k < i && run.steps[k].Advance? && run.steps[k].id == id && run.steps[k].answer.Works?
    ensures id in run.states[k].calls && run.states[k].calls[id].pc == Sync
  {
    var s, step := run.states[i - 1], run.steps[i - 1];
    SucceedsBySync(lib, run, i - 1, id);
    if step.Advance? && step.id == id && step.answer.Works? && id in s.calls && s.calls[id].pc == Sync {
      k := i - 1;
    } else {
      k := SucceededIsSynced(lib, run, i - 1, id);
    }
  }

  lemma SucceedsBySync(lib: Library, run: Run, i: nat, id: CallId)
    requires IsRun(lib, run) && i < |run.steps|
    requires id in run.states[i + 1].calls && run.states[i + 1].calls[id].succeeded
    ensures id in run.states[i].calls
    ensures var step := run.steps[i];
            || (step.Advance? && step.id == id && step.answer.Works? && run.states[i].calls[id].pc == Sync)
            || run.states[i].calls[id].succeeded
  {
  }
}

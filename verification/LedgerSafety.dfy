/** Every step of the ledger protocol keeps the invariant. */
module LedgerSafety {
  import opened Wrappers
  import opened LedgerFormat
  import opened LedgerProtocol

  // ---------------------------------------------------------------- replacing one call

  lemma ReplaceKeeps(lib: Library, s: State, m: Shared, id: CallId, c: Locals)
    requires Inv(lib, s) && id in s.calls && SharedValid(lib, m) && CallValid(lib, m, id, c)
    requires forall i :: i in m.holders ==> m.holders[i] in s.started
    requires forall q :: q in s.calls && q != id ==> CallValid(lib, m, q, s.calls[q])
    requires Committed(c) ==>
      forall q :: q in s.calls && q != id && Committed(s.calls[q]) ==> s.calls[q].slot != c.slot
    ensures Inv(lib, Put(s.(shared := m), id, c))
  {
  }

  lemma PutKeeps(lib: Library, s: State, id: CallId, c: Locals)
    requires Inv(lib, s) && id in s.calls && CallValid(lib, s.shared, id, c)
    requires Committed(c) ==> Committed(s.calls[id]) && c.slot == s.calls[id].slot
    ensures Inv(lib, Put(s, id, c))
  {
    ReplaceKeeps(lib, s, s.shared, id, c);
  }

  lemma RemoveKeeps(lib: Library, s: State, m: Shared, id: CallId)
    requires Inv(lib, s) && SharedValid(lib, m)
    requires forall i :: i in m.holders ==> m.holders[i] in s.started
    requires forall q :: q in s.calls && q != id ==> CallValid(lib, m, q, s.calls[q])
    ensures Inv(lib, End(s.(shared := m), id))
  {
  }

  // ---------------------------------------------------------------- what the other calls see

  lemma FrameCreate(lib: Library, m: Shared, name: Name, ino: nat, q: CallId, d: Locals)
    requires SharedValid(lib, m) && name !in m.names && ino !in m.files && CallValid(lib, m, q, d)
    ensures CallValid(lib, m.(names := m.names[name := ino], files := m.files[ino := ""]), q, d)
  {
    CreateKeepsBytes(lib, m, name, ino);
  }

  lemma CreateKeepsBytes(lib: Library, m: Shared, name: Name, ino: nat)
    requires SharedValid(lib, m) && name !in m.names && ino !in m.files
    ensures LedgerBytes(m.(names := m.names[name := ino], files := m.files[ino := ""])) == LedgerBytes(m)
  {
  }

  lemma FrameAcquire(lib: Library, m: Shared, ino: nat, id: CallId, q: CallId, d: Locals)
    requires ino !in m.holders && CallValid(lib, m, q, d)
    ensures CallValid(lib, m.(holders := m.holders[ino := id]), q, d)
  {
  }

  lemma FrameRelease(lib: Library, m: Shared, id: CallId, q: CallId, d: Locals)
    requires q != id && CallValid(lib, m, q, d)
    ensures CallValid(lib, Release(m, id), q, d)
  {
  }

  lemma FrameAnswer(lib: Library, m: Shared, slot: nat, q: CallId, d: Locals)
    requires CallValid(lib, m, q, d) && (Committed(d) ==> d.slot != slot)
    ensures CallValid(lib, m.(answered := m.answered + {slot}), q, d)
  {
  }

  /** A call outside the critical section only cares that the log keeps what it had. */
  lemma FrameWrite(lib: Library, m: Shared, ino: nat, bytes: string, q: CallId, d: Locals)
    requires CallValid(lib, m, q, d) && !Critical(d)
    requires LedgerName in m.names && m.names[LedgerName] == ino
    requires var m' := WriteTo(m, Some(ino), bytes); Log(lib, m) <= Log(lib, m')
    ensures CallValid(lib, WriteTo(m, Some(ino), bytes), q, d)
  {
  }

  // ---------------------------------------------------------------- the append

  lemma WriteBytes(m: Shared, ledger: nat, bytes: string)
    requires LedgerName in m.names && m.names[LedgerName] == ledger
    ensures LedgerBytes(WriteTo(m, Some(ledger), bytes)) == LedgerBytes(m) + bytes
  {
  }

  /** What one write does to the log. */
  lemma WriteEffect(lib: Library, bytes: string, c: Locals, n: nat)
    requires Lawful(lib) && IsRecord(c.call.record) && Writing(lib, bytes, c) && 0 < n <= |c.remaining|
    ensures Records(lib, bytes) == Records(lib, c.existing)
    ensures n < |c.remaining| ==>
      && Records(lib, bytes + c.remaining[..n]) == Records(lib, bytes)
      && Writing(lib, bytes + c.remaining[..n], Written(lib, c, n))
    ensures n == |c.remaining| ==>
      && bytes + c.remaining[..n] == c.existing + Payload(c.call.record)
      && Records(lib, bytes + c.remaining[..n]) == Records(lib, bytes) + [c.call.record]
  {
    PartRecords(lib, bytes, c);
    if n < |c.remaining| {
      WriteMore(lib, bytes, c, n);
      PartRecords(lib, bytes + c.remaining[..n], Written(lib, c, n));
    } else {
      WriteLast(lib, bytes, c);
    }
  }

  lemma PartRecords(lib: Library, bytes: string, c: Locals)
    requires Lawful(lib) && IsRecord(c.call.record) && Writing(lib, bytes, c)
    ensures Records(lib, bytes) == Records(lib, c.existing)
  {
    PartOfPayload(lib, c, |Payload(c.call.record)| - |c.remaining|);
  }

  lemma WriteMore(lib: Library, bytes: string, c: Locals, n: nat)
    requires Writing(lib, bytes, c) && 0 < n < |c.remaining|
    ensures Writing(lib, bytes + c.remaining[..n], Written(lib, c, n))
    ensures Written(lib, c, n).call == c.call && Written(lib, c, n).existing == c.existing
  {
    Grow(c.existing, bytes, c.remaining, Payload(c.call.record), n);
    assert c.remaining[n..] != "";
  }

  lemma WriteLast(lib: Library, bytes: string, c: Locals)
    requires Lawful(lib) && IsRecord(c.call.record) && Writing(lib, bytes, c)
    ensures bytes + c.remaining[..|c.remaining|] == c.existing + Payload(c.call.record)
    ensures Records(lib, c.existing + Payload(c.call.record)) == Records(lib, c.existing) + [c.call.record]
  {
    Grow(c.existing, bytes, c.remaining, Payload(c.call.record), |c.remaining|);
    RecordsOfWhole(lib, c.existing, c.call.record);
  }

  /** Writing n more bytes of p, when `remaining` is what is left of it. */
  lemma Grow(existing: string, bytes: string, remaining: string, p: string, n: nat)
    requires PartWritten(existing, p, remaining, bytes) && n <= |remaining|
    ensures bytes + remaining[..n] == existing + p[..|p| - |remaining| + n]
    ensures n < |remaining| ==> PartWritten(existing, p, remaining[n..], bytes + remaining[..n])
    ensures n == |remaining| ==> bytes + remaining[..n] == existing + p
  {
    var done := |p| - |remaining|;
    Pieces(p, done, n);
    Associate(existing, p[..done], remaining[..n]);
    assert n == |remaining| ==> p[..done + n] == p;
  }

  lemma Associate(a: string, b: string, c: string)
    ensures a + b + c == a + (b + c)
  {
  }

  lemma Pieces(p: string, done: nat, n: nat)
    requires done + n <= |p|
    ensures p[..done] + p[done..][..n] == p[..done + n] && p[done..][n..] == p[done + n..]
  {
    assert p[done..][..n] == p[done..done + n];
  }

  lemma PartOfPayload(lib: Library, c: Locals, done: nat)
    requires Lawful(lib) && IsRecord(c.call.record) && Decode(lib, c.existing).Some?
    requires done < |Payload(c.call.record)|
    ensures Records(lib, c.existing + Payload(c.call.record)[..done]) == Records(lib, c.existing)
  {
    if done == 0 {
      assert c.existing + Payload(c.call.record)[..0] == c.existing;
    } else {
      RecordsOfWhole(lib, c.existing, c.call.record);
      TornLine(lib, c.existing, c.call.record, done);
    }
  }

  /** The calls outside the critical section keep their part of the invariant, and their slots. */
  lemma OthersAfterWrite(lib: Library, s: State, id: CallId, bytes: string)
    requires Inv(lib, s) && id in s.calls && Critical(s.calls[id])
    requires LedgerName in s.shared.names
    requires var ino := s.shared.names[LedgerName]; Log(lib, s.shared) <= Log(lib, WriteTo(s.shared, Some(ino), bytes))
    ensures var m' := WriteTo(s.shared, Some(s.shared.names[LedgerName]), bytes);
            forall q :: q in s.calls && q != id ==> CallValid(lib, m', q, s.calls[q])
    ensures forall q :: q in s.calls && q != id && Committed(s.calls[q]) ==> s.calls[q].slot < |Log(lib, s.shared)|
  {
    var m' := WriteTo(s.shared, Some(s.shared.names[LedgerName]), bytes);
    forall q | q in s.calls && q != id
      ensures CallValid(lib, m', q, s.calls[q])
      ensures Committed(s.calls[q]) ==> s.calls[q].slot < |Log(lib, s.shared)|
    {
      assert CallValid(lib, s.shared, q, s.calls[q]);
      if Critical(s.calls[q]) {
        MutualExclusion(lib, s, id, q);
      }
      FrameWrite(lib, s.shared, s.shared.names[LedgerName], bytes, q, s.calls[q]);
    }
  }

  lemma AppendKeeps(lib: Library, s: State, id: CallId, n: nat)
    requires Lawful(lib) && Inv(lib, s) && Enabled(s, Advance(id, Works(n))) && s.calls[id].pc == Append && n > 0
    ensures Inv(lib, AfterSuccess(lib, s, id, n))
  {
    var c, m := s.calls[id], s.shared;
    WriterAfterWrite(lib, s, id, n);
    OthersAfterWrite(lib, s, id, c.remaining[..n]);
    ReplaceKeeps(lib, s, WriteTo(m, c.ledger, c.remaining[..n]), id, Written(lib, c, n));
  }

  /** The writer's own part of the invariant; its slot, if it has one now, is a new one. */
  lemma WriterAfterWrite(lib: Library, s: State, id: CallId, n: nat)
    requires Lawful(lib) && Inv(lib, s) && Enabled(s, Advance(id, Works(n))) && s.calls[id].pc == Append && n > 0
    ensures var c, m := s.calls[id], s.shared;
            var m' := WriteTo(m, c.ledger, c.remaining[..n]);
            && LedgerName in m.names && c.ledger == Some(m.names[LedgerName])
            && CallValid(lib, m', id, Written(lib, c, n)) && SharedValid(lib, m') && Log(lib, m) <= Log(lib, m')
            && (Committed(Written(lib, c, n)) ==> Written(lib, c, n).slot == |Log(lib, m)|)
  {
    var c, m := s.calls[id], s.shared;
    assert CallValid(lib, m, id, c);
    WriteBytes(m, c.ledger.value, c.remaining[..n]);
    WriteEffect(lib, LedgerBytes(m), c, n);
    WrittenValid(lib, m, id, c, n);
  }

  lemma WrittenValid(lib: Library, m: Shared, id: CallId, c: Locals, n: nat)
    requires Lawful(lib) && SharedValid(lib, m) && CallValid(lib, m, id, c) && c.pc == Append && 0 < n <= |c.remaining|
    requires LedgerBytes(WriteTo(m, c.ledger, c.remaining[..n])) == LedgerBytes(m) + c.remaining[..n]
    ensures CallValid(lib, WriteTo(m, c.ledger, c.remaining[..n]), id, Written(lib, c, n))
    ensures Committed(Written(lib, c, n)) ==> Written(lib, c, n).slot == |Log(lib, m)|
  {
    WriteEffect(lib, LedgerBytes(m), c, n);
    var m', d := WriteTo(m, c.ledger, c.remaining[..n]), Written(lib, c, n);
    assert DescriptorsValid(m', id, d);
    assert PhaseValid(lib, m', d);
  }

  lemma CreateKeeps(lib: Library, s: State, id: CallId, name: Name, ino: nat)
    requires Inv(lib, s) && id in s.calls && s.calls[id].pc == CreateFile(name)
    requires name !in s.shared.names && ino !in s.shared.files
    ensures Inv(lib, AfterSuccess(lib, s, id, ino))
  {
    var c, m := s.calls[id], s.shared;
    var m' := m.(names := m.names[name := ino], files := m.files[ino := ""]);
    CreateKeepsBytes(lib, m, name, ino);
    forall q | q in s.calls
      ensures CallValid(lib, m', q, s.calls[q])
    {
      FrameCreate(lib, m, name, ino, q, s.calls[q]);
    }
    ReplaceKeeps(lib, s, m', id, c.(pc := CloseCreated(name)));
  }

  lemma AcquireKeeps(lib: Library, s: State, id: CallId, n: nat)
    requires Inv(lib, s) && Enabled(s, Advance(id, Works(n))) && s.calls[id].pc == WaitLock
    ensures Inv(lib, AfterSuccess(lib, s, id, n))
  {
    var c, m := s.calls[id], s.shared;
    var m' := m.(holders := m.holders[c.lock.value := id]);
    forall q | q in s.calls
      ensures CallValid(lib, m', q, s.calls[q])
    {
      FrameAcquire(lib, m, c.lock.value, id, q, s.calls[q]);
    }
    ReplaceKeeps(lib, s, m', id, c.(pc := OpenFile(LedgerName)));
  }

  lemma ReleaseKeeps(lib: Library, s: State, id: CallId, n: nat)
    requires Inv(lib, s) && id in s.calls && s.calls[id].pc == CloseLock
    ensures Inv(lib, AfterSuccess(lib, s, id, n)) && Inv(lib, AfterFailure(s, id))
  {
    var c, m := s.calls[id], s.shared;
    forall q | q in s.calls && q != id
      ensures CallValid(lib, Release(m, id), q, s.calls[q])
    {
      FrameRelease(lib, m, id, q, s.calls[q]);
    }
    assert CallValid(lib, m, id, c);
    ReplaceKeeps(lib, s, Release(m, id), id, c.(lock := None, pc := CloseParent));
    RemoveKeeps(lib, s, Release(m, id), id);
  }

  lemma AnswerKeeps(lib: Library, s: State, id: CallId, n: nat)
    requires Inv(lib, s) && id in s.calls && s.calls[id].pc == CloseParent
    ensures Inv(lib, AfterSuccess(lib, s, id, n))
  {
    var c, m := s.calls[id], s.shared;
    if c.succeeded {
      assert CallValid(lib, m, id, c);
      var m' := m.(answered := m.answered + {c.slot});
      forall q | q in s.calls && q != id
        ensures CallValid(lib, m', q, s.calls[q])
      {
        FrameAnswer(lib, m, c.slot, q, s.calls[q]);
      }
      RemoveKeeps(lib, s, m', id);
    } else {
      RemoveKeeps(lib, s, m, id);
    }
  }

  /** A call between its first open and its closes may go to its `finally` at any time. */
  lemma CleanupValid(lib: Library, m: Shared, id: CallId, c: Locals)
    requires CallValid(lib, m, id, c) && c.pc !in {CloseLedger, CloseLock, CloseParent, OpenParent}
    ensures CallValid(lib, m, id, Cleanup(c))
    ensures Committed(Cleanup(c)) ==> Committed(c) && Cleanup(c).slot == c.slot
  {
  }

  lemma CleanupKeeps(lib: Library, s: State, id: CallId)
    requires Inv(lib, s) && id in s.calls && s.calls[id].pc !in {CloseLedger, CloseLock, CloseParent, OpenParent}
    ensures Inv(lib, Put(s, id, Cleanup(s.calls[id])))
  {
    CleanupValid(lib, s.shared, id, s.calls[id]);
    PutKeeps(lib, s, id, Cleanup(s.calls[id]));
  }

  lemma FailureKeeps(lib: Library, s: State, id: CallId)
    requires Inv(lib, s) && id in s.calls
    ensures Inv(lib, AfterFailure(s, id))
  {
    if s.calls[id].pc == CloseLock {
      ReleaseKeeps(lib, s, id, 0);
    } else if s.calls[id].pc in {OpenParent, CloseLedger, CloseParent} {
      RemoveKeeps(lib, s, s.shared, id);
    } else {
      CleanupKeeps(lib, s, id);
    }
  }

  /** The steps that only move the call itself. */
  predicate Quiet(s: State, id: CallId) {
    && id in s.calls
    && s.calls[id].pc !in {WaitLock, Append, CloseLock, CloseParent}
    && (s.calls[id].pc.CreateFile? ==> s.calls[id].pc.name in s.shared.names)
  }

  lemma OpenedValid(lib: Library, m: Shared, id: CallId, c: Locals, name: Name)
    requires CallValid(lib, m, id, c) && name in m.names && (c.pc == OpenFile(name) || c.pc == ReopenFile(name))
    ensures CallValid(lib, m, id, Opened(c, name, m.names[name])) && !Committed(Opened(c, name, m.names[name]))
  {
  }

  lemma OpeningKeeps(lib: Library, s: State, id: CallId, n: nat)
    requires Inv(lib, s) && Enabled(s, Advance(id, Works(n))) && Quiet(s, id)
    requires s.calls[id].pc.OpenFile?
    ensures Inv(lib, AfterSuccess(lib, s, id, n))
  {
    var c, m := s.calls[id], s.shared;
    assert CallValid(lib, m, id, c);
    if c.pc.name in m.names {
      OpenedValid(lib, m, id, c, c.pc.name);
      PutKeeps(lib, s, id, Opened(c, c.pc.name, m.names[c.pc.name]));
    } else {
      PutKeeps(lib, s, id, c.(pc := CreateFile(c.pc.name)));
    }
  }

  lemma ReopeningKeeps(lib: Library, s: State, id: CallId, n: nat)
    requires Inv(lib, s) && Enabled(s, Advance(id, Works(n))) && Quiet(s, id)
    requires s.calls[id].pc.ReopenFile?
    ensures Inv(lib, AfterSuccess(lib, s, id, n))
  {
    var c, m := s.calls[id], s.shared;
    if c.pc.name in m.names {
      OpenedValid(lib, m, id, c, c.pc.name);
      PutKeeps(lib, s, id, Opened(c, c.pc.name, m.names[c.pc.name]));
    } else {
      CleanupKeeps(lib, s, id);
    }
  }

  lemma BetweenOpensKeeps(lib: Library, s: State, id: CallId, n: nat)
    requires Inv(lib, s) && Enabled(s, Advance(id, Works(n))) && Quiet(s, id)
    requires s.calls[id].pc.OpenParent? || s.calls[id].pc.CreateFile? || s.calls[id].pc.CloseCreated?
    ensures Inv(lib, AfterSuccess(lib, s, id, n))
  {
    assert CallValid(lib, s.shared, id, s.calls[id]);
    PutKeeps(lib, s, id, AfterSuccess(lib, s, id, n).calls[id]);
  }

  lemma ReadingKeeps(lib: Library, s: State, id: CallId, n: nat)
    requires Inv(lib, s) && Enabled(s, Advance(id, Works(n)))
    requires s.calls[id].pc.StatFile? || s.calls[id].pc == ReadLedger
    ensures Inv(lib, AfterSuccess(lib, s, id, n))
  {
    assert CallValid(lib, s.shared, id, s.calls[id]);
    PutKeeps(lib, s, id, AfterSuccess(lib, s, id, n).calls[id]);
  }

  lemma ClosingKeeps(lib: Library, s: State, id: CallId, n: nat)
    requires Inv(lib, s) && Enabled(s, Advance(id, Works(n))) && s.calls[id].pc in {Sync, CloseLedger}
    ensures Inv(lib, AfterSuccess(lib, s, id, n))
  {
    assert CallValid(lib, s.shared, id, s.calls[id]);
    PutKeeps(lib, s, id, AfterSuccess(lib, s, id, n).calls[id]);
  }

  lemma CheckKeeps(lib: Library, s: State, id: CallId, n: nat)
    requires Inv(lib, s) && id in s.calls && s.calls[id].pc == CheckBudget
    ensures Inv(lib, AfterSuccess(lib, s, id, n))
  {
    var c := s.calls[id];
    assert CallValid(lib, s.shared, id, c);
    if Checked(lib, c).pc == Append {
      ReadyToWrite(lib, s.shared, c);
    }
    PutKeeps(lib, s, id, Checked(lib, c));
  }

  lemma QuietKeeps(lib: Library, s: State, id: CallId, n: nat)
    requires Inv(lib, s) && Enabled(s, Advance(id, Works(n))) && Quiet(s, id)
    ensures Inv(lib, AfterSuccess(lib, s, id, n))
  {
    match s.calls[id].pc
    case CheckBudget => CheckKeeps(lib, s, id, n);
    case Sync => ClosingKeeps(lib, s, id, n);
    case CloseLedger => ClosingKeeps(lib, s, id, n);
    case StatFile(_) => ReadingKeeps(lib, s, id, n);
    case ReadLedger => ReadingKeeps(lib, s, id, n);
    case OpenFile(_) => OpeningKeeps(lib, s, id, n);
    case ReopenFile(_) => ReopeningKeeps(lib, s, id, n);
    case _ => BetweenOpensKeeps(lib, s, id, n);
  }

  lemma ReadyToWrite(lib: Library, m: Shared, c: Locals)
    requires PhaseValid(lib, m, c) && c.pc == CheckBudget && Checked(lib, c).pc == Append
    ensures Writing(lib, LedgerBytes(m), Checked(lib, c))
  {
    var p := Payload(c.call.record);
    assert p[|p| - 1] == '\n';
    assert c.existing + p[..0] == LedgerBytes(m);
  }

  lemma StartKeeps(lib: Library, s: State, step: Step)
    requires Lawful(lib) && Inv(lib, s) && step.Start? && Enabled(s, step)
    ensures Inv(lib, Apply(lib, s, step))
  {
  }

  lemma ExitKeeps(lib: Library, s: State, step: Step)
    requires Inv(lib, s) && step.Exit?
    ensures Inv(lib, Apply(lib, s, step))
  {
    var s' := Apply(lib, s, step);
    forall q | q in s'.calls
      ensures CallValid(lib, s'.shared, q, s'.calls[q])
    {
      assert CallValid(lib, s.shared, q, s.calls[q]);
    }
  }

  lemma StepKeeps(lib: Library, s: State, step: Step)
    requires Lawful(lib) && Inv(lib, s) && Enabled(s, step)
    ensures Inv(lib, Apply(lib, s, step))
  {
    match step
    case Start(_, _, _, _) => StartKeeps(lib, s, step);
    case Exit(_) => ExitKeeps(lib, s, step);
    case Advance(id, Fails) => FailureKeeps(lib, s, id);
    case Advance(id, Works(n)) =>
      match s.calls[id].pc
      case WaitLock => AcquireKeeps(lib, s, id, n);
      case CloseLock => ReleaseKeeps(lib, s, id, n);
      case CloseParent => AnswerKeeps(lib, s, id, n);
      case Append =>
        if n > 0 {
          AppendKeeps(lib, s, id, n);
        } else {
          EmptyWriteKeeps(lib, s, id);
        }
      case CreateFile(name) =>
        if name in s.shared.names {
          QuietKeeps(lib, s, id, n);
        } else {
          CreateKeeps(lib, s, id, name, n);
        }
      case _ => QuietKeeps(lib, s, id, n);
  }

  lemma NothingWritten(m: Shared, c: Locals)
    requires c.ledger.Some? && c.ledger.value in m.files
    ensures WriteTo(m, c.ledger, c.remaining[..0]) == m
  {
    assert Content(m, c.ledger.value) + c.remaining[..0] == m.files[c.ledger.value];
  }

  /** A write that reports no byte raises, and has changed nothing. */
  lemma EmptyWriteKeeps(lib: Library, s: State, id: CallId)
    requires Inv(lib, s) && Enabled(s, Advance(id, Works(0))) && s.calls[id].pc == Append
    ensures AfterSuccess(lib, s, id, 0) == Put(s, id, Cleanup(s.calls[id]))
    ensures Inv(lib, AfterSuccess(lib, s, id, 0))
  {
    assert CallValid(lib, s.shared, id, s.calls[id]);
    NothingWritten(s.shared, s.calls[id]);
    CleanupKeeps(lib, s, id);
  }
}

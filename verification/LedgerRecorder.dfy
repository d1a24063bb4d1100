/** The body of `record` between taking and releasing the flock, on a file it has to itself. */
module LedgerRecorder {
  import opened Wrappers
  import opened LedgerFormat
  import LedgerProtocol

  datatype Outcome = Recorded | BudgetExhausted | Failed

  /** The open ledger.  `faults` counts the system calls that failed, `synced` is what the last fsync wrote out. */
  class LedgerFile {
    var bytes: string
    ghost var faults: nat
    ghost var synced: Option<string>

    constructor (bytes: string)
      ensures this.bytes == bytes && faults == 0 && synced == None
    {
      this.bytes := bytes;
      faults, synced := 0, None;
    }

    /** `os.fsync`. */
    method Sync() returns (ok: bool)
      modifies this`faults, this`synced
      ensures faults == old(faults) + (if ok then 0 else 1)
      ensures synced == if ok then Some(bytes) else old(synced)
    {
      ok := Probe();
      if ok {
        synced := Some(bytes);
      }
    }

    /** `os.fstat` and `os.lseek`: they change nothing, and may raise. */
    method Probe() returns (ok: bool)
      modifies this`faults
      ensures faults == old(faults) + (if ok then 0 else 1)
    {
      ok := *;
      faults := faults + (if ok then 0 else 1);
    }

    /** `os.write` on an O_APPEND descriptor: any part of the chunk, or -1 when it raises, or 0. */
    method Write(chunk: string) returns (written: int)
      requires chunk != ""
      modifies this`bytes, this`faults
      ensures -1 <= written <= |chunk|
      ensures written < 1 ==> bytes == old(bytes) && faults == old(faults) + 1
      ensures written >= 1 ==> bytes == old(bytes) + chunk[..written] && faults == old(faults)
    {
      written := *;
      if written < -1 || |chunk| < written {
        written := |chunk|;
      }
      if written >= 1 {
        bytes := bytes + chunk[..written];
      } else {
        faults := faults + 1;
      }
    }
  }

  predicate Accepts(lib: Library, bytes: string, call: LedgerProtocol.Call) {
    var decoded := Decode(lib, bytes);
    decoded.Some? && LedgerProtocol.BudgetLeft(call, decoded.value)
  }

  /**
   One locked call either adds exactly its line, or refuses and leaves the bytes alone; only a
   failing system call can leave part of the line behind.  Without such a failure the outcome
   is decided by the content alone.
   */
  method Record(lib: Library, f: LedgerFile, call: LedgerProtocol.Call) returns (outcome: Outcome)
    modifies f
    ensures outcome == Recorded ==>
      && Accepts(lib, old(f.bytes), call) && f.bytes == old(f.bytes) + Payload(call.record)
      && f.synced == Some(f.bytes) && f.faults == old(f.faults)
    ensures outcome == BudgetExhausted ==>
      && f.bytes == old(f.bytes) && Decode(lib, f.bytes).Some?
      && call.record.kind == Model && call.limit.Some?
      && ModelCount(Decode(lib, f.bytes).value) >= call.limit.value
    ensures outcome == Failed ==>
      exists n :: 0 <= n <= |Payload(call.record)| && f.bytes == old(f.bytes) + Payload(call.record)[..n]
    ensures !Accepts(lib, old(f.bytes), call) ==> f.bytes == old(f.bytes) && outcome != Recorded
    ensures f.faults == old(f.faults) ==>
      outcome == if Accepts(lib, old(f.bytes), call) then Recorded
                 else if Decode(lib, old(f.bytes)).Some? then BudgetExhausted else Failed
  {
    var payload := Payload(call.record);
    assert f.bytes == old(f.bytes) + payload[..0];
    var ok := f.Probe();
    if !ok || |f.bytes| > MAX_LEDGER_BYTES {
      return Failed;
    }
    ok := f.Probe();
    if !ok {
      return Failed;
    }
    var existing := ReadAtMost(f.bytes, MAX_LEDGER_BYTES + 1);
    var records := Decode(lib, existing);
    if records.None? {
      return Failed;
    }
    if call.record.kind == Model && call.limit.Some? && ModelCount(records.value) >= call.limit.value {
      return BudgetExhausted;
    }
    ok := f.Probe();
    if !ok {
      return Failed;
    }
    outcome := AppendAll(f, payload);
  }

  /**
   The write loop over the shrinking rest of the payload, and the fsync after it: it succeeds
   exactly when no call fails, and then all of the file is synced.
   */
  method AppendAll(f: LedgerFile, payload: string) returns (outcome: Outcome)
    modifies f
    ensures outcome != BudgetExhausted
    ensures outcome == Recorded ==> f.bytes == old(f.bytes) + payload && f.synced == Some(f.bytes)
    ensures outcome == Recorded <==> f.faults == old(f.faults)
    ensures exists n :: 0 <= n <= |payload| && f.bytes == old(f.bytes) + payload[..n]
    ensures f.faults >= old(f.faults)
  {
    var remaining := payload;
    ghost var n := 0;
    assert f.bytes == old(f.bytes) + payload[..0];
    while remaining != ""
      invariant 0 <= n <= |payload| && remaining == payload[n..]
      invariant f.bytes == old(f.bytes) + payload[..n]
      invariant f.faults == old(f.faults)
      decreases |remaining|
    {
      var written := f.Write(remaining);
      if written < 1 {
        return Failed;
      }
      assert payload[..n] + payload[n..][..written] == payload[..n + written];
      n := n + written;
      remaining := remaining[written..];
    }
    assert payload[..n] == payload;
    var ok := f.Sync();
    outcome := if ok then Recorded else Failed;
  }
}

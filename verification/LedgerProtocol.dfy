/**
 `TransportAttemptLedger.record` as a state machine: any number of calls, in any number of
 processes, interleave one system call at a time, every system call may fail, a write may be
 short, and a process may die between any two steps.

 Assumed of the host: `O_EXCL` creation is atomic, `flock` excludes other open file
 descriptions and ends with the descriptor or the process, a close that raises has still
 released its descriptor, one `os.read` of a regular file returns all that was asked for, and
 nobody unlinks the two files.
 */
module LedgerProtocol {
  import opened Wrappers
  import opened LedgerFormat

  datatype Name = LockName | LedgerName

  datatype CallId = CallId(process: nat, serial: nat)

  datatype Call = Call(record: Record, limit: Option<nat>)

  datatype Pc =
    | OpenParent
    | OpenFile(name: Name)
    | CreateFile(name: Name)
    | CloseCreated(name: Name)
    | ReopenFile(name: Name)
    | StatFile(name: Name)
    | WaitLock
    | ReadLedger
    | CheckBudget
    | Append
    | Sync
    | CloseLedger
    | CloseLock
    | CloseParent

  /** The locals of one call: the inodes behind its two descriptors, what it read, what it still has to write. */
  datatype Locals = Locals(pc: Pc, call: Call, lock: Option<nat>, ledger: Option<nat>,
                           existing: string, remaining: string, slot: nat, succeeded: bool)

  /**
   What the calls share: the directory, the files by inode and the owner of each flock.
   `answered` is a history variable: the positions of the records whose call returned normally.
   */
  datatype Shared = Shared(names: map<Name, nat>, files: map<nat, string>, holders: map<nat, CallId>,
                           answered: set<nat>)

  datatype State = State(shared: Shared, calls: map<CallId, Locals>, started: set<CallId>)

  /** The answer of the host to one system call; `n` is the inode it creates or the bytes it writes. */
  datatype Answer = Works(n: nat) | Fails

  datatype Step =
    | Start(id: CallId, kind: string, destination: string, limit: Option<nat>)
    | Advance(id: CallId, answer: Answer)
    | Exit(process: nat)

  // ---------------------------------------------------------------- the steps

  function Content(m: Shared, ino: nat): string {
    if ino in m.files then m.files[ino] else ""
  }

  function LedgerBytes(m: Shared): string {
    if LedgerName in m.names then Content(m, m.names[LedgerName]) else ""
  }

  function Put(s: State, id: CallId, c: Locals): State {
    s.(calls := s.calls[id := c])
  }

  function End(s: State, id: CallId): State {
    s.(calls := s.calls - {id})
  }

  function Release(m: Shared, id: CallId): Shared {
    m.(holders := map i | i in m.holders && m.holders[i] != id :: m.holders[i])
  }

  /** Where the `finally` block starts. */
  function CleanupPc(c: Locals): Pc {
    if c.ledger.Some? then CloseLedger else if c.lock.Some? then CloseLock else CloseParent
  }

  function Cleanup(c: Locals): Locals {
    c.(pc := CleanupPc(c))
  }

  function Opened(c: Locals, name: Name, ino: nat): Locals {
    match name
    case LockName => c.(lock := Some(ino), pc := StatFile(LockName))
    case LedgerName => c.(ledger := Some(ino), pc := StatFile(LedgerName))
  }

  predicate BudgetLeft(call: Call, rs: seq<Record>) {
    call.record.kind == Model && call.limit.Some? ==> ModelCount(rs) < call.limit.value
  }

  function Checked(lib: Library, c: Locals): Locals {
    var decoded := Decode(lib, c.existing);
    if decoded.Some? && BudgetLeft(c.call, decoded.value)
    then c.(remaining := Payload(c.call.record), pc := Append)
    else Cleanup(c)
  }

  function Written(lib: Library, c: Locals, n: nat): Locals
    requires n <= |c.remaining|
  {
    var rest := c.remaining[n..];
    if n == 0 then Cleanup(c)
    else if rest != "" then c.(remaining := rest)
    else c.(remaining := rest, pc := Sync, slot := |Records(lib, c.existing)|)
  }

  function WriteTo(m: Shared, ledger: Option<nat>, bytes: string): Shared {
    if ledger.Some? then m.(files := m.files[ledger.value := Content(m, ledger.value) + bytes]) else m
  }

  predicate Enabled(s: State, step: Step) {
    match step
    case Start(id, _, _, limit) => id !in s.started && (limit.Some? ==> limit.value >= 1)
    case Exit(_) => true
    case Advance(id, answer) =>
      && id in s.calls
      && (answer.Works? ==>
            var c := s.calls[id];
            match c.pc
            case CreateFile(name) => name in s.shared.names || answer.n !in s.shared.files
            case WaitLock => c.lock.Some? && c.lock.value !in s.shared.holders
            case Append => answer.n <= |c.remaining|
            case _ => true)
  }

  function Apply(lib: Library, s: State, step: Step): State
    requires Enabled(s, step)
  {
    match step
    case Start(id, kind, destination, limit) =>
      var admitted := Admit(lib, kind, destination);
      if admitted.None? then s
      else
        var c := Locals(OpenParent, Call(admitted.value, limit), None, None, "", "", 0, false);
        State(s.shared, s.calls[id := c], s.started + {id})
    case Exit(process) =>
      State(s.shared.(holders := map i | i in s.shared.holders && s.shared.holders[i].process != process
                                 :: s.shared.holders[i]),
            map id | id in s.calls && id.process != process :: s.calls[id],
            s.started)
    case Advance(id, Fails) => AfterFailure(s, id)
    case Advance(id, Works(n)) => AfterSuccess(lib, s, id, n)
  }

  function AfterFailure(s: State, id: CallId): State
    requires id in s.calls
  {
    var c := s.calls[id];
    match c.pc
    case OpenParent => End(s, id)
    case CloseLedger => End(s, id)  // the lock descriptor stays open, and locked
    case CloseLock => End(s.(shared := Release(s.shared, id)), id)
    case CloseParent => End(s, id)
    case _ => Put(s, id, Cleanup(c))
  }

  function AfterSuccess(lib: Library, s: State, id: CallId, n: nat): State
    requires Enabled(s, Advance(id, Works(n)))
  {
    var c, m := s.calls[id], s.shared;
    match c.pc
    case OpenParent => Put(s, id, c.(pc := OpenFile(LockName)))
    case OpenFile(name) =>
      Put(s, id, if name in m.names then Opened(c, name, m.names[name]) else c.(pc := CreateFile(name)))
    case CreateFile(name) =>
      if name in m.names then Put(s, id, c.(pc := ReopenFile(name)))
      else Put(s.(shared := m.(names := m.names[name := n], files := m.files[n := ""])), id,
               c.(pc := CloseCreated(name)))
    case CloseCreated(name) => Put(s, id, c.(pc := ReopenFile(name)))
    case ReopenFile(name) =>
      Put(s, id, if name in m.names then Opened(c, name, m.names[name]) else Cleanup(c))
    case StatFile(LockName) => Put(s, id, c.(pc := WaitLock))
    case WaitLock =>
      Put(s.(shared := m.(holders := m.holders[c.lock.value := id])), id, c.(pc := OpenFile(LedgerName)))
    case StatFile(LedgerName) =>
      var size := if c.ledger.Some? then |Content(m, c.ledger.value)| else 0;
      Put(s, id, if size > MAX_LEDGER_BYTES then Cleanup(c) else c.(pc := ReadLedger))
    case ReadLedger =>
      var bytes := if c.ledger.Some? then Content(m, c.ledger.value) else "";
      Put(s, id, c.(existing := ReadAtMost(bytes, MAX_LEDGER_BYTES + 1), pc := CheckBudget))
    case CheckBudget => Put(s, id, Checked(lib, c))
    case Append =>
      Put(s.(shared := WriteTo(m, c.ledger, c.remaining[..n])), id, Written(lib, c, n))
    case Sync => Put(s, id, c.(succeeded := true, pc := CloseLedger))
    case CloseLedger => Put(s, id, c.(ledger := None, pc := CloseLock))
    case CloseLock => Put(s.(shared := Release(m, id)), id, c.(lock := None, pc := CloseParent))
    case CloseParent =>
      End(if c.succeeded then s.(shared := m.(answered := m.answered + {c.slot})) else s, id)
  }

  // ---------------------------------------------------------------- the invariant

  function Log(lib: Library, m: Shared): seq<Record> {
    Records(lib, LedgerBytes(m))
  }

  /** Between taking the flock and closing the ledger. */
  predicate Critical(c: Locals) {
    match c.pc
    case OpenFile(name) => name == LedgerName
    case CreateFile(name) => name == LedgerName
    case CloseCreated(name) => name == LedgerName
    case ReopenFile(name) => name == LedgerName
    case StatFile(name) => name == LedgerName
    case ReadLedger => true
    case CheckBudget => true
    case Append => true
    case Sync => true
    case CloseLedger => true
    case _ => false
  }

  predicate NeedsLedger(pc: Pc) {
    pc in {StatFile(LedgerName), ReadLedger, CheckBudget, Append, Sync, CloseLedger}
  }

  predicate NeedsLock(pc: Pc) {
    pc in {StatFile(LockName), WaitLock, CloseLock}
  }

  /** The call owns a complete record of the ledger. */
  predicate Committed(c: Locals) {
    c.pc == Sync || c.succeeded
  }

  /** A call in mid-write: the file is what it read, plus what it has written of its payload. */
  predicate Writing(lib: Library, bytes: string, c: Locals) {
    && Decode(lib, c.existing).Some?
    && BudgetLeft(c.call, Decode(lib, c.existing).value)
    && |c.existing| <= MAX_LEDGER_BYTES
    && PartWritten(c.existing, Payload(c.call.record), c.remaining, bytes)
  }

  predicate PartWritten(existing: string, payload: string, remaining: string, bytes: string) {
    && 0 < |remaining| <= |payload|
    && remaining == payload[|payload| - |remaining|..]
    && bytes == existing + payload[..|payload| - |remaining|]
  }

  predicate DescriptorsValid(m: Shared, id: CallId, c: Locals) {
    && (c.lock.Some? ==> LockName in m.names && m.names[LockName] == c.lock.value)
    && (c.ledger.Some? ==> LedgerName in m.names && m.names[LedgerName] == c.ledger.value)
    && (Critical(c) ==> c.lock.Some? && c.lock.value in m.holders && m.holders[c.lock.value] == id)
    && (c.ledger.Some? <==> NeedsLedger(c.pc))
    && (NeedsLock(c.pc) ==> c.lock.Some?)
  }

  predicate PhaseValid(lib: Library, m: Shared, c: Locals) {
    var bytes := LedgerBytes(m);
    && IsRecord(c.call.record)
    && (c.pc == ReadLedger ==> |bytes| <= MAX_LEDGER_BYTES)
    && (c.pc == CheckBudget ==> c.existing == bytes && |bytes| <= MAX_LEDGER_BYTES)
    && (c.pc == Append ==> Writing(lib, bytes, c))
    && (c.succeeded ==> c.pc in {CloseLedger, CloseLock, CloseParent})
  }

  predicate SlotValid(m: Shared, log: seq<Record>, c: Locals) {
    Committed(c) ==> c.slot < |log| && log[c.slot] == c.call.record && c.slot !in m.answered
  }

  predicate CallValid(lib: Library, m: Shared, id: CallId, c: Locals) {
    DescriptorsValid(m, id, c) && PhaseValid(lib, m, c) && SlotValid(m, Log(lib, m), c)
  }

  predicate SharedValid(lib: Library, m: Shared) {
    && (forall name :: name in m.names ==> m.names[name] in m.files)
    && (forall slot :: slot in m.answered ==> slot < |Log(lib, m)|)
  }

  ghost predicate Inv(lib: Library, s: State) {
    && SharedValid(lib, s.shared)
    && (forall id :: id in s.calls ==> id in s.started && CallValid(lib, s.shared, id, s.calls[id]))
    && (forall i :: i in s.shared.holders ==> s.shared.holders[i] in s.started)
    && DistinctSlots(s.calls)
  }

  predicate DistinctSlots(calls: map<CallId, Locals>) {
    forall id, other | id in calls && other in calls && id != other ::
      Committed(calls[id]) && Committed(calls[other]) ==> calls[id].slot != calls[other].slot
  }

  /** Nothing is running; the two files may exist already, with any content at all. */
  predicate Init(s: State) {
    && s.calls == map[] && s.started == {} && s.shared.holders == map[] && s.shared.answered == {}
    && (forall name :: name in s.shared.names ==> s.shared.names[name] in s.shared.files)
  }

  lemma InitInv(lib: Library, s: State)
    requires Init(s)
    ensures Inv(lib, s)
  {
  }

  /** Every call that holds the flock holds it on the same inode, so there is only one. */
  lemma MutualExclusion(lib: Library, s: State, id: CallId, other: CallId)
    requires Inv(lib, s) && id in s.calls && other in s.calls
    requires Critical(s.calls[id]) && Critical(s.calls[other])
    ensures id == other
  {
    assert CallValid(lib, s.shared, id, s.calls[id]) && CallValid(lib, s.shared, other, s.calls[other]);
  }
}

/**
 `_BoundedBytes` and `_run_bounded`: a supervisor that drains two pipes of a child into bounded
 sinks under several deadlines, and passes the run only on a clean record.

 Time is counted in milliseconds.  Assumed of the host: one pass of a loop takes at least one
 millisecond and at most the timeout of its `select` or `sleep` (one millisecond when that is
 0), `wait` respects its timeout, and `terminate_group` returns or raises within `groupBound`.
 */
module Supervisor {
  import opened Wrappers

  const SLICE: nat := 200
  const COOPERATIVE: nat := 15_000
  const POST_KILL: nat := 6_000
  const DRAIN: nat := 1_000
  const STDOUT_LIMIT: nat := 1_048_576
  const STDERR_LIMIT: nat := 65_536

  // ---------------------------------------------------------------- the bounded sink

  function Join(chunks: seq<string>): string {
    if chunks == [] then "" else Join(chunks[..|chunks| - 1]) + chunks[|chunks| - 1]
  }

  function Front(bytes: string, limit: nat): string {
    if |bytes| <= limit then bytes else bytes[..limit]
  }

  lemma JoinOne(chunks: seq<string>, chunk: string)
    ensures Join(chunks + [chunk]) == Join(chunks) + chunk
  {
    assert (chunks + [chunk])[..|chunks|] == chunks;
  }

  /** `fed` is everything the sink was ever given. */
  class BoundedBytes {
    const limit: nat
    var chunks: seq<string>
    var retained: nat
    var total: nat
    ghost var fed: string

    /** It keeps exactly the front of what it was fed, and counts all of it. */
    ghost predicate Valid()
      reads this
    {
      Join(chunks) == Front(fed, limit) && retained == |Front(fed, limit)| && total == |fed|
    }

    constructor (limit: nat)
      ensures Valid() && fed == "" && this.limit == limit
    {
      this.limit := limit;
      chunks, retained, total, fed := [], 0, 0, "";
    }

    method Feed(chunk: string)
      requires Valid()
      modifies this
      ensures Valid() && fed == old(fed) + chunk
    {
      total := total + |chunk|;
      fed := fed + chunk;
      if limit <= retained {
        assert Front(fed, limit) == Front(old(fed), limit);
        return;
      }
      var room := limit - retained;
      var kept := if |chunk| <= room then chunk else chunk[..room];
      JoinOne(chunks, kept);
      assert Front(fed, limit) == Front(old(fed), limit) + kept;
      chunks := chunks + [kept];
      retained := retained + |kept|;
    }

    predicate Overflowed()
      reads this
    {
      total > limit
    }

    method Text() returns (text: string)
      requires Valid()
      ensures text == Front(fed, limit) && (Overflowed() <==> text != fed)
    {
      text := Join(chunks);
    }
  }

  // ---------------------------------------------------------------- the verdict

  datatype Field<+T> = Missing | BadType | Good(value: T)

  /** One parsed line of the child's output. */
  datatype ChildRecord =
    | NotObject
    | Object(journey: Field<string>, target: Field<bool>, cleanup: Field<bool>, codes: Field<seq<string>>,
             details: Field<()>)

  /** What parsing the output gives for its non-blank lines; None when it raises anything but a JSONDecodeError. */
  type Parse = string -> Option<seq<Option<ChildRecord>>>

  /**
   What the supervisor saw, in the order in which it looked: `lines` are the non-blank lines of
   the retained output, None where `json.loads` raises a JSONDecodeError.
   */
  datatype Facts = Facts(groupKnown: bool, timeout: bool, fullBefore: bool, terminationFailed: bool,
                         workerTerminated: bool, full: bool, exit: Option<int>, lines: seq<Option<ChildRecord>>)

  datatype Verdict = Verdict(timeout: bool, workerTerminated: bool, cleanup: bool, target: bool, passed: bool,
                             codes: seq<string>)

  function Canonical(journey: string): string {
    if journey == "f2" then "f2_restart_outclosing"
    else if journey == "d06" then "d06_submit_readback_cleanup"
    else journey
  }

  function When(b: bool, code: string): seq<string> {
    if b then [code] else []
  }

  function Parsed(lines: seq<Option<ChildRecord>>): seq<ChildRecord> {
    if lines == [] then []
    else
      var n := |lines| - 1;
      Parsed(lines[..n]) + (if lines[n].Some? then [lines[n].value] else [])
  }

  function BadLines(lines: seq<Option<ChildRecord>>): seq<string> {
    if lines == [] then []
    else BadLines(lines[..|lines| - 1]) + When(lines[|lines| - 1].None?, "child_non_json_output")
  }

  function ExitCodes(exit: Option<int>): seq<string> {
    if exit.None? then ["child_exit_unobserved"]
    else if exit.value < 0 then ["child_exit_signal"]
    else When(exit.value != 0, "child_exit_nonzero")
  }

  predicate Complete(r: ChildRecord) {
    && r.Object? && !r.journey.Missing? && !r.target.Missing? && !r.cleanup.Missing? && !r.codes.Missing?
    && !r.details.Missing?
  }

  predicate WellTyped(r: ChildRecord) {
    Complete(r) && r.target.Good? && r.cleanup.Good? && r.codes.Good?
  }

  /** The protocol check of the child's records: (codes, cleanup confirmed, targets passed). */
  function Protocol(lines: seq<Option<ChildRecord>>, journey: string): (seq<string>, bool, bool) {
    var reports := Parsed(lines);
    var single := BadLines(lines) + When(|reports| != 1, "child_protocol_no_single_record");
    if |reports| != 1 || reports[0].NotObject? then (single + ["child_protocol_invalid_record"], false, false)
    else
      var r := reports[0];
      if !Complete(r) then (single + ["child_protocol_missing_fields"], false, false)
      else if !WellTyped(r) then (single + ["child_protocol_bad_types"], false, false)
      else
        var own := if |r.codes.value| <= 8 then r.codes.value else r.codes.value[..8];
        (single + When(r.journey != Good(Canonical(journey)), "child_journey_mismatch") + own,
         r.cleanup.value, r.target.value)
  }

  /** The codes that do not come from the child's output, in their order. */
  function HostCodes(f: Facts): seq<string> {
    When(!f.groupKnown, "group_identity_unverified")
    + When(f.timeout, "work_budget_timeout")
    + When(f.fullBefore, "output_limit")
    + When(f.terminationFailed, "group_termination_unverified")
    + When(!f.workerTerminated, "worker_not_terminated")
    + When(f.full && !f.fullBefore, "output_limit")
    + ExitCodes(f.exit)
  }

  function Judge(f: Facts, journey: string): Verdict {
    var (protocol, cleanup, target) := Protocol(f.lines, journey);
    var codes := HostCodes(f) + protocol;
    Verdict(f.timeout, f.workerTerminated, cleanup, target,
            !f.timeout && f.workerTerminated && cleanup && target && codes == [], codes)
  }

  /** Everything that has to be right, and nothing else. */
  predicate Clean(f: Facts, journey: string) {
    && f.groupKnown && f.workerTerminated && !f.timeout && !f.terminationFailed && !f.fullBefore && !f.full
    && f.exit == Some(0)
    && |f.lines| == 1 && f.lines[0].Some? && IsCleanRecord(f.lines[0].value, journey)
  }

  /** The name under which the child reports a journey. */
  predicate IsNameOf(journey: string, name: string) {
    && (journey == "f2" ==> name == "f2_restart_outclosing")
    && (journey == "d06" ==> name == "d06_submit_readback_cleanup")
    && (journey != "f2" && journey != "d06" ==> name == journey)
  }

  lemma CanonicalIs(journey: string, name: string)
    ensures IsNameOf(journey, name) <==> name == Canonical(journey)
  {
  }

  /** All five fields are there. */
  predicate HasAllFields(r: ChildRecord) {
    && r.Object? && r.journey != Missing && r.target != Missing && r.cleanup != Missing && r.codes != Missing
    && r.details != Missing
  }

  /** All five fields are there; two are booleans and one is a list. */
  predicate HasGoodFields(r: ChildRecord) {
    HasAllFields(r) && r.target != BadType && r.cleanup != BadType && r.codes != BadType
  }

  /** The one record that a passing child prints. */
  predicate IsCleanRecord(r: ChildRecord, journey: string) {
    && HasGoodFields(r) && r.journey.Good? && IsNameOf(journey, r.journey.value)
    && r.target == Good(true) && r.cleanup == Good(true) && r.codes == Good([])
  }

  // ---------------------------------------------------------------- what each code says

  /** Line i, and no other, gave a record, and it is this one. */
  predicate IsOnlyRecord(lines: seq<Option<ChildRecord>>, i: nat, r: ChildRecord) {
    i < |lines| && lines[i] == Some(r) && forall j :: 0 <= j < |lines| && j != i ==> lines[j].None?
  }

  ghost predicate OnlyRecord(lines: seq<Option<ChildRecord>>, r: ChildRecord) {
    exists i :: IsOnlyRecord(lines, i, r)
  }

  lemma {:induction false} NoneParsed(lines: seq<Option<ChildRecord>>)
    ensures Parsed(lines) == [] <==> forall i :: 0 <= i < |lines| ==> lines[i].None?
  {
    if lines != [] {
      NoneParsed(lines[..|lines| - 1]);
      assert forall i :: 0 <= i < |lines| - 1 ==> lines[..|lines| - 1][i] == lines[i];
    }
  }

  lemma {:induction false} OneParsed(lines: seq<Option<ChildRecord>>) returns (i: nat)
    requires |Parsed(lines)| == 1
    ensures IsOnlyRecord(lines, i, Parsed(lines)[0])
    decreases |lines|
  {
    var n := |lines| - 1;
    assert forall j :: 0 <= j < n ==> lines[..n][j] == lines[j];
    if lines[n].Some? {
      NoneParsed(lines[..n]);
      i := n;
    } else {
      i := OneParsed(lines[..n]);
    }
  }

  lemma {:induction false} OnlyIsParsed(lines: seq<Option<ChildRecord>>, i: nat, r: ChildRecord)
    requires IsOnlyRecord(lines, i, r)
    ensures Parsed(lines) == [r]
    decreases |lines|
  {
    var n := |lines| - 1;
    assert forall j :: 0 <= j < n ==> lines[..n][j] == lines[j];
    if i == n {
      NoneParsed(lines[..n]);
    } else {
      assert lines[n].None?;
      OnlyIsParsed(lines[..n], i, r);
    }
  }

  lemma OnlyIffParsed(lines: seq<Option<ChildRecord>>)
    ensures forall r :: OnlyRecord(lines, r) <==> Parsed(lines) == [r]
  {
    forall r
      ensures OnlyRecord(lines, r) <==> Parsed(lines) == [r]
    {
      if Parsed(lines) == [r] {
        var i := OneParsed(lines);
      }
      if OnlyRecord(lines, r) {
        var i :| IsOnlyRecord(lines, i, r);
        OnlyIsParsed(lines, i, r);
      }
    }
  }

  lemma {:induction false} BadLinesSay(lines: seq<Option<ChildRecord>>, c: string)
    ensures c in BadLines(lines) <==> c == "child_non_json_output" && exists i :: 0 <= i < |lines| && lines[i].None?
    decreases |lines|
  {
    if lines != [] {
      var n := |lines| - 1;
      BadLinesSay(lines[..n], c);
      assert forall i :: 0 <= i < n ==> lines[..n][i] == lines[i];
      assert (exists i :: 0 <= i < |lines| && lines[i].None?)
        <==> (exists i :: 0 <= i < n && lines[i].None?) || lines[n].None?;
    }
  }

  /** The code is one of the first eight of the child's own. */
  ghost predicate ChildSays(r: ChildRecord, c: string)
    requires HasGoodFields(r)
  {
    exists k :: 0 <= k < 8 && k < |r.codes.value| && r.codes.value[k] == c
  }

  /** What the only record is the reason for. */
  ghost predicate RecordDue(r: ChildRecord, journey: string, c: string) {
    || (c == "child_protocol_invalid_record" && r == NotObject)
    || (c == "child_protocol_missing_fields" && r != NotObject && !HasAllFields(r))
    || (c == "child_protocol_bad_types" && HasAllFields(r) && !HasGoodFields(r))
    || (HasGoodFields(r) && c == "child_journey_mismatch"
        && !(r.journey.Good? && IsNameOf(journey, r.journey.value)))
    || (HasGoodFields(r) && ChildSays(r, c))
  }

  /** What the lines are the reason for. */
  ghost predicate LinesDue(lines: seq<Option<ChildRecord>>, journey: string, c: string) {
    || (c == "child_non_json_output" && exists i :: 0 <= i < |lines| && lines[i].None?)
    || (c == "child_protocol_no_single_record" && !exists r :: OnlyRecord(lines, r))
    || (c == "child_protocol_invalid_record" && !exists r :: OnlyRecord(lines, r))
    || (exists r :: OnlyRecord(lines, r) && RecordDue(r, journey, c))
  }

  lemma OwnCodes(codes: seq<string>, c: string)
    ensures c in (if |codes| <= 8 then codes else codes[..8]) <==>
            exists k :: 0 <= k < 8 && k < |codes| && codes[k] == c
  {
    var own := if |codes| <= 8 then codes else codes[..8];
    forall k | 0 <= k < 8 && k < |codes|
      ensures own[k] == codes[k]
    {
    }
    if c in own {
      var k :| 0 <= k < |own| && own[k] == c;
      assert codes[k] == c;
    }
  }

  /** The protocol check of one record. */
  lemma RecordSays(lines: seq<Option<ChildRecord>>, journey: string, r: ChildRecord, c: string)
    requires Parsed(lines) == [r]
    ensures c in Protocol(lines, journey).0 <==> c in BadLines(lines) || RecordDue(r, journey, c)
    ensures Protocol(lines, journey).1 <==> HasGoodFields(r) && r.cleanup == Good(true)
    ensures Protocol(lines, journey).2 <==> HasGoodFields(r) && r.target == Good(true)
  {
    if HasGoodFields(r) {
      OwnCodes(r.codes.value, c);
      if r.journey.Good? {
        CanonicalIs(journey, r.journey.value);
      }
    }
  }

  lemma ProtocolSays(lines: seq<Option<ChildRecord>>, journey: string, c: string)
    ensures c in Protocol(lines, journey).0 <==> LinesDue(lines, journey, c)
    ensures Protocol(lines, journey).1 <==> Confirms(lines)
    ensures Protocol(lines, journey).2 <==> Passes(lines)
  {
    OnlyIffParsed(lines);
    BadLinesSay(lines, c);
    if |Parsed(lines)| == 1 {
      var r := Parsed(lines)[0];
      assert OnlyRecord(lines, r);
      RecordSays(lines, journey, r, c);
    } else {
      assert !exists r :: OnlyRecord(lines, r);
    }
  }

  /** The only record has all its fields, of the right types, and confirms the cleanup. */
  ghost predicate Confirms(lines: seq<Option<ChildRecord>>) {
    exists r :: OnlyRecord(lines, r) && HasGoodFields(r) && r.cleanup == Good(true)
  }

  ghost predicate Passes(lines: seq<Option<ChildRecord>>) {
    exists r :: OnlyRecord(lines, r) && HasGoodFields(r) && r.target == Good(true)
  }

  lemma {:induction false} NoBadLines(lines: seq<Option<ChildRecord>>)
    ensures BadLines(lines) == [] <==> forall i :: 0 <= i < |lines| ==> lines[i].Some?
    ensures BadLines(lines) == [] ==> |Parsed(lines)| == |lines|
  {
    if lines != [] {
      var n := |lines| - 1;
      NoBadLines(lines[..n]);
      if BadLines(lines) == [] {
        assert lines[n].Some?;
        assert forall i :: 0 <= i < n ==> lines[i] == lines[..n][i];
      }
      if forall i :: 0 <= i < |lines| ==> lines[i].Some? {
        assert forall i :: 0 <= i < n ==> lines[..n][i] == lines[i];
      }
    }
  }

  /** The protocol is silent exactly on one well-typed record of the right journey without codes. */
  lemma ProtocolSilentIff(lines: seq<Option<ChildRecord>>, journey: string)
    ensures Protocol(lines, journey) == ([], true, true) <==>
      |lines| == 1 && lines[0].Some? && IsCleanRecord(lines[0].value, journey)
  {
    NoBadLines(lines);
    if |lines| == 1 {
      assert Parsed(lines[..0]) == [];
      assert BadLines(lines[..0]) == [];
    }
  }

  /** A verdict passes if and only if the run was clean in every respect. */
  lemma PassIffClean(f: Facts, journey: string)
    ensures Judge(f, journey).passed <==> Clean(f, journey)
  {
    ProtocolSilentIff(f.lines, journey);
  }

  // ---------------------------------------------------------------- the supervisor

  datatype Stream = Out | Err

  /** What one `read1` of a ready stream gives. */
  datatype Chunk = Bytes(bytes: string) | EndOfStream | Unreadable

  /** One pipe: what was read from it, what waits in it, and whether all its writers are gone. */
  datatype Pipe = Pipe(read: string, waiting: string, closed: bool)

  /** From p to q more may have been written, and the last writer may have gone. */
  predicate Wrote(p: Pipe, q: Pipe) {
    q.read == p.read && p.waiting <= q.waiting && (p.closed ==> q == p)
  }

  /** `select` reports it. */
  predicate Readable(p: Pipe) {
    p.waiting != "" || p.closed
  }

  /** The child, its process group and the clock; the ghost fields are what the supervisor has seen of them. */
  class Host {
    const groupBound: nat
    var now: nat
    var exit: Option<int>
    /** When a poll first gave the exit status. */
    ghost var seenAt: Option<nat>
    ghost var identified: bool
    ghost var groupSeenGone: bool
    ghost var probeRaised: bool
    ghost var terminationRaised: bool
    /** When the termination of the group was begun. */
    ghost var terminatedAt: Option<nat>
    var out: Pipe
    var err: Pipe
    /** What the poll gave by which the worker is taken to have terminated. */
    ghost var exitAtCheck: Option<int>
    /** Whether the last `select` raised, and when the last drain was begun. */
    ghost var selectRaised: bool
    ghost var drainFrom: Option<nat>

    /** Nothing has been seen of the child yet. */
    ghost predicate Fresh()
      reads this
    {
      && exit == None && seenAt == None && !identified && !groupSeenGone && !probeRaised && !terminationRaised
      && terminatedAt == None && exitAtCheck == None && drainFrom == None && out.read == "" && err.read == ""
    }

    constructor (groupBound: nat)
      ensures this.groupBound == groupBound && Fresh()
    {
      this.groupBound := groupBound;
      now := 0;
      exit, seenAt, terminatedAt, exitAtCheck := None, None, None, None;
      identified, groupSeenGone, probeRaised, terminationRaised := false, false, false, false;
      out, err := Pipe("", "", false), Pipe("", "", false);
      selectRaised, drainFrom := false, None;
    }

    /** The child may exit at any moment; its status never changes afterwards. */
    method MayExit()
      modifies this`exit
      ensures old(exit).Some? ==> exit == old(exit)
    {
      var exits: bool := *;
      if exit.None? && exits {
        var code: int := *;
        exit := Some(code);
      }
    }

    /** `child.poll()`. */
    method Poll() returns (status: Option<int>)
      modifies this`exit, this`seenAt
      ensures status == exit && (old(exit).Some? ==> exit == old(exit))
      ensures seenAt == if old(seenAt).None? && status.Some? then Some(now) else old(seenAt)
    {
      MayExit();
      status := exit;
      if seenAt.None? && status.Some? {
        seenAt := Some(now);
      }
    }

    /** The poll by which the worker is taken to have terminated. */
    method PollAtCheck() returns (status: Option<int>)
      modifies this`exit, this`seenAt, this`exitAtCheck
      ensures status == exit == exitAtCheck && (old(exit).Some? ==> exit == old(exit))
      ensures seenAt == if old(seenAt).None? && status.Some? then Some(now) else old(seenAt)
    {
      status := Poll();
      exitAtCheck := status;
    }

    /** `verified_group_identity` answers or raises. */
    method GroupKnown() returns (known: bool)
      modifies this`identified
      ensures known == identified
    {
      known := *;
      identified := known;
    }

    /** `group_alive`; None when it raises. */
    method GroupAlive() returns (alive: Option<bool>)
      modifies this`groupSeenGone, this`probeRaised
      ensures groupSeenGone <==> old(groupSeenGone) || alive == Some(false)
      ensures probeRaised <==> old(probeRaised) || alive == None
    {
      alive := *;
      groupSeenGone := groupSeenGone || alive == Some(false);
      probeRaised := probeRaised || alive == None;
    }

    /** The child and its descendants may write to both pipes, and close them. */
    method MayWrite()
      modifies this`out, this`err
      ensures Wrote(old(out), out) && Wrote(old(err), err)
    {
      var more, noise: string := *, *;
      var outEnds, errEnds: bool := *, *;
      if !out.closed {
        out := out.(waiting := out.waiting + more, closed := outEnds);
      }
      if !err.closed {
        err := err.(waiting := err.waiting + noise, closed := errEnds);
      }
    }

    /** Time passes; meanwhile the child may write and exit. */
    method Elapse(least: nat, most: nat)
      requires least <= most
      modifies this`now, this`exit, this`out, this`err
      ensures old(now) + least <= now <= old(now) + most
      ensures old(exit).Some? ==> exit == old(exit)
      ensures Wrote(old(out), out) && Wrote(old(err), err)
    {
      var d: nat := *;
      now := now + if least <= d <= most then d else most;
      MayWrite();
      MayExit();
    }

    /** `terminate_group`; false when it raises. */
    method Terminate() returns (ok: bool)
      modifies this`now, this`exit, this`out, this`err, this`terminationRaised, this`terminatedAt
      ensures terminatedAt == Some(old(now)) && Wrote(old(out), out) && Wrote(old(err), err)
      ensures old(now) <= now <= old(now) + groupBound && (old(exit).Some? ==> exit == old(exit))
      ensures terminationRaised <==> old(terminationRaised) || !ok
    {
      terminatedAt := Some(now);
      Elapse(0, groupBound);
      ok := *;
      terminationRaised := terminationRaised || !ok;
    }

    function PipeOf(stream: Stream): Pipe
      reads this
    {
      if stream.Out? then out else err
    }

    /** `select` once its waiting is over; it reports exactly what can be read, or raises. */
    method Select(live: set<Stream>) returns (ready: set<Stream>)
      modifies this`selectRaised
      ensures ready <= live && forall s :: s in ready ==> Readable(PipeOf(s))
      ensures !selectRaised ==> forall s :: s in live && Readable(PipeOf(s)) ==> s in ready
    {
      ready := {};
      var raises: bool := *;
      selectRaised := raises;
      if !raises {
        ready := set s | s in live && Readable(PipeOf(s));
      }
    }

    /** `stream.read1(65536)` on a stream that `select` reported: at least one byte, unless it has ended or raises. */
    method ReadPipe(stream: Stream) returns (chunk: Chunk)
      requires Readable(PipeOf(stream))
      modifies this`out, this`err
      ensures if stream.Out? then err == old(err) else out == old(out)
      ensures match chunk
              case Bytes(bytes) =>
                && bytes != "" && PipeOf(stream).read == old(PipeOf(stream)).read + bytes
                && old(PipeOf(stream)).waiting == bytes + PipeOf(stream).waiting
                && PipeOf(stream).closed == old(PipeOf(stream)).closed
              case EndOfStream =>
                PipeOf(stream) == old(PipeOf(stream)) && PipeOf(stream).closed && PipeOf(stream).waiting == ""
              case Unreadable => PipeOf(stream) == old(PipeOf(stream))
    {
      var p := PipeOf(stream);
      var raises: bool := *;
      if raises {
        return Unreadable;
      }
      if p.waiting == "" {
        return EndOfStream;
      }
      var n: int := *;
      if n <= 0 || 65_536 < n || |p.waiting| < n {
        n := 1;
      }
      chunk := Bytes(p.waiting[..n]);
      p := p.(read := p.read + p.waiting[..n], waiting := p.waiting[n..]);
      if stream.Out? {
        out := p;
      } else {
        err := p;
      }
    }

    /** The last drain begins. */
    ghost method BeginDrain()
      modifies this`drainFrom
      ensures drainFrom == Some(now)
    {
      drainFrom := Some(now);
    }
  }

  /** Both sinks were fed exactly what was read of the child. */
  ghost predicate FedAll(host: Host, out: BoundedBytes, err: BoundedBytes)
    reads host, out, err
  {
    out != err && out.Valid() && err.Valid() && out.fed == host.out.read && err.fed == host.err.read
  }

  /** A stream that is no longer looked at has ended, and everything in it was read. */
  ghost predicate EndedBut(host: Host, live: set<Stream>)
    reads host
  {
    forall s :: s !in live ==> host.PipeOf(s).closed && host.PipeOf(s).waiting == ""
  }

  /** Nothing that was written waits to be read. */
  ghost predicate AllRead(host: Host)
    reads host
  {
    host.out.waiting == "" && host.err.waiting == ""
  }

  /** `_read_available`: what one stream has is fed to its sink; a stream at its end is live no more. */
  method ReadAvailable(host: Host, stream: Stream, live: set<Stream>, out: BoundedBytes, err: BoundedBytes)
      returns (still: set<Stream>)
    requires FedAll(host, out, err) && EndedBut(host, live) && stream in live && Readable(host.PipeOf(stream))
    modifies host`out, host`err, out, err
    ensures FedAll(host, out, err) && EndedBut(host, still) && still <= live
    ensures |old(out.fed)| <= |out.fed| && |old(err.fed)| <= |err.fed|
    ensures forall s :: s != stream ==> host.PipeOf(s) == old(host.PipeOf(s)) && (s in live ==> s in still)
  {
    still := live;
    var chunk := host.ReadPipe(stream);
    assert host.PipeOf(Out) == host.out && host.PipeOf(Err) == host.err;
    if chunk.Bytes? {
      if stream.Out? {
        out.Feed(chunk.bytes);
      } else {
        err.Feed(chunk.bytes);
      }
    } else if chunk.EndOfStream? {
      still := still - {stream};
    }
  }

  /** Every stream that `select` reports, in order. */
  method ReadReady(host: Host, live: set<Stream>, out: BoundedBytes, err: BoundedBytes)
      returns (still: set<Stream>, ready: bool)
    requires FedAll(host, out, err) && EndedBut(host, live)
    modifies host`selectRaised, host`out, host`err, out, err
    ensures FedAll(host, out, err) && EndedBut(host, still) && still <= live
    ensures |old(out.fed)| <= |out.fed| && |old(err.fed)| <= |err.fed|
    ensures !ready ==> host.selectRaised || AllRead(host)
  {
    var reported := host.Select(live);
    still, ready := live, reported != {};
    if !ready {
      assert !host.selectRaised ==> forall s :: s in live ==> !Readable(host.PipeOf(s));
      assert !host.selectRaised ==> host.PipeOf(Out).waiting == "" && host.PipeOf(Err).waiting == "";
      return;
    }
    if Out in reported {
      still := ReadAvailable(host, Out, still, out, err);
    }
    if Err in reported {
      still := ReadAvailable(host, Err, still, out, err);
    }
  }

  /** `_drain_once`: it waits for at most a slice, and reads what there is then. */
  method DrainOnce(host: Host, live: set<Stream>, out: BoundedBytes, err: BoundedBytes) returns (still: set<Stream>)
    requires FedAll(host, out, err) && EndedBut(host, live)
    modifies host`now, host`exit, host`selectRaised, host`out, host`err, out, err
    ensures FedAll(host, out, err) && EndedBut(host, still) && old(host.now) < host.now <= old(host.now) + SLICE
    ensures old(host.exit).Some? ==> host.exit == old(host.exit)
  {
    host.Elapse(1, SLICE);
    var ready;
    still, ready := ReadReady(host, live, out, err);
  }

  /** The work loop: passes of `_drain_once` until a poll gives the exit status or the deadline is over. */
  method DrainWork(host: Host, deadline: nat, live: set<Stream>, out: BoundedBytes, err: BoundedBytes)
      returns (still: set<Stream>)
    requires FedAll(host, out, err) && EndedBut(host, live) && host.seenAt.None? && host.now < deadline
    modifies host`now, host`exit, host`seenAt, host`selectRaised, host`out, host`err, out, err
    ensures FedAll(host, out, err) && EndedBut(host, still) && old(host.now) <= host.now
    ensures if host.seenAt.Some? then host.seenAt.value == host.now < deadline && host.exit.Some?
            else deadline <= host.now <= deadline + SLICE
  {
    still := live;
    while true
      invariant FedAll(host, out, err) && EndedBut(host, still)
      invariant host.seenAt.None? && old(host.now) <= host.now < deadline
      decreases deadline - host.now
    {
      var status := host.Poll();
      if status.Some? {
        return;
      }
      still := DrainOnce(host, still, out, err);
      if deadline <= host.now {
        return;
      }
    }
  }

  /** The cooperative loop, which polls once more after its deadline; time stands still once the exit is seen. */
  method DrainCooperative(host: Host, deadline: nat, live: set<Stream>, out: BoundedBytes, err: BoundedBytes)
      returns (still: set<Stream>)
    requires FedAll(host, out, err) && EndedBut(host, live)
    requires host.now <= deadline && (host.seenAt.Some? ==> host.exit.Some?)
    modifies host`now, host`exit, host`seenAt, host`selectRaised, host`out, host`err, out, err
    ensures FedAll(host, out, err) && EndedBut(host, still) && old(host.now) <= host.now <= deadline + SLICE
    ensures host.seenAt.None? ==> deadline <= host.now
    ensures host.seenAt.Some? ==> host.exit.Some?
    ensures old(host.seenAt).Some? ==> host.seenAt == old(host.seenAt)
    ensures old(host.seenAt).None? && host.seenAt.Some? ==> host.seenAt.value == host.now
    ensures old(host.exit).Some? ==> host.exit == old(host.exit) && host.now == old(host.now)
  {
    still := live;
    var status := host.Poll();
    while status.None? && host.now < deadline
      invariant FedAll(host, out, err) && EndedBut(host, still) && old(host.now) <= host.now <= deadline + SLICE
      invariant status == host.exit && (status.None? ==> host.seenAt == old(host.seenAt))
      invariant host.seenAt.Some? ==> host.exit.Some?
      invariant old(host.seenAt).Some? ==> host.seenAt == old(host.seenAt)
      invariant old(host.seenAt).None? && status.Some? ==> host.seenAt == Some(host.now)
      invariant old(host.exit).Some? ==> host.exit == old(host.exit) && host.now == old(host.now)
      decreases deadline - host.now, if status.None? then 1 else 0
    {
      still := DrainOnce(host, still, out, err);
      status := host.Poll();
    }
  }

  /**
   The last, non-blocking drain: it ends with everything read that was written, unless `select`
   raises or its own deadline is over.
   */
  method DrainRest(host: Host, live: set<Stream>, out: BoundedBytes, err: BoundedBytes)
    requires FedAll(host, out, err) && EndedBut(host, live)
    modifies host`now, host`exit, host`selectRaised, host`drainFrom, host`out, host`err, out, err
    ensures FedAll(host, out, err) && old(host.now) <= host.now <= old(host.now) + DRAIN && Drained(host)
    ensures old(host.exit).Some? ==> host.exit == old(host.exit)
    ensures |old(out.fed)| <= |out.fed| && |old(err.fed)| <= |err.fed|
  {
    host.BeginDrain();
    var deadline := host.now + DRAIN;
    var still := live;
    while still != {} && host.now < deadline
      invariant FedAll(host, out, err) && EndedBut(host, still) && old(host.now) <= host.now <= deadline
      invariant host.drainFrom == Some(old(host.now))
      invariant old(host.exit).Some? ==> host.exit == old(host.exit)
      invariant |old(out.fed)| <= |out.fed| && |old(err.fed)| <= |err.fed|
      decreases deadline - host.now
    {
      var ready;
      still, ready := ReadReady(host, still, out, err);
      if !ready {
        return;
      }
      host.Elapse(1, 1);
    }
    assert still == {} ==> host.PipeOf(Out).waiting == "" && host.PipeOf(Err).waiting == "";
  }

  /** The last drain has read everything, or could not. */
  ghost predicate Drained(host: Host)
    reads host
  {
    host.drainFrom.Some? && (AllRead(host) || host.selectRaised || host.drainFrom.value + DRAIN <= host.now)
  }

  /** A poll gave the exit status before `deadline`. */
  ghost predicate SeenBefore(host: Host, deadline: int)
    reads host
  {
    host.seenAt.Some? && host.seenAt.value < deadline
  }

  /** What the run's facts are about. */
  ghost predicate Seen(f: Facts, host: Host, deadline: int, parse: Parse)
    reads host
  {
    && f.groupKnown == host.identified
    && (f.timeout <==> !SeenBefore(host, deadline))
    && f.terminationFailed == host.terminationRaised
    && (f.workerTerminated <==> host.exitAtCheck.Some? && (host.identified ==> host.groupSeenGone))
    && (f.workerTerminated ==> host.exit.Some?)
    && (!f.timeout ==> (f.workerTerminated <==> (host.identified ==> host.groupSeenGone)) && !f.terminationFailed)
    && (f.full <==> |host.out.read| > STDOUT_LIMIT || |host.err.read| > STDERR_LIMIT)
    && (f.fullBefore ==> f.full)
    && f.exit == host.exit
    && Some(f.lines) == parse(Front(host.out.read, STDOUT_LIMIT))
  }

  /** A stream gave more bytes than its sink retains. */
  ghost predicate Overflow(host: Host)
    reads host
  {
    |host.out.read| > 1_048_576 || |host.err.read| > 65_536
  }

  /** When a verdict carries the code c. */
  ghost predicate Due(host: Host, deadline: int, terminated: bool, lines: seq<Option<ChildRecord>>, journey: string,
                      c: string)
    reads host
  {
    || (c == "group_identity_unverified" && !host.identified)
    || (c == "work_budget_timeout" && !SeenBefore(host, deadline))
    || (c == "output_limit" && Overflow(host))
    || (c == "group_termination_unverified" && host.terminationRaised)
    || (c == "worker_not_terminated" && !terminated)
    || (c == "child_exit_unobserved" && host.exit.None?)
    || (c == "child_exit_signal" && host.exit.Some? && host.exit.value < 0)
    || (c == "child_exit_nonzero" && host.exit.Some? && host.exit.value > 0)
    || LinesDue(lines, journey, c)
  }

  /** Each flag of the verdict, and each of its codes, says what the supervisor saw. */
  ghost predicate Tells(v: Verdict, host: Host, deadline: int, lines: seq<Option<ChildRecord>>, journey: string)
    reads host
  {
    && (v.timeout <==> !SeenBefore(host, deadline))
    && (v.workerTerminated <==> host.exitAtCheck.Some? && (host.identified ==> host.groupSeenGone))
    && (v.cleanup <==> Confirms(lines)) && (v.target <==> Passes(lines))
    && forall c :: c in v.codes <==> Due(host, deadline, v.workerTerminated, lines, journey, c)
  }

  lemma ExitSays(exit: Option<int>, c: string)
    ensures c in ExitCodes(exit) <==>
      || (c == "child_exit_unobserved" && exit.None?)
      || (c == "child_exit_signal" && exit.Some? && exit.value < 0)
      || (c == "child_exit_nonzero" && exit.Some? && exit.value > 0)
  {
  }

  lemma WhenSays(b: bool, code: string, c: string)
    ensures c in When(b, code) <==> b && c == code
  {
  }

  lemma HostSays(f: Facts, c: string)
    ensures c in HostCodes(f) <==>
      || (c == "group_identity_unverified" && !f.groupKnown)
      || (c == "work_budget_timeout" && f.timeout)
      || (c == "output_limit" && (f.fullBefore || f.full))
      || (c == "group_termination_unverified" && f.terminationFailed)
      || (c == "worker_not_terminated" && !f.workerTerminated)
      || c in ExitCodes(f.exit)
  {
    WhenSays(!f.groupKnown, "group_identity_unverified", c);
    WhenSays(f.timeout, "work_budget_timeout", c);
    WhenSays(f.fullBefore, "output_limit", c);
    WhenSays(f.terminationFailed, "group_termination_unverified", c);
    WhenSays(!f.workerTerminated, "worker_not_terminated", c);
    WhenSays(f.full && !f.fullBefore, "output_limit", c);
  }

  lemma JudgeTells(f: Facts, host: Host, journey: string, deadline: int, parse: Parse)
    requires Seen(f, host, deadline, parse)
    ensures Tells(Judge(f, journey), host, deadline, f.lines, journey)
  {
    forall c: string
      ensures c in Judge(f, journey).codes
         <==> Due(host, deadline, Judge(f, journey).workerTerminated, f.lines, journey, c)
    {
      ProtocolSays(f.lines, journey, c);
      HostSays(f, c);
      ExitSays(f.exit, c);
    }
    ProtocolSays(f.lines, journey, "");
  }

  /** What a verdict is, for the deadline of its run. */
  ghost predicate Answers(v: Verdict, f: Facts, host: Host, deadline: int, journey: string, parse: Parse)
    reads host
  {
    && v == Judge(f, journey) && Seen(f, host, deadline, parse)
    && Tells(v, host, deadline, f.lines, journey)
    && (v.passed <==> WentWell(host, journey, deadline, parse))
    && (v.passed ==> host.now < deadline + DRAIN)
  }

  /** Everything that has to go right for a run to pass. */
  ghost predicate WentWell(host: Host, journey: string, deadline: int, parse: Parse)
    reads host
  {
    var parsed := parse(Front(host.out.read, STDOUT_LIMIT));
    var lines := if parsed.Some? then parsed.value else [];
    && SeenBefore(host, deadline) && host.exit == Some(0) && host.identified && host.groupSeenGone
    && |host.out.read| <= STDOUT_LIMIT && |host.err.read| <= STDERR_LIMIT
    && |lines| == 1 && lines[0].Some? && IsCleanRecord(lines[0].value, journey)
  }

  lemma CleanIffWell(f: Facts, host: Host, journey: string, deadline: int, parse: Parse)
    requires Seen(f, host, deadline, parse)
    ensures Judge(f, journey).passed <==> WentWell(host, journey, deadline, parse)
  {
    PassIffClean(f, journey);
  }

  /**
   `_run_bounded` on a child just started: it comes back in time, and without a verdict exactly when
   the liveness probe of the group raises, or `json.loads` something other than a JSONDecodeError
   (`parse` is None then), as on a number of too many digits or too deep a nesting.  The verdict is
   `Judge` of what was seen, and it passes exactly when everything went well, which includes an exit
   that was seen before the deadline.  A known group is terminated exactly when its child has not
   exited after the cooperation time.  What was written is read to the end, unless `select` raises
   or the last drain runs out of time.
   */
  method RunBounded(host: Host, journey: string, budget: int, parse: Parse)
      returns (verdict: Option<Verdict>, ghost f: Facts)
    requires host.Fresh()
    modifies host
    ensures budget <= 0 ==>
      && verdict == Some(Verdict(false, false, false, false, false, ["budget_not_finite"]))
      && host.Fresh() && host.now == old(host.now)
    ensures budget > 0 ==>
      host.now <= old(host.now) + budget + COOPERATIVE + host.groupBound + POST_KILL + DRAIN + 2 * SLICE
    ensures budget > 0 ==>
      && (verdict.None? <==> host.probeRaised || parse(Front(host.out.read, STDOUT_LIMIT)).None?)
      && TerminatedDuly(host, old(host.now) + budget) && (!host.probeRaised ==> Drained(host))
    ensures budget > 0 && verdict.Some? ==>
      Answers(verdict.value, f, host, old(host.now) + budget, journey, parse)
  {
    f := Facts(false, false, false, false, false, false, None, []);
    if budget <= 0 {
      return Some(Verdict(false, false, false, false, false, ["budget_not_finite"])), f;
    }
    var out := new BoundedBytes(STDOUT_LIMIT);
    var err := new BoundedBytes(STDERR_LIMIT);
    var groupKnown := host.GroupKnown();
    var deadline := host.now + budget;
    var live, timeout := Work(host, deadline, out, err);
    verdict, f := Conclude(host, deadline, live, out, err, groupKnown, timeout, journey, parse);
  }

  /** A child whose exit has not been seen has had its time for cooperation after the deadline. */
  ghost predicate Graced(host: Host, deadline: nat)
    reads host
  {
    if host.seenAt.Some? then host.exit.Some? else deadline + COOPERATIVE <= host.now
  }

  /** The group is terminated only after that time, and whenever it is known and the child has not exited. */
  ghost predicate TerminatedDuly(host: Host, deadline: int)
    reads host
  {
    && (host.terminatedAt.Some? ==> host.identified && deadline + COOPERATIVE <= host.terminatedAt.value)
    && (host.identified && host.terminatedAt.None? ==> host.exit.Some?)
  }

  /** Both drain loops; `timeout` is latched between them. */
  method Work(host: Host, deadline: nat, out: BoundedBytes, err: BoundedBytes)
      returns (live: set<Stream>, timeout: bool)
    requires FedAll(host, out, err) && host.seenAt.None? && host.now < deadline
    modifies host`now, host`exit, host`seenAt, host`selectRaised, host`out, host`err, out, err
    ensures FedAll(host, out, err) && EndedBut(host, live)
    ensures old(host.now) <= host.now <= deadline + COOPERATIVE + 2 * SLICE
    ensures timeout <==> !SeenBefore(host, deadline)
    ensures timeout <==> deadline <= host.now
    ensures !timeout ==> host.exit.Some?
    ensures Graced(host, deadline)
  {
    live := DrainWork(host, deadline, {Out, Err}, out, err);
    timeout := host.now >= deadline;
    if timeout {
      live := DrainCooperative(host, host.now + COOPERATIVE, live, out, err);
    }
  }

  /** From the latched deadline on: terminate, look, drain the rest, and judge. */
  method Conclude(host: Host, deadline: nat, live: set<Stream>, out: BoundedBytes, err: BoundedBytes, groupKnown: bool,
                  timeout: bool, journey: string, parse: Parse)
      returns (verdict: Option<Verdict>, ghost f: Facts)
    requires FedAll(host, out, err) && EndedBut(host, live) && out.limit == STDOUT_LIMIT && err.limit == STDERR_LIMIT
    requires groupKnown == host.identified && !host.probeRaised && !host.terminationRaised && !host.groupSeenGone
    requires (timeout <==> !SeenBefore(host, deadline)) && (timeout <==> deadline <= host.now)
    requires !timeout ==> host.exit.Some?
    requires Graced(host, deadline) && host.terminatedAt.None?
    modifies host, out, err
    ensures TerminatedDuly(host, deadline)
    ensures old(host.now) <= host.now <= old(host.now) + host.groupBound + POST_KILL + DRAIN
    ensures verdict.None? <==> host.probeRaised || parse(Front(host.out.read, STDOUT_LIMIT)).None?
    ensures !host.probeRaised ==> Drained(host)
    ensures verdict.Some? ==>
      Answers(verdict.value, f, host, deadline, journey, parse)
  {
    var fullBefore := out.Overflowed() || err.Overflowed();
    var known, terminationFailed, terminated := Finish(host, groupKnown);
    f := Facts(false, false, false, false, false, false, None, []);
    if !known {
      return None, f;
    }
    verdict, f := Report(host, live, out, err, groupKnown, timeout, fullBefore, terminationFailed, terminated,
                         journey, parse, deadline);
    if verdict.Some? {
      CleanIffWell(f, host, journey, deadline, parse);
      JudgeTells(f, host, journey, deadline, parse);
    }
  }

  /** The final drain, and the verdict. */
  method Report(host: Host, live: set<Stream>, out: BoundedBytes, err: BoundedBytes, groupKnown: bool, timeout: bool,
                fullBefore: bool, terminationFailed: bool, terminated: bool, journey: string,
                parse: Parse, ghost deadline: int)
      returns (verdict: Option<Verdict>, ghost f: Facts)
    requires FedAll(host, out, err) && EndedBut(host, live) && out.limit == STDOUT_LIMIT && err.limit == STDERR_LIMIT
    requires groupKnown == host.identified && terminationFailed == host.terminationRaised
    requires timeout <==> !SeenBefore(host, deadline)
    requires timeout ==> deadline <= host.now
    requires !timeout ==> host.exit.Some? && (terminated <==> (groupKnown ==> host.groupSeenGone)) && !terminationFailed
    requires terminated ==> host.exit.Some? && (groupKnown ==> host.groupSeenGone)
    requires terminated <==> host.exitAtCheck.Some? && (groupKnown ==> host.groupSeenGone)
    requires fullBefore ==> out.Overflowed() || err.Overflowed()
    modifies host`now, host`exit, host`seenAt, host`selectRaised, host`drainFrom, host`out, host`err, out, err
    ensures old(host.now) <= host.now <= old(host.now) + DRAIN && Drained(host)
    ensures old(host.exit).Some? ==> host.exit == old(host.exit)
    ensures verdict.None? <==> parse(Front(host.out.read, STDOUT_LIMIT)).None?
    ensures verdict.Some? ==>
      verdict.value == Judge(f, journey) && Seen(f, host, deadline, parse) && f.timeout == timeout
  {
    var full, text, exit := LastLook(host, live, out, err);
    var lines := parse(text);
    f := Facts(groupKnown, timeout, fullBefore, terminationFailed, terminated, full, exit, []);
    if lines.None? {
      return None, f;
    }
    f := f.(lines := lines.value);
    verdict := Some(Judge(Facts(groupKnown, timeout, fullBefore, terminationFailed, terminated, full, exit,
                                lines.value), journey));
  }

  /** The last drain, the retained text and the last poll. */
  method LastLook(host: Host, live: set<Stream>, out: BoundedBytes, err: BoundedBytes)
      returns (full: bool, text: string, exit: Option<int>)
    requires FedAll(host, out, err) && EndedBut(host, live) && out.limit == STDOUT_LIMIT && err.limit == STDERR_LIMIT
    modifies host`now, host`exit, host`seenAt, host`selectRaised, host`drainFrom, host`out, host`err, out, err
    ensures old(host.now) <= host.now <= old(host.now) + DRAIN && Drained(host)
    ensures exit == host.exit && (old(host.exit).Some? ==> host.exit == old(host.exit))
    ensures old(host.seenAt).Some? ==> host.seenAt == old(host.seenAt)
    ensures old(host.seenAt).None? && host.seenAt.Some? ==> old(host.now) <= host.seenAt.value
    ensures text == Front(host.out.read, STDOUT_LIMIT)
    ensures full <==> |host.out.read| > STDOUT_LIMIT || |host.err.read| > STDERR_LIMIT
    ensures old(out.Overflowed() || err.Overflowed()) ==> full
  {
    DrainRest(host, live, out, err);
    full := out.Overflowed() || err.Overflowed();
    text := out.Text();
    exit := host.Poll();
  }

  /**
   Terminating the group, looking whether it is gone, and the bounded wait.  Once the exit has been
   seen, no time passes and nothing is terminated.
   */
  method Finish(host: Host, groupKnown: bool) returns (known: bool, terminationFailed: bool, terminated: bool)
    requires groupKnown == host.identified && !host.probeRaised && !host.terminationRaised && !host.groupSeenGone
    requires host.terminatedAt.None?
    modifies host`now, host`exit, host`seenAt, host`groupSeenGone, host`probeRaised, host`terminationRaised
    modifies host`terminatedAt, host`exitAtCheck, host`out, host`err
    ensures Wrote(old(host.out), host.out) && Wrote(old(host.err), host.err)
    ensures host.terminatedAt.Some? ==>
      host.identified && host.terminatedAt.value == old(host.now) && old(host.exit).None?
    ensures host.identified && host.terminatedAt.None? ==> host.exit.Some?
    ensures old(host.now) <= host.now <= old(host.now) + host.groupBound + POST_KILL
    ensures known <==> !host.probeRaised
    ensures terminationFailed == host.terminationRaised
    ensures old(host.seenAt).Some? ==> host.seenAt == old(host.seenAt)
    ensures old(host.seenAt).None? && host.seenAt.Some? ==> old(host.now) <= host.seenAt.value
    ensures old(host.exit).Some? ==>
      host.exit == old(host.exit) && host.now == old(host.now) && !terminationFailed
    ensures known && old(host.exit).Some? ==> (terminated <==> (groupKnown ==> host.groupSeenGone))
    ensures known && terminated ==> host.exit.Some? && (groupKnown ==> host.groupSeenGone)
    ensures known ==> (terminated <==> host.exitAtCheck.Some? && (groupKnown ==> host.groupSeenGone))
  {
    terminationFailed, terminated := false, false;
    var status := host.Poll();
    if status.None? && groupKnown {
      var ok := host.Terminate();
      terminationFailed := !ok;
    }
    status := host.PollAtCheck();
    terminated := status.Some?;
    if terminated && groupKnown {
      var alive := host.GroupAlive();
      if alive.None? {
        return false, terminationFailed, false;
      }
      terminated := !alive.value;
    }
    status := host.Poll();
    if status.None? {
      host.Elapse(0, POST_KILL);
    }
    known := true;
  }
}

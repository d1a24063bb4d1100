/** The hard resource limits of the skill runner: `apply_hard_limits` and its closed profiles. */
module RunnerLimits {
  import opened Wrappers

  datatype Limit = Cpu | AddressSpace | FileSize | OpenFiles | Core

  const ORDER := [Cpu, AddressSpace, FileSize, OpenFiles, Core]

  function Position(l: Limit): (i: nat)
    ensures i < 5 && ORDER[i] == l
  {
    match l
    case Cpu => 0
    case AddressSpace => 1
    case FileSize => 2
    case OpenFiles => 3
    case Core => 4
  }

  datatype Profile = SkillStandard | ArtifactStandard | SkillDarwin

  /** The declared values; None leaves the limit alone. */
  function Declared(p: Profile, l: Limit): Option<nat> {
    match l
    case Cpu => Some(if p == ArtifactStandard then 120 else 60)
    case AddressSpace =>
      (match p
       case SkillStandard => Some(1_073_741_824)
       case ArtifactStandard => Some(2_147_483_648)
       case SkillDarwin => None)
    case FileSize => Some(67_108_864)
    case OpenFiles => Some(if p == ArtifactStandard then 128 else 64)
    case Core => Some(0)
  }

  /** The three closed profiles, limit by limit. */
  lemma DeclaredTable(p: Profile)
    ensures [Declared(p, Cpu), Declared(p, AddressSpace), Declared(p, FileSize), Declared(p, OpenFiles),
             Declared(p, Core)]
         == if p == SkillStandard then [Some(60), Some(1024 * 1024 * 1024), Some(64 * 1024 * 1024), Some(64), Some(0)]
            else if p == ArtifactStandard
            then [Some(120), Some(2 * 1024 * 1024 * 1024), Some(64 * 1024 * 1024), Some(128), Some(0)]
            else [Some(60), None, Some(64 * 1024 * 1024), Some(64), Some(0)]
  {
  }

  /** `LIMITS_BY_DIGEST.get`, where `digest` is `_limit_digest`. */
  function ByDigest(digest: Profile -> string, d: string): (p: Option<Profile>)
    ensures p.Some? ==> digest(p.value) == d
    ensures p.None? ==> d !in {digest(SkillStandard), digest(ArtifactStandard), digest(SkillDarwin)}
  {
    if d == digest(SkillDarwin) then Some(SkillDarwin)
    else if d == digest(ArtifactStandard) then Some(ArtifactStandard)
    else if d == digest(SkillStandard) then Some(SkillStandard)
    else None
  }

  datatype Quantity = Finite(n: nat) | Infinite

  predicate Exceeds(a: Quantity, b: Quantity) {
    b.Finite? && (a.Infinite? || a.n > b.n)
  }

  /** The soft and hard values of all limits. */
  datatype Values = Values(soft: map<Limit, Quantity>, hard: map<Limit, Quantity>)

  ghost predicate HasAll(v: Values) {
    forall l: Limit :: l in v.soft && l in v.hard
  }

  /** What the kernel and Python's `resource` module know about a process. */
  datatype Process = Process(privileged: bool, unlimitedIsNegative: bool)

  /** `soft > value` as Python compares them; "unlimited" is -1 on Linux and the largest value on Darwin. */
  predicate ReportsMore(process: Process, q: Quantity, value: nat) {
    match q
    case Finite(n) => n > value
    case Infinite => !process.unlimitedIsNegative
  }

  /**
   The two calls of `apply_hard_limits` may set this limit: its hard value need not be raised, or
   the process is privileged and the soft value need not be lowered below it first.
   */
  predicate Permitted(process: Process, value: nat, s: Quantity, h: Quantity) {
    !Exceeds(Finite(value), h) || (process.privileged && !ReportsMore(process, s, value))
  }

  /** The same in numbers. */
  lemma PermittedIff(process: Process, value: nat, s: Quantity, h: Quantity)
    ensures Permitted(process, value, s, h) <==>
      || h == Infinite || value <= h.n
      || (process.privileged && if s.Finite? then s.n <= value else process.unlimitedIsNegative)
  {
  }

  /** Unlimited is more than every number. */
  lemma ExceedsIff(a: Quantity, b: Quantity)
    ensures Exceeds(a, b) <==> (a == Infinite && b != Infinite) || exists n: nat, m: nat :: Above(a, b, n, m)
  {
    if a.Finite? && b.Finite? {
      assert Exceeds(a, b) ==> Above(a, b, a.n, b.n);
    }
  }

  predicate Above(a: Quantity, b: Quantity, n: nat, m: nat) {
    a == Finite(n) && b == Finite(m) && m < n
  }

  /** A declared limit ends with soft and hard at its value; an undeclared one is not touched. */
  ghost predicate Applied(process: Process, l: Limit, value: Option<nat>, v0: Values, v: Values)
    requires HasAll(v0) && HasAll(v)
  {
    match value
    case None => Untouched(l, v0, v)
    case Some(n) =>
      v.soft[l] == v.hard[l] == Finite(n) && (Exceeds(Finite(n), v0.hard[l]) ==> process.privileged)
  }

  ghost predicate Untouched(l: Limit, v0: Values, v: Values)
    requires HasAll(v0) && HasAll(v)
  {
    v.soft[l] == v0.soft[l] && v.hard[l] == v0.hard[l]
  }

  /** The limits before position i are applied, those from position i on are as they were. */
  ghost predicate AppliedUpTo(process: Process, p: Profile, i: nat, v0: Values, v: Values)
    requires HasAll(v0) && HasAll(v)
  {
    forall l: Limit ::
      if Position(l) < i then Applied(process, l, Declared(p, l), v0, v) else Untouched(l, v0, v)
  }

  /** It failed at limit `at`: that one keeps its hard value, and at most its soft value was lowered. */
  ghost predicate StoppedAt(process: Process, p: Profile, at: Limit, v0: Values, v: Values)
    requires HasAll(v0) && HasAll(v)
  {
    && Declared(p, at).Some? && v.hard[at] == v0.hard[at]
    && (v.soft[at] == v0.soft[at] || v.soft[at] == Finite(Declared(p, at).value))
    && forall l: Limit ::
         && (Position(l) < Position(at) ==> Applied(process, l, Declared(p, l), v0, v))
         && (Position(l) > Position(at) ==> Untouched(l, v0, v))
  }

  /** Every declared limit is soft = hard = value, the others are not touched. */
  ghost predicate AllApplied(process: Process, p: Profile, v0: Values, v: Values)
    requires HasAll(v0) && HasAll(v)
  {
    forall l: Limit :: Applied(process, l, Declared(p, l), v0, v)
  }

  ghost predicate PermittedUpTo(process: Process, p: Profile, i: nat, v0: Values)
    requires HasAll(v0)
  {
    forall l: Limit :: Position(l) < i && Declared(p, l).Some? ==>
      Permitted(process, Declared(p, l).value, v0.soft[l], v0.hard[l])
  }

  /** Every declared limit is permitted, given the values that the limits have. */
  ghost predicate AllPermitted(process: Process, p: Profile, v0: Values)
    requires HasAll(v0)
  {
    PermittedUpTo(process, p, 5, v0)
  }

  /** A limit raised by a privileged process, to its declared value. */
  ghost predicate RaisedAsDeclared(process: Process, l: Limit, p: Profile, v: Values)
    requires HasAll(v)
  {
    process.privileged && Declared(p, l).Some? && v.hard[l] == Finite(Declared(p, l).value)
  }

  lemma OthersElsewhere(at: Limit)
    ensures forall l: Limit :: l != at ==> Position(l) != Position(at)
  {
    forall l: Limit | l != at
      ensures Position(l) != Position(at)
    {
      assert l == ORDER[Position(l)] && at == ORDER[Position(at)];
    }
  }

  ghost predicate SameBut(at: Limit, v: Values, w: Values)
    requires HasAll(v) && HasAll(w)
  {
    forall l: Limit :: l != at ==> Untouched(l, v, w)
  }

  lemma NextApplied(process: Process, p: Profile, at: Limit, v0: Values, v: Values, w: Values)
    requires HasAll(v0) && HasAll(v) && HasAll(w) && AppliedUpTo(process, p, Position(at), v0, v) && SameBut(at, v, w)
    requires Applied(process, at, Declared(p, at), v, w)
    ensures AppliedUpTo(process, p, Position(at) + 1, v0, w)
  {
    OthersElsewhere(at);
    assert Untouched(at, v0, v);
    forall l: Limit
      ensures if Position(l) < Position(at) + 1 then Applied(process, l, Declared(p, l), v0, w)
              else Untouched(l, v0, w)
    {
      assert l != at ==> Untouched(l, v, w);
    }
  }

  lemma NextStopped(process: Process, p: Profile, at: Limit, v0: Values, v: Values, w: Values)
    requires HasAll(v0) && HasAll(v) && HasAll(w) && AppliedUpTo(process, p, Position(at), v0, v) && SameBut(at, v, w)
    requires Declared(p, at).Some? && w.hard == v.hard
    requires w.soft[at] == v.soft[at] || w.soft[at] == Finite(Declared(p, at).value)
    ensures StoppedAt(process, p, at, v0, w)
  {
    OthersElsewhere(at);
    assert Untouched(at, v0, v);
    forall l: Limit | l != at
      ensures Position(l) < Position(at) ==> Applied(process, l, Declared(p, l), v0, w)
      ensures Position(l) > Position(at) ==> Untouched(l, v0, w)
    {
      assert Untouched(l, v, w);
    }
  }

  lemma AppliedRaises(process: Process, p: Profile, v0: Values, v: Values)
    requires HasAll(v0) && HasAll(v) && AllApplied(process, p, v0, v)
    ensures forall l: Limit :: Exceeds(v.hard[l], v0.hard[l]) ==> RaisedAsDeclared(process, l, p, v)
  {
    forall l: Limit
      ensures Exceeds(v.hard[l], v0.hard[l]) ==> RaisedAsDeclared(process, l, p, v)
    {
      assert Applied(process, l, Declared(p, l), v0, v);
    }
  }

  lemma StoppedRaises(process: Process, p: Profile, at: Limit, v0: Values, v: Values)
    requires HasAll(v0) && HasAll(v) && StoppedAt(process, p, at, v0, v)
    ensures forall l: Limit :: Exceeds(v.hard[l], v0.hard[l]) ==> RaisedAsDeclared(process, l, p, v)
  {
    OthersElsewhere(at);
    forall l: Limit
      ensures Exceeds(v.hard[l], v0.hard[l]) ==> RaisedAsDeclared(process, l, p, v)
    {
      assert Position(l) < Position(at) ==> Applied(process, l, Declared(p, l), v0, v);
      assert Position(l) > Position(at) ==> Untouched(l, v0, v);
    }
  }

  /** The limits of one process. */
  class Limits {
    const process: Process
    /** Whether the n-th call works, as far as it is not refused for its values. */
    const answers: nat -> bool
    var calls: nat
    var v: Values

    ghost predicate Valid()
      reads this
    {
      HasAll(v)
    }

    constructor (process: Process, answers: nat -> bool, v: Values)
      requires HasAll(v)
      ensures Valid() && this.process == process && this.answers == answers && this.v == v && calls == 0
    {
      this.process := process;
      this.answers := answers;
      calls := 0;
      this.v := v;
    }

    /** The calls from `first` up to `last` all work. */
    ghost predicate Quiet(first: nat, last: nat) {
      forall n :: first <= n < last ==> answers(n)
    }

    lemma QuietSplits(first: nat, mid: nat, last: nat)
      requires first <= mid <= last
      ensures Quiet(first, last) <==> Quiet(first, mid) && Quiet(mid, last)
    {
    }

    /** `getrlimit`. */
    method Get() returns (ok: bool)
      modifies this`calls
      ensures calls == old(calls) + 1 && ok == answers(old(calls))
    {
      ok := answers(calls);
      calls := calls + 1;
    }

    /** `setrlimit`: refused when soft exceeds hard, or when an unprivileged process raises hard. */
    method Set(l: Limit, s: Quantity, h: Quantity) returns (ok: bool)
      requires Valid()
      modifies this
      ensures Valid() && calls == old(calls) + 1
      ensures ok <==> answers(old(calls)) && !Exceeds(s, h) && (Exceeds(h, old(v).hard[l]) ==> process.privileged)
      ensures v == if ok then Values(old(v).soft[l := s], old(v).hard[l := h]) else old(v)
    {
      ok := answers(calls) && !Exceeds(s, h) && (Exceeds(h, v.hard[l]) ==> process.privileged);
      calls := calls + 1;
      if ok {
        v := Values(v.soft[l := s], v.hard[l := h]);
      }
    }

    /** One turn of the loop: a declared limit is set exactly when it is permitted and no call fails. */
    method ApplyOne(l: Limit, value: Option<nat>) returns (ok: bool)
      requires Valid()
      modifies this
      ensures Valid() && old(calls) <= calls && SameBut(l, old(v), v)
      ensures ok <==>
        Quiet(old(calls), calls) && (value.Some? ==> Permitted(process, value.value, old(v).soft[l], old(v).hard[l]))
      ensures !ok ==>
        value.Some? && v.hard == old(v).hard && (v.soft[l] == old(v).soft[l] || v.soft[l] == Finite(value.value))
      ensures ok ==> Applied(process, l, value, old(v), v)
      ensures ok && value.Some? ==>
        var s := old(v).soft[l];
        calls == old(calls) + if (if s.Finite? then s.n > value.value else !process.unlimitedIsNegative) then 3 else 2
    {
      if value.None? {
        return true;
      }
      var got := Get();
      if !got {
        return false;
      }
      if ReportsMore(process, v.soft[l], value.value) {
        ok := Set(l, Finite(value.value), v.hard[l]);
        if !ok {
          return;
        }
      }
      ok := Set(l, Finite(value.value), Finite(value.value));
    }

    /**
     `apply_hard_limits`.  It succeeds exactly when limits are available, the digest names a
     profile, every declared limit is permitted, and no call fails; then all of it is applied.
     Otherwise the error was raised before anything, or at one limit.  On either outcome a hard
     limit is raised only by a privileged process, and only to its declared value.
     */
    method ApplyHardLimits(digest: Profile -> string, d: string, available: bool) returns (ok: bool)
      requires Valid()
      modifies this
      ensures Valid() && old(calls) <= calls
      ensures ok <==>
        && available && ByDigest(digest, d).Some?
        && AllPermitted(process, ByDigest(digest, d).value, old(v)) && Quiet(old(calls), calls)
      ensures ok ==> AllApplied(process, ByDigest(digest, d).value, old(v), v)
      ensures !ok ==>
        || v == old(v)
        || (available && ByDigest(digest, d).Some?
            && exists at: Limit :: StoppedAt(process, ByDigest(digest, d).value, at, old(v), v))
      ensures forall l: Limit :: Exceeds(v.hard[l], old(v).hard[l]) ==>
        ByDigest(digest, d).Some? && RaisedAsDeclared(process, l, ByDigest(digest, d).value, v)
    {
      var profile := ByDigest(digest, d);
      if profile.None? || !available {
        return false;
      }
      ghost var at;
      ok, at := ApplyProfile(profile.value);
      if ok {
        AppliedRaises(process, profile.value, old(v), v);
      } else {
        StoppedRaises(process, profile.value, at, old(v), v);
      }
    }

    /** The loop over the five limits. */
    method ApplyProfile(p: Profile) returns (ok: bool, ghost at: Limit)
      requires Valid()
      modifies this
      ensures Valid() && old(calls) <= calls
      ensures ok <==> AllPermitted(process, p, old(v)) && Quiet(old(calls), calls)
      ensures ok ==> AllApplied(process, p, old(v), v)
      ensures !ok ==> StoppedAt(process, p, at, old(v), v)
    {
      at := Cpu;
      var i := 0;
      while i < 5
        invariant 0 <= i <= 5 && Valid() && old(calls) <= calls && Quiet(old(calls), calls)
        invariant AppliedUpTo(process, p, i, old(v), v) && PermittedUpTo(process, p, i, old(v))
      {
        at := ORDER[i];
        ok := ApplyNext(p, i, old(v), old(calls));
        if !ok {
          return;
        }
        i := i + 1;
      }
      ok := true;
    }

    method ApplyNext(p: Profile, i: nat, ghost v0: Values, ghost first: nat) returns (ok: bool)
      requires Valid() && i < 5 && HasAll(v0) && first <= calls && Quiet(first, calls)
      requires AppliedUpTo(process, p, i, v0, v) && PermittedUpTo(process, p, i, v0)
      modifies this
      ensures Valid() && first <= calls
      ensures ok ==>
        Quiet(first, calls) && AppliedUpTo(process, p, i + 1, v0, v) && PermittedUpTo(process, p, i + 1, v0)
      ensures !ok ==>
        StoppedAt(process, p, ORDER[i], v0, v) && !(AllPermitted(process, p, v0) && Quiet(first, calls))
    {
      var at := ORDER[i];
      assert Position(at) == i && Untouched(at, v0, v);
      OthersElsewhere(at);
      ok := ApplyOne(at, Declared(p, at));
      QuietSplits(first, old(calls), calls);
      if ok {
        NextApplied(process, p, at, v0, old(v), v);
      } else {
        NextStopped(process, p, at, v0, old(v), v);
      }
    }
  }

  /**
   "No hard limit is ever raised" holds of a success of an unprivileged process without more
   ado, and of a privileged one exactly when every declared value is within the old hard limit.
   */
  lemma NoneRaisedIff(process: Process, p: Profile, v0: Values, v: Values)
    requires HasAll(v0) && HasAll(v) && AllApplied(process, p, v0, v)
    ensures (forall l: Limit :: !Exceeds(v.hard[l], v0.hard[l]))
      <==> forall l: Limit :: Declared(p, l).Some? ==> !Exceeds(Finite(Declared(p, l).value), v0.hard[l])
    ensures !process.privileged ==> forall l: Limit :: !Exceeds(v.hard[l], v0.hard[l])
  {
    forall l: Limit
      ensures Exceeds(v.hard[l], v0.hard[l])
        <==> Declared(p, l).Some? && Exceeds(Finite(Declared(p, l).value), v0.hard[l])
    {
      assert Applied(process, l, Declared(p, l), v0, v);
    }
  }

  const LOW := map[Cpu := Finite(10), AddressSpace := Finite(10), FileSize := Finite(10), OpenFiles := Finite(10),
                   Core := Finite(0)]

  lemma LowHasAll()
    ensures HasAll(Values(LOW, LOW))
  {
    forall l: Limit
      ensures l in LOW
    {
      assert l == ORDER[Position(l)];
    }
  }

  /** A privileged process with low limits: it succeeds, and ends with a higher hard limit. */
  method RaisingRun() returns (limits: Limits)
    ensures fresh(limits) && limits.Valid() && limits.process.privileged
    ensures limits.v.hard[Cpu] == Finite(60) && Exceeds(limits.v.hard[Cpu], LOW[Cpu])
  {
    LowHasAll();
    limits := new Limits(Process(true, true), _ => true, Values(LOW, LOW));
    var digest := (p: Profile) => if p == SkillStandard then "skill" else "another";
    var ok := limits.ApplyHardLimits(digest, "skill", true);
    assert ok && ByDigest(digest, "skill") == Some(SkillStandard);
    assert Applied(limits.process, Cpu, Declared(SkillStandard, Cpu), Values(LOW, LOW), limits.v);
  }
}

/**
 `_JourneyCleanup` and `journey_f2_restart_outclosing`: two generations of browser resources,
 each with its own cleanup owner, the second built only after the first is known to be closed.
 */
module Journey {
  import opened Wrappers

  /** What a callback does when it runs: `Interrupts` is a BaseException that is no Exception. */
  datatype Effect = Returns | Raises(error: string) | Interrupts

  datatype CleanupFailure = CleanupFailure(generation: nat, index: nat, error: string)

  datatype Event = Built(generation: nat) | Ran(callback: nat)

  /** What happens in the world, in order; `effect` says what each callback will do. */
  class World {
    const effect: nat -> Effect
    var events: seq<Event>

    constructor (effect: nat -> Effect)
      ensures this.effect == effect && events == []
    {
      this.effect := effect;
      events := [];
    }

    method Run(callback: nat) returns (e: Effect)
      modifies this
      ensures e == effect(callback) && events == old(events) + [Ran(callback)]
    {
      events := events + [Ran(callback)];
      e := effect(callback);
    }
  }

  function Reverse<T>(s: seq<T>): (r: seq<T>)
    ensures |r| == |s| && forall i :: 0 <= i < |s| ==> r[i] == s[|s| - 1 - i]
  {
    if s == [] then [] else [s[|s| - 1]] + Reverse(s[..|s| - 1])
  }

  function Runs(callbacks: seq<nat>): seq<Event> {
    seq(|callbacks|, i requires 0 <= i < |callbacks| => Ran(callbacks[i]))
  }

  /** The last registered callback first; an interruption ends the walk. */
  function Executed(effect: nat -> Effect, callbacks: seq<nat>): seq<nat> {
    if callbacks == [] then []
    else
      var n := |callbacks| - 1;
      if effect(callbacks[n]).Interrupts? then [callbacks[n]]
      else [callbacks[n]] + Executed(effect, callbacks[..n])
  }

  predicate Interrupted(effect: nat -> Effect, callbacks: seq<nat>) {
    exists i :: 0 <= i < |callbacks| && effect(callbacks[i]).Interrupts?
  }

  function Collected(effect: nat -> Effect, callbacks: seq<nat>, generation: nat): seq<CleanupFailure> {
    if callbacks == [] then []
    else
      var n := |callbacks| - 1;
      match effect(callbacks[n])
      case Interrupts => []
      case Returns => Collected(effect, callbacks[..n], generation)
      case Raises(error) => [CleanupFailure(generation, n, error)] + Collected(effect, callbacks[..n], generation)
  }

  /** No callback but the first registered, which runs last, interrupts. */
  predicate NoneSkipped(effect: nat -> Effect, callbacks: seq<nat>) {
    forall i :: 0 < i < |callbacks| ==> !effect(callbacks[i]).Interrupts?
  }

  /**
   What runs is a front of the reverse order.  It is all of it, every callback exactly once,
   if and only if no callback but the one that runs last interrupts.
   */
  lemma {:induction false} ExecutedIsReverse(effect: nat -> Effect, callbacks: seq<nat>)
    ensures Executed(effect, callbacks) <= Reverse(callbacks)
    ensures Executed(effect, callbacks) == Reverse(callbacks) <==> NoneSkipped(effect, callbacks)
    decreases |callbacks|
  {
    if callbacks != [] {
      var n := |callbacks| - 1;
      ExecutedIsReverse(effect, callbacks[..n]);
      assert Reverse(callbacks) == [callbacks[n]] + Reverse(callbacks[..n]);
      if effect(callbacks[n]).Interrupts? {
        assert |Executed(effect, callbacks)| == 1;
      } else {
        assert Executed(effect, callbacks)[1..] == Executed(effect, callbacks[..n]);
        assert Reverse(callbacks)[1..] == Reverse(callbacks[..n]);
        assert forall i :: 0 <= i < n ==> callbacks[..n][i] == callbacks[i];
      }
    }
  }

  /** An interruption in the callback that was registered last keeps the other from running at all. */
  lemma InterruptionSkips() returns (effect: nat -> Effect)
    ensures Executed(effect, [0, 1]) == [1] && Reverse([0, 1]) == [1, 0]
  {
    effect := n => if n == 1 then Interrupts else Returns;
  }

  /** A cleanup without failures and interruptions means that every callback returned. */
  lemma {:induction false} CleanMeansReturned(effect: nat -> Effect, callbacks: seq<nat>, generation: nat)
    requires !Interrupted(effect, callbacks)
    ensures Collected(effect, callbacks, generation) == []
       <==> forall i :: 0 <= i < |callbacks| ==> effect(callbacks[i]).Returns?
    decreases |callbacks|
  {
    if callbacks != [] {
      var n := |callbacks| - 1;
      var front := callbacks[..n];
      forall i | 0 <= i < n
        ensures front[i] == callbacks[i] && !effect(front[i]).Interrupts?
      {
        assert !effect(callbacks[i]).Interrupts?;
      }
      CleanMeansReturned(effect, front, generation);
      assert !effect(callbacks[n]).Interrupts?;
    }
  }

  class JourneyCleanup {
    const generation: nat
    var callbacks: seq<nat>
    var closed: bool
    var failures: seq<CleanupFailure>

    constructor (generation: nat)
      ensures this.generation == generation && callbacks == [] && !closed && failures == []
    {
      this.generation := generation;
      callbacks, closed, failures := [], false, [];
    }

    method Register(callback: nat)
      modifies this`callbacks
      ensures callbacks == old(callbacks) + [callback]
    {
      callbacks := callbacks + [callback];
    }

    /** `close`: idempotent; `ok` is false when an interruption passes through. */
    method Close(world: World) returns (ok: bool)
      modifies this`closed, this`failures, world
      ensures closed
      ensures old(closed) ==> ok && world.events == old(world.events) && failures == old(failures)
      ensures !old(closed) ==>
        && world.events == old(world.events) + Runs(Executed(world.effect, callbacks))
        && failures == old(failures) + Collected(world.effect, callbacks, generation)
        && (ok <==> !Interrupted(world.effect, callbacks))
    {
      if closed {
        return true;
      }
      closed := true;
      var index := |callbacks|;
      assert callbacks[..index] == callbacks;
      ghost var done: seq<nat>, seen: seq<CleanupFailure> := [], [];
      while 0 < index
        invariant 0 <= index <= |callbacks| && closed
        invariant Walked(world.effect, callbacks, generation, index, done, seen)
        invariant world.events == old(world.events) + Runs(done) && failures == old(failures) + seen
      {
        index := index - 1;
        OneBack(world.effect, callbacks, generation, index, done, seen);
        RunsOne(done, callbacks[index]);
        var e := world.Run(callbacks[index]);
        done := done + [callbacks[index]];
        if e.Interrupts? {
          return false;
        }
        if e.Raises? {
          failures := failures + [CleanupFailure(generation, index, e.error)];
          seen := seen + [CleanupFailure(generation, index, e.error)];
        }
      }
      assert callbacks[..0] == [];
      ok := true;
    }
  }

  /** The callbacks from `index` on have run, in reverse order, as `done`, and have failed as `seen` says. */
  ghost predicate Walked(effect: nat -> Effect, callbacks: seq<nat>, generation: nat, index: nat,
                         done: seq<nat>, seen: seq<CleanupFailure>) {
    && index <= |callbacks|
    && (forall i :: index <= i < |callbacks| ==> !effect(callbacks[i]).Interrupts?)
    && Executed(effect, callbacks) == done + Executed(effect, callbacks[..index])
    && Collected(effect, callbacks, generation) == seen + Collected(effect, callbacks[..index], generation)
  }

  lemma OneBack(effect: nat -> Effect, callbacks: seq<nat>, generation: nat, index: nat,
                done: seq<nat>, seen: seq<CleanupFailure>)
    requires index < |callbacks| && Walked(effect, callbacks, generation, index + 1, done, seen)
    ensures match effect(callbacks[index])
            case Interrupts =>
              && Executed(effect, callbacks) == done + [callbacks[index]]
              && Collected(effect, callbacks, generation) == seen
            case Returns => Walked(effect, callbacks, generation, index, done + [callbacks[index]], seen)
            case Raises(error) =>
              Walked(effect, callbacks, generation, index, done + [callbacks[index]],
                     seen + [CleanupFailure(generation, index, error)])
  {
    var rest := callbacks[..index];
    assert callbacks[..index + 1][..index] == rest;
    Grouped(done, callbacks[index], Executed(effect, rest));
    if effect(callbacks[index]).Raises? {
      Grouped(seen, CleanupFailure(generation, index, effect(callbacks[index]).error),
              Collected(effect, rest, generation));
    }
  }

  lemma Grouped<T>(a: seq<T>, x: T, b: seq<T>)
    ensures a + ([x] + b) == a + [x] + b
  {
  }

  lemma RunsOne(callbacks: seq<nat>, callback: nat)
    ensures Runs(callbacks + [callback]) == Runs(callbacks) + [Ran(callback)]
  {
  }

  // ---------------------------------------------------------------- the two generations

  /** How the body of one `try` ends: without or with a failure code, or interrupted. */
  datatype Body = Done | Stopped(code: string) | Escapes

  /** `build_browser_resources`: it returns what has to be closed, and the work that follows, or it raises. */
  datatype Build = Resources(callbacks: seq<nat>, work: Body) | NoResources(raised: Body)

  /** What loading the durable record gives, or how it fails: by an exception, the parent's stop, or an interruption. */
  datatype Phase = ClosedPhase | OtherPhase | Unreadable(error: string) | ParentStops | LoadEscapes

  datatype Outcome = Outcome(passed: bool, cleanupConfirmed: bool, codes: seq<string>)

  /** The events of one generation. */
  function Lifetime(effect: nat -> Effect, number: nat, build: Build): seq<Event> {
    if build.NoResources? then [] else [Built(number)] + Runs(Executed(effect, build.callbacks))
  }

  predicate Cleaned(effect: nat -> Effect, build: Build) {
    build.Resources? ==> forall i :: 0 <= i < |build.callbacks| ==> effect(build.callbacks[i]).Returns?
  }

  /** The work of a generation is done, and every one of its callbacks has returned. */
  predicate Finished(effect: nat -> Effect, build: Build) {
    build.Resources? && build.work.Done? && Cleaned(effect, build)
  }

  /** An interruption passes through: of the work, of a callback, or of the building itself. */
  ghost predicate Escaping(effect: nat -> Effect, build: Build) {
    match build
    case NoResources(raised) => raised == Escapes
    case Resources(callbacks, work) =>
      work == Escapes || exists i :: 0 <= i < |callbacks| && effect(callbacks[i]) == Interrupts
  }

  /** The failure code of a generation, whether its building or its work failed. */
  function FailureOf(build: Build): Option<string> {
    var body := if build.Resources? then build.work else build.raised;
    if body.Stopped? then Some(body.code) else None
  }

  /** The codes of an outcome: the first of the reasons, in the order in which they are looked for. */
  function Reasons(effect: nat -> Effect, first: Build, phase: Phase, second: Build): seq<string> {
    if !Cleaned(effect, first) then ["generation1_cleanup_failed"]
    else if FailureOf(first).Some? then [FailureOf(first).value]
    else if phase.Unreadable? then ["generation1_ledger_" + phase.error]
    else if phase.ParentStops? then ["stopped_by_parent"]
    else if phase.OtherPhase? then ["generation1_ledger_not_closed"]
    else if !Cleaned(effect, second) then ["generation2_cleanup_failed"]
    else if FailureOf(second).Some? then [FailureOf(second).value]
    else []
  }

  /** One generation: build, register at once, work, and close whatever happened. */
  method Generation(world: World, number: nat, build: Build) returns (body: Body, failures: seq<CleanupFailure>)
    requires build.NoResources? ==> !build.raised.Done?
    modifies world
    ensures world.events == old(world.events) + Lifetime(world.effect, number, build)
    ensures !body.Escapes? ==> (failures == [] <==> Cleaned(world.effect, build))
    ensures body.Escapes? <==> Escaping(world.effect, build)
    ensures !body.Escapes? ==> body == if build.Resources? then build.work else build.raised
    ensures body.Done? && failures == [] <==> Finished(world.effect, build)
  {
    var owner := new JourneyCleanup(number);
    body := if build.Resources? then build.work else build.raised;
    if build.Resources? {
      RegisterAll(world, owner, build.callbacks);
    }
    var ok := owner.Close(world);
    failures := owner.failures;
    if !ok {
      body := Escapes;
    } else {
      NotInterrupted(world.effect, owner.callbacks);
      CleanMeansReturned(world.effect, owner.callbacks, number);
    }
    assert Runs(Executed(world.effect, [])) == [];
  }

  method RegisterAll(world: World, owner: JourneyCleanup, callbacks: seq<nat>)
    requires owner.callbacks == []
    modifies world, owner`callbacks
    ensures owner.callbacks == callbacks && world.events == old(world.events) + [Built(owner.generation)]
  {
    world.events := world.events + [Built(owner.generation)];
    var i := 0;
    while i < |callbacks|
      invariant 0 <= i <= |callbacks| && owner.callbacks == callbacks[..i]
      invariant world.events == old(world.events) + [Built(owner.generation)]
    {
      owner.Register(callbacks[i]);
      i := i + 1;
    }
    assert callbacks[..i] == callbacks;
  }

  lemma NotInterrupted(effect: nat -> Effect, callbacks: seq<nat>)
    ensures Interrupted(effect, callbacks) || forall i :: 0 <= i < |callbacks| ==> !effect(callbacks[i]).Interrupts?
  {
  }

  /**
   `journey_f2_restart_outclosing`; None when an interruption escapes.  The second generation is
   started exactly when the first is finished and its durable record is CLOSED, and the journey
   passes exactly when both are finished and the second reports a clean closure.
   */
  method RestartOutclosing(world: World, first: Build, phase: Phase, second: Build, closedWell: bool)
      returns (outcome: Option<Outcome>, ghost started: bool)
    requires first.NoResources? ==> !first.raised.Done?
    requires second.NoResources? ==> !second.raised.Done?
    modifies world
    ensures world.events == old(world.events) + Lifetime(world.effect, 1, first)
                          + (if started then Lifetime(world.effect, 2, second) else [])
    ensures started <==> Finished(world.effect, first) && phase.ClosedPhase?
    ensures outcome.Some? && outcome.value.passed <==> started && Finished(world.effect, second) && closedWell
    ensures outcome.None? <==>
      || Escaping(world.effect, first)
      || (Finished(world.effect, first) && phase == LoadEscapes)
      || (started && Escaping(world.effect, second))
    ensures outcome.Some? ==>
      && (outcome.value.cleanupConfirmed <==>
            Cleaned(world.effect, first) && (started ==> Cleaned(world.effect, second)))
      && outcome.value.codes == Reasons(world.effect, first, phase, second)
  {
    started := false;
    var body, failures := Generation(world, 1, first);
    assert world.events + [] == world.events;
    if body.Escapes? {
      return None, started;
    }
    if failures != [] {
      return Some(Outcome(false, false, ["generation1_cleanup_failed"])), started;
    }
    if body.Stopped? {
      return Some(Outcome(false, true, [body.code])), started;
    }
    match phase {
      case LoadEscapes =>
        return None, started;
      case ParentStops =>
        return Some(Outcome(false, true, ["stopped_by_parent"])), started;
      case Unreadable(error) =>
        return Some(Outcome(false, true, ["generation1_ledger_" + error])), started;
      case OtherPhase =>
        return Some(Outcome(false, true, ["generation1_ledger_not_closed"])), started;
      case ClosedPhase =>
    }
    started := true;
    var body2, failures2 := Generation(world, 2, second);
    if body2.Escapes? {
      return None, started;
    }
    if failures2 != [] {
      return Some(Outcome(false, false, ["generation2_cleanup_failed"])), started;
    }
    if body2.Stopped? {
      return Some(Outcome(false, true, [body2.code])), started;
    }
    outcome := Some(Outcome(closedWell, true, []));
  }
}

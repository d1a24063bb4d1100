/**
 The session loop of `main`: every `/new` and `/switch` rebuilds the whole composition, and one
 ExitStack owns every cleanup of every round.
 */
module SessionRounds {
  import opened Wrappers

  /** `Fails` is an Exception, `Interrupts` any other BaseException. */
  datatype Effect = Returns | Fails | Interrupts

  datatype Event =
    | Registered(callback: nat)
    | Ran(callback: nat)
    | Opened(forceNew: bool, selectRequired: bool)
    | MemoryCreated
    | MemoryLoaded

  /** How a step ends a run: the caught exceptions and the early returns answer 2, the others escape. */
  datatype Stop = ReturnTwo | Escapes

  datatype Acquired = Resources(callbacks: seq<nat>) | Stops(stop: Stop)

  datatype Ask = Exit(code: int) | NewSession | SwitchSession | Broken(stop: Stop)

  /** What the environment answers during one round, in the order in which `main` asks. */
  datatype Script = Script(web: Acquired, session: Option<Stop>, managed: Acquired, browser: Acquired, mcp: Acquired,
                           refused: Option<Stop>, memory: Option<Stop>, rest: Option<Stop>, tui: bool, ask: Ask)

  datatype Ending = Returned(code: int) | Raised

  const NEW_SESSION_REQUESTED := 79
  const SWITCH_SESSION_REQUESTED := 78

  // ---------------------------------------------------------------- the shape of a round

  function RegisteredIn(acts: seq<Event>): seq<nat> {
    if acts == [] then []
    else
      var n := |acts| - 1;
      RegisteredIn(acts[..n]) + (if acts[n].Registered? then [acts[n].callback] else [])
  }

  /** The callbacks of a stack, run from the last registered to the first. */
  function Unwound(callbacks: seq<nat>): seq<Event> {
    if callbacks == [] then []
    else [Ran(callbacks[|callbacks| - 1])] + Unwound(callbacks[..|callbacks| - 1])
  }

  predicate NothingRuns(acts: seq<Event>) {
    forall i :: 0 <= i < |acts| ==> !acts[i].Ran?
  }

  /** Every round in turn: what it acquired, and then its own cleanup, completely. */
  function Flatten(rounds: seq<seq<Event>>): seq<Event> {
    if rounds == [] then []
    else
      var n := |rounds| - 1;
      Flatten(rounds[..n]) + rounds[n] + Unwound(RegisteredIn(rounds[n]))
  }

  lemma RegisteredAppend(acts: seq<Event>, e: Event)
    ensures RegisteredIn(acts + [e]) == RegisteredIn(acts) + (if e.Registered? then [e.callback] else [])
  {
    assert (acts + [e])[..|acts|] == acts;
  }

  lemma FlattenAppend(rounds: seq<seq<Event>>, acts: seq<Event>)
    ensures Flatten(rounds + [acts]) == Flatten(rounds) + acts + Unwound(RegisteredIn(acts))
  {
    assert (rounds + [acts])[..|rounds|] == rounds;
  }

  /** How often a callback is registered, or runs. */
  function Times(events: seq<Event>, e: Event): nat {
    if events == [] then 0 else Times(events[..|events| - 1], e) + (if events[|events| - 1] == e then 1 else 0)
  }

  lemma {:induction false} TimesAppend(a: seq<Event>, b: seq<Event>, e: Event)
    ensures Times(a + b, e) == Times(a, e) + Times(b, e)
    decreases |b|
  {
    if b == [] {
      assert a + b == a;
    } else {
      assert (a + b)[..|a + b| - 1] == a + b[..|b| - 1];
      TimesAppend(a, b[..|b| - 1], e);
    }
  }

  lemma {:induction false} UnwoundRunsEach(callbacks: seq<nat>, callback: nat)
    ensures Times(Unwound(callbacks), Ran(callback)) == multiset(callbacks)[callback]
    ensures Times(Unwound(callbacks), Registered(callback)) == 0
    decreases |callbacks|
  {
    if callbacks != [] {
      var n := |callbacks| - 1;
      var first := [Ran(callbacks[n])];
      UnwoundRunsEach(callbacks[..n], callback);
      TimesAppend(first, Unwound(callbacks[..n]), Ran(callback));
      TimesAppend(first, Unwound(callbacks[..n]), Registered(callback));
      assert first[..0] == [];
      assert callbacks == callbacks[..n] + [callbacks[n]];
    }
  }

  lemma {:induction false} RegisteredTimes(acts: seq<Event>, callback: nat)
    requires NothingRuns(acts)
    ensures Times(acts, Registered(callback)) == multiset(RegisteredIn(acts))[callback]
    ensures Times(acts, Ran(callback)) == 0
    decreases |acts|
  {
    if acts != [] {
      RegisteredTimes(acts[..|acts| - 1], callback);
    }
  }

  /** In a flattened run every callback runs exactly as often as it was registered. */
  lemma {:induction false} EachRunsOnce(rounds: seq<seq<Event>>, callback: nat)
    requires forall i :: 0 <= i < |rounds| ==> NothingRuns(rounds[i])
    ensures Times(Flatten(rounds), Ran(callback)) == Times(Flatten(rounds), Registered(callback))
    decreases |rounds|
  {
    if rounds != [] {
      var n := |rounds| - 1;
      var acts := rounds[n];
      var cleanup := Unwound(RegisteredIn(acts));
      EachRunsOnce(rounds[..n], callback);
      RegisteredTimes(acts, callback);
      UnwoundRunsEach(RegisteredIn(acts), callback);
      TimesAppend(Flatten(rounds[..n]), acts, Ran(callback));
      TimesAppend(Flatten(rounds[..n]), acts, Registered(callback));
      TimesAppend(Flatten(rounds[..n]) + acts, cleanup, Ran(callback));
      TimesAppend(Flatten(rounds[..n]) + acts, cleanup, Registered(callback));
    }
  }

  // ---------------------------------------------------------------- what a round does

  /** Whether an exclusive creation of the memory store is still wanted, and whether there is a store to load. */
  datatype Memory = Memory(create: bool, store: bool)

  function Registrations(callbacks: seq<nat>): (acts: seq<Event>)
    ensures |acts| == |callbacks| && forall i :: 0 <= i < |acts| ==> acts[i] == Registered(callbacks[i])
  {
    seq(|callbacks|, i requires 0 <= i < |callbacks| => Registered(callbacks[i]))
  }

  /** Building `a` and registering its callbacks, and then `rest`, unless building it stops the round. */
  function Then(a: Acquired, rest: seq<Event>): seq<Event> {
    if a.Stops? then [] else Registrations(a.callbacks) + rest
  }

  function ThenCallbacks(a: Acquired, rest: seq<nat>): seq<nat> {
    if a.Stops? then [] else a.callbacks + rest
  }

  function ThenStop(a: Acquired, rest: Option<Stop>): Option<Stop> {
    if a.Stops? then Some(a.stop) else rest
  }

  /** The resources built after the session was opened. */
  function LaterEvents(s: Script): seq<Event> {
    Then(s.managed, Then(s.browser, Then(s.mcp, [])))
  }

  function LaterCallbacks(s: Script): seq<nat> {
    ThenCallbacks(s.managed, ThenCallbacks(s.browser, ThenCallbacks(s.mcp, [])))
  }

  function LaterStop(s: Script): Option<Stop> {
    ThenStop(s.managed, ThenStop(s.browser, ThenStop(s.mcp, None)))
  }

  /** Opening the session with its two flags, and what is built after it. */
  function SessionEvents(s: Script, forceNew: bool, select: bool): seq<Event> {
    [Opened(forceNew, select)] + if s.session.Some? then [] else LaterEvents(s)
  }

  function AcquireEvents(s: Script, forceNew: bool, select: bool): seq<Event> {
    Then(s.web, SessionEvents(s, forceNew, select))
  }

  /** The callbacks of what a round acquires, in order. */
  function Callbacks(s: Script): seq<nat> {
    ThenCallbacks(s.web, if s.session.Some? then [] else LaterCallbacks(s))
  }

  function AcquireStop(s: Script): Option<Stop> {
    ThenStop(s.web, if s.session.Some? then s.session else LaterStop(s))
  }

  function MemoryEvents(s: Script, m: Memory): seq<Event> {
    if !(m.create || m.store) || s.refused.Some? then [] else [if m.create then MemoryCreated else MemoryLoaded]
  }

  function MemoryStop(s: Script, m: Memory): Option<Stop> {
    if !(m.create || m.store) then None else if s.refused.Some? then s.refused else s.memory
  }

  function MemoryNext(s: Script, m: Memory): Memory {
    if m.create && s.refused.None? && s.memory.None? then Memory(false, true) else m
  }

  function RoundEvents(s: Script, forceNew: bool, select: bool, m: Memory): seq<Event> {
    AcquireEvents(s, forceNew, select) + if AcquireStop(s).None? then MemoryEvents(s, m) else []
  }

  function RoundStop(s: Script, m: Memory): Option<Stop> {
    if AcquireStop(s).Some? then AcquireStop(s) else if MemoryStop(s, m).Some? then MemoryStop(s, m) else s.rest
  }

  function MemoryAfter(s: Script, m: Memory): Memory {
    if AcquireStop(s).None? then MemoryNext(s, m) else m
  }

  /** How closing the stack ends: the exception of the callback that ran last wins. */
  function CloseEnd(effect: nat -> Effect, callbacks: seq<nat>): Effect {
    if callbacks == [] then Returns
    else
      var n := |callbacks| - 1;
      var rest := CloseEnd(effect, callbacks[..n]);
      if rest.Returns? then effect(callbacks[n]) else rest
  }

  /** What the answer of the interactive part asks for; None to go round again. */
  function EndingOf(s: Script): Option<Ending> {
    match s.ask
    case Exit(code) => Some(Returned(code))
    case Broken(stop) => Some(StopEnding(stop))
    case NewSession => None
    case SwitchSession => if s.tui then Some(Returned(SWITCH_SESSION_REQUESTED)) else None
  }

  function StopEnding(stop: Stop): Ending {
    if stop.ReturnTwo? then Returned(2) else Raised
  }

  /** How a round ends the run; None when there is a next one. */
  function RoundEnd(effect: nat -> Effect, s: Script, m: Memory): Option<Ending> {
    var closed := CloseEnd(effect, Callbacks(s));
    var end := if RoundStop(s, m).Some? then Some(StopEnding(RoundStop(s, m).value)) else EndingOf(s);
    if end.Some? then Some(if closed.Returns? then end.value else Raised)
    else if closed.Returns? then None
    else Some(if closed.Fails? then Returned(2) else Raised)
  }

  lemma {:induction false} RegisteredInAppend(a: seq<Event>, b: seq<Event>)
    ensures RegisteredIn(a + b) == RegisteredIn(a) + RegisteredIn(b)
    decreases |b|
  {
    if b == [] {
      assert a + b == a;
    } else {
      assert (a + b)[..|a + b| - 1] == a + b[..|b| - 1];
      RegisteredInAppend(a, b[..|b| - 1]);
    }
  }

  lemma {:induction false} RegistrationsRegister(callbacks: seq<nat>)
    ensures RegisteredIn(Registrations(callbacks)) == callbacks
    decreases |callbacks|
  {
    if callbacks != [] {
      var n := |callbacks| - 1;
      assert Registrations(callbacks)[..n] == Registrations(callbacks[..n]);
      RegistrationsRegister(callbacks[..n]);
    }
  }

  lemma ThenRegisters(a: Acquired, rest: seq<Event>)
    ensures RegisteredIn(Then(a, rest)) == ThenCallbacks(a, RegisteredIn(rest))
  {
    if a.Resources? {
      RegistrationsRegister(a.callbacks);
      RegisteredInAppend(Registrations(a.callbacks), rest);
    }
  }

  lemma LaterRegister(s: Script)
    ensures RegisteredIn(LaterEvents(s)) == LaterCallbacks(s)
  {
    ThenRegisters(s.mcp, []);
    ThenRegisters(s.browser, Then(s.mcp, []));
    ThenRegisters(s.managed, Then(s.browser, Then(s.mcp, [])));
  }

  lemma SessionRegisters(s: Script, forceNew: bool, select: bool)
    ensures RegisteredIn(SessionEvents(s, forceNew, select)) == if s.session.Some? then [] else LaterCallbacks(s)
  {
    var first, rest := [Opened(forceNew, select)], if s.session.Some? then [] else LaterEvents(s);
    assert first[..0] == [];
    RegisteredInAppend(first, rest);
    LaterRegister(s);
  }

  lemma MemoryRegistersNothing(s: Script, m: Memory)
    ensures RegisteredIn(MemoryEvents(s, m)) == []
  {
    assert MemoryEvents(s, m) != [] ==> MemoryEvents(s, m)[..0] == [];
  }

  /** A round registers exactly the callbacks of what it acquires, in order. */
  lemma RoundRegisters(s: Script, forceNew: bool, select: bool, m: Memory)
    ensures RegisteredIn(RoundEvents(s, forceNew, select, m)) == Callbacks(s)
  {
    SessionRegisters(s, forceNew, select);
    ThenRegisters(s.web, SessionEvents(s, forceNew, select));
    MemoryRegistersNothing(s, m);
    RegisteredInAppend(AcquireEvents(s, forceNew, select), if AcquireStop(s).None? then MemoryEvents(s, m) else []);
  }

  lemma RoundRunsNothing(s: Script, forceNew: bool, select: bool, m: Memory)
    ensures NothingRuns(RoundEvents(s, forceNew, select, m))
  {
  }

  /** Every session that a round opens, it opens with the flags of the round. */
  lemma RoundFlags(s: Script, forceNew: bool, select: bool, m: Memory, i: nat)
    requires i < |RoundEvents(s, forceNew, select, m)| && RoundEvents(s, forceNew, select, m)[i].Opened?
    ensures RoundEvents(s, forceNew, select, m)[i] == Opened(forceNew, select)
  {
  }

  // ---------------------------------------------------------------- the same without those functions

  /** The cleanup of n callbacks is n events, the last registered first. */
  lemma {:induction false} UnwoundIs(callbacks: seq<nat>)
    ensures |Unwound(callbacks)| == |callbacks|
    ensures forall i :: 0 <= i < |callbacks| ==> Unwound(callbacks)[i] == Ran(callbacks[|callbacks| - 1 - i])
    decreases |callbacks|
  {
    if callbacks != [] {
      UnwoundIs(callbacks[..|callbacks| - 1]);
    }
  }

  /** Closing ends normally exactly when every callback does; otherwise the last to raise decides. */
  lemma {:induction false} CloseEndIs(effect: nat -> Effect, callbacks: seq<nat>)
    ensures CloseEnd(effect, callbacks) == Returns <==>
            forall i :: 0 <= i < |callbacks| ==> effect(callbacks[i]) == Returns
    ensures CloseEnd(effect, callbacks) != Returns ==>
      exists i: nat :: RaisesLast(effect, callbacks, i) && CloseEnd(effect, callbacks) == effect(callbacks[i])
    decreases |callbacks|
  {
    if callbacks != [] {
      var n := |callbacks| - 1;
      CloseEndIs(effect, callbacks[..n]);
      assert forall i :: 0 <= i < n ==> callbacks[..n][i] == callbacks[i];
      if CloseEnd(effect, callbacks[..n]) != Returns {
        var i: nat :| RaisesLast(effect, callbacks[..n], i)
                      && CloseEnd(effect, callbacks[..n]) == effect(callbacks[..n][i]);
        assert RaisesLast(effect, callbacks, i);
      } else if effect(callbacks[n]) != Returns {
        assert RaisesLast(effect, callbacks, n);
      }
    }
  }

  /** This callback raises, and none that runs after it does, which are those registered before it. */
  ghost predicate RaisesLast(effect: nat -> Effect, callbacks: seq<nat>, i: nat) {
    && i < |callbacks| && effect(callbacks[i]) != Returns
    && forall j :: 0 <= j < i ==> effect(callbacks[j]) == Returns
  }

  /** Every step of the round that can stop it goes well. */
  predicate NothingStops(s: Script, m: Memory) {
    && s.web.Resources? && s.session == None && s.managed.Resources? && s.browser.Resources? && s.mcp.Resources?
    && (m.create || m.store ==> s.refused == None && s.memory == None) && s.rest == None
  }

  predicate AllReturn(effect: nat -> Effect, a: Acquired) {
    a.Resources? ==> forall i :: 0 <= i < |a.callbacks| ==> effect(a.callbacks[i]) == Returns
  }

  /**
   A round is followed by another exactly when nothing stops it, `/new` or, outside the TUI,
   `/switch` asks for it, and every cleanup returns.
   */
  lemma GoesRoundIff(effect: nat -> Effect, s: Script, m: Memory)
    ensures RoundEnd(effect, s, m) == None <==>
      && NothingStops(s, m) && (s.ask == NewSession || (s.ask == SwitchSession && !s.tui))
      && AllReturn(effect, s.web) && AllReturn(effect, s.managed)
      && AllReturn(effect, s.browser) && AllReturn(effect, s.mcp)
  {
    CloseEndIs(effect, Callbacks(s));
    if NothingStops(s, m) {
      CallbacksAre(s);
      AllReturnIn(effect, s);
    }
  }

  lemma CallbacksAre(s: Script)
    requires s.web.Resources? && s.session == None
    requires s.managed.Resources? && s.browser.Resources? && s.mcp.Resources?
    ensures Callbacks(s) == s.web.callbacks + s.managed.callbacks + s.browser.callbacks + s.mcp.callbacks
  {
  }

  lemma AllReturnIn(effect: nat -> Effect, s: Script)
    requires s.web.Resources? && s.managed.Resources? && s.browser.Resources? && s.mcp.Resources?
    ensures var all := s.web.callbacks + s.managed.callbacks + s.browser.callbacks + s.mcp.callbacks;
            (forall i :: 0 <= i < |all| ==> effect(all[i]) == Returns) <==>
              && AllReturn(effect, s.web) && AllReturn(effect, s.managed)
              && AllReturn(effect, s.browser) && AllReturn(effect, s.mcp)
  {
    ReturnInBoth(effect, s.web.callbacks, s.managed.callbacks);
    ReturnInBoth(effect, s.web.callbacks + s.managed.callbacks, s.browser.callbacks);
    ReturnInBoth(effect, s.web.callbacks + s.managed.callbacks + s.browser.callbacks, s.mcp.callbacks);
  }

  lemma ReturnInBoth(effect: nat -> Effect, a: seq<nat>, b: seq<nat>)
    ensures (forall i :: 0 <= i < |a + b| ==> effect((a + b)[i]) == Returns) <==>
      && (forall i :: 0 <= i < |a| ==> effect(a[i]) == Returns)
      && forall i :: 0 <= i < |b| ==> effect(b[i]) == Returns
  {
    assert forall i :: 0 <= i < |a| ==> (a + b)[i] == a[i];
    assert forall i :: 0 <= i < |b| ==> (a + b)[|a| + i] == b[i];
    assert forall i :: |a| <= i < |a + b| ==> (a + b)[i] == b[i - |a|];
  }

  /** The first step that stops the round, in the order of the steps. */
  function FirstStop(s: Script, m: Memory): Option<Stop> {
    if s.web.Stops? then Some(s.web.stop)
    else if s.session != None then s.session
    else if s.managed.Stops? then Some(s.managed.stop)
    else if s.browser.Stops? then Some(s.browser.stop)
    else if s.mcp.Stops? then Some(s.mcp.stop)
    else if (m.create || m.store) && s.refused != None then s.refused
    else if (m.create || m.store) && s.memory != None then s.memory
    else s.rest
  }

  /** How a round ends the run whose cleanups all return. */
  lemma EndOfRound(effect: nat -> Effect, s: Script, m: Memory)
    requires CloseEnd(effect, Callbacks(s)) == Returns
    ensures FirstStop(s, m) == Some(ReturnTwo) ==> RoundEnd(effect, s, m) == Some(Returned(2))
    ensures FirstStop(s, m) == Some(Escapes) ==> RoundEnd(effect, s, m) == Some(Raised)
    ensures FirstStop(s, m) == None ==>
      && (forall code :: s.ask == Exit(code) ==> RoundEnd(effect, s, m) == Some(Returned(code)))
      && (s.ask == Broken(ReturnTwo) ==> RoundEnd(effect, s, m) == Some(Returned(2)))
      && (s.ask == Broken(Escapes) ==> RoundEnd(effect, s, m) == Some(Raised))
      && (s.ask == SwitchSession && s.tui ==> RoundEnd(effect, s, m) == Some(Returned(78)))
      && (s.ask == NewSession || (s.ask == SwitchSession && !s.tui) ==> RoundEnd(effect, s, m) == None)
  {
  }

  /** A cleanup that raises ends the run: with 2 only for an Exception of a round that would have been followed. */
  lemma RaisingCleanup(effect: nat -> Effect, s: Script, m: Memory)
    requires CloseEnd(effect, Callbacks(s)) != Returns
    ensures RoundEnd(effect, s, m)
         == if FirstStop(s, m) == None && (s.ask == NewSession || (s.ask == SwitchSession && !s.tui))
               && CloseEnd(effect, Callbacks(s)) == Fails
            then Some(Returned(2)) else Some(Raised)
  {
  }

  /** What a round that nothing stops does before its cleanup, in this order. */
  lemma FullRound(s: Script, forceNew: bool, select: bool, m: Memory)
    requires NothingStops(s, m)
    ensures RoundEvents(s, forceNew, select, m)
         == Registrations(s.web.callbacks) + [Opened(forceNew, select)] + Registrations(s.managed.callbacks)
            + Registrations(s.browser.callbacks) + Registrations(s.mcp.callbacks)
            + if m.create then [MemoryCreated] else if m.store then [MemoryLoaded] else []
  {
  }

  // ---------------------------------------------------------------- what a run does

  function MemoryAt(scripts: seq<Script>, i: nat, m: Memory): Memory
    requires i <= |scripts|
  {
    if i == 0 then m else MemoryAfter(scripts[i - 1], MemoryAt(scripts, i - 1, m))
  }

  /** Round i: its session is forced to be new, or selected, exactly after the request for it. */
  function RoundAt(scripts: seq<Script>, i: nat, m: Memory): seq<Event>
    requires i < |scripts|
  {
    RoundEvents(scripts[i], i > 0 && scripts[i - 1].ask == NewSession, i > 0 && scripts[i - 1].ask == SwitchSession,
                MemoryAt(scripts, i, m))
  }

  function Rounds(scripts: seq<Script>, n: nat, m: Memory): (rounds: seq<seq<Event>>)
    requires n <= |scripts|
    ensures |rounds| == n && forall i :: 0 <= i < n ==> rounds[i] == RoundAt(scripts, i, m)
  {
    seq(n, i requires 0 <= i < n => RoundAt(scripts, i, m))
  }

  lemma NoCreationThen(a: Acquired, rest: seq<Event>)
    requires Times(rest, MemoryCreated) == 0
    ensures Times(Then(a, rest), MemoryCreated) == 0
  {
    if a.Resources? {
      NoCreation(Registrations(a.callbacks));
      TimesAppend(Registrations(a.callbacks), rest, MemoryCreated);
    }
  }

  lemma AcquiringCreatesNothing(s: Script, forceNew: bool, select: bool)
    ensures Times(AcquireEvents(s, forceNew, select), MemoryCreated) == 0
  {
    NoCreationThen(s.mcp, []);
    NoCreationThen(s.browser, Then(s.mcp, []));
    NoCreationThen(s.managed, Then(s.browser, Then(s.mcp, [])));
    NoCreation([Opened(forceNew, select)]);
    TimesAppend([Opened(forceNew, select)], if s.session.Some? then [] else LaterEvents(s), MemoryCreated);
    NoCreationThen(s.web, SessionEvents(s, forceNew, select));
  }

  lemma CreatedInRound(s: Script, forceNew: bool, select: bool, m: Memory)
    ensures Times(RoundEvents(s, forceNew, select, m), MemoryCreated) <= if m.create then 1 else 0
  {
    AcquiringCreatesNothing(s, forceNew, select);
    OneEvent(MemoryEvents(s, m));
    TimesAppend(AcquireEvents(s, forceNew, select),
                if AcquireStop(s).None? then MemoryEvents(s, m) else [], MemoryCreated);
  }

  /** A round that another one follows leaves no creation to be wanted. */
  lemma CreationIsOver(effect: nat -> Effect, s: Script, m: Memory)
    requires RoundEnd(effect, s, m).None?
    ensures !MemoryAfter(s, m).create
  {
  }

  /** The rounds before the n-th all went round. */
  ghost predicate GoesRound(effect: nat -> Effect, scripts: seq<Script>, n: nat, m: Memory)
    requires n <= |scripts|
  {
    forall i :: 0 <= i < n ==> RoundEnd(effect, scripts[i], MemoryAt(scripts, i, m)).None?
  }

  lemma CreatedAt(effect: nat -> Effect, scripts: seq<Script>, i: nat, m: Memory)
    requires i < |scripts| && GoesRound(effect, scripts, i, m)
    ensures Times(RoundAt(scripts, i, m), MemoryCreated) <= if i == 0 then 1 else 0
  {
    CreatedInRound(scripts[i], i > 0 && scripts[i - 1].ask == NewSession, i > 0 && scripts[i - 1].ask == SwitchSession,
                   MemoryAt(scripts, i, m));
    if i > 0 {
      CreationIsOver(effect, scripts[i - 1], MemoryAt(scripts, i - 1, m));
    }
  }

  /** A run that began with a store to create or to load has one to load in every round but the first. */
  lemma {:induction false} StoreStays(effect: nat -> Effect, scripts: seq<Script>, i: nat, m: Memory)
    requires i <= |scripts| && GoesRound(effect, scripts, i, m)
    ensures MemoryAt(scripts, i, m) == if i == 0 then m else Memory(false, m.create || m.store)
    decreases i
  {
    if i > 0 {
      var now := MemoryAt(scripts, i - 1, m);
      GoesLast(effect, scripts, i - 1, m, now);
      StoreStays(effect, scripts, i - 1, m);
      StoreAfter(effect, scripts[i - 1], now);
    }
  }

  lemma GoesLast(effect: nat -> Effect, scripts: seq<Script>, i: nat, m: Memory, now: Memory)
    requires i < |scripts| && GoesRound(effect, scripts, i + 1, m) && now == MemoryAt(scripts, i, m)
    ensures GoesRound(effect, scripts, i, m) && RoundEnd(effect, scripts[i], now).None?
  {
  }

  lemma StoreAfter(effect: nat -> Effect, s: Script, m: Memory)
    requires RoundEnd(effect, s, m).None?
    ensures MemoryAfter(s, m) == Memory(false, m.create || m.store)
  {
    GoesRoundIff(effect, s, m);
  }

  /** The store is created in the first round only, and loaded in every later round that nothing stops. */
  lemma CreatedThenLoaded(effect: nat -> Effect, scripts: seq<Script>, i: nat, m: Memory)
    requires i < |scripts| && GoesRound(effect, scripts, i, m) && NothingStops(scripts[i], m)
    ensures var round := RoundAt(scripts, i, m);
            var last := if round == [] then None else Some(round[|round| - 1]);
            && (m.create && i == 0 ==> last == Some(MemoryCreated))
            && (m.create && i > 0 ==> last == Some(MemoryLoaded))
            && (!m.create && m.store ==> last == Some(MemoryLoaded))
  {
    StoreStays(effect, scripts, i, m);
    FullRound(scripts[i], i > 0 && scripts[i - 1].ask == NewSession, i > 0 && scripts[i - 1].ask == SwitchSession,
              MemoryAt(scripts, i, m));
  }

  /** Only the first round can create the store. */
  lemma {:induction false} CreatedOnce(effect: nat -> Effect, scripts: seq<Script>, n: nat, m: Memory)
    requires n < |scripts| && GoesRound(effect, scripts, n, m)
    ensures Times(Flatten(Rounds(scripts, n + 1, m)), MemoryCreated) <= 1
    decreases n
  {
    OneMoreRound(scripts, n, m);
    CreatedAt(effect, scripts, n, m);
    if n > 0 {
      CreatedOnce(effect, scripts, n - 1, m);
    }
  }

  lemma OneMoreRound(scripts: seq<Script>, n: nat, m: Memory)
    requires n < |scripts|
    ensures Flatten(Rounds(scripts, n + 1, m))
         == Flatten(Rounds(scripts, n, m)) + RoundAt(scripts, n, m) + Unwound(Callbacks(scripts[n]))
    ensures Times(Flatten(Rounds(scripts, n + 1, m)), MemoryCreated)
         == Times(Flatten(Rounds(scripts, n, m)), MemoryCreated) + Times(RoundAt(scripts, n, m), MemoryCreated)
  {
    RoundAtRegisters(scripts, n, m);
    FlattenMore(Rounds(scripts, n, m), Rounds(scripts, n + 1, m), RoundAt(scripts, n, m));
    CreatedInPieces(Flatten(Rounds(scripts, n, m)), RoundAt(scripts, n, m), Callbacks(scripts[n]));
  }

  lemma RoundAtRegisters(scripts: seq<Script>, n: nat, m: Memory)
    requires n < |scripts|
    ensures RegisteredIn(RoundAt(scripts, n, m)) == Callbacks(scripts[n])
  {
    RoundRegisters(scripts[n], n > 0 && scripts[n - 1].ask == NewSession, n > 0 && scripts[n - 1].ask == SwitchSession,
                   MemoryAt(scripts, n, m));
  }

  lemma FlattenMore(rounds: seq<seq<Event>>, more: seq<seq<Event>>, acts: seq<Event>)
    requires |more| == |rounds| + 1 && more[|rounds|] == acts
    requires forall i :: 0 <= i < |rounds| ==> more[i] == rounds[i]
    ensures Flatten(more) == Flatten(rounds) + acts + Unwound(RegisteredIn(acts))
  {
    assert more == rounds + [acts];
    FlattenAppend(rounds, acts);
  }

  lemma CreatedInPieces(before: seq<Event>, acts: seq<Event>, callbacks: seq<nat>)
    ensures Times(before + acts + Unwound(callbacks), MemoryCreated)
         == Times(before, MemoryCreated) + Times(acts, MemoryCreated)
  {
    TimesAppend(before, acts, MemoryCreated);
    TimesAppend(before + acts, Unwound(callbacks), MemoryCreated);
    UnwoundCreatesNothing(callbacks);
  }

  /** Over any number of rounds each callback runs exactly as often as it was registered. */
  lemma RunsAreRegistrations(scripts: seq<Script>, n: nat, m: Memory, callback: nat)
    requires n <= |scripts|
    ensures var events := Flatten(Rounds(scripts, n, m));
            Times(events, Ran(callback)) == Times(events, Registered(callback))
  {
    EachRunsOnce(Rounds(scripts, n, m), callback);
  }

  lemma ThenAppend(before: seq<Event>, a: Acquired, rest: seq<Event>)
    requires a.Resources?
    ensures before + Then(a, []) + rest == before + Then(a, rest)
  {
  }

  lemma CallbacksAppend(before: seq<nat>, a: Acquired, rest: seq<nat>)
    requires a.Resources?
    ensures before + ThenCallbacks(a, []) + rest == before + ThenCallbacks(a, rest)
  {
  }

  // ---------------------------------------------------------------- the loop

  class Session {
    const effect: nat -> Effect
    var events: seq<Event>
    var pending: seq<nat>
    var memory: Memory

    constructor (effect: nat -> Effect, memory: Memory)
      ensures this.effect == effect && events == [] && pending == [] && this.memory == memory
    {
      this.effect := effect;
      events, pending := [], [];
      this.memory := memory;
    }

    /** Build some resources and register each of their callbacks at once. */
    method Acquire(a: Acquired) returns (stop: Option<Stop>)
      modifies this`events, this`pending
      ensures events == old(events) + Then(a, []) && pending == old(pending) + ThenCallbacks(a, [])
      ensures stop == ThenStop(a, None)
    {
      if a.Stops? {
        return Some(a.stop);
      }
      var i := 0;
      while i < |a.callbacks|
        invariant 0 <= i <= |a.callbacks|
        invariant events == old(events) + Registrations(a.callbacks)[..i]
        invariant pending == old(pending) + a.callbacks[..i]
      {
        events := events + [Registered(a.callbacks[i])];
        pending := pending + [a.callbacks[i]];
        i := i + 1;
      }
      assert Registrations(a.callbacks)[..i] == Then(a, []) && a.callbacks[..i] == ThenCallbacks(a, []);
      stop := None;
    }

    /** `ExitStack.close`: everything pending runs, whatever the others do. */
    method CloseStack() returns (end: Effect)
      modifies this`events, this`pending
      ensures pending == [] && events == old(events) + Unwound(old(pending)) && end == CloseEnd(effect, old(pending))
    {
      end := Returns;
      while pending != []
        invariant pending <= old(pending)
        invariant events + Unwound(pending) == old(events) + Unwound(old(pending))
        invariant CloseEnd(effect, old(pending)) ==
          if CloseEnd(effect, pending).Returns? then end else CloseEnd(effect, pending)
        decreases |pending|
      {
        var n := |pending| - 1;
        var callback := pending[n];
        assert pending[..n] + [callback] == pending;
        events := events + [Ran(callback)];
        pending := pending[..n];
        if !effect(callback).Returns? {
          end := effect(callback);
        }
      }
    }

    /** `_open_memory_store` and the lines after it. */
    method OpenMemory(s: Script) returns (stop: Option<Stop>)
      modifies this`events, this`memory
      ensures events == old(events) + MemoryEvents(s, old(memory))
      ensures stop == MemoryStop(s, old(memory)) && memory == MemoryNext(s, old(memory))
    {
      stop := None;
      if memory.create || memory.store {
        if s.refused.Some? {
          return s.refused;
        }
        events := events + [if memory.create then MemoryCreated else MemoryLoaded];
        stop := s.memory;
        if stop.None? && memory.create {
          memory := Memory(false, true);
        }
      }
    }

    /** The browser's resources, and then those of the tool servers. */
    method AcquireBrowser(s: Script) returns (stop: Option<Stop>)
      modifies this`events, this`pending
      ensures events == old(events) + Then(s.browser, Then(s.mcp, []))
      ensures pending == old(pending) + ThenCallbacks(s.browser, ThenCallbacks(s.mcp, []))
      ensures stop == ThenStop(s.browser, ThenStop(s.mcp, None))
    {
      stop := Acquire(s.browser);
      if stop.None? {
        stop := Acquire(s.mcp);
        ThenAppend(old(events), s.browser, Then(s.mcp, []));
        CallbacksAppend(old(pending), s.browser, ThenCallbacks(s.mcp, []));
      }
    }

    /** The resources that are built once the session is open. */
    method AcquireLater(s: Script) returns (stop: Option<Stop>)
      modifies this`events, this`pending
      ensures events == old(events) + LaterEvents(s) && pending == old(pending) + LaterCallbacks(s)
      ensures stop == LaterStop(s)
    {
      stop := Acquire(s.managed);
      if stop.None? {
        stop := AcquireBrowser(s);
        ThenAppend(old(events), s.managed, Then(s.browser, Then(s.mcp, [])));
        CallbacksAppend(old(pending), s.managed, ThenCallbacks(s.browser, ThenCallbacks(s.mcp, [])));
      }
    }

    /** The session, with its two flags, and what is built after it. */
    method OpenSession(s: Script, forceNew: bool, select: bool) returns (stop: Option<Stop>)
      modifies this`events, this`pending
      ensures events == old(events) + SessionEvents(s, forceNew, select)
      ensures pending == old(pending) + if s.session.Some? then [] else LaterCallbacks(s)
      ensures stop == if s.session.Some? then s.session else LaterStop(s)
    {
      events := events + [Opened(forceNew, select)];
      stop := s.session;
      if stop.None? {
        stop := AcquireLater(s);
      }
    }

    /** Everything that registers callbacks, and the session in between. */
    method AcquireAll(s: Script, forceNew: bool, select: bool) returns (stop: Option<Stop>)
      requires pending == []
      modifies this`events, this`pending
      ensures events == old(events) + AcquireEvents(s, forceNew, select) && stop == AcquireStop(s)
      ensures pending == Callbacks(s)
    {
      stop := Acquire(s.web);
      if stop.None? {
        stop := OpenSession(s, forceNew, select);
        ThenAppend(old(events), s.web, SessionEvents(s, forceNew, select));
        CallbacksAppend([], s.web, if s.session.Some? then [] else LaterCallbacks(s));
      }
    }

    /** The assembly part of one round; it stops at the first step that raises or answers early. */
    method Assemble(s: Script, forceNew: bool, select: bool) returns (stop: Option<Stop>)
      requires pending == []
      modifies this
      ensures events == old(events) + RoundEvents(s, forceNew, select, old(memory))
      ensures pending == Callbacks(s) && stop == RoundStop(s, old(memory)) && memory == MemoryAfter(s, old(memory))
    {
      stop := AcquireAll(s, forceNew, select);
      if stop.Some? {
        return;
      }
      stop := OpenMemory(s);
      if stop.None? {
        stop := s.rest;
      }
    }

    /** Leaving the `with` block: the stack closes, and an exception of its own wins. */
    method Leave(ending: Ending) returns (final: Ending)
      modifies this`events, this`pending
      ensures pending == [] && events == old(events) + Unwound(old(pending))
      ensures final == if CloseEnd(effect, old(pending)).Returns? then ending else Raised
    {
      var end := CloseStack();
      final := if end == Returns then ending else Raised;
    }

    /** One round and its cleanup. */
    method OneRound(s: Script, forceNew: bool, select: bool) returns (end: Option<Ending>)
      requires pending == []
      modifies this
      ensures pending == [] && memory == MemoryAfter(s, old(memory))
      ensures events == old(events) + RoundEvents(s, forceNew, select, old(memory)) + Unwound(Callbacks(s))
      ensures end == RoundEnd(effect, s, old(memory))
    {
      var stop := Assemble(s, forceNew, select);
      end := if stop.Some? then Some(StopEnding(stop.value)) else EndingOf(s);
      if end.Some? {
        var final := Leave(end.value);
        return Some(final);
      }
      var closed := CloseStack();
      end := if closed == Returns then None else Some(if closed == Fails then Returned(2) else Raised);
    }

    /** The first i rounds are over, and each was followed by the next. */
    ghost predicate Begins(scripts: seq<Script>, i: nat, m: Memory)
      reads this
    {
      && i <= |scripts| && pending == [] && memory == MemoryAt(scripts, i, m)
      && events == Flatten(Rounds(scripts, i, m))
      && GoesRound(effect, scripts, i, m) && Times(events, MemoryCreated) <= 1
    }

    method NextRound(scripts: seq<Script>, i: nat, forceNew: bool, select: bool, ghost m: Memory)
        returns (end: Option<Ending>)
      requires i < |scripts| && Begins(scripts, i, m)
      requires forceNew <==> i > 0 && scripts[i - 1].ask == NewSession
      requires select <==> i > 0 && scripts[i - 1].ask == SwitchSession
      modifies this
      ensures end.None? ==> Begins(scripts, i + 1, m)
      ensures end.Some? ==>
        && pending == [] && events == Flatten(Rounds(scripts, i + 1, m)) && Times(events, MemoryCreated) <= 1
        && EndsAt(effect, scripts, i + 1, m, end.value)
    {
      end := OneRound(scripts[i], forceNew, select);
      OneMoreRound(scripts, i, m);
      CreatedOnce(effect, scripts, i, m);
    }

    /**
     The session loop over any number of rounds, `taken` of which are begun.  What happens is, round
     by round, what the round acquires and then its own whole cleanup; a round follows exactly when
     the one before it asked for it and was cleaned up.  When `scripts` ends first, an exception
     that nobody catches ends the run before the next acquisition.
     */
    method Run(scripts: seq<Script>) returns (ending: Ending, taken: nat)
      requires events == [] && pending == []
      modifies this
      ensures pending == [] && taken <= |scripts| && events == Flatten(Rounds(scripts, taken, old(memory)))
      ensures EndsAt(effect, scripts, taken, old(memory), ending)
      ensures Times(events, MemoryCreated) <= 1
    {
      var newPending, switchPending := false, false;
      taken := 0;
      while taken < |scripts|
        invariant 0 <= taken <= |scripts| && Begins(scripts, taken, old(memory))
        invariant newPending <==> taken > 0 && scripts[taken - 1].ask == NewSession
        invariant switchPending <==> taken > 0 && scripts[taken - 1].ask == SwitchSession
      {
        var forceNew, select := newPending, switchPending;
        newPending, switchPending := false, false;
        var end := NextRound(scripts, taken, forceNew, select, old(memory));
        taken := taken + 1;
        if end.Some? {
          return end.value, taken;
        }
        newPending := scripts[taken - 1].ask == NewSession;
        switchPending := scripts[taken - 1].ask == SwitchSession;
      }
      ending := Raised;
    }
  }

  /** Every round before the last asked for the next one and was cleaned up; the last one says how the run ends. */
  ghost predicate EndsAt(effect: nat -> Effect, scripts: seq<Script>, taken: nat, m: Memory, ending: Ending)
    requires taken <= |scripts|
  {
    if GoesRound(effect, scripts, taken, m) then taken == |scripts| && ending == Raised
    else
      && taken > 0 && GoesRound(effect, scripts, taken - 1, m)
      && RoundEnd(effect, scripts[taken - 1], MemoryAt(scripts, taken - 1, m)) == Some(ending)
  }

  lemma OneEvent(events: seq<Event>)
    requires |events| <= 1
    ensures Times(events, MemoryCreated) == if MemoryCreated in events then 1 else 0
  {
    if |events| == 1 {
      assert events[..0] == [];
    }
  }

  lemma {:induction false} NoCreation(events: seq<Event>)
    requires forall i :: 0 <= i < |events| ==> events[i] != MemoryCreated
    ensures Times(events, MemoryCreated) == 0
  {
    if events != [] {
      NoCreation(events[..|events| - 1]);
    }
  }

  lemma UnwoundCreatesNothing(callbacks: seq<nat>)
    ensures Times(Unwound(callbacks), MemoryCreated) == 0
    decreases |callbacks|
  {
    if callbacks != [] {
      var n := |callbacks| - 1;
      UnwoundCreatesNothing(callbacks[..n]);
      TimesAppend([Ran(callbacks[n])], Unwound(callbacks[..n]), MemoryCreated);
      NoCreation([Ran(callbacks[n])]);
    }
  }
}

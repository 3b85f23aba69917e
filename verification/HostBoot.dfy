// The Host's boot (`bootHost`, src/host/main.ts) as a machine over its late-bound parts: what each step checks and
// binds, what a request or a clean exit finds bound, whatever order the steps came in and wherever one broke off.
module HostBoot {

  // The variables `bootHost` and its `modules` record hold, in the order a boot binds them. `Lifecycle` is the composed
  // clean exit; the rechecks are the unsubscribe functions; `Maintenance` is bound after the boot answered.
  datatype Part =
    | Database | Lifecycle
    | Bus | LedgerRepository | ResetSteps | ConfigWriter | Preferences
    | Delegation | Suppliers | Ledger | Conversation | BatchSink | Observation | Crew | Mines | Attention
    | Asking | DrainRechecks | HookIngress | Launching | LaunchDrainRechecks | LaunchingStopAll | LaunchingRecovery
    | Maintenance

  // The steps `createBootSteps` is given, in their numbered order.
  datatype Step =
    | ResumeResetSaga | ReverifyConfigWrites | ConstructModules | RecoverSessions | CleanUpAfterRecovery
    | StartHookIngress | StartObservation | StartModules | EvaluateWelcome

  // A step is a list of guards (each throws unless all its parts are bound) and assignments.
  datatype Instr = Guard(parts: set<Part>) | Bind(part: Part)

  function Binds(parts: seq<Part>): (r: seq<Instr>)
    ensures |r| == |parts| && forall i | 0 <= i < |parts| :: r[i] == Bind(parts[i])
  {
    seq(|parts|, i requires 0 <= i < |parts| => Bind(parts[i]))
  }

  const RESUMED: seq<Part> := [Bus, LedgerRepository, ResetSteps, ConfigWriter, Preferences]

  const BEFORE_ASKING: seq<Part> :=
    [Delegation, Suppliers, Ledger, Conversation, BatchSink, Observation, Crew, Mines, Attention]

  const FROM_ASKING: seq<Part> :=
    [Asking, DrainRechecks, HookIngress, Launching, LaunchDrainRechecks, LaunchingStopAll, LaunchingRecovery]

  function Program(step: Step): seq<Instr> {
    match step
    case ResumeResetSaga => Binds(RESUMED)
    case ReverifyConfigWrites => [Guard({ConfigWriter})]
    case ConstructModules =>
      [Guard({Bus, Preferences, LedgerRepository, ResetSteps})]
      + (Binds(BEFORE_ASKING) + ([Guard({Suppliers})] + Binds(FROM_ASKING)))
    case RecoverSessions => [Guard({LaunchingRecovery, Suppliers})]
    case CleanUpAfterRecovery => [Guard({Launching, Delegation})]
    case StartHookIngress => [Guard({HookIngress, ConfigWriter, Delegation})]
    // `modules.observation?.start?.()` and `modules.mines?.start()` ask for nothing.
    case StartObservation => []
    case StartModules => []
    case EvaluateWelcome => [Guard({Preferences, Suppliers})]
  }

  // What a run of instructions leaves bound, and whether a guard threw.
  datatype Run = Run(bound: set<Part>, refused: bool)

  function Execute(bound: set<Part>, instrs: seq<Instr>): Run
    decreases |instrs|
  {
    if instrs == [] then Run(bound, false)
    else
      match instrs[0]
      case Guard(parts) => if parts <= bound then Execute(bound, instrs[1..]) else Run(bound, true)
      case Bind(part) => Execute(bound + {part}, instrs[1..])
  }

  // An attempt at a step: anything it calls may throw, so it may break off after any number of instructions.
  datatype Attempt = Attempt(step: Step, upTo: nat)

  function Reached(attempt: Attempt): seq<Instr> {
    var program := Program(attempt.step);
    if attempt.upTo < |program| then program[..attempt.upTo] else program
  }

  function Perform(bound: set<Part>, attempt: Attempt): Run {
    Execute(bound, Reached(attempt))
  }

  // The callback of `runBoot` has bound these before it answers the steps.
  const OPENED: set<Part> := {Database, Lifecycle}

  // Once the boot answered: the maintenance tick starts if the Host is ready, over an open database.
  function Finished(bound: set<Part>, ready: bool): set<Part> {
    if ready && Database in bound then bound + {Maintenance} else bound
  }

  // What happens to an opened Host: a step is attempted, or the boot answers.
  datatype Event = Tries(attempt: Attempt) | Answers(ready: bool)

  function Next(bound: set<Part>, event: Event): set<Part> {
    match event
    case Tries(attempt) => Perform(bound, attempt).bound
    case Answers(ready) => Finished(bound, ready)
  }

  // What is bound after a history of events.
  function After(history: seq<Event>): set<Part> {
    if history == [] then OPENED else Next(After(history[..|history| - 1]), history[|history| - 1])
  }

  // A Host from its start on: still opening, with none, one or both of its first parts bound, or opened.
  datatype Moment = Opening(done: nat) | Opened(history: seq<Event>)

  function BoundAt(moment: Moment): set<Part> {
    match moment
    case Opening(done) => if done == 0 then {} else if done == 1 then {Database} else OPENED
    case Opened(history) => After(history)
  }

  // ---- Requests ----

  datatype Answer = Refused | Forwarded

  // `stop-all`: fails closed while launching's own is not bound.
  function StopAll(bound: set<Part>): Answer {
    if LaunchingStopAll in bound then Forwarded else Refused
  }

  // The snapshot's reset epoch is read from the database.
  function ResetEpoch(bound: set<Part>): Answer {
    if Database in bound then Forwarded else Refused
  }

  // The clean exit is refused before it is composed.
  function CleanExit(bound: set<Part>): Answer {
    if Lifecycle in bound then Forwarded else Refused
  }

  // What the clean exit stops and then closes, each only if it is bound.
  const ROUTES: seq<Part> := [Maintenance, DrainRechecks, LaunchDrainRechecks, Asking, Launching]
  const ENDPOINTS: seq<Part> := [HookIngress, Delegation]

  function One(bound: set<Part>, part: Part): seq<Part> {
    if part in bound then [part] else []
  }

  function Among(bound: set<Part>, parts: seq<Part>): seq<Part> {
    if parts == [] then [] else Among(bound, parts[..|parts| - 1]) + One(bound, parts[|parts| - 1])
  }

  lemma RoutesAndEndpoints(bound: set<Part>)
    ensures Among(bound, ROUTES) ==
            One(bound, Maintenance) + One(bound, DrainRechecks) + One(bound, LaunchDrainRechecks)
            + One(bound, Asking) + One(bound, Launching)
    ensures Among(bound, ENDPOINTS) == One(bound, HookIngress) + One(bound, Delegation)
  {
    AmongAppend(bound, [], Maintenance);
    AmongAppend(bound, [Maintenance], DrainRechecks);
    AmongAppend(bound, [Maintenance, DrainRechecks], LaunchDrainRechecks);
    AmongAppend(bound, [Maintenance, DrainRechecks, LaunchDrainRechecks], Asking);
    AmongAppend(bound, [Maintenance, DrainRechecks, LaunchDrainRechecks, Asking], Launching);
    AmongAppend(bound, [], HookIngress);
    AmongAppend(bound, [HookIngress], Delegation);
    assert [] + [Maintenance] == [Maintenance];
    assert [Maintenance] + [DrainRechecks] == [Maintenance, DrainRechecks];
    assert [Maintenance, DrainRechecks] + [LaunchDrainRechecks] == [Maintenance, DrainRechecks, LaunchDrainRechecks];
    assert [Maintenance, DrainRechecks, LaunchDrainRechecks] + [Asking]
        == [Maintenance, DrainRechecks, LaunchDrainRechecks, Asking];
    assert [Maintenance, DrainRechecks, LaunchDrainRechecks, Asking] + [Launching] == ROUTES;
    assert [] + [HookIngress] == [HookIngress] && [HookIngress] + [Delegation] == ENDPOINTS;
  }

  // The clean exit's calls, one optional chain after the other.
  lemma AmongAppend(bound: set<Part>, parts: seq<Part>, part: Part)
    ensures Among(bound, parts + [part]) == Among(bound, parts) + One(bound, part)
  {
    assert (parts + [part])[..|parts|] == parts;
  }

  class BootHost {
    var bound: set<Part>
    // The routes stopped and the endpoints closed, in order.
    var stopped: seq<Part>
    var closed: seq<Part>

    constructor ()
      ensures bound == {} && stopped == closed == []
    {
      bound, stopped, closed := {}, [], [];
    }

    // The callback of `runBoot`, which may break off between its two assignments.
    method Open(done: nat)
      requires bound == {}
      modifies this`bound
      ensures bound == BoundAt(Opening(done))
    {
      if done > 0 {
        bound := bound + {Database};
      }
      if done > 1 {
        bound := bound + {Lifecycle};
      }
    }

    method Attempt(attempt: Attempt) returns (refused: bool)
      modifies this`bound
      ensures Run(bound, refused) == Perform(old(bound), attempt)
    {
      var instrs := Reached(attempt);
      var at := 0;
      while at < |instrs|
        invariant 0 <= at <= |instrs|
        invariant Execute(bound, instrs[at..]) == Perform(old(bound), attempt)
      {
        assert instrs[at..][1..] == instrs[at + 1..];
        match instrs[at] {
          case Guard(parts) =>
            if !(parts <= bound) {
              return true;
            }
          case Bind(part) =>
            bound := bound + {part};
        }
        at := at + 1;
      }
      refused := false;
    }

    method Finish(ready: bool)
      modifies this`bound
      ensures bound == Finished(old(bound), ready)
    {
      if ready && Database in bound {
        bound := bound + {Maintenance};
      }
    }

    // `stopRoutes`
    method StopRoutes()
      modifies this`stopped
      ensures stopped == old(stopped) + Among(bound, ROUTES)
    {
      StopIfBound(Maintenance);
      StopIfBound(DrainRechecks);
      StopIfBound(LaunchDrainRechecks);
      StopIfBound(Asking);
      StopIfBound(Launching);
      RoutesAndEndpoints(bound);
    }

    // One optional chain of it.
    method StopIfBound(part: Part)
      modifies this`stopped
      ensures stopped == old(stopped) + One(bound, part)
    {
      if part in bound {
        stopped := stopped + [part];
      }
    }

    // `closeIngress`
    method CloseIngress()
      modifies this`closed
      ensures closed == old(closed) + Among(bound, ENDPOINTS)
    {
      RoutesAndEndpoints(bound);
      if HookIngress in bound {
        closed := closed + [HookIngress];
      }
      if Delegation in bound {
        closed := closed + [Delegation];
      }
    }

    // `closeCleanly`: refused before the exit is composed; then every bound route stops and every bound endpoint closes.
    method CloseCleanly() returns (answer: Answer)
      modifies this`stopped, this`closed
      ensures answer == CleanExit(bound)
      ensures stopped == old(stopped) + if answer == Forwarded then Among(bound, ROUTES) else []
      ensures closed == old(closed) + if answer == Forwarded then Among(bound, ENDPOINTS) else []
      ensures Lifecycle in bound ==> forall part ::
                part in stopped[|old(stopped)|..] <==>
                part in bound && part in {Maintenance, DrainRechecks, LaunchDrainRechecks, Asking, Launching}
      ensures Lifecycle in bound ==> forall part ::
                part in closed[|old(closed)|..] <==> part in bound && part in {HookIngress, Delegation}
    {
      if Lifecycle !in bound {
        return Refused;
      }
      StopRoutes();
      CloseIngress();
      RoutesAndEndpoints(bound);
      answer := Forwarded;
    }
  }
}

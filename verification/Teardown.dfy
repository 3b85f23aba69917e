// The teardown of a launched app (`teardown`, `teardownThroughStopEverything`, `stopTracing`, `withRemovalFailure`,
// e2e/_harness/launchApp.ts): every failure on the way down is thrown at the end.
module Teardown {
  import opened Options
  import opened JsText

  // Where an Error object was made: by one of the `new Error` of a teardown, or by code a teardown calls.
  datatype Maker =
    | KillSurvived | QuitStuck | StopStuck | NoWindow | HostLeft | MainProcess | ProfileLeft
    | Elsewhere

  // Something thrown: an Error with its cause, or any other value, by its text.
  datatype Thrown = Error(maker: Maker, message: string, cause: Option<Thrown>) | Other(text: string)

  // `error instanceof Error ? error.message : String(error)`
  function MessageOf(error: Thrown): string {
    match error
    case Error(_, message, _) => message
    case Other(text) => text
  }

  // `(failure as Error).message`, which a value that is no Error does not have.
  function ErrorMessage(error: Thrown): string {
    if error.Error? then error.message else "undefined"
  }

  function WithRemovalFailure(failure: Option<Thrown>, removal: Thrown): Thrown {
    match failure
    case None => removal
    case Some(earlier) =>
      Error(ProfileLeft, MessageOf(earlier) + "; then the profile was not removed: " + MessageOf(removal), Some(earlier))
  }

  const UNCAUGHT: string := "uncaught exception in the main process: "

  function WithMainErrors(failure: Option<Thrown>, mainErrors: string): Thrown {
    Error(MainProcess,
          UNCAUGHT + mainErrors + match failure { case None => "" case Some(earlier) => "; then: " + ErrorMessage(earlier) },
          failure)
  }

  function WithMain(failure: Option<Thrown>, mainErrors: Option<string>): Option<Thrown> {
    if mainErrors.Some? then Some(WithMainErrors(failure, mainErrors.value)) else failure
  }

  function WithMainErrorsOnly(failure: Option<Thrown>, mainErrors: string): Thrown {
    Error(MainProcess, UNCAUGHT + mainErrors, failure)
  }

  function WithMainOnly(failure: Option<Thrown>, mainErrors: Option<string>): Option<Thrown> {
    if mainErrors.Some? then Some(WithMainErrorsOnly(failure, mainErrors.value)) else failure
  }

  // What the processes and files answer while an app is torn down.
  datatype World = World(
    pid: string,
    budget: string,                 // the quit budget, in milliseconds
    traceStop: Option<Thrown>,      // `tracing.stop` throws
    quitCall: Option<Thrown>,       // the call that asks the app to quit throws
    exitsAfterQuitError: bool,      // the app exits shortly after that
    quitErrorKnown: bool,           // the wait for the quit call ended with it answered
    exitsInTime: bool,              // the app exits within the quit budget
    exitsAfterKill: bool,           // it exits once its process tree was killed
    diagnosis: string,
    closeError: Option<Thrown>,     // Playwright's close throws
    window: bool,                   // the app has a window
    attachError: Option<Thrown>,    // waiting for the Host to be attached throws
    stopError: Option<Thrown>,      // asking for Stop everything and quit throws
    hostSurvives: Option<string>,   // the pid of a Host still running after it
    mainErrors: Option<string>,     // the main process recorded uncaught exceptions
    removalError: Option<Thrown>)   // removing the profile throws

  function DidNotExit(w: World, maker: Maker, from: string, cause: Option<Thrown>): Thrown {
    Error(maker, "the app (pid " + w.pid + ") did not exit within " + w.budget + " ms of " + from
          + "; its process tree was killed. " + w.diagnosis, cause)
  }

  function SurvivedKill(w: World): Thrown {
    Error(KillSurvived, "the app (pid " + w.pid + ") survived a kill of its process tree", None)
  }

  function HostStillRuns(pid: string): Thrown {
    Error(HostLeft, "Stop everything and quit left the profile's Host (pid " + pid + ") running", None)
  }

  // ---- The plain quit ----

  // What stopping the trace and asking the app to quit throws, if anything; `tracing` says whether a trace still runs.
  function QuitStep(w: World, tracing: bool): Option<Thrown> {
    if tracing && w.traceStop.Some? then w.traceStop else w.quitCall
  }

  // It counts unless the app is gone shortly after.
  function QuitError(w: World, tracing: bool): Option<Thrown> {
    if QuitStep(w, tracing).Some? && !w.exitsAfterQuitError && w.quitErrorKnown then QuitStep(w, tracing) else None
  }

  function ExitFailure(w: World, tracing: bool): Option<Thrown> {
    if !w.exitsInTime then
      if !w.exitsAfterKill then Some(SurvivedKill(w))
      else if w.closeError.Some? then w.closeError
      else Some(DidNotExit(w, QuitStuck, "app.quit()", QuitError(w, tracing)))
    else if w.closeError.Some? then w.closeError
    else QuitError(w, tracing)
  }

  function RemovalError(w: World, ownedByCase: bool): Option<Thrown> {
    if ownedByCase then None else w.removalError
  }

  function Removed(failure: Option<Thrown>, removal: Option<Thrown>): Option<Thrown> {
    if removal.Some? then Some(WithRemovalFailure(failure, removal.value)) else failure
  }

  // What the teardown throws, if anything.
  function QuitOutcome(w: World, tracing: bool, ownedByCase: bool): Option<Thrown> {
    Removed(WithMain(ExitFailure(w, tracing), w.mainErrors), RemovalError(w, ownedByCase))
  }

  // ---- Stop everything and quit ----

  function StopFailure(w: World, tracing: bool): Option<Thrown> {
    if !w.window then Some(Error(NoWindow, "the app has no window to run Stop everything and quit from", None))
    else if w.attachError.Some? then w.attachError
    else if tracing && w.traceStop.Some? then w.traceStop
    else if w.stopError.Some? then w.stopError
    else if !w.exitsInTime then Some(DidNotExit(w, StopStuck, "Stop everything and quit", None))
    else if w.closeError.Some? then w.closeError
    else if w.hostSurvives.Some? then
      Some(HostStillRuns(w.hostSurvives.value))
    else None
  }

  function StopOutcome(w: World, tracing: bool, ownedByCase: bool): Option<Thrown> {
    Removed(WithMainOnly(StopFailure(w, tracing), w.mainErrors), RemovalError(w, ownedByCase))
  }

  // ---- The launched app ----

  class LaunchedApp {
    const traced: bool
    const ownedByCase: bool
    var tornDown: bool
    var tracingStopped: bool

    constructor (traced: bool, ownedByCase: bool)
      ensures !tornDown && !tracingStopped
      ensures this.traced == traced && this.ownedByCase == ownedByCase
    {
      this.traced, this.ownedByCase := traced, ownedByCase;
      tornDown, tracingStopped := false, false;
    }

    predicate Tracing()
      reads this
    {
      traced && !tracingStopped
    }

    // Stops the trace once; a later call does nothing.
    method StopTracing(w: World) returns (thrown: Option<Thrown>)
      modifies this`tracingStopped
      ensures thrown == if old(Tracing()) then w.traceStop else None
      ensures tracingStopped == (old(tracingStopped) || traced)
    {
      if !traced || tracingStopped {
        return None;
      }
      tracingStopped := true;
      thrown := w.traceStop;
    }

    // A second call does nothing, and throws nothing.
    method Teardown(w: World, stopEverything: bool) returns (thrown: Option<Thrown>)
      modifies this
      ensures tornDown
      ensures old(tornDown) ==> thrown == None && tracingStopped == old(tracingStopped)
      ensures !old(tornDown) && stopEverything ==> thrown == StopOutcome(w, old(Tracing()), ownedByCase)
      ensures !old(tornDown) && !stopEverything ==> thrown == QuitOutcome(w, old(Tracing()), ownedByCase)
      ensures !old(tornDown) && !stopEverything ==> !Tracing()
    {
      if tornDown {
        return None;
      }
      tornDown := true;
      if stopEverything {
        thrown := TeardownThroughStopEverything(w);
        return;
      }
      var failure := Quit(w);
      if w.mainErrors.Some? {
        failure := Some(WithMainErrors(failure, w.mainErrors.value));
      }
      thrown := RemoveProfile(w, failure);
    }

    // Asks the app to quit and waits for its exit; what goes wrong on the way is kept.
    method Quit(w: World) returns (failure: Option<Thrown>)
      modifies this`tracingStopped
      ensures failure == ExitFailure(w, old(Tracing()))
      ensures !Tracing()
    {
      var quitError: Option<Thrown> := None;
      var asked := StopTracing(w);
      if asked.None? {
        asked := w.quitCall;
      }
      if asked.Some? && !w.exitsAfterQuitError && w.quitErrorKnown {
        quitError := asked;
      }
      if !w.exitsInTime {
        if !w.exitsAfterKill {
          return Some(SurvivedKill(w));
        }
        if w.closeError.Some? {
          return w.closeError;
        }
        return Some(DidNotExit(w, QuitStuck, "app.quit()", quitError));
      }
      if w.closeError.Some? {
        return w.closeError;
      }
      failure := quitError;
    }

    method TeardownThroughStopEverything(w: World) returns (thrown: Option<Thrown>)
      modifies this`tracingStopped
      ensures thrown == StopOutcome(w, old(Tracing()), ownedByCase)
    {
      var failure := StopFromWindow(w);
      if w.mainErrors.Some? {
        failure := Some(WithMainErrorsOnly(failure, w.mainErrors.value));
      }
      thrown := RemoveProfile(w, failure);
    }

    // The `try` of it: the first thing that throws ends it. The trace is stopped only once the Host is attached.
    method StopFromWindow(w: World) returns (failure: Option<Thrown>)
      modifies this`tracingStopped
      ensures failure == StopFailure(w, old(Tracing()))
    {
      if !w.window {
        return Some(Error(NoWindow, "the app has no window to run Stop everything and quit from", None));
      }
      if w.attachError.Some? {
        return w.attachError;
      }
      failure := StopTracing(w);
      if failure.Some? {
        return;
      }
      if w.stopError.Some? {
        return w.stopError;
      }
      if !w.exitsInTime {
        return Some(DidNotExit(w, StopStuck, "Stop everything and quit", None));
      }
      if w.closeError.Some? {
        return w.closeError;
      }
      if w.hostSurvives.Some? {
        return Some(HostStillRuns(w.hostSurvives.value));
      }
    }

    method RemoveProfile(w: World, failure: Option<Thrown>) returns (thrown: Option<Thrown>)
      ensures thrown == Removed(failure, RemovalError(w, ownedByCase))
    {
      thrown := failure;
      if !ownedByCase && w.removalError.Some? {
        thrown := Some(WithRemovalFailure(failure, w.removalError.value));
      }
    }
  }

  // ---- Nothing is lost ----

  // An error is found by following the causes of what was thrown.
  predicate InChain(thrown: Thrown, e: Thrown) {
    thrown == e || (thrown.Error? && thrown.cause.Some? && InChain(thrown.cause.value, e))
  }

  // A text is found in a message on the way.
  predicate Says(thrown: Thrown, text: string) {
    Includes(MessageOf(thrown), text) || (thrown.Error? && thrown.cause.Some? && Says(thrown.cause.value, text))
  }

  lemma IncludesPart(before: string, part: string, after: string)
    ensures Includes(before + part + after, part)
  {
    assert (before + part + after)[|before|..] == part + after;
  }

  // The three kinds of failure, each reported by what is thrown; nothing thrown means there was none.
  ghost predicate Reports(thrown: Option<Thrown>, exit: Option<Thrown>, mainErrors: Option<string>, removal: Option<Thrown>) {
    && (thrown.None? <==> exit.None? && mainErrors.None? && removal.None?)
    && (exit.Some? && thrown.Some? ==> InChain(thrown.value, exit.value))
    && (mainErrors.Some? && thrown.Some? ==> Says(thrown.value, mainErrors.value))
    && (removal.Some? && thrown.Some? ==> Says(thrown.value, MessageOf(removal.value)))
  }

  lemma RemovedReports(failure: Option<Thrown>, exit: Option<Thrown>, mainErrors: Option<string>, removal: Option<Thrown>)
    requires Reports(failure, exit, mainErrors, None)
    ensures Reports(Removed(failure, removal), exit, mainErrors, removal)
  {
    if removal.Some? {
      IncludesPart("", MessageOf(removal.value), "");
      assert "" + MessageOf(removal.value) + "" == MessageOf(removal.value);
      if failure.Some? {
        var before := MessageOf(failure.value) + "; then the profile was not removed: ";
        IncludesPart(before, MessageOf(removal.value), "");
        assert before + MessageOf(removal.value) + "" == before + MessageOf(removal.value);
      }
    }
  }

  // A plain teardown throws exactly when the exit, the main process or the removal failed, and reports each that did.
  lemma QuitReportsEverything(w: World, tracing: bool, ownedByCase: bool)
    ensures Reports(QuitOutcome(w, tracing, ownedByCase), ExitFailure(w, tracing), w.mainErrors, RemovalError(w, ownedByCase))
  {
    var exit := ExitFailure(w, tracing);
    if w.mainErrors.Some? {
      var after := match exit { case None => "" case Some(earlier) => "; then: " + ErrorMessage(earlier) };
      IncludesPart(UNCAUGHT, w.mainErrors.value, after);
      assert UNCAUGHT + w.mainErrors.value + after == MessageOf(WithMainErrors(exit, w.mainErrors.value));
      RemovedReports(Some(WithMainErrors(exit, w.mainErrors.value)), exit, w.mainErrors, RemovalError(w, ownedByCase));
    } else {
      RemovedReports(exit, exit, None, RemovalError(w, ownedByCase));
    }
  }

  lemma StopReportsEverything(w: World, tracing: bool, ownedByCase: bool)
    ensures Reports(StopOutcome(w, tracing, ownedByCase), StopFailure(w, tracing), w.mainErrors, RemovalError(w, ownedByCase))
  {
    var stop := StopFailure(w, tracing);
    if w.mainErrors.Some? {
      IncludesPart(UNCAUGHT, w.mainErrors.value, "");
      assert UNCAUGHT + w.mainErrors.value + "" == UNCAUGHT + w.mainErrors.value;
      RemovedReports(Some(WithMainErrorsOnly(stop, w.mainErrors.value)), stop, w.mainErrors, RemovalError(w, ownedByCase));
    } else {
      RemovedReports(stop, stop, None, RemovalError(w, ownedByCase));
    }
  }

  // A teardown throws nothing exactly when nothing it waits for, calls or reads went wrong, apart from a quit call whose
  // error did not count: the app was gone shortly after, or the wait for the call ended without its answer.
  lemma ThrowsNothingExactly(w: World, tracing: bool, ownedByCase: bool)
    ensures QuitOutcome(w, tracing, ownedByCase).None? <==>
            && w.exitsInTime && w.closeError.None?
            && (((!tracing || w.traceStop.None?) && w.quitCall.None?) || !Counts(w))
            && w.mainErrors.None? && (ownedByCase || w.removalError.None?)
    ensures StopOutcome(w, tracing, ownedByCase).None? <==>
            && w.window && w.attachError.None? && (!tracing || w.traceStop.None?) && w.stopError.None?
            && w.exitsInTime && w.closeError.None? && w.hostSurvives.None?
            && w.mainErrors.None? && (ownedByCase || w.removalError.None?)
  {
    QuitReportsEverything(w, tracing, ownedByCase);
    StopReportsEverything(w, tracing, ownedByCase);
  }

  // ---- What is thrown carries the first thing that went wrong ----

  lemma WrappedCarries(failure: Option<Thrown>, mainErrors: Option<string>, removal: Option<Thrown>, e: Thrown)
    requires Carries(failure, e)
    ensures Carries(Removed(WithMain(failure, mainErrors), removal), e)
    ensures Carries(Removed(WithMainOnly(failure, mainErrors), removal), e)
  {
    CauseCarries(failure, e);
    CauseCarries(WithMain(failure, mainErrors), e);
    CauseCarries(WithMainOnly(failure, mainErrors), e);
  }

  lemma CauseCarries(cause: Option<Thrown>, e: Thrown)
    ensures Carries(cause, e) ==> forall maker, message :: Carries(Some(Error(maker, message, cause)), e)
  {
  }

  // Stop everything and quit, in the order things are tried.
  lemma StopTellsTheFirst(w: World, tracing: bool, ownedByCase: bool)
    ensures var thrown := StopOutcome(w, tracing, ownedByCase);
            if !w.window then
              Carries(thrown, Error(NoWindow, "the app has no window to run Stop everything and quit from", None))
            else if w.attachError.Some? then Carries(thrown, w.attachError.value)
            else if tracing && w.traceStop.Some? then Carries(thrown, w.traceStop.value)
            else if w.stopError.Some? then Carries(thrown, w.stopError.value)
            else if !w.exitsInTime then
              Carries(thrown, Error(StopStuck,
                "the app (pid " + w.pid + ") did not exit within " + w.budget
                + " ms of " + "Stop everything and quit" + "; its process tree was killed. " + w.diagnosis, None))
            else if w.closeError.Some? then Carries(thrown, w.closeError.value)
            else if w.hostSurvives.Some? then
              Carries(thrown, Error(HostLeft,
                "Stop everything and quit left the profile's Host (pid " + w.hostSurvives.value + ") running", None))
            else StopFailure(w, tracing) == None
  {
    if StopFailure(w, tracing).Some? {
      WrappedCarries(StopFailure(w, tracing), w.mainErrors, RemovalError(w, ownedByCase), StopFailure(w, tracing).value);
    }
  }

  // A plain quit: what went wrong last, closing being tried only once the app is gone.
  lemma QuitTellsTheLast(w: World, tracing: bool, ownedByCase: bool)
    ensures var thrown := QuitOutcome(w, tracing, ownedByCase);
            var asked := if tracing && w.traceStop.Some? then w.traceStop else w.quitCall;
            if !Gone(w) then
              Carries(thrown, Error(KillSurvived, "the app (pid " + w.pid + ") survived a kill of its process tree", None))
            else if w.closeError.Some? then Carries(thrown, w.closeError.value)
            else if !w.exitsInTime then
              Carries(thrown, Error(QuitStuck,
                "the app (pid " + w.pid + ") did not exit within " + w.budget
                + " ms of " + "app.quit()" + "; its process tree was killed. " + w.diagnosis,
                if Counts(w) then asked else None))
            else if asked.Some? && Counts(w) then Carries(thrown, asked.value)
            else ExitFailure(w, tracing) == None
  {
    if ExitFailure(w, tracing).Some? {
      WrappedCarries(ExitFailure(w, tracing), w.mainErrors, RemovalError(w, ownedByCase), ExitFailure(w, tracing).value);
    }
  }

  // ---- What one failure hides of another ----

  predicate MadeElsewhere(e: Thrown) {
    e.Error? ==> e.maker == Elsewhere && (e.cause.Some? ==> MadeElsewhere(e.cause.value))
  }

  predicate NoneOrElsewhere(e: Option<Thrown>) {
    e.Some? ==> MadeElsewhere(e.value)
  }

  // What the teardown calls throws errors of its own making: an Error object made here is no other.
  predicate ThrowsItsOwn(w: World) {
    && NoneOrElsewhere(w.traceStop) && NoneOrElsewhere(w.quitCall)
    && NoneOrElsewhere(w.closeError) && NoneOrElsewhere(w.removalError)
  }

  predicate Carries(thrown: Option<Thrown>, e: Thrown) {
    thrown.Some? && InChain(thrown.value, e)
  }

  // Whether the report of an app that would not quit is what was thrown, or a cause of it.
  predicate TellsStuckQuit(thrown: Thrown) {
    thrown.Error? &&
    (thrown.maker == KillSurvived || thrown.maker == QuitStuck || (thrown.cause.Some? && TellsStuckQuit(thrown.cause.value)))
  }

  predicate TellsOfStuckQuit(thrown: Option<Thrown>) {
    thrown.Some? && TellsStuckQuit(thrown.value)
  }

  // Whether an error of the quit call counts.
  predicate Counts(w: World) {
    !w.exitsAfterQuitError && w.quitErrorKnown
  }

  // Whether the app is gone in the end, so that Playwright's side is closed.
  predicate Gone(w: World) {
    w.exitsInTime || w.exitsAfterKill
  }

  lemma {:induction false} ElsewhereTellsNothing(e: Thrown)
    requires MadeElsewhere(e)
    ensures !TellsStuckQuit(e)
  {
    if e.Error? && e.cause.Some? {
      ElsewhereTellsNothing(e.cause.value);
    }
  }

  // What is wrapped around the exit's failure hides nothing of it and adds no report of it.
  lemma MainErrorsWrap(failure: Option<Thrown>, mainErrors: Option<string>, e: Thrown)
    requires MadeElsewhere(e)
    ensures TellsOfStuckQuit(WithMain(failure, mainErrors)) <==> TellsOfStuckQuit(failure)
    ensures Carries(WithMain(failure, mainErrors), e) <==> Carries(failure, e)
  {
    if mainErrors.Some? {
      var wrapped := WithMainErrors(failure, mainErrors.value);
      assert wrapped.cause == failure && wrapped.maker == MainProcess;
    }
  }

  lemma RemovalWraps(failure: Option<Thrown>, removal: Option<Thrown>, e: Thrown)
    requires MadeElsewhere(e) && NoneOrElsewhere(removal)
    ensures TellsOfStuckQuit(Removed(failure, removal)) <==> TellsOfStuckQuit(failure)
    ensures Carries(Removed(failure, removal), e) <==> Carries(failure, e) || (failure.None? && Carries(removal, e))
  {
    if removal.Some? {
      ElsewhereTellsNothing(removal.value);
      if failure.Some? {
        var wrapped := WithRemovalFailure(failure, removal.value);
        assert wrapped.cause == failure && wrapped.maker == ProfileLeft;
      }
    }
  }

  lemma OutcomeWraps(w: World, tracing: bool, ownedByCase: bool, e: Thrown)
    requires ThrowsItsOwn(w) && MadeElsewhere(e)
    ensures var exit, thrown := ExitFailure(w, tracing), QuitOutcome(w, tracing, ownedByCase);
            && (TellsOfStuckQuit(thrown) <==> TellsOfStuckQuit(exit))
            && (Carries(thrown, e) <==>
                Carries(exit, e) || (exit.None? && w.mainErrors.None? && Carries(RemovalError(w, ownedByCase), e)))
  {
    MainErrorsWrap(ExitFailure(w, tracing), w.mainErrors, e);
    RemovalWraps(WithMain(ExitFailure(w, tracing), w.mainErrors), RemovalError(w, ownedByCase), e);
  }

  // An app that did not exit in time is told of exactly when it outlived its kill, or closing did not throw.
  lemma StuckQuitReportedExactly(w: World, tracing: bool, ownedByCase: bool)
    requires ThrowsItsOwn(w)
    requires !w.exitsInTime
    ensures TellsOfStuckQuit(QuitOutcome(w, tracing, ownedByCase)) <==> !w.exitsAfterKill || w.closeError.None?
  {
    OutcomeWraps(w, tracing, ownedByCase, Other(""));
    if w.closeError.Some? {
      ElsewhereTellsNothing(w.closeError.value);
    }
  }

  // And never of one that did.
  lemma NoStuckQuitMadeUp(w: World, tracing: bool, ownedByCase: bool)
    requires ThrowsItsOwn(w)
    requires w.exitsInTime
    ensures !TellsOfStuckQuit(QuitOutcome(w, tracing, ownedByCase))
  {
    OutcomeWraps(w, tracing, ownedByCase, Other(""));
    forall e | e == w.closeError || e == w.traceStop || e == w.quitCall ensures !TellsOfStuckQuit(e) {
      if e.Some? { ElsewhereTellsNothing(e.value); }
    }
  }

  lemma StuckCarries(w: World, e: Thrown, cause: Option<Thrown>)
    requires MadeElsewhere(e)
    ensures InChain(DidNotExit(w, QuitStuck, "app.quit()", cause), e) <==> Carries(cause, e)
    ensures !InChain(SurvivedKill(w), e)
  {
    assert DidNotExit(w, QuitStuck, "app.quit()", cause).cause == cause;
  }

  // What stopping the trace or asking the app to quit threw is carried by what the teardown throws exactly when it counts,
  // the app is gone and closing did not throw; or when another error the teardown throws carries it: the one closing
  // threw, or, with nothing else to report, the one of the profile's removal.
  lemma QuitErrorReportedExactly(w: World, tracing: bool, ownedByCase: bool, e: Thrown)
    requires ThrowsItsOwn(w)
    requires Some(e) == if tracing && w.traceStop.Some? then w.traceStop else w.quitCall
    ensures Carries(QuitOutcome(w, tracing, ownedByCase), e) <==>
            || (Gone(w) && w.closeError.None? && Counts(w))
            || (Gone(w) && Carries(w.closeError, e))
            || (w.exitsInTime && w.closeError.None? && !Counts(w) && w.mainErrors.None?
                && !ownedByCase && Carries(w.removalError, e))
  {
    OutcomeWraps(w, tracing, ownedByCase, e);
    StuckCarries(w, e, QuitError(w, tracing));
  }

  // Closing throws after the kill: neither the stuck quit nor the error of the quit call is told of.
  lemma CloseErrorHides() returns (w: World, e: Thrown)
    ensures ThrowsItsOwn(w)
    ensures !w.exitsInTime && w.exitsAfterKill && w.quitCall == Some(e) && Counts(w)
    ensures var thrown := QuitOutcome(w, false, false);
            && thrown == w.closeError && thrown.Some?
            && !TellsOfStuckQuit(thrown) && !Says(thrown.value, "did not exit within") && !Carries(thrown, e)
  {
    e := Error(Elsewhere, "not answered", None);
    var closing := Error(Elsewhere, "closed", None);
    w := World("1", "10000", None, Some(e), false, true, false, true, "", Some(closing), true, None, None, None, None, None);
  }
}

// What holds in every boot: in order, out of order, repeated or broken off.
module HostBootLaws {
  import opened HostBoot

  // ---- The boot order ----

  // The place of a part in the order a boot binds them; maintenance is bound by no step.
  function Rank(part: Part): nat {
    match part
    case Database => 0 case Lifecycle => 1
    case Bus => 2 case LedgerRepository => 3 case ResetSteps => 4 case ConfigWriter => 5 case Preferences => 6
    case Delegation => 7 case Suppliers => 8 case Ledger => 9 case Conversation => 10 case BatchSink => 11
    case Observation => 12 case Crew => 13 case Mines => 14 case Attention => 15
    case Asking => 16 case DrainRechecks => 17 case HookIngress => 18 case Launching => 19
    case LaunchDrainRechecks => 20 case LaunchingStopAll => 21 case LaunchingRecovery => 22
    case Maintenance => 99
  }

  // Of the parts the boot order binds, exactly the first `n` are bound.
  ghost predicate IsPrefix(bound: set<Part>, n: nat) {
    n <= 23 && forall part | part != Maintenance :: part in bound <==> Rank(part) < n
  }

  lemma RanksDiffer(p: Part, q: Part)
    requires Rank(p) == Rank(q)
    ensures p == q
  {
  }

  // Parts that follow one another in the boot order.
  ghost predicate InOrder(parts: seq<Part>, from: nat) {
    from + |parts| <= 23 && forall i | 0 <= i < |parts| :: Rank(parts[i]) == from + i
  }

  function Max(a: nat, b: nat): nat { if a < b then b else a }

  // Binding parts that follow the bound ones, or are among them, leaves a prefix bound.
  lemma {:induction false} BindsExtend(bound: set<Part>, n: nat, parts: seq<Part>, from: nat)
    requires IsPrefix(bound, n) && from <= n
    requires InOrder(parts, from)
    ensures !Execute(bound, Binds(parts)).refused
    ensures IsPrefix(Execute(bound, Binds(parts)).bound, Max(n, from + |parts|))
    decreases |parts|
  {
    if parts != [] {
      var more := bound + {parts[0]};
      assert IsPrefix(more, Max(n, from + 1)) by {
        forall part | part != Maintenance ensures part in more <==> Rank(part) < Max(n, from + 1) {
          if Rank(part) == from { RanksDiffer(part, parts[0]); }
        }
      }
      assert Binds(parts)[1..] == Binds(parts[1..]);
      BindsExtend(more, Max(n, from + 1), parts[1..], from + 1);
    }
  }

  lemma {:induction false} ExecuteThen(bound: set<Part>, a: seq<Instr>, b: seq<Instr>)
    ensures var first := Execute(bound, a);
            Execute(bound, a + b) == if first.refused then first else Execute(first.bound, b)
    decreases |a|
  {
    if a == [] {
      assert a + b == b;
    } else {
      assert (a + b)[1..] == a[1..] + b;
      match a[0]
      case Guard(parts) => if parts <= bound { ExecuteThen(bound, a[1..], b); }
      case Bind(part) => ExecuteThen(bound + {part}, a[1..], b);
    }
  }

  lemma TheSegments()
    ensures InOrder(RESUMED, 2) && InOrder(BEFORE_ASKING, 7) && InOrder(FROM_ASKING, 16)
  {
  }

  // What a step needs bound: all its guards ask for, in the boot order.
  function Needs(step: Step): nat {
    match step
    case ResumeResetSaga => 0
    case ReverifyConfigWrites => Rank(ConfigWriter) + 1
    case ConstructModules => Rank(Preferences) + 1
    case RecoverSessions => Rank(LaunchingRecovery) + 1
    case CleanUpAfterRecovery => Rank(Launching) + 1
    case StartHookIngress => Rank(HookIngress) + 1
    case StartObservation => 0
    case StartModules => 0
    case EvaluateWelcome => Rank(Suppliers) + 1
  }

  // Where a step takes the boot order to when nothing stops it.
  function Reaches(step: Step): nat {
    match step
    case ResumeResetSaga => 7
    case ConstructModules => 23
    case _ => 0
  }

  lemma GuardAgrees(bound: set<Part>, n: nat, parts: set<Part>, last: Part)
    requires IsPrefix(bound, n)
    requires last in parts && Maintenance !in parts && forall part | part in parts :: Rank(part) <= Rank(last)
    ensures parts <= bound <==> Rank(last) < n
  {
  }

  // ---- One attempt ----

  lemma PrefixOfBinds(parts: seq<Part>, k: nat)
    requires k <= |parts|
    ensures Binds(parts)[..k] == Binds(parts[..k])
  {
  }

  lemma PrefixOfTwo(a: seq<Instr>, b: seq<Instr>, k: nat)
    requires k <= |a| + |b|
    ensures (a + b)[..k] == if k <= |a| then a[..k] else a + b[..k - |a|]
  {
  }

  // A stretch of assignments, broken off anywhere, and then what follows it.
  lemma BindsThen(bound: set<Part>, n: nat, parts: seq<Part>, from: nat, others: seq<Instr>, k: nat) returns (m: nat)
    requires IsPrefix(bound, n) && from <= n && InOrder(parts, from)
    requires k <= |parts| + |others|
    ensures n <= m <= Max(n, from + |parts|)
    ensures k <= |parts| ==> Execute(bound, (Binds(parts) + others)[..k]) == Run(Execute(bound, Binds(parts[..k])).bound, false)
    ensures k <= |parts| ==> IsPrefix(Execute(bound, (Binds(parts) + others)[..k]).bound, m)
    ensures k >= |parts| ==> m == Max(n, from + |parts|)
    ensures k >= |parts| ==> IsPrefix(Execute(bound, Binds(parts)).bound, m)
    ensures k >= |parts| ==>
              Execute(bound, (Binds(parts) + others)[..k]) == Execute(Execute(bound, Binds(parts)).bound, others[..k - |parts|])
  {
    PrefixOfTwo(Binds(parts), others, k);
    if k <= |parts| {
      m := Max(n, from + k);
      PrefixOfBinds(parts, k);
      BindsExtend(bound, n, parts[..k], from);
      if k == |parts| {
        assert parts[..k] == parts && others[..0] == [];
      }
    } else {
      m := Max(n, from + |parts|);
      BindsExtend(bound, n, parts, from);
      ExecuteThen(bound, Binds(parts), others[..k - |parts|]);
    }
  }

  // What one attempt does to a prefix: it is refused exactly when it gets to its guard too early, and then nothing is
  // bound; otherwise it binds the next parts, all of them when it runs to its end.
  ghost predicate AttemptDoes(bound: set<Part>, n: nat, attempt: Attempt, r: Run, m: nat) {
    && IsPrefix(r.bound, m) && n <= m <= Max(n, Reaches(attempt.step))
    && (r.refused <==> attempt.upTo > 0 && n < Needs(attempt.step))
    && (r.refused ==> r.bound == bound)
    && (!r.refused && attempt.upTo >= |Program(attempt.step)| ==> m == Max(n, Reaches(attempt.step)))
  }

  lemma GuardOnly(bound: set<Part>, n: nat, attempt: Attempt, parts: set<Part>, last: Part)
    requires IsPrefix(bound, n)
    requires Program(attempt.step) == [Guard(parts)]
    requires last in parts && forall part | part in parts :: Rank(part) <= Rank(last)
    requires Needs(attempt.step) == Rank(last) + 1 && Reaches(attempt.step) == 0
    ensures AttemptDoes(bound, n, attempt, Perform(bound, attempt), n)
  {
    GuardAgrees(bound, n, parts, last);
    assert Execute(bound, [Guard(parts)][1..]) == Run(bound, false);
  }

  lemma ResumeAttempt(bound: set<Part>, n: nat, attempt: Attempt) returns (m: nat)
    requires IsPrefix(bound, n) && n >= 2
    requires attempt.step == ResumeResetSaga
    ensures AttemptDoes(bound, n, attempt, Perform(bound, attempt), m)
  {
    TheSegments();
    var k := if attempt.upTo < |RESUMED| then attempt.upTo else |RESUMED|;
    m := BindsThen(bound, n, RESUMED, 2, [], k);
    assert Binds(RESUMED) + [] == Binds(RESUMED);
    assert Reached(attempt) == Binds(RESUMED)[..k];
  }

  // The second guard of `constructModules` and what follows it, broken off after `j` of its assignments.
  lemma FromAsking(bound: set<Part>, n: nat, j: nat)
    requires IsPrefix(bound, n) && n >= 16 && j <= |FROM_ASKING|
    ensures var r := Execute(bound, ([Guard({Suppliers})] + Binds(FROM_ASKING))[..j + 1]);
            !r.refused && IsPrefix(r.bound, Max(n, 16 + j))
  {
    TheSegments();
    PrefixOfTwo([Guard({Suppliers})], Binds(FROM_ASKING), j + 1);
    PrefixOfBinds(FROM_ASKING, j);
    var instrs := [Guard({Suppliers})] + Binds(FROM_ASKING[..j]);
    assert instrs[1..] == Binds(FROM_ASKING[..j]);
    assert Suppliers in bound;
    BindsExtend(bound, n, FROM_ASKING[..j], 16);
  }

  // What follows the first guard of `constructModules`, broken off after `k` instructions.
  lemma ConstructFromGuard(bound: set<Part>, n: nat, k: nat) returns (m: nat)
    requires IsPrefix(bound, n) && n >= 7
    requires k <= |BEFORE_ASKING| + 1 + |FROM_ASKING|
    ensures var body := Binds(BEFORE_ASKING) + ([Guard({Suppliers})] + Binds(FROM_ASKING));
            var r := Execute(bound, body[..k]);
            && !r.refused && IsPrefix(r.bound, m) && n <= m <= Max(n, 23)
            && (k == |BEFORE_ASKING| + 1 + |FROM_ASKING| ==> m == Max(n, 23))
  {
    TheSegments();
    var others := [Guard({Suppliers})] + Binds(FROM_ASKING);
    m := BindsThen(bound, n, BEFORE_ASKING, 7, others, k);
    if k > |BEFORE_ASKING| {
      var j := k - |BEFORE_ASKING| - 1;
      var middle := Execute(bound, Binds(BEFORE_ASKING)).bound;
      FromAsking(middle, m, j);
      m := Max(m, 16 + j);
    }
  }

  lemma ConstructAttempt(bound: set<Part>, n: nat, attempt: Attempt) returns (m: nat)
    requires IsPrefix(bound, n) && n >= 2
    requires attempt.step == ConstructModules
    ensures AttemptDoes(bound, n, attempt, Perform(bound, attempt), m)
  {
    var asked := {Bus, Preferences, LedgerRepository, ResetSteps};
    var body := Binds(BEFORE_ASKING) + ([Guard({Suppliers})] + Binds(FROM_ASKING));
    GuardAgrees(bound, n, asked, Preferences);
    m := n;
    if attempt.upTo > 0 {
      var k := if attempt.upTo - 1 < |body| then attempt.upTo - 1 else |body|;
      PrefixOfTwo([Guard(asked)], body, k + 1);
      assert Reached(attempt) == [Guard(asked)] + body[..k];
      assert Reached(attempt)[1..] == body[..k];
      if asked <= bound {
        m := ConstructFromGuard(bound, n, k);
      }
    }
  }

  lemma OneAttempt(bound: set<Part>, n: nat, attempt: Attempt) returns (m: nat)
    requires IsPrefix(bound, n) && n >= 2
    ensures AttemptDoes(bound, n, attempt, Perform(bound, attempt), m)
  {
    m := n;
    match attempt.step
    case ResumeResetSaga => m := ResumeAttempt(bound, n, attempt);
    case ConstructModules => m := ConstructAttempt(bound, n, attempt);
    case ReverifyConfigWrites => GuardOnly(bound, n, attempt, {ConfigWriter}, ConfigWriter);
    case RecoverSessions => GuardOnly(bound, n, attempt, {LaunchingRecovery, Suppliers}, LaunchingRecovery);
    case CleanUpAfterRecovery => GuardOnly(bound, n, attempt, {Launching, Delegation}, Launching);
    case StartHookIngress => GuardOnly(bound, n, attempt, {HookIngress, ConfigWriter, Delegation}, HookIngress);
    case EvaluateWelcome => GuardOnly(bound, n, attempt, {Preferences, Suppliers}, Suppliers);
    case StartObservation => assert Reached(attempt) == [];
    case StartModules => assert Reached(attempt) == [];
  }

  // ---- Every history ----

  // Whatever steps were attempted, in whatever order and however far each got, and whenever the boot answered, what is
  // bound of the boot order is a prefix of it.
  lemma {:induction false} BoundIsAlwaysAPrefix(history: seq<Event>) returns (n: nat)
    ensures n >= 2 && IsPrefix(After(history), n)
  {
    if history == [] {
      n := 2;
    } else {
      var init, event := history[..|history| - 1], history[|history| - 1];
      n := BoundIsAlwaysAPrefix(init);
      if event.Tries? {
        n := OneAttempt(After(init), n, event.attempt);
      }
    }
  }

  // So an attempt is refused exactly when it comes before all it needs, and a refused one has done nothing; a stop-all
  // asked in between is refused exactly before launching's own is bound.
  lemma RefusedExactlyWhenEarly(history: seq<Event>, attempt: Attempt) returns (n: nat)
    ensures IsPrefix(After(history), n)
    ensures var r := Perform(After(history), attempt);
            && (r.refused <==> attempt.upTo > 0 && n < Needs(attempt.step))
            && (r.refused ==> r.bound == After(history))
    ensures StopAll(After(history)) == Forwarded <==> n > Rank(LaunchingStopAll)
  {
    n := BoundIsAlwaysAPrefix(history);
    var m := OneAttempt(After(history), n, attempt);
  }

  // From a Host's start on, the reset epoch is refused exactly until the database is open, and a clean exit exactly until
  // it is composed; a stop-all is refused all the while it opens.
  lemma OpeningIsRefused(moment: Moment)
    ensures ResetEpoch(BoundAt(moment)) == Refused <==> moment.Opening? && moment.done < 1
    ensures CleanExit(BoundAt(moment)) == Refused <==> moment.Opening? && moment.done < 2
    ensures moment.Opening? ==> StopAll(BoundAt(moment)) == Refused
  {
    if moment.Opened? {
      var n := BoundIsAlwaysAPrefix(moment.history);
    }
  }

  // ---- Whole steps ----

  predicate IsWhole(event: Event) {
    event.Tries? ==> event.attempt.upTo >= |Program(event.attempt.step)|
  }

  ghost predicate Whole(history: seq<Event>) {
    forall i | 0 <= i < |history| :: IsWhole(history[i])
  }

  lemma ProgramsWithNeeds(step: Step)
    requires Needs(step) > 0
    ensures |Program(step)| > 0
  {
  }

  lemma WholeAttempt(bound: set<Part>, n: nat, attempt: Attempt)
    requires IsPrefix(bound, n) && n >= 2
    requires attempt.upTo >= |Program(attempt.step)|
    ensures Perform(bound, attempt).refused <==> n < Needs(attempt.step)
    ensures IsPrefix(Perform(bound, attempt).bound, if n < Needs(attempt.step) then n else Max(n, Reaches(attempt.step)))
  {
    if Needs(attempt.step) > 0 {
      ProgramsWithNeeds(attempt.step);
    }
    var m := OneAttempt(bound, n, attempt);
  }

  predicate Takes(event: Event, step: Step) {
    event.Tries? && event.attempt.step == step
  }

  ghost predicate Resumed(history: seq<Event>) {
    exists i | 0 <= i < |history| :: Takes(history[i], ResumeResetSaga)
  }

  ghost predicate Constructed(history: seq<Event>) {
    exists i, j | 0 <= i < j < |history| :: Takes(history[i], ResumeResetSaga) && Takes(history[j], ConstructModules)
  }

  // Where a history of whole steps has got to.
  ghost function Level(history: seq<Event>): nat {
    if Constructed(history) then 23 else if Resumed(history) then 7 else 2
  }

  lemma LevelGrows(history: seq<Event>)
    requires history != []
    ensures var n := |history| - 1;
            var before := Level(history[..n]);
            Level(history) == if Takes(history[n], ResumeResetSaga) then Max(before, 7)
                              else if Takes(history[n], ConstructModules) && before >= 7 then 23
                              else before
  {
    var n := |history| - 1;
    var init := history[..n];
    assert forall i | 0 <= i < n :: init[i] == history[i];
    if Resumed(history) && !Takes(history[n], ResumeResetSaga) {
      var i :| 0 <= i < |history| && Takes(history[i], ResumeResetSaga);
      assert Takes(init[i], ResumeResetSaga);
    }
    if Constructed(history) && !Takes(history[n], ConstructModules) {
      var i, j :| 0 <= i < j < |history| && Takes(history[i], ResumeResetSaga) && Takes(history[j], ConstructModules);
      assert Takes(init[i], ResumeResetSaga) && Takes(init[j], ConstructModules);
    }
  }

  lemma LevelNext(bound: set<Part>, level: nat, event: Event)
    requires IsPrefix(bound, level) && level >= 2 && IsWhole(event)
    ensures IsPrefix(Next(bound, event),
                     if Takes(event, ResumeResetSaga) then Max(level, 7)
                     else if Takes(event, ConstructModules) && level >= 7 then 23
                     else level)
  {
    if event.Tries? {
      WholeAttempt(bound, level, event.attempt);
    }
  }

  lemma {:induction false} WholeStepsReachTheirLevel(history: seq<Event>)
    requires Whole(history)
    ensures IsPrefix(After(history), Level(history))
  {
    if history != [] {
      var n := |history| - 1;
      WholeStepsReachTheirLevel(history[..n]);
      LevelGrows(history);
      assert IsWhole(history[n]);
      LevelNext(After(history[..n]), Level(history[..n]), history[n]);
    }
  }

  // The boot's own order.
  const BOOT: seq<Step> :=
    [ResumeResetSaga, ReverifyConfigWrites, ConstructModules, RecoverSessions, CleanUpAfterRecovery, StartHookIngress,
     StartObservation, StartModules, EvaluateWelcome]

  // The steps that bind what a step needs ran before it: none, the resume, or the construction after a resume.
  ghost predicate RanBefore(history: seq<Event>, step: Step) {
    match step
    case ResumeResetSaga => true
    case StartObservation => true
    case StartModules => true
    case ReverifyConfigWrites => Resumed(history)
    case ConstructModules => Resumed(history)
    case _ => Constructed(history)
  }

  lemma LevelSuffices(history: seq<Event>, step: Step)
    ensures Level(history) >= Needs(step) <==> RanBefore(history, step)
  {
    assert Constructed(history) ==> Resumed(history);
  }

  // In a run of whole steps a step passes exactly when they did.
  lemma WholeStepPasses(history: seq<Event>, step: Step)
    requires Whole(history)
    ensures !Perform(After(history), Attempt(step, |Program(step)|)).refused <==> RanBefore(history, step)
    ensures StopAll(After(history)) == Forwarded <==> Constructed(history)
  {
    WholeStepsReachTheirLevel(history);
    LevelSuffices(history, step);
    WholeAttempt(After(history), Level(history), Attempt(step, |Program(step)|));
  }

  function InBootOrder(n: nat): (history: seq<Event>)
    requires n <= |BOOT|
    ensures |history| == n && Whole(history)
  {
    seq(n, i requires 0 <= i < n => Tries(Attempt(BOOT[i], |Program(BOOT[i])|)))
  }

  // A boot in order is never refused, and binds every part.
  lemma BootInOrderPasses(n: nat)
    requires n < |BOOT|
    ensures !Perform(After(InBootOrder(n)), Attempt(BOOT[n], |Program(BOOT[n])|)).refused
    ensures n >= 3 ==> IsPrefix(After(InBootOrder(n)), 23)
  {
    var history := InBootOrder(n);
    WholeStepPasses(history, BOOT[n]);
    WholeStepsReachTheirLevel(history);
    if n > 0 { assert Takes(history[0], ResumeResetSaga); }
    if n > 2 { assert Takes(history[2], ConstructModules); }
  }

  // ---- The clean exit ----

  lemma {:induction false} AmongIsBound(bound: set<Part>, parts: seq<Part>, part: Part)
    ensures part in Among(bound, parts) <==> part in parts && part in bound
  {
    if parts != [] {
      AmongIsBound(bound, parts[..|parts| - 1], part);
      assert part in parts <==> part in parts[..|parts| - 1] || part == parts[|parts| - 1];
    }
  }

  // Each step, whatever is bound before it: it is refused exactly when one of these parts is not bound, and binds these.
  lemma StepSpelledOut(bound: set<Part>, step: Step)
    ensures var r := Perform(bound, Attempt(step, |Program(step)|));
            match step
            case ResumeResetSaga =>
              r == Run(bound + {Bus, LedgerRepository, ResetSteps, ConfigWriter, Preferences}, false)
            case ReverifyConfigWrites => r == Run(bound, ConfigWriter !in bound)
            case ConstructModules =>
              r == if {Bus, Preferences, LedgerRepository, ResetSteps} <= bound then Run(bound + CONSTRUCTED, false)
                   else Run(bound, true)
            case RecoverSessions => r == Run(bound, LaunchingRecovery !in bound || Suppliers !in bound)
            case CleanUpAfterRecovery => r == Run(bound, Launching !in bound || Delegation !in bound)
            case StartHookIngress =>
              r == Run(bound, HookIngress !in bound || ConfigWriter !in bound || Delegation !in bound)
            case StartObservation => r == Run(bound, false)
            case StartModules => r == Run(bound, false)
            case EvaluateWelcome => r == Run(bound, Preferences !in bound || Suppliers !in bound)
  {
    match step
    case ResumeResetSaga =>
      BindsAll(bound, RESUMED);
      ResumedParts();
    case ConstructModules =>
      ConstructsAll(bound);
      ConstructedParts();
      assert Program(step)[1..] == Binds(BEFORE_ASKING) + ([Guard({Suppliers})] + Binds(FROM_ASKING));
      assert bound + Parts(BEFORE_ASKING) + Parts(FROM_ASKING) == bound + CONSTRUCTED;
    case ReverifyConfigWrites => OneGuard(bound, {ConfigWriter});
    case RecoverSessions => OneGuard(bound, {LaunchingRecovery, Suppliers});
    case CleanUpAfterRecovery => OneGuard(bound, {Launching, Delegation});
    case StartHookIngress => OneGuard(bound, {HookIngress, ConfigWriter, Delegation});
    case EvaluateWelcome => OneGuard(bound, {Preferences, Suppliers});
    case StartObservation =>
    case StartModules =>
  }

  const CONSTRUCTED: set<Part> :=
    {Delegation, Suppliers, Ledger, Conversation, BatchSink, Observation, Crew, Mines, Attention, Asking, DrainRechecks,
     HookIngress, Launching, LaunchDrainRechecks, LaunchingStopAll, LaunchingRecovery}

  lemma ResumedParts()
    ensures Parts(RESUMED) == {Bus, LedgerRepository, ResetSteps, ConfigWriter, Preferences}
  {
  }

  lemma ConstructedParts()
    ensures Parts(BEFORE_ASKING) + Parts(FROM_ASKING) == CONSTRUCTED
  {
  }

  lemma OneGuard(bound: set<Part>, parts: set<Part>)
    ensures Execute(bound, [Guard(parts)]) == Run(bound, !(parts <= bound))
  {
    assert [Guard(parts)][1..] == [];
  }

  ghost function Parts(parts: seq<Part>): set<Part> {
    set part | part in parts
  }

  lemma {:induction false} BindsAll(bound: set<Part>, parts: seq<Part>)
    ensures Execute(bound, Binds(parts)) == Run(bound + Parts(parts), false)
    decreases |parts|
  {
    if parts == [] {
      assert bound + Parts(parts) == bound;
    } else {
      assert Binds(parts)[1..] == Binds(parts[1..]);
      BindsAll(bound + {parts[0]}, parts[1..]);
      assert parts == [parts[0]] + parts[1..];
      assert bound + {parts[0]} + Parts(parts[1..]) == bound + Parts(parts);
    }
  }

  lemma ConstructsAll(bound: set<Part>)
    ensures Execute(bound, Binds(BEFORE_ASKING) + ([Guard({Suppliers})] + Binds(FROM_ASKING)))
         == Run(bound + Parts(BEFORE_ASKING) + Parts(FROM_ASKING), false)
  {
    var middle := bound + Parts(BEFORE_ASKING);
    BindsAll(bound, BEFORE_ASKING);
    ExecuteThen(bound, Binds(BEFORE_ASKING), [Guard({Suppliers})] + Binds(FROM_ASKING));
    assert Suppliers in BEFORE_ASKING;
    assert ([Guard({Suppliers})] + Binds(FROM_ASKING))[1..] == Binds(FROM_ASKING);
    BindsAll(middle, FROM_ASKING);
  }

  lemma {:induction false} ExecuteBindsOnly(bound: set<Part>, instrs: seq<Instr>, part: Part)
    requires Bind(part) !in instrs
    ensures part in Execute(bound, instrs).bound <==> part in bound
    decreases |instrs|
  {
    if instrs != [] {
      match instrs[0]
      case Guard(parts) => if parts <= bound { ExecuteBindsOnly(bound, instrs[1..], part); }
      case Bind(other) => ExecuteBindsOnly(bound + {other}, instrs[1..], part);
    }
  }

  lemma NoStepStartsMaintenance(attempt: Attempt)
    ensures Bind(Maintenance) !in Reached(attempt)
  {
    TheSegments();
    var program := Program(attempt.step);
    forall i | 0 <= i < |program| ensures program[i] != Bind(Maintenance) {
    }
  }

  // The maintenance tick runs exactly from the first ready answer on.
  lemma {:induction false} MaintenanceRuns(history: seq<Event>)
    ensures Maintenance in After(history) <==> Answers(true) in history
  {
    if history != [] {
      var init, event := history[..|history| - 1], history[|history| - 1];
      MaintenanceRuns(init);
      var n := BoundIsAlwaysAPrefix(init);
      assert history == init + [event];
      if event.Tries? {
        NoStepStartsMaintenance(event.attempt);
        ExecuteBindsOnly(After(init), Reached(event.attempt), Maintenance);
      }
    }
  }

  // A clean exit asked at any point of any history is taken, and stops exactly the routes, and closes exactly the
  // endpoints, the history has bound so far: those before its place in the boot order, and the maintenance tick once the
  // boot answered ready.
  lemma CleanExitStopsWhatIsBound(history: seq<Event>, part: Part) returns (n: nat)
    requires part in {Maintenance, DrainRechecks, LaunchDrainRechecks, Asking, Launching, HookIngress, Delegation}
    ensures IsPrefix(After(history), n) && CleanExit(After(history)) == Forwarded
    ensures part in Among(After(history), ROUTES) + Among(After(history), ENDPOINTS) <==>
            if part == Maintenance then Answers(true) in history else Rank(part) < n
  {
    n := BoundIsAlwaysAPrefix(history);
    MaintenanceRuns(history);
    AmongIsBound(After(history), ROUTES, part);
    AmongIsBound(After(history), ENDPOINTS, part);
  }
}

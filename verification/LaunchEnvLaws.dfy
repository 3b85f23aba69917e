// What the environment of a launched app promises before the case's own overlay.
module LaunchEnvLaws {
  import opened Options
  import opened Platforms
  import opened JsObject
  import opened LaunchEnv

  // ---- Names ----

  const HOME_NAMES: seq<string> := ["HOME", "USERPROFILE", "APPDATA", "XDG_CONFIG_HOME", "XDG_STATE_HOME"]

  const ASSIGNED_NAMES: seq<string> :=
    ["CLAUDE_CONFIG_DIR", "CODEX_HOME", "LOCALAPPDATA", "XDG_DATA_HOME", "DWARFAI_E2E_MAIN_ERRORS",
     "DWARFAI_E2E_MAIN_LIFECYCLE", "DWARFAI_E2E_TRAY_LOG"]

  // The harness's own names are in upper case.
  ghost predicate FixesNames(upper: string -> string) {
    && upper("PATH") == "PATH"
    && (forall i | 0 <= i < |HOME_NAMES| :: upper(HOME_NAMES[i]) == HOME_NAMES[i])
    && (forall i | 0 <= i < |ASSIGNED_NAMES| :: upper(ASSIGNED_NAMES[i]) == ASSIGNED_NAMES[i])
  }

  lemma NamesApart()
    ensures forall i, j | 0 <= i < j < |HOME_NAMES| :: HOME_NAMES[i] != HOME_NAMES[j]
    ensures forall i, j | 0 <= i < |HOME_NAMES| && 0 <= j < |ASSIGNED_NAMES| :: HOME_NAMES[i] != ASSIGNED_NAMES[j]
    ensures "PATH" !in HOME_NAMES && "PATH" !in ASSIGNED_NAMES
    ensures forall i | 0 <= i < |HOME_NAMES| :: HOME_NAMES[i] !in DROPPED
    ensures forall i | 0 <= i < |ASSIGNED_NAMES| :: ASSIGNED_NAMES[i] !in DROPPED
  {
  }

  lemma HomeKeys(profile: Profile, machine: Machine)
    ensures |HomeIn(profile, machine)| == |HOME_NAMES|
    ensures forall i | 0 <= i < |HOME_NAMES| :: HomeIn(profile, machine)[i].key == HOME_NAMES[i]
  {
  }

  // The assigned names, but for macOS, whose data root is the home folder itself.
  lemma AssignedKeys(profile: Profile, options: LaunchOptions, machine: Machine)
    ensures var r := AssignedIn(profile, options, machine);
            && (forall i | 0 <= i < |r| :: r[i].key in ASSIGNED_NAMES || (machine.platform == Darwin && r[i] == HomeIn(profile, machine)[0]))
            && (forall i, j | 0 <= i < j < |r| :: r[i].key != r[j].key)
  {
  }

  // ---- Spellings ----

  // Exactly one variable goes by the name of `key`, however it is spelled, and it is this one.
  ghost predicate OneSpelling(env: Object<string>, e: Entry<string>, upper: string -> string) {
    forall f :: f in env && upper(f.key) == upper(e.key) <==> f == e
  }

  lemma SetSpellsOnce(env: Object<string>, e: Entry<string>, upper: string -> string)
    requires Proper(env)
    ensures Proper(WithVariable(env, e.key, e.value, upper))
    ensures OneSpelling(WithVariable(env, e.key, e.value, upper), e, upper)
  {
    var others := Without(env, upper(e.key), upper);
    WithoutIsProper(env, upper(e.key), upper);
    PutKeepsProper(others, e.key, e.value);
    forall f ensures f in Put(others, e.key, e.value) && upper(f.key) == upper(e.key) <==> f == e {
      PutEntries(others, e.key, e.value, f);
      WithoutHolds(env, upper(e.key), upper, f);
    }
  }

  // Setting a variable of another name touches none of this one's spellings.
  lemma SetElsewhere(env: Object<string>, e: Entry<string>, f: Entry<string>, upper: string -> string)
    requires Proper(env) && upper(e.key) != upper(f.key)
    ensures f in WithVariable(env, e.key, e.value, upper) <==> f in env
  {
    WithoutIsProper(env, upper(e.key), upper);
    PutEntries(Without(env, upper(e.key), upper), e.key, e.value, f);
    WithoutHolds(env, upper(e.key), upper, f);
  }

  ghost predicate NamesDiffer(entries: seq<Entry<string>>, upper: string -> string) {
    forall i, j | 0 <= i < j < |entries| :: upper(entries[i].key) != upper(entries[j].key)
  }

  lemma {:induction false} SetAllSpellsOnce(env: Object<string>, entries: seq<Entry<string>>, upper: string -> string)
    requires Proper(env) && NamesDiffer(entries, upper)
    ensures Proper(WithVariables(env, entries, upper))
    ensures forall i | 0 <= i < |entries| :: OneSpelling(WithVariables(env, entries, upper), entries[i], upper)
  {
    if entries != [] {
      var n := |entries| - 1;
      var before := WithVariables(env, entries[..n], upper);
      SetAllSpellsOnce(env, entries[..n], upper);
      SetSpellsOnce(before, entries[n], upper);
      assert WithVariables(env, entries, upper) == WithVariable(before, entries[n].key, entries[n].value, upper);
      forall i | 0 <= i < n ensures OneSpelling(WithVariables(env, entries, upper), entries[i], upper) {
        PrefixSpelled(before, entries, i, upper);
        StillOneSpelling(before, entries[n], entries[i], upper);
      }
    }
  }

  lemma PrefixSpelled(env: Object<string>, entries: seq<Entry<string>>, i: nat, upper: string -> string)
    requires i < |entries| - 1
    requires var init := entries[..|entries| - 1]; forall j | 0 <= j < |init| :: OneSpelling(env, init[j], upper)
    ensures OneSpelling(env, entries[i], upper)
  {
    assert entries[..|entries| - 1][i] == entries[i];
  }

  lemma StillOneSpelling(env: Object<string>, e: Entry<string>, kept: Entry<string>, upper: string -> string)
    requires Proper(env) && OneSpelling(env, kept, upper)
    requires upper(e.key) != upper(kept.key)
    ensures OneSpelling(WithVariable(env, e.key, e.value, upper), kept, upper)
  {
    forall f: Entry<string>
      ensures f in WithVariable(env, e.key, e.value, upper) && upper(f.key) == upper(kept.key) <==> f == kept
    {
      if upper(f.key) == upper(kept.key) {
        SetElsewhere(env, e, f, upper);
      }
    }
  }

  lemma {:induction false} SetAllElsewhere(env: Object<string>, entries: seq<Entry<string>>, f: Entry<string>, upper: string -> string)
    requires Proper(env)
    requires forall i | 0 <= i < |entries| :: upper(entries[i].key) != upper(f.key)
    ensures Proper(WithVariables(env, entries, upper))
    ensures f in WithVariables(env, entries, upper) <==> f in env
  {
    if entries != [] {
      var n := |entries| - 1;
      SetAllElsewhere(env, entries[..n], f, upper);
      SetElsewhere(WithVariables(env, entries[..n], upper), entries[n], f, upper);
      SetSpellsOnce(WithVariables(env, entries[..n], upper), entries[n], upper);
    }
  }

  // ---- The stages ----

  lemma {:induction false} InheritedIsProper(runner: Object<string>, upper: string -> string)
    requires Proper(runner)
    ensures Proper(Inherited(runner, upper))
  {
    if runner != [] {
      var n := |runner| - 1;
      InheritedIsProper(runner[..n], upper);
      InheritedOneMore(runner, n, upper);
      assert runner[..n + 1] == runner;
    }
  }

  lemma {:induction false} SpelledHolds(env: Object<string>, name: string, upper: string -> string, e: Entry<string>)
    ensures e in Spelled(env, name, upper) <==> e in env && upper(e.key) == name
  {
    if env != [] {
      SpelledHolds(env[1..], name, upper, e);
      assert e in env <==> e == env[0] || e in env[1..];
    }
  }

  lemma StubsSpellPathOnce(env: Object<string>, stubs: string, pathOnly: bool, machine: Machine)
    requires Proper(env) && machine.upper("PATH") == "PATH"
    ensures var paths := Spelled(env, "PATH", machine.upper);
            var e := Entry(if paths == [] then "PATH" else paths[0].key,
                           if FirstFilled(paths) == "" || pathOnly then stubs
                           else stubs + machine.delimiter + FirstFilled(paths));
            && Proper(WithStubs(env, stubs, pathOnly, machine))
            && machine.upper(e.key) == "PATH" && OneSpelling(WithStubs(env, stubs, pathOnly, machine), e, machine.upper)
  {
    var paths := Spelled(env, "PATH", machine.upper);
    if paths != [] {
      SpelledHolds(env, "PATH", machine.upper, paths[0]);
    }
    var key := if paths == [] then "PATH" else paths[0].key;
    var value := if FirstFilled(paths) == "" || pathOnly then stubs else stubs + machine.delimiter + FirstFilled(paths);
    SetSpellsOnce(env, Entry(key, value), machine.upper);
  }

  lemma StubsElsewhere(env: Object<string>, stubs: string, pathOnly: bool, machine: Machine, f: Entry<string>)
    requires Proper(env) && machine.upper("PATH") == "PATH" && machine.upper(f.key) != "PATH"
    ensures f in WithStubs(env, stubs, pathOnly, machine) <==> f in env
  {
    StubsSpellPathOnce(env, stubs, pathOnly, machine);
    var paths := Spelled(env, "PATH", machine.upper);
    var key := if paths == [] then "PATH" else paths[0].key;
    var value := if FirstFilled(paths) == "" || pathOnly then stubs else stubs + machine.delimiter + FirstFilled(paths);
    SetElsewhere(env, Entry(key, value), f, machine.upper);
  }

  // What is left of the runner's variables, and PATH.
  function Stubbed(runner: Object<string>, options: LaunchOptions, machine: Machine): Object<string> {
    var inherited := Inherited(runner, machine.upper);
    match options.stubs
    case None => inherited
    case Some(stubs) => WithStubs(inherited, stubs, options.pathOnly, machine)
  }

  lemma StubbedHolds(runner: Object<string>, options: LaunchOptions, machine: Machine, f: Entry<string>)
    requires Proper(runner) && machine.upper("PATH") == "PATH"
    ensures Proper(Stubbed(runner, options, machine))
    ensures machine.upper(f.key) != "PATH" || options.stubs == None ==>
              (f in Stubbed(runner, options, machine) <==> f in runner && machine.upper(f.key) !in DROPPED)
  {
    InheritedIsProper(runner, machine.upper);
    InheritedHolds(runner, machine.upper, f);
    if options.stubs.Some? {
      StubsSpellPathOnce(Inherited(runner, machine.upper), options.stubs.value, options.pathOnly, machine);
      if machine.upper(f.key) != "PATH" {
        StubsElsewhere(Inherited(runner, machine.upper), options.stubs.value, options.pathOnly, machine, f);
      }
    }
  }

  lemma HomeNamesDiffer(profile: Profile, machine: Machine)
    requires FixesNames(machine.upper)
    ensures NamesDiffer(HomeIn(profile, machine), machine.upper)
    ensures forall i | 0 <= i < |HOME_NAMES| :: machine.upper(HomeIn(profile, machine)[i].key) == HOME_NAMES[i]
  {
    HomeKeys(profile, machine);
    NamesApart();
  }

  // The record before the plain assignments.
  function Homed(runner: Object<string>, profile: Profile, options: LaunchOptions, machine: Machine): Object<string> {
    WithVariables(Stubbed(runner, options, machine), HomeIn(profile, machine), machine.upper)
  }

  lemma HomedHolds(runner: Object<string>, profile: Profile, options: LaunchOptions, machine: Machine, f: Entry<string>)
    requires Proper(runner) && FixesNames(machine.upper)
    ensures Proper(Homed(runner, profile, options, machine))
    ensures forall i | 0 <= i < |HOME_NAMES| ::
              OneSpelling(Homed(runner, profile, options, machine), HomeIn(profile, machine)[i], machine.upper)
    ensures machine.upper(f.key) !in HOME_NAMES ==>
              (f in Homed(runner, profile, options, machine) <==> f in Stubbed(runner, options, machine))
  {
    var home, stubbed := HomeIn(profile, machine), Stubbed(runner, options, machine);
    StubbedHolds(runner, options, machine, f);
    HomeKeys(profile, machine);
    HomeNamesDiffer(profile, machine);
    SetAllSpellsOnce(stubbed, home, machine.upper);
    if machine.upper(f.key) !in HOME_NAMES {
      SetAllElsewhere(stubbed, home, f, machine.upper);
    }
  }

  // A variable under no assigned key is held as before the assignments.
  lemma AssignedElsewhere(runner: Object<string>, profile: Profile, options: LaunchOptions, machine: Machine, f: Entry<string>)
    requires Proper(runner) && FixesNames(machine.upper)
    ensures var plain := AssignedIn(profile, options, machine);
            f in BaseEnv(runner, profile, options, machine) <==>
            f in plain || (f in Homed(runner, profile, options, machine) && !HasKey(plain, f.key))
  {
    HomedHolds(runner, profile, options, machine, f);
    AssignedKeys(profile, options, machine);
    SpreadHolds(Homed(runner, profile, options, machine), AssignedIn(profile, options, machine), f);
  }

  // ---- What is promised ----

  lemma AssignedName(profile: Profile, options: LaunchOptions, machine: Machine, key: string)
    requires FixesNames(machine.upper)
    requires HasKey(AssignedIn(profile, options, machine), key)
    ensures machine.upper(key) == key && key !in DROPPED && key != "PATH"
    ensures key in ASSIGNED_NAMES || (machine.platform == Darwin && key == "HOME")
  {
    var plain := AssignedIn(profile, options, machine);
    var i :| 0 <= i < |plain| && plain[i].key == key;
    AssignedKeys(profile, options, machine);
    HomeKeys(profile, machine);
    NamesApart();
    assert HOME_NAMES[0] == "HOME";
  }

  // Each home variable is there under one spelling only, with the harness's value.
  lemma HomeIsSpelledOnce(runner: Object<string>, profile: Profile, options: LaunchOptions, machine: Machine, i: nat)
    requires Proper(runner) && FixesNames(machine.upper)
    requires i < |HomeIn(profile, machine)|
    ensures OneSpelling(BaseEnv(runner, profile, options, machine), HomeIn(profile, machine)[i], machine.upper)
  {
    var e, plain := HomeIn(profile, machine)[i], AssignedIn(profile, options, machine);
    HomeKeys(profile, machine);
    NamesApart();
    forall f: Entry<string>
      ensures f in BaseEnv(runner, profile, options, machine) && machine.upper(f.key) == machine.upper(e.key) <==> f == e
    {
      AssignedElsewhere(runner, profile, options, machine, f);
      HomedHolds(runner, profile, options, machine, f);
      if HasKey(plain, f.key) && machine.upper(f.key) == machine.upper(e.key) {
        AssignedName(profile, options, machine, f.key);
        AssignedHome(profile, options, machine, f);
      }
    }
  }

  // The home variables told one by one.
  lemma HomeVariables(runner: Object<string>, profile: Profile, options: LaunchOptions, machine: Machine)
    requires Proper(runner) && FixesNames(machine.upper)
    ensures var base := BaseEnv(runner, profile, options, machine);
            var home := if machine.platform == Darwin then profile.dataRoot else machine.join(profile.root, ["home"]);
            && OneSpelling(base, Entry("HOME", home), machine.upper)
            && OneSpelling(base, Entry("USERPROFILE", home), machine.upper)
            && OneSpelling(base, Entry("APPDATA", machine.join(home, ["AppData", "Roaming"])), machine.upper)
            && OneSpelling(base, Entry("XDG_CONFIG_HOME", machine.join(home, [".config"])), machine.upper)
            && OneSpelling(base, Entry("XDG_STATE_HOME", machine.join(home, [".local", "state"])), machine.upper)
  {
    HomeKeys(profile, machine);
    HomeIsSpelledOnce(runner, profile, options, machine, 0);
    HomeIsSpelledOnce(runner, profile, options, machine, 1);
    HomeIsSpelledOnce(runner, profile, options, machine, 2);
    HomeIsSpelledOnce(runner, profile, options, machine, 3);
    HomeIsSpelledOnce(runner, profile, options, machine, 4);
  }

  // The plainly assigned variables told one by one; the tray log only with the probe.
  lemma AssignedVariables(runner: Object<string>, profile: Profile, options: LaunchOptions, machine: Machine)
    requires Proper(runner) && FixesNames(machine.upper)
    ensures var base := BaseEnv(runner, profile, options, machine);
            && Entry("CLAUDE_CONFIG_DIR", profile.claudeConfigDir) in base
            && Entry("CODEX_HOME", profile.codexHome) in base
            && Entry("DWARFAI_E2E_MAIN_ERRORS", machine.join(profile.root, ["main-errors.log"])) in base
            && Entry("DWARFAI_E2E_MAIN_LIFECYCLE", machine.join(profile.root, ["main-lifecycle.log"])) in base
            && (options.trayProbe ==> Entry("DWARFAI_E2E_TRAY_LOG", machine.join(profile.root, ["tray.log"])) in base)
    ensures var base := BaseEnv(runner, profile, options, machine);
            match machine.platform
            case Win32 => Entry("LOCALAPPDATA", profile.dataRoot) in base
            case Darwin => Entry("HOME", profile.dataRoot) in base
            case Linux => Entry("XDG_DATA_HOME", profile.dataRoot) in base
  {
    var plain := AssignedIn(profile, options, machine);
    AssignedSpelledOut(profile, options, machine);
    forall e | e in plain ensures e in BaseEnv(runner, profile, options, machine) {
      AssignedElsewhere(runner, profile, options, machine, e);
    }
  }

  lemma AssignedSpelledOut(profile: Profile, options: LaunchOptions, machine: Machine)
    ensures var plain := AssignedIn(profile, options, machine);
            && Entry("CLAUDE_CONFIG_DIR", profile.claudeConfigDir) in plain
            && Entry("CODEX_HOME", profile.codexHome) in plain
            && Entry(DataRootVariable(machine.platform), profile.dataRoot) in plain
            && Entry("DWARFAI_E2E_MAIN_ERRORS", machine.join(profile.root, ["main-errors.log"])) in plain
            && Entry("DWARFAI_E2E_MAIN_LIFECYCLE", machine.join(profile.root, ["main-lifecycle.log"])) in plain
            && (options.trayProbe ==> Entry("DWARFAI_E2E_TRAY_LOG", machine.join(profile.root, ["tray.log"])) in plain)
  {
    var plain := AssignedIn(profile, options, machine);
    assert plain[0].value == profile.claudeConfigDir && plain[1].value == profile.codexHome;
    assert plain[2] == Entry(DataRootVariable(machine.platform), profile.dataRoot);
    assert plain[3].key == "DWARFAI_E2E_MAIN_ERRORS" && plain[4].key == "DWARFAI_E2E_MAIN_LIFECYCLE";
    assert options.trayProbe ==> plain[5].key == "DWARFAI_E2E_TRAY_LOG";
  }

  // The one assigned variable that is a home variable is assigned the same folder.
  lemma AssignedHome(profile: Profile, options: LaunchOptions, machine: Machine, f: Entry<string>)
    requires machine.platform == Darwin && f.key == "HOME"
    ensures f in AssignedIn(profile, options, machine) <==> f == HomeIn(profile, machine)[0]
  {
  }

  // With stubs, PATH is there under one spelling only, the stubs in front of the first value it had, or alone.
  lemma PathIsSpelledOnce(runner: Object<string>, profile: Profile, options: LaunchOptions, machine: Machine)
    returns (e: Entry<string>)
    requires Proper(runner) && FixesNames(machine.upper)
    requires options.stubs.Some?
    ensures machine.upper(e.key) == "PATH"
    ensures var paths := Spelled(Inherited(runner, machine.upper), "PATH", machine.upper);
            e.key == if paths == [] then "PATH" else paths[0].key
    ensures var current := FirstFilled(Spelled(Inherited(runner, machine.upper), "PATH", machine.upper));
            e.value == if current == "" || options.pathOnly then options.stubs.value
                       else options.stubs.value + machine.delimiter + current
    ensures OneSpelling(BaseEnv(runner, profile, options, machine), e, machine.upper)
  {
    var inherited := Inherited(runner, machine.upper);
    var paths := Spelled(inherited, "PATH", machine.upper);
    var current := FirstFilled(paths);
    e := Entry(if paths == [] then "PATH" else paths[0].key,
               if current == "" || options.pathOnly then options.stubs.value
               else options.stubs.value + machine.delimiter + current);
    InheritedIsProper(runner, machine.upper);
    StubsSpellPathOnce(inherited, options.stubs.value, options.pathOnly, machine);
    NamesApart();
    PathStays(runner, profile, options, machine, e);
  }

  // The first of the runner's variables, from `i` on, that is a spelling of PATH (and not empty, if `filled`) is at `at`.
  ghost predicate FirstPath(runner: Object<string>, upper: string -> string, filled: bool, at: nat) {
    && at <= |runner|
    && (forall j | 0 <= j < at :: upper(runner[j].key) != "PATH" || (filled && runner[j].value == ""))
    && (at < |runner| ==> upper(runner[at].key) == "PATH" && (filled ==> runner[at].value != ""))
  }

  lemma PathsOfMore(runner: Object<string>, upper: string -> string)
    requires runner != []
    ensures Spelled(Inherited(runner, upper), "PATH", upper) ==
            (if upper(runner[0].key) == "PATH" then [runner[0]] else [])
            + Spelled(Inherited(runner[1..], upper), "PATH", upper)
  {
    assert "PATH" !in DROPPED;
    var others := Inherited(runner[1..], upper);
    assert ([runner[0]] + others)[1..] == others && [] + others == others;
  }

  lemma {:induction false} FirstPathFound(runner: Object<string>, upper: string -> string) returns (first: nat, filled: nat)
    ensures FirstPath(runner, upper, false, first) && FirstPath(runner, upper, true, filled)
    ensures var paths := Spelled(Inherited(runner, upper), "PATH", upper);
            && (paths == [] <==> first == |runner|) && (first < |runner| ==> paths[0] == runner[first])
            && FirstFilled(paths) == if filled == |runner| then "" else runner[filled].value
  {
    if runner == [] {
      first, filled := 0, 0;
    } else {
      first, filled := FirstPathFound(runner[1..], upper);
      PathsOfMore(runner, upper);
      var others := Spelled(Inherited(runner[1..], upper), "PATH", upper);
      if upper(runner[0].key) == "PATH" {
        assert ([runner[0]] + others)[1..] == others;
        first, filled := 0, if runner[0].value != "" then 0 else filled + 1;
      } else {
        assert [] + others == others;
        first, filled := first + 1, filled + 1;
      }
    }
  }

  // PATH with stubs, told of the runner's variables: under the first spelling the runner has (or "PATH"), the stubs, and
  // behind them the first value the runner has under any spelling that is not empty, unless the case wants the stubs alone.
  lemma PathSpelledOut(runner: Object<string>, profile: Profile, options: LaunchOptions, machine: Machine)
    returns (e: Entry<string>, first: nat, filled: nat)
    requires Proper(runner) && FixesNames(machine.upper)
    requires options.stubs.Some?
    ensures FirstPath(runner, machine.upper, false, first) && FirstPath(runner, machine.upper, true, filled)
    ensures e.key == if first == |runner| then "PATH" else runner[first].key
    ensures e.value == if options.pathOnly || filled == |runner| then options.stubs.value
                       else options.stubs.value + machine.delimiter + runner[filled].value
    ensures OneSpelling(BaseEnv(runner, profile, options, machine), e, machine.upper)
  {
    first, filled := FirstPathFound(runner, machine.upper);
    e := PathIsSpelledOnce(runner, profile, options, machine);
  }

  lemma PathStays(runner: Object<string>, profile: Profile, options: LaunchOptions, machine: Machine, e: Entry<string>)
    requires Proper(runner) && FixesNames(machine.upper)
    requires machine.upper(e.key) == "PATH" && OneSpelling(Stubbed(runner, options, machine), e, machine.upper)
    ensures OneSpelling(BaseEnv(runner, profile, options, machine), e, machine.upper)
  {
    NamesApart();
    forall f: Entry<string>
      ensures f in BaseEnv(runner, profile, options, machine) && machine.upper(f.key) == machine.upper(e.key) <==> f == e
    {
      if machine.upper(f.key) == "PATH" {
        PathIsNotAssigned(profile, options, machine, f);
        AssignedElsewhere(runner, profile, options, machine, f);
        HomedHolds(runner, profile, options, machine, f);
        NotAssigned(profile, options, machine, f);
      }
    }
  }

  ghost predicate NamesNoneOf(entries: seq<Entry<string>>, f: Entry<string>, upper: string -> string) {
    forall i | 0 <= i < |entries| :: upper(entries[i].key) != upper(f.key)
  }

  // A variable that goes by the name of none of those assigned is under no assigned key.
  lemma NotAssigned(profile: Profile, options: LaunchOptions, machine: Machine, f: Entry<string>)
    requires FixesNames(machine.upper)
    requires machine.upper(f.key) !in HOME_NAMES && NamesNoneOf(AssignedIn(profile, options, machine), f, machine.upper)
    ensures !HasKey(AssignedIn(profile, options, machine), f.key) && f !in AssignedIn(profile, options, machine)
  {
    HeldHasKey(AssignedIn(profile, options, machine), f);
  }

  lemma PathIsNotAssigned(profile: Profile, options: LaunchOptions, machine: Machine, f: Entry<string>)
    requires FixesNames(machine.upper) && machine.upper(f.key) == "PATH"
    ensures NamesNoneOf(AssignedIn(profile, options, machine), f, machine.upper)
  {
    var plain := AssignedIn(profile, options, machine);
    forall i | 0 <= i < |plain| ensures machine.upper(plain[i].key) != "PATH" {
      AssignedName(profile, options, machine, plain[i].key);
    }
  }

  lemma HeldHasKey(o: Object<string>, f: Entry<string>)
    ensures f in o ==> HasKey(o, f.key)
  {
    if f in o {
      var i :| 0 <= i < |o| && o[i] == f;
      assert o[i].key == f.key;
    }
  }

  // Every other variable of the runner is there as it was, and no other variable is there.
  lemma UnrelatedIsKept(runner: Object<string>, profile: Profile, options: LaunchOptions, machine: Machine, f: Entry<string>)
    requires Proper(runner) && FixesNames(machine.upper)
    requires machine.upper(f.key) !in HOME_NAMES && NamesNoneOf(AssignedIn(profile, options, machine), f, machine.upper)
    requires machine.upper(f.key) != "PATH" || options.stubs == None
    ensures f in BaseEnv(runner, profile, options, machine) <==>
            f in runner && machine.upper(f.key) !in ["ELECTRON_RUN_AS_NODE", "ELECTRON_NO_ATTACH_CONSOLE"]
  {
    AssignedElsewhere(runner, profile, options, machine, f);
    HomedHolds(runner, profile, options, machine, f);
    StubbedHolds(runner, options, machine, f);
    NotAssigned(profile, options, machine, f);
  }

  // A variable set by plain assignment (the data root among them) keeps the runner's other spellings: it is spelled once
  // exactly when the runner spelled it no other way.
  lemma AssignedIsSpelledOnceExactly(
      runner: Object<string>, profile: Profile, options: LaunchOptions, machine: Machine, e: Entry<string>)
    requires Proper(runner) && FixesNames(machine.upper)
    requires e in AssignedIn(profile, options, machine) && e.key in ASSIGNED_NAMES
    ensures OneSpelling(BaseEnv(runner, profile, options, machine), e, machine.upper) <==>
            forall f | f in runner && machine.upper(f.key) == e.key :: f.key == e.key
  {
    var plain, base := AssignedIn(profile, options, machine), BaseEnv(runner, profile, options, machine);
    NamesApart();
    AssignedKeys(profile, options, machine);
    HeldHasKey(plain, e);
    AssignedName(profile, options, machine, e.key);
    forall f: Entry<string> | machine.upper(f.key) == e.key
      ensures f in base <==> f == e || (f in runner && f.key != e.key)
    {
      AssignedElsewhere(runner, profile, options, machine, f);
      HomedHolds(runner, profile, options, machine, f);
      StubbedHolds(runner, options, machine, f);
      SameKeySameEntry(plain, e, f);
      if HasKey(plain, f.key) {
        AssignedName(profile, options, machine, f.key);
      }
    }
  }

  lemma SameKeySameEntry(entries: seq<Entry<string>>, e: Entry<string>, f: Entry<string>)
    requires DistinctKeys(entries) && e in entries
    ensures f in entries && f.key == e.key <==> f == e
  {
    var i :| 0 <= i < |entries| && entries[i] == e;
    if f in entries && f.key == e.key {
      var j :| 0 <= j < |entries| && entries[j] == f;
    }
  }

  lemma DataRootOnWindows(profile: Profile, options: LaunchOptions, machine: Machine)
    requires machine.platform == Win32
    ensures Entry("LOCALAPPDATA", profile.dataRoot) in AssignedIn(profile, options, machine)
    ensures "LOCALAPPDATA" in ASSIGNED_NAMES
  {
    assert AssignedIn(profile, options, machine)[2] == Entry("LOCALAPPDATA", profile.dataRoot);
    assert ASSIGNED_NAMES[2] == "LOCALAPPDATA";
  }

  // So a runner that spells the data root another way leaves the app two of them.
  lemma MixedCaseDataRootStays(
      runner: Object<string>, profile: Profile, options: LaunchOptions, machine: Machine, f: Entry<string>)
    requires Proper(runner) && FixesNames(machine.upper) && machine.platform == Win32
    requires f in runner && f.key == "LocalAppData" && machine.upper("LocalAppData") == "LOCALAPPDATA"
    ensures !OneSpelling(BaseEnv(runner, profile, options, machine),
                         Entry("LOCALAPPDATA", profile.dataRoot), machine.upper)
  {
    var e := Entry("LOCALAPPDATA", profile.dataRoot);
    DataRootOnWindows(profile, options, machine);
    assert f.key[1] != e.key[1];
    AssignedIsSpelledOnceExactly(runner, profile, options, machine, e);
  }

  // The case's own variables win over all of these, one by one.
  lemma OverlayWins(runner: Object<string>, profile: Profile, options: LaunchOptions, machine: Machine, f: Entry<string>)
    requires Proper(runner) && FixesNames(machine.upper) && DistinctKeys(options.env)
    ensures f in AppEnv(runner, profile, options, machine) <==>
            f in options.env || (f in BaseEnv(runner, profile, options, machine) && !HasKey(options.env, f.key))
  {
    HomedHolds(runner, profile, options, machine, f);
    SpreadKeepsProper(Homed(runner, profile, options, machine), AssignedIn(profile, options, machine));
    SpreadHolds(BaseEnv(runner, profile, options, machine), options.env, f);
  }
}

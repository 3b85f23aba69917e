// The environment of a launched app (`appEnv`, `setVariable`, `homeIn`, e2e/_harness/launchApp.ts).
module LaunchEnv {
  import opened Options
  import opened Platforms
  import opened JsObject

  datatype Profile = Profile(
    root: string, userDataDir: string, claudeConfigDir: string, codexHome: string, dataRoot: string)

  datatype LaunchOptions = LaunchOptions(stubs: Option<string>, pathOnly: bool, trayProbe: bool, env: Object<string>)

  // What the harness reads of the machine: the OS, its path joining and delimiter, and how a name is put in upper case.
  datatype Machine = Machine(
    platform: Platform, join: (string, seq<string>) -> string, delimiter: string, upper: string -> string)

  const DROPPED: seq<string> := ["ELECTRON_RUN_AS_NODE", "ELECTRON_NO_ATTACH_CONSOLE"]

  function DataRootVariable(platform: Platform): string {
    match platform
    case Win32 => "LOCALAPPDATA"
    case Darwin => "HOME"
    case Linux => "XDG_DATA_HOME"
  }

  // `homeIn(profile)`; the folder it makes is left out.
  function HomeIn(profile: Profile, machine: Machine): seq<Entry<string>> {
    var home := if machine.platform == Darwin then profile.dataRoot else machine.join(profile.root, ["home"]);
    [Entry("HOME", home), Entry("USERPROFILE", home), Entry("APPDATA", machine.join(home, ["AppData", "Roaming"])),
     Entry("XDG_CONFIG_HOME", machine.join(home, [".config"])),
     Entry("XDG_STATE_HOME", machine.join(home, [".local", "state"]))]
  }

  // The variables set after the home folders, by plain assignment.
  function AssignedIn(profile: Profile, options: LaunchOptions, machine: Machine): seq<Entry<string>> {
    [Entry("CLAUDE_CONFIG_DIR", profile.claudeConfigDir), Entry("CODEX_HOME", profile.codexHome),
     Entry(DataRootVariable(machine.platform), profile.dataRoot),
     Entry("DWARFAI_E2E_MAIN_ERRORS", machine.join(profile.root, ["main-errors.log"])),
     Entry("DWARFAI_E2E_MAIN_LIFECYCLE", machine.join(profile.root, ["main-lifecycle.log"]))]
    + if options.trayProbe then [Entry("DWARFAI_E2E_TRAY_LOG", machine.join(profile.root, ["tray.log"]))] else []
  }

  // The variables under no spelling of `name` (a name in upper case).
  function Without(env: Object<string>, name: string, upper: string -> string): Object<string> {
    if env == [] then []
    else (if upper(env[0].key) == name then [] else [env[0]]) + Without(env[1..], name, upper)
  }

  // The runner's own, minus the start-up switches.
  function Inherited(env: Object<string>, upper: string -> string): Object<string> {
    if env == [] then []
    else (if upper(env[0].key) in DROPPED then [] else [env[0]]) + Inherited(env[1..], upper)
  }

  // The spellings of a name, in their order.
  function Spelled(env: Object<string>, name: string, upper: string -> string): seq<Entry<string>> {
    if env == [] then []
    else (if upper(env[0].key) == name then [env[0]] else []) + Spelled(env[1..], name, upper)
  }

  function FirstFilled(entries: seq<Entry<string>>): string {
    if entries == [] then "" else if entries[0].value != "" then entries[0].value else FirstFilled(entries[1..])
  }

  // `PATH` with the stubs first, under the first spelling it had.
  function WithStubs(env: Object<string>, stubs: string, pathOnly: bool, machine: Machine): Object<string> {
    var paths := Spelled(env, "PATH", machine.upper);
    var current := FirstFilled(paths);
    Put(Without(env, "PATH", machine.upper), if paths == [] then "PATH" else paths[0].key,
        if current == "" || pathOnly then stubs else stubs + machine.delimiter + current)
  }

  // `setVariable(env, key, value)`
  function WithVariable(env: Object<string>, key: string, value: string, upper: string -> string): Object<string> {
    Put(Without(env, upper(key), upper), key, value)
  }

  function WithVariables(env: Object<string>, entries: seq<Entry<string>>, upper: string -> string): Object<string> {
    if entries == [] then env
    else
      var n := |entries| - 1;
      WithVariable(WithVariables(env, entries[..n], upper), entries[n].key, entries[n].value, upper)
  }

  // The environment before the case's own overlay, and with it.
  function BaseEnv(runner: Object<string>, profile: Profile, options: LaunchOptions, machine: Machine): Object<string> {
    var inherited := Inherited(runner, machine.upper);
    var stubbed := match options.stubs
                   case None => inherited
                   case Some(stubs) => WithStubs(inherited, stubs, options.pathOnly, machine);
    Spread(WithVariables(stubbed, HomeIn(profile, machine), machine.upper), AssignedIn(profile, options, machine))
  }

  function AppEnv(runner: Object<string>, profile: Profile, options: LaunchOptions, machine: Machine): Object<string> {
    Spread(BaseEnv(runner, profile, options, machine), options.env)
  }

  // ---- Dropping spellings ----

  lemma {:induction false} WithoutHolds(env: Object<string>, name: string, upper: string -> string, e: Entry<string>)
    ensures e in Without(env, name, upper) <==> e in env && upper(e.key) != name
  {
    if env != [] {
      WithoutHolds(env[1..], name, upper, e);
      assert e in env <==> e == env[0] || e in env[1..];
    }
  }

  lemma {:induction false} WithoutIsProper(env: Object<string>, name: string, upper: string -> string)
    requires Proper(env)
    ensures Proper(Without(env, name, upper))
  {
    if env != [] {
      WithoutIsProper(env[1..], name, upper);
      var others := Without(env[1..], name, upper);
      forall i | 0 <= i < |others| ensures env[0].key != others[i].key && !Earlier(others[i].key, env[0].key) {
        WithoutHolds(env[1..], name, upper, others[i]);
        var j :| 0 <= j < |env[1..]| && env[1..][j] == others[i];
        assert env[j + 1] == others[i];
      }
    }
  }

  lemma {:induction false} WithoutAppend(a: Object<string>, b: Object<string>, name: string, upper: string -> string)
    ensures Without(a + b, name, upper) == Without(a, name, upper) + Without(b, name, upper)
  {
    if a == [] {
      assert a + b == b;
    } else {
      assert (a + b)[1..] == a[1..] + b;
      WithoutAppend(a[1..], b, name, upper);
    }
  }

  lemma DeleteBetween(kept: Object<string>, e: Entry<string>, others: Object<string>)
    requires forall i | 0 <= i < |kept| :: kept[i].key != e.key
    ensures Delete(kept + [e] + others, e.key) == kept + others
  {
    var env := kept + [e] + others;
    assert env[|kept|] == e;
    assert Position(env, e.key) == |kept|;
  }

  // One key looked at: the variables before it are sorted out, those after it are still all there.
  lemma DropStep(was: Object<string>, at: nat, name: string, upper: string -> string)
    requires DistinctKeys(was) && at < |was|
    ensures var vars := Without(was[..at], name, upper) + was[at..];
            (if upper(was[at].key) == name then Delete(vars, was[at].key) else vars)
            == Without(was[..at + 1], name, upper) + was[at + 1..]
  {
    var kept, e := Without(was[..at], name, upper), was[at];
    assert was[..at + 1] == was[..at] + [e];
    WithoutAppend(was[..at], [e], name, upper);
    assert kept + was[at..] == kept + [e] + was[at + 1..];
    assert Without([e], name, upper) == if upper(e.key) == name then [] else [e];
    if upper(e.key) == name {
      forall i | 0 <= i < |kept| ensures kept[i].key != e.key {
        WithoutHolds(was[..at], name, upper, kept[i]);
        assert kept[i] in was[..at];
      }
      DeleteBetween(kept, e, was[at + 1..]);
    }
  }

  // The variables while they are built: each method is proved against one of the functions above.
  class Environment {
    var vars: Object<string>

    constructor ()
      ensures vars == []
    {
      vars := [];
    }

    // `for (const existing of Object.keys(env)) if (...) delete env[existing]`
    method DeleteSpellings(name: string, upper: string -> string)
      requires Proper(vars)
      modifies this
      ensures vars == Without(old(vars), name, upper) && Proper(vars)
    {
      var keys := Keys(vars);
      ghost var was := vars;
      for at := 0 to |keys|
        invariant vars == Without(was[..at], name, upper) + was[at..]
      {
        DropStep(was, at, name, upper);
        if upper(keys[at]) == name {
          vars := Delete(vars, keys[at]);
        }
      }
      assert was[..|keys|] == was && was[|keys|..] == [];
      WithoutIsProper(was, name, upper);
    }

    method SetVariable(key: string, value: string, upper: string -> string)
      requires Proper(vars)
      modifies this
      ensures vars == WithVariable(old(vars), key, value, upper) && Proper(vars)
    {
      DeleteSpellings(upper(key), upper);
      PutKeepsProper(vars, key, value);
      vars := Put(vars, key, value);
    }

    // The part of `appEnv` that fills the record and puts the stubs first.
    method Fill(runner: Object<string>, stubs: Option<string>, pathOnly: bool, machine: Machine)
      requires Proper(runner) && vars == []
      modifies this
      ensures Proper(vars)
      ensures vars == match stubs
                      case None => Inherited(runner, machine.upper)
                      case Some(dirs) => WithStubs(Inherited(runner, machine.upper), dirs, pathOnly, machine)
    {
      for at := 0 to |runner|
        invariant vars == Inherited(runner[..at], machine.upper) && Proper(vars)
      {
        InheritedOneMore(runner, at, machine.upper);
        if machine.upper(runner[at].key) !in DROPPED {
          vars := Put(vars, runner[at].key, runner[at].value);
        }
      }
      assert runner[..|runner|] == runner;
      if stubs.Some? {
        var paths := Spelled(vars, "PATH", machine.upper);
        var current := FirstFilled(paths);
        DeleteSpellings("PATH", machine.upper);
        var key := if paths == [] then "PATH" else paths[0].key;
        PutKeepsProper(vars, key, stubs.value);
        PutKeepsProper(vars, key, stubs.value + machine.delimiter + current);
        vars := Put(vars, key,
                    if current == "" || pathOnly then stubs.value else stubs.value + machine.delimiter + current);
      }
    }
  }

  lemma {:induction false} InheritedHolds(runner: Object<string>, upper: string -> string, e: Entry<string>)
    ensures e in Inherited(runner, upper) <==> e in runner && upper(e.key) !in DROPPED
  {
    if runner != [] {
      InheritedHolds(runner[1..], upper, e);
      assert e in runner <==> e == runner[0] || e in runner[1..];
    }
  }

  lemma {:induction false} InheritedAppend(a: Object<string>, b: Object<string>, upper: string -> string)
    ensures Inherited(a + b, upper) == Inherited(a, upper) + Inherited(b, upper)
  {
    if a == [] {
      assert a + b == b;
    } else {
      assert (a + b)[1..] == a[1..] + b;
      InheritedAppend(a[1..], b, upper);
    }
  }

  // The next variable of the runner is added behind the others.
  lemma InheritedOneMore(runner: Object<string>, at: nat, upper: string -> string)
    requires Proper(runner) && at < |runner|
    requires Proper(Inherited(runner[..at], upper))
    ensures var before, next, e := Inherited(runner[..at], upper), Inherited(runner[..at + 1], upper), runner[at];
            && Proper(next)
            && next == if upper(e.key) in DROPPED then before else Put(before, e.key, e.value)
  {
    var before, e := Inherited(runner[..at], upper), runner[at];
    assert runner[..at + 1] == runner[..at] + [e];
    InheritedAppend(runner[..at], [e], upper);
    forall i | 0 <= i < |before| ensures before[i].key != e.key && !Earlier(e.key, before[i].key) {
      InheritedHolds(runner[..at], upper, before[i]);
      var j :| 0 <= j < at && runner[..at][j] == before[i];
      assert runner[j] == before[i];
    }
    PutBehind(before, e);
    assert Inherited([e], upper) == if upper(e.key) in DROPPED then [] else [e];
  }

  lemma PutBehind(before: Object<string>, e: Entry<string>)
    requires Proper(before)
    requires forall i | 0 <= i < |before| :: before[i].key != e.key && !Earlier(e.key, before[i].key)
    ensures Put(before, e.key, e.value) == before + [e] && Proper(before + [e])
  {
    assert Position(before, e.key) == |before| && Slot(before, e.key) == |before|;
    PutKeepsProper(before, e.key, e.value);
  }
}

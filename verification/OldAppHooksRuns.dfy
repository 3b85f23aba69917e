// Runs of installs on one settings file, with a person saving or removing the file in between.
module OldAppHooksRuns {
  import opened Json
  import opened OldAppHooks
  import opened OldAppHooksMerge
  import opened OldAppHooksLaws

  datatype Action = Install(options: Options) | Save(text: string) | Remove

  function After(folder: Folder, action: Action, canon: Numeral -> Numeral): Folder {
    match action
    case Install(options) => AfterInstall(folder, options, canon)
    case Save(text) => folder.(settings := Holds(text))
    case Remove => folder.(settings := Missing)
  }

  function Run(folder: Folder, actions: seq<Action>, canon: Numeral -> Numeral): Folder {
    if actions == [] then folder
    else After(Run(folder, actions[..|actions| - 1], canon), actions[|actions| - 1], canon)
  }

  // The folder before the i-th action.
  function Before(folder: Folder, actions: seq<Action>, i: nat, canon: Numeral -> Numeral): Folder
    requires i <= |actions|
  {
    Run(folder, actions[..i], canon)
  }

  // Whether an action is an install that changes an existing file.
  predicate Changes(folder: Folder, action: Action, canon: Numeral -> Numeral) {
    && action.Install? && folder.settings.Holds?
    && var after := Installed(folder.settings.text, action.options, canon);
       after.Ok? && after.value != folder.settings.text
  }

  lemma {:induction false} BackupNeverChanges(folder: Folder, actions: seq<Action>, canon: Numeral -> Numeral)
    requires folder.backup.Holds?
    ensures Run(folder, actions, canon).backup == folder.backup
  {
    if actions != [] {
      BackupNeverChanges(folder, actions[..|actions| - 1], canon);
    }
  }

  // Which actions of a run are installs that change an existing file.
  function ChangesOf(folder: Folder, actions: seq<Action>, canon: Numeral -> Numeral): (changes: seq<bool>)
    ensures |changes| == |actions|
    ensures forall i | 0 <= i < |actions| :: changes[i] == Changes(Before(folder, actions, i, canon), actions[i], canon)
  {
    seq(|actions|, i requires 0 <= i < |actions| => Changes(Before(folder, actions, i, canon), actions[i], canon))
  }

  // Where the first one is; past the end when there is none.
  function First(flags: seq<bool>): (at: nat)
    ensures at <= |flags|
    ensures at < |flags| ==> flags[at]
    ensures forall i | 0 <= i < at :: !flags[i]
  {
    if flags == [] || flags[0] then 0 else 1 + First(flags[1..])
  }

  lemma FirstOfMore(flags: seq<bool>)
    requires flags != []
    ensures var n := |flags| - 1;
            First(flags) == if First(flags[..n]) < n || flags[n] then First(flags[..n]) else n + 1
  {
    var n := |flags| - 1;
    assert forall i | 0 <= i < n :: flags[..n][i] == flags[i];
  }

  lemma ChangesOfPrefix(folder: Folder, actions: seq<Action>, n: nat, canon: Numeral -> Numeral)
    requires n <= |actions|
    ensures ChangesOf(folder, actions[..n], canon) == ChangesOf(folder, actions, canon)[..n]
  {
    forall i | 0 <= i < n ensures actions[..n][..i] == actions[..i] && actions[..n][i] == actions[i] {
    }
  }

  // Over every run, the backup is missing until an install first changes an existing file, and from then on it holds
  // the text that install found.
  lemma {:induction false} BackupHoldsTheFirstText(folder: Folder, actions: seq<Action>, canon: Numeral -> Numeral)
    requires folder.backup.Missing?
    ensures var at, end := First(ChangesOf(folder, actions, canon)), Run(folder, actions, canon);
            if at == |actions| then end.backup == Missing
            else end.backup.Holds? && end.backup == Before(folder, actions, at, canon).settings
  {
    if actions != [] {
      var n := |actions| - 1;
      var at := First(ChangesOf(folder, actions[..n], canon));
      BackupHoldsTheFirstText(folder, actions[..n], canon);
      ChangesOfPrefix(folder, actions, n, canon);
      FirstOfMore(ChangesOf(folder, actions, canon));
      assert actions[..n][..at] == actions[..at];
      BackupStep(Run(folder, actions[..n], canon), actions[n], canon);
    }
  }

  // A missing backup is taken exactly by an install that changes an existing file.
  lemma BackupStep(folder: Folder, action: Action, canon: Numeral -> Numeral)
    ensures After(folder, action, canon).backup ==
            if folder.backup.Missing? && Changes(folder, action, canon) then folder.settings else folder.backup
  {
  }

  // Installs alone, one after the other.
  function Installs(options: seq<Options>): seq<Action> {
    seq(|options|, i requires 0 <= i < |options| => Install(options[i]))
  }

  // The last of the installs the text takes; -1 when it takes none.
  function LastAccepted(text: string, options: seq<Options>, canon: Numeral -> Numeral): (last: int)
    ensures -1 <= last < |options|
    ensures last >= 0 ==> Installed(text, options[last], canon).Ok?
    ensures forall i | last < i < |options| :: Installed(text, options[i], canon).Failed?
  {
    if options == [] then -1
    else if Installed(text, options[|options| - 1], canon).Ok? then |options| - 1
    else
      assert forall i | 0 <= i < |options| - 1 :: options[..|options| - 1][i] == options[i];
      LastAccepted(text, options[..|options| - 1], canon)
  }

  function LastShown(text: string, options: seq<Options>, canon: Numeral -> Numeral): string {
    var last := LastAccepted(text, options, canon);
    if last < 0 then text else Installed(text, options[last], canon).value
  }

  // After any number of installs on a file, its text is what the last accepted one alone would have made of the text they
  // found: a refused install changes nothing, and which ones are refused is settled by that text.
  lemma {:induction false} OnlyTheLastInstallShows(
      text: string, backup: File, options: seq<Options>, canon: Numeral -> Numeral)
    requires PrintsNumbers(canon)
    ensures Run(Folder(Holds(text), backup), Installs(options), canon).settings == Holds(LastShown(text, options, canon))
  {
    if options != [] {
      var n := |options| - 1;
      assert Installs(options)[..n] == Installs(options[..n]);
      OnlyTheLastInstallShows(text, backup, options[..n], canon);
      InstallShows(Run(Folder(Holds(text), backup), Installs(options[..n]), canon), options[n], canon);
      ShownNext(text, options, canon);
    }
  }

  // The next install makes of what is shown what it would make of the first text.
  lemma ShownNext(text: string, options: seq<Options>, canon: Numeral -> Numeral)
    requires PrintsNumbers(canon) && options != []
    ensures var n := |options| - 1;
            var shown := LastShown(text, options[..n], canon);
            && Installed(shown, options[n], canon) == Installed(text, options[n], canon)
            && LastShown(text, options, canon) ==
                 match Installed(text, options[n], canon)
                 case Failed(_) => shown
                 case Ok(after) => after
  {
    var n := |options| - 1;
    var last := LastAccepted(text, options[..n], canon);
    if last >= 0 {
      InstallAbsorbs(text, options[last], options[n], canon);
    }
  }

  lemma InstallShows(folder: Folder, options: Options, canon: Numeral -> Numeral)
    requires folder.settings.Holds?
    ensures AfterInstall(folder, options, canon).settings ==
            match Installed(folder.settings.text, options, canon)
            case Failed(_) => folder.settings
            case Ok(after) => Holds(after)
  {
  }

  // And its backup, if there was none, is that text or still missing; while it is missing, the file is as it was found.
  lemma {:induction false} InstallsBackUpTheFirstText(text: string, options: seq<Options>, canon: Numeral -> Numeral)
    ensures var start := Folder(Holds(text), Missing);
            var end := Run(start, Installs(options), canon);
            && (end.backup == Missing || end.backup == Holds(text))
            && (end.backup == Missing ==> end.settings == Holds(text))
  {
    if options != [] {
      var n := |options| - 1;
      assert Installs(options)[..n] == Installs(options[..n]);
      InstallsBackUpTheFirstText(text, options[..n], canon);
    }
  }
}

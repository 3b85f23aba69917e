// The installer of the old app's Claude hook entries (e2e/_harness/oldAppClaudeHooks.ts): it merges one matcher group
// per event into a person's settings file, text to text.
module OldAppHooks {
  import opened JsObject
  import opened Json
  import opened JsonText
  import opened JsText

  datatype Options = Options(port: int, token: string, platform: string)

  datatype Error =
    | CarriageReturnOrMark
    | NotJson
    | SettingsNotAnObject
    | HooksNotAnObject
    | BadPort
    | BadToken
    | EventNotAnArray(event: string)

  datatype Outcome<+T> = Failed(error: Error) | Ok(value: T)

  const MARKER: string := "dwarfai-miners-hook"

  const EVENTS: seq<string> := ["SessionStart", "Notification", "Stop", "SubagentStop", "SessionEnd"]

  const TIMEOUT: Numeral := "5"

  // ---- Text ----

  function DecimalText(n: nat): string {
    (if n < 10 then "" else DecimalText(n / 10)) + [('0' as int + n % 10) as char]
  }

  // ---- The command ----

  predicate IsLowerHex(c: char) {
    '0' <= c <= '9' || 'a' <= c <= 'f'
  }

  function Command(options: Options): Outcome<string> {
    if options.port < 1 || options.port > 65535 then Failed(BadPort)
    else if |options.token| < 16 || exists c | c in options.token :: !IsLowerHex(c) then Failed(BadToken)
    else
      Ok((if options.platform == "win32" then "curl.exe" else "curl") +
         " -s -m 2 -X POST -H x-dwarfai-token:" + options.token +
         " -H Content-Type:application/json --noproxy 127.0.0.1 -d@- http://127.0.0.1:" +
         DecimalText(options.port) + "/" + MARKER)
  }

  // ---- Groups of one event ----

  predicate IsOwnEntry(entry: Json) {
    && entry.Obj? && HasKey(entry.fields, "command")
    && Get(entry.fields, "command").Str? && Includes(Get(entry.fields, "command").chars, MARKER)
  }

  predicate IsGroup(group: Json) {
    group.Obj? && HasKey(group.fields, "hooks") && Get(group.fields, "hooks").Arr?
  }

  function GroupHooks(group: Json): seq<Json>
    requires IsGroup(group)
  {
    Get(group.fields, "hooks").items
  }

  function ForeignEntries(entries: seq<Json>): (kept: seq<Json>)
    ensures |kept| <= |entries|
  {
    if entries == [] then []
    else (if IsOwnEntry(entries[0]) then [] else [entries[0]]) + ForeignEntries(entries[1..])
  }

  // What is left of one group, if anything.
  function GroupWithoutOwn(group: Json): seq<Json> {
    if !IsGroup(group) then [group]
    else
      var hooks := GroupHooks(group);
      var kept := ForeignEntries(hooks);
      if |kept| == |hooks| then [group]
      else if kept == [] then []
      else [Obj(Put(group.fields, "hooks", Arr(kept)))]
  }

  function WithoutOwn(groups: seq<Json>): seq<Json> {
    if groups == [] then [] else GroupWithoutOwn(groups[0]) + WithoutOwn(groups[1..])
  }

  function OwnEntry(command: string): Json {
    Obj([Entry("type", Str("command")), Entry("command", Str(command)), Entry("timeout", Num(TIMEOUT))])
  }

  function OwnGroup(command: string): Json {
    Obj([Entry("matcher", Str("")), Entry("hooks", Arr([OwnEntry(command)]))])
  }

  function NewGroups(groups: seq<Json>, command: string): seq<Json> {
    WithoutOwn(groups) + [OwnGroup(command)]
  }

  // ---- Settings ----

  // `o[key] ?? fallback`
  function GetOr(o: Object<Json>, key: string, fallback: Json): Json {
    if HasKey(o, key) && !Get(o, key).Null? then Get(o, key) else fallback
  }

  // The loop over `events`.
  function InstallEvents(hooks: Object<Json>, events: seq<string>, command: string): Outcome<Object<Json>> {
    if events == [] then Ok(hooks)
    else
      var before, event := InstallEvents(hooks, events[..|events| - 1], command), events[|events| - 1];
      if before.Failed? then before
      else
        var existing := GetOr(before.value, event, Arr([]));
        if !existing.Arr? then Failed(EventNotAnArray(event))
        else Ok(Put(before.value, event, Arr(NewGroups(existing.items, command))))
  }

  // The settings with the entries merged in.
  function Merge(settings: Object<Json>, options: Options): Outcome<Object<Json>> {
    var existing := GetOr(settings, "hooks", Obj([]));
    if !existing.Obj? then Failed(HooksNotAnObject)
    else
      match Command(options)
      case Failed(error) => Failed(error)
      case Ok(command) =>
        match InstallEvents(existing.fields, EVENTS, command)
        case Failed(error) => Failed(error)
        case Ok(hooks) => Ok(Put(settings, "hooks", Obj(hooks)))
  }

  function ReadSettings(text: string, canon: Numeral -> Numeral): Outcome<Object<Json>> {
    if Includes(text, "\r\n") || "\U{FEFF}" <= text then Failed(CarriageReturnOrMark)
    else if IsBlank(text) then Ok([])
    else
      match Parse(text, canon)
      case SyntaxError => Failed(NotJson)
      case Value(v) => if v.Obj? then Ok(v.fields) else Failed(SettingsNotAnObject)
  }

  // ---- Layout ----

  datatype Layout = Layout(indent: string, trailingNewline: bool)

  predicate IsIndentChar(c: char) {
    c == ' ' || c == '\t'
  }

  function BlankRun(s: string): (run: string)
    ensures run <= s
    ensures forall c | c in run :: IsIndentChar(c)
  {
    if s != "" && IsIndentChar(s[0]) then [s[0]] + BlankRun(s[1..]) else ""
  }

  // The first match of /\n([ \t]+)\S/: the blanks that start the first line with something after them.
  function FirstIndent(text: string): (indent: string)
    ensures forall c | c in indent :: IsIndentChar(c)
  {
    if text == "" then ""
    else
      var run := if text[0] == '\n' then BlankRun(text[1..]) else "";
      if run != "" && |run| + 1 < |text| && !IsWhite(text[|run| + 1]) then run
      else FirstIndent(text[1..])
  }

  function LayoutOf(text: string): Layout {
    var found := if IsBlank(text) then "" else FirstIndent(text);
    Layout(if found == "" then "  " else found,
           IsBlank(text) || (text != "" && text[|text| - 1] == '\n'))
  }

  function Write(settings: Object<Json>, layout: Layout): string {
    Stringify(Obj(settings), layout.indent) + if layout.trailingNewline then "\n" else ""
  }

  method WriteText(settings: Object<Json>, layout: Layout) returns (text: string)
    ensures text == Write(settings, layout)
  {
    var body := Stringify(Obj(settings), layout.indent);
    assert body + "" == body;
    text := if layout.trailingNewline then body + "\n" else body;
  }

  // The text after an install; a missing file reads as the empty text.
  function Installed(text: string, options: Options, canon: Numeral -> Numeral): Outcome<string> {
    match ReadSettings(text, canon)
    case Failed(error) => Failed(error)
    case Ok(settings) =>
      match Merge(settings, options)
      case Failed(error) => Failed(error)
      case Ok(merged) => Ok(Write(merged, LayoutOf(text)))
  }

  // ---- The files ----

  datatype File = Missing | Holds(text: string)

  function TextOf(file: File): string {
    match file
    case Missing => ""
    case Holds(text) => text
  }

  datatype Folder = Folder(settings: File, backup: File)

  // The folder after an install.
  function AfterInstall(folder: Folder, options: Options, canon: Numeral -> Numeral): Folder {
    var text := TextOf(folder.settings);
    match Installed(text, options, canon)
    case Failed(_) => folder
    case Ok(after) =>
      if after == text then folder
      else Folder(Holds(after), if folder.backup.Missing? then folder.settings else folder.backup)
  }

  // Once an event stops the loop, the later ones are not reached.
  lemma {:induction false} FailureStays(hooks: Object<Json>, events: seq<string>, n: nat, command: string)
    requires n <= |events|
    requires InstallEvents(hooks, events[..n], command).Failed?
    ensures InstallEvents(hooks, events, command) == InstallEvents(hooks, events[..n], command)
  {
    if n < |events| {
      var init := events[..|events| - 1];
      assert init[..n] == events[..n];
      FailureStays(hooks, init, n, command);
    } else {
      assert events[..n] == events;
    }
  }

  // The loop as it runs.
  method InstallEventsInLoop(existing: Object<Json>, events: seq<string>, command: string)
    returns (r: Outcome<Object<Json>>)
    ensures r == InstallEvents(existing, events, command)
  {
    var hooks := existing;
    for n := 0 to |events|
      invariant InstallEvents(existing, events[..n], command) == Ok(hooks)
    {
      var event := events[n];
      assert events[..n + 1][..n] == events[..n];
      var groups := GetOr(hooks, event, Arr([]));
      if !groups.Arr? {
        FailureStays(existing, events, n + 1, command);
        return Failed(EventNotAnArray(event));
      }
      hooks := Put(hooks, event, Arr(NewGroups(groups.items, command)));
    }
    assert events[..|events|] == events;
    r := Ok(hooks);
  }

  class ClaudeConfigDir {
    var settings: File
    var backup: File

    constructor (settings: File, backup: File)
      ensures this.settings == settings && this.backup == backup
    {
      this.settings, this.backup := settings, backup;
    }

    // `installOldAppClaudeHooks`: whether the file was rewritten, or why it was not merged into.
    method Install(options: Options, canon: Numeral -> Numeral) returns (r: Outcome<bool>)
      modifies this
      ensures Folder(settings, backup) == AfterInstall(old(Folder(settings, backup)), options, canon)
      ensures var i := Installed(TextOf(old(settings)), options, canon);
              match r
              case Failed(error) => i == Failed(error)
              case Ok(changed) => i.Ok? && changed == (i.value != TextOf(old(settings)))
    {
      var existed := settings.Holds?;
      var text := if existed then settings.text else "";
      var read := ReadSettings(text, canon);
      if read.Failed? {
        return Failed(read.error);
      }
      var existing := GetOr(read.value, "hooks", Obj([]));
      if !existing.Obj? {
        return Failed(HooksNotAnObject);
      }
      var command := Command(options);
      if command.Failed? {
        return Failed(command.error);
      }
      var hooks := InstallEventsInLoop(existing.fields, EVENTS, command.value);
      if hooks.Failed? {
        return Failed(hooks.error);
      }
      var merged := Put(read.value, "hooks", Obj(hooks.value));
      assert Merge(read.value, options) == Ok(merged);
      var after := WriteText(merged, LayoutOf(text));
      assert Installed(text, options, canon) == Ok(after);
      if after == text {
        return Ok(false);
      }
      if existed && backup.Missing? {
        backup := settings;
      }
      settings := Holds(after);
      return Ok(true);
    }
  }
}

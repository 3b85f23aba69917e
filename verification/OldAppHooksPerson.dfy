// What an install keeps of a person's own settings and what it adds, told of the JSON values themselves: by key, by the
// text of a command, and by the names of the events.
module OldAppHooksPerson {
  import opened JsObject
  import opened Json
  import opened JsonText
  import opened JsText
  import opened JsonRoundTrip
  import opened OldAppHooks
  import opened OldAppHooksText
  import opened OldAppHooksMerge
  import opened OldAppHooksLaws

  // ---- Looking into a value ----

  // What a value holds under a key; null when it is no object or does not have the key.
  function Under(v: Json, key: string): Json {
    if v.Obj? then FieldUnder(v.fields, key) else Null
  }

  function FieldUnder(fields: Object<Json>, key: string): Json {
    if fields == [] then Null else if fields[0].key == key then fields[0].value else FieldUnder(fields[1..], key)
  }

  // The items of an array; none of anything else.
  function ItemsOf(v: Json): seq<Json> {
    if v.Arr? then v.items else []
  }

  // The handlers of a list of matcher groups.
  function HandlersOf(groups: seq<Json>): seq<Json> {
    if groups == [] then [] else ItemsOf(Under(groups[0], "hooks")) + HandlersOf(groups[1..])
  }

  predicate SaysMarker(handler: Json) {
    Under(handler, "command").Str? && Includes(Under(handler, "command").chars, "dwarfai-miners-hook")
  }

  // The person's own handlers: those that do not post to the old app.
  function Theirs(handlers: seq<Json>): seq<Json> {
    if handlers == [] then []
    else TheirOf(handlers[0]) + Theirs(handlers[1..])
  }

  function TheirOf(handler: Json): seq<Json> {
    if SaysMarker(handler) then [] else [handler]
  }

  // The handlers that do.
  function OldApps(handlers: seq<Json>): seq<Json> {
    if handlers == [] then []
    else OldAppOf(handlers[0]) + OldApps(handlers[1..])
  }

  function OldAppOf(handler: Json): seq<Json> {
    if SaysMarker(handler) then [handler] else []
  }

  // The groups that are no objects with an array of handlers.
  function NoGroups(groups: seq<Json>): seq<Json> {
    if groups == [] then []
    else NoGroupOf(groups[0]) + NoGroups(groups[1..])
  }

  function NoGroupOf(group: Json): seq<Json> {
    if Under(group, "hooks").Arr? then [] else [group]
  }

  function HandlerOf(command: string): Json {
    Obj([Entry("type", Str("command")), Entry("command", Str(command)), Entry("timeout", Num("5"))])
  }

  function GroupOf(command: string): Json {
    Obj([Entry("matcher", Str("")), Entry("hooks", Arr([HandlerOf(command)]))])
  }

  // ---- The same, as the installer looks ----

  lemma {:induction false} FieldIsGot(fields: Object<Json>, key: string)
    ensures FieldUnder(fields, key) == if HasKey(fields, key) then Get(fields, key) else Null
  {
    if fields != [] && fields[0].key != key {
      FieldIsGot(fields[1..], key);
      var at := Position(fields, key);
      if at < |fields| {
        assert fields[1..][at - 1].key == key;
      }
      if i :| 0 <= i < |fields[1..]| && fields[1..][i].key == key {
        assert fields[i + 1].key == key;
      }
    }
  }

  lemma OwnSaysMarker(handler: Json)
    ensures IsOwnEntry(handler) <==> SaysMarker(handler)
  {
    if handler.Obj? {
      FieldIsGot(handler.fields, "command");
    }
  }

  lemma HooksUnder(group: Json)
    ensures IsGroup(group) <==> Under(group, "hooks").Arr?
    ensures IsGroup(group) ==> GroupHooks(group) == ItemsOf(Under(group, "hooks"))
  {
    if group.Obj? {
      FieldIsGot(group.fields, "hooks");
    }
  }

  lemma GotUnder(o: Object<Json>, key: string, fallback: Json)
    ensures GetOr(o, key, fallback) == if Under(Obj(o), key).Null? then fallback else Under(Obj(o), key)
  {
    FieldIsGot(o, key);
  }

  lemma {:induction false} ForeignAreTheirs(handlers: seq<Json>)
    ensures ForeignEntries(handlers) == Theirs(handlers)
    ensures OwnEntries(handlers) == OldApps(handlers)
  {
    if handlers != [] {
      OwnSaysMarker(handlers[0]);
      ForeignAreTheirs(handlers[1..]);
    }
  }

  // ---- One event ----

  lemma {:induction false} TheirsAppend(a: seq<Json>, b: seq<Json>)
    ensures Theirs(a + b) == Theirs(a) + Theirs(b)
  {
    if a == [] {
      assert a + b == b;
    } else {
      assert (a + b)[1..] == a[1..] + b;
      TheirsAppend(a[1..], b);
    }
  }

  lemma {:induction false} OldAppsAppend(a: seq<Json>, b: seq<Json>)
    ensures OldApps(a + b) == OldApps(a) + OldApps(b)
  {
    if a == [] {
      assert a + b == b;
    } else {
      assert (a + b)[1..] == a[1..] + b;
      OldAppsAppend(a[1..], b);
    }
  }

  lemma {:induction false} HandlersAppend(a: seq<Json>, b: seq<Json>)
    ensures HandlersOf(a + b) == HandlersOf(a) + HandlersOf(b)
  {
    if a == [] {
      assert a + b == b;
    } else {
      assert (a + b)[1..] == a[1..] + b;
      HandlersAppend(a[1..], b);
    }
  }

  lemma {:induction false} NoGroupsAppend(a: seq<Json>, b: seq<Json>)
    ensures NoGroups(a + b) == NoGroups(a) + NoGroups(b)
  {
    if a == [] {
      assert a + b == b;
    } else {
      assert (a + b)[1..] == a[1..] + b;
      NoGroupsAppend(a[1..], b);
    }
  }

  lemma OneGroup(group: Json)
    ensures HandlersOf([group]) == ItemsOf(Under(group, "hooks"))
    ensures NoGroups([group]) == if Under(group, "hooks").Arr? then [] else [group]
  {
    assert [group][1..] == [];
    assert ItemsOf(Under(group, "hooks")) + [] == ItemsOf(Under(group, "hooks"));
  }

  lemma {:induction false} TheirsTwice(handlers: seq<Json>)
    ensures Theirs(Theirs(handlers)) == Theirs(handlers) && OldApps(Theirs(handlers)) == []
    ensures |Theirs(handlers)| <= |handlers|
    ensures |Theirs(handlers)| == |handlers| ==> Theirs(handlers) == handlers
  {
    if handlers != [] {
      var others := Theirs(handlers[1..]);
      TheirsTwice(handlers[1..]);
      assert ([handlers[0]] + others)[1..] == others && [] + others == others;
    }
  }

  lemma StripOne(group: Json)
    requires WellFormed(group)
    ensures var r := GroupWithoutOwn(group);
            && HandlersOf(r) == Theirs(ItemsOf(Under(group, "hooks")))
            && NoGroups(r) == NoGroups([group])
  {
    HooksUnder(group);
    OneGroup(group);
    if IsGroup(group) {
      var hooks := GroupHooks(group);
      var kept := ForeignEntries(hooks);
      ForeignAreTheirs(hooks);
      TheirsTwice(hooks);
      if |kept| < |hooks| && kept != [] {
        var stripped := Obj(Put(group.fields, "hooks", Arr(kept)));
        NewHooks(group.fields, kept);
        HooksUnder(stripped);
        OneGroup(stripped);
      }
    }
  }

  // What becomes of one group: without handlers that post to the old app it stays as it is; with no others it goes; and
  // otherwise it keeps the others, in their order, and all it says beside them.
  lemma GroupStripped(group: Json)
    requires WellFormed(group)
    ensures var r, handlers := WithoutOwn([group]), ItemsOf(Under(group, "hooks"));
            if OldApps(handlers) == [] then r == [group]
            else if Theirs(handlers) == [] then r == []
            else
              && |r| == 1 && Under(r[0], "hooks") == Arr(Theirs(handlers))
              && forall key | key != "hooks" :: Under(r[0], key) == Under(group, key)
  {
    assert [group][1..] == [] && WithoutOwn([group]) == GroupWithoutOwn(group) + [];
    HooksUnder(group);
    var handlers := ItemsOf(Under(group, "hooks"));
    ForeignAreTheirs(handlers);
    TheirsAreFewer(handlers);
    if IsGroup(group) && OldApps(handlers) != [] && Theirs(handlers) != [] {
      var stripped := Put(group.fields, "hooks", Arr(Theirs(handlers)));
      GetPut(group.fields, "hooks", Arr(Theirs(handlers)));
      FieldIsGot(stripped, "hooks");
      forall key | key != "hooks" ensures Under(Obj(stripped), key) == Under(group, key) {
        OtherUnder(group.fields, "hooks", Arr(Theirs(handlers)), key);
      }
    }
  }

  lemma {:induction false} TheirsAreFewer(handlers: seq<Json>)
    ensures |handlers| == |Theirs(handlers)| + |OldApps(handlers)|
  {
    if handlers != [] {
      TheirsAreFewer(handlers[1..]);
    }
  }

  lemma {:induction false} StripKeepsTheirs(groups: seq<Json>, canon: Numeral -> Numeral)
    requires AllSound(groups, canon)
    ensures HandlersOf(WithoutOwn(groups)) == Theirs(HandlersOf(groups))
    ensures NoGroups(WithoutOwn(groups)) == NoGroups(groups)
  {
    if groups != [] {
      var first, others := GroupWithoutOwn(groups[0]), WithoutOwn(groups[1..]);
      StripOne(groups[0]);
      StripKeepsTheirs(groups[1..], canon);
      HandlersAppend(first, others);
      NoGroupsAppend(first, others);
      TheirsAppend(ItemsOf(Under(groups[0], "hooks")), HandlersOf(groups[1..]));
      NoGroupsAppend([groups[0]], groups[1..]);
      assert groups == [groups[0]] + groups[1..];
    }
  }

  lemma NewGroupSays(command: string)
    requires Includes(command, "dwarfai-miners-hook")
    ensures OwnGroup(command) == GroupOf(command)
    ensures Under(GroupOf(command), "hooks") == Arr([HandlerOf(command)])
    ensures SaysMarker(HandlerOf(command))
  {
    HooksUnder(OwnGroup(command));
    OwnGroupIsOwn(command);
    OwnSaysMarker(OwnEntry(command));
    assert OwnEntry(command) == HandlerOf(command);
  }

  // What an install leaves of one event's groups: a person's handlers and the groups that are none, in their order; and
  // of the handlers that post to the old app only the new one, in a last group of its own.
  ghost predicate EventKept(before: seq<Json>, after: seq<Json>, command: string) {
    && Theirs(HandlersOf(after)) == Theirs(HandlersOf(before))
    && NoGroups(after) == NoGroups(before)
    && OldApps(HandlersOf(after)) == [HandlerOf(command)]
    && after != [] && after[|after| - 1] == GroupOf(command)
  }

  lemma NewGroupsKeepTheirs(groups: seq<Json>, command: string, canon: Numeral -> Numeral)
    requires AllSound(groups, canon)
    requires Includes(command, "dwarfai-miners-hook")
    ensures EventKept(groups, NewGroups(groups, command), command)
  {
    var kept, own, handler := WithoutOwn(groups), GroupOf(command), HandlerOf(command);
    NewGroupSays(command);
    StripKeepsTheirs(groups, canon);
    OneGroup(own);
    HandlersAppend(kept, [own]);
    NoGroupsAppend(kept, [own]);
    TheirsTwice(HandlersOf(groups));
    TheirsAppend(HandlersOf(kept), [handler]);
    OldAppsAppend(HandlersOf(kept), [handler]);
    OneHandler(handler);
  }

  lemma OneHandler(handler: Json)
    requires SaysMarker(handler)
    ensures Theirs([handler]) == [] && OldApps([handler]) == [handler]
  {
    assert [handler][1..] == [];
  }

  // ---- The command ----

  ghost predicate LowerHex(token: string) {
    forall i | 0 <= i < |token| :: '0' <= token[i] <= '9' || 'a' <= token[i] <= 'f'
  }

  // A number without leading zeros, in decimal.
  ghost predicate IsDecimal(s: string, n: nat) {
    s != "" && s[0] != '0' && (forall c | c in s :: '0' <= c <= '9') && DecimalValue(s) == n
  }

  // When options make a command, and the command.
  lemma CommandSpelledOut(options: Options) returns (port: string)
    ensures Command(options).Ok? <==>
            1 <= options.port <= 65535 && |options.token| >= 16 && LowerHex(options.token)
    ensures Command(options).Ok? ==>
              && IsDecimal(port, options.port)
              && Command(options).value ==
                   (if options.platform == "win32" then "curl.exe" else "curl") +
                   " -s -m 2 -X POST -H x-dwarfai-token:" + options.token +
                   " -H Content-Type:application/json --noproxy 127.0.0.1 -d@- http://127.0.0.1:" +
                   port + "/dwarfai-miners-hook"
  {
    TokenIsHex(options.token);
    port := "";
    if Command(options).Ok? {
      port := DecimalText(options.port);
      DecimalReads(options.port);
      CommandText(options);
    }
  }

  lemma TokenIsHex(token: string)
    ensures LowerHex(token) <==> !exists c | c in token :: !IsLowerHex(c)
  {
    if LowerHex(token) {
      forall c | c in token ensures IsLowerHex(c) {
        var i :| 0 <= i < |token| && token[i] == c;
      }
    }
    if !exists c | c in token :: !IsLowerHex(c) {
      forall i | 0 <= i < |token| ensures IsLowerHex(token[i]) {
        assert token[i] in token;
      }
    }
  }

  lemma CommandText(options: Options)
    requires Command(options).Ok?
    ensures Command(options).value ==
              (if options.platform == "win32" then "curl.exe" else "curl") +
              " -s -m 2 -X POST -H x-dwarfai-token:" + options.token +
              " -H Content-Type:application/json --noproxy 127.0.0.1 -d@- http://127.0.0.1:" +
              DecimalText(options.port) + "/dwarfai-miners-hook"
  {
    EndsInMarker((if options.platform == "win32" then "curl.exe" else "curl") +
                 " -s -m 2 -X POST -H x-dwarfai-token:" + options.token +
                 " -H Content-Type:application/json --noproxy 127.0.0.1 -d@- http://127.0.0.1:" +
                 DecimalText(options.port));
  }

  lemma EndsInMarker(start: string)
    ensures start + "/" + MARKER == start + "/dwarfai-miners-hook"
  {
    assert "/" + MARKER == "/dwarfai-miners-hook";
    assert start + "/" + MARKER == start + ("/" + MARKER);
  }

  lemma OneDigitMore(head: string, n: nat, last: nat)
    requires (head == "" && n == 0 && last > 0) || IsDecimal(head, n)
    requires last < 10
    ensures IsDecimal(head + [('0' as int + last) as char], 10 * n + last)
  {
    var c := ('0' as int + last) as char;
    assert (head + [c])[..|head|] == head;
    assert forall d | d in head + [c] :: d in head || d == c;
    assert (head + [c])[0] == if head == "" then c else head[0];
  }

  lemma {:induction false} DecimalReads(n: nat)
    requires n > 0
    ensures IsDecimal(DecimalText(n), n)
  {
    if n >= 10 {
      DecimalReads(n / 10);
    }
    OneDigitMore(if n < 10 then "" else DecimalText(n / 10), n / 10, n % 10);
    assert n == 10 * (n / 10) + n % 10;
  }

  // ---- Text to text ----

  // The settings a text holds; a blank text holds none.
  function Held(text: string, canon: Numeral -> Numeral): Json {
    if IsBlank(text) then Obj([]) else match Parse(text, canon) case SyntaxError => Null case Value(v) => v
  }

  // The groups settings hold for an event.
  function EventGroups(settings: Json, event: string): seq<Json> {
    ItemsOf(Under(Under(settings, "hooks"), event))
  }

  const OLD_APP_EVENTS: seq<string> := ["SessionStart", "Notification", "Stop", "SubagentStop", "SessionEnd"]

  lemma TheOldAppEvents(event: string)
    ensures event in EVENTS <==> event in OLD_APP_EVENTS
  {
  }

  lemma HeldIsRead(text: string, canon: Numeral -> Numeral)
    requires ReadSettings(text, canon).Ok?
    ensures Held(text, canon) == Obj(ReadSettings(text, canon).value)
  {
  }

  // Texts an install takes: without CR LF and byte order mark, and blank or a JSON object whose "hooks" is an object, null
  // or missing, each event in it an array, null or missing.
  ghost predicate Takes(text: string, canon: Numeral -> Numeral) {
    && !Includes(text, "\r\n") && !("\U{FEFF}" <= text)
    && Held(text, canon).Obj?
    && var hooks := Under(Held(text, canon), "hooks");
       && (hooks.Null? || hooks.Obj?)
       && forall event | event in OLD_APP_EVENTS :: Under(hooks, event).Null? || Under(hooks, event).Arr?
  }

  lemma InstalledExactly(text: string, options: Options, canon: Numeral -> Numeral)
    requires PrintsNumbers(canon)
    ensures Installed(text, options, canon).Ok? <==> Takes(text, canon) && Command(options).Ok?
  {
    if ReadSettings(text, canon).Ok? {
      var settings := ReadSettings(text, canon).value;
      HeldIsRead(text, canon);
      ReadSettingsSound(text, canon);
      MergeIs(settings, options, canon);
      GotUnder(settings, "hooks", Obj([]));
      if HooksOf(settings).Obj? {
        EventsUnder(settings);
      }
    }
  }

  lemma EventsUnder(settings: Object<Json>)
    requires HooksOf(settings).Obj?
    ensures EventsAreArrays(HooksOf(settings).fields, EVENTS) <==>
            var hooks := Under(Obj(settings), "hooks");
            forall event | event in OLD_APP_EVENTS :: Under(hooks, event).Null? || Under(hooks, event).Arr?
  {
    var hooks := Under(Obj(settings), "hooks");
    GotUnder(settings, "hooks", Obj([]));
    forall event ensures Groups(HooksOf(settings).fields, event).Arr? <==> Under(hooks, event).Null? || Under(hooks, event).Arr? {
      GroupsUnder(settings, event);
    }
    forall i | 0 <= i < |EVENTS| ensures EVENTS[i] in OLD_APP_EVENTS {
      TheOldAppEvents(EVENTS[i]);
    }
    forall event | event in OLD_APP_EVENTS ensures exists i :: 0 <= i < |EVENTS| && EVENTS[i] == event {
      TheOldAppEvents(event);
    }
  }

  lemma GroupsUnder(settings: Object<Json>, event: string)
    requires HooksOf(settings).Obj?
    ensures var under := Under(Under(Obj(settings), "hooks"), event);
            && Groups(HooksOf(settings).fields, event) == (if under.Null? then Arr([]) else under)
            && EventGroups(Obj(settings), event) == ItemsOf(Groups(HooksOf(settings).fields, event))
  {
    GotUnder(settings, "hooks", Obj([]));
    GotUnder(HooksOf(settings).fields, event, Arr([]));
  }

  // What the file written holds, against what the text found held: every event's groups as `EventKept` says, and every
  // other setting and every other key of "hooks" as they were.
  lemma InstallKeepsTheirs(text: string, options: Options, canon: Numeral -> Numeral)
    requires PrintsNumbers(canon)
    ensures Installed(text, options, canon).Ok? ==>
              var before, after := Held(text, canon), Held(Installed(text, options, canon).value, canon);
              && Command(options).Ok?
              && (forall event | event in OLD_APP_EVENTS ::
                    EventKept(EventGroups(before, event), EventGroups(after, event), Command(options).value))
              && (forall key | key != "hooks" :: Under(after, key) == Under(before, key))
              && (forall key | key !in OLD_APP_EVENTS ::
                    Under(Under(after, "hooks"), key) == Under(Under(before, "hooks"), key))
  {
    if Installed(text, options, canon).Ok? {
      var settings := ReadSettings(text, canon).value;
      InstalledIsRead(text, options, canon);
      HeldIsRead(text, canon);
      HeldIsRead(Installed(text, options, canon).value, canon);
      ReadSettingsSound(text, canon);
      MergeKeepsTheirs(settings, options, canon);
    }
  }

  // The bytes written: the settings they hold, printed with the indent of the text found, or two spaces, and a line feed
  // at the end exactly if the text found was blank or ended in one.
  lemma InstalledLayout(text: string, options: Options, canon: Numeral -> Numeral) returns (p: nat, indent: string)
    requires PrintsNumbers(canon)
    ensures Installed(text, options, canon).Ok? ==>
              var after := Installed(text, options, canon).value;
              if IsBlank(text) then after == Stringify(Held(after, canon), "  ") + "\n"
              else
                && IsIndentOf(text, p, indent)
                && after == Stringify(Held(after, canon), indent) + if text[|text| - 1] == '\n' then "\n" else ""
  {
    p := LayoutIs(text);
    indent := LayoutOf(text).indent;
    if Installed(text, options, canon).Ok? {
      InstalledIsRead(text, options, canon);
      HeldIsRead(Installed(text, options, canon).value, canon);
    }
  }

  lemma MergeKeepsTheirs(settings: Object<Json>, options: Options, canon: Numeral -> Numeral)
    requires Sound(Obj(settings), canon)
    requires Merge(settings, options).Ok?
    ensures var before, after := Obj(settings), Obj(Merge(settings, options).value);
            && Command(options).Ok?
            && (forall event | event in OLD_APP_EVENTS ::
                  EventKept(EventGroups(before, event), EventGroups(after, event), Command(options).value))
            && (forall key | key != "hooks" :: Under(after, key) == Under(before, key))
            && (forall key | key !in OLD_APP_EVENTS ::
                  Under(Under(after, "hooks"), key) == Under(Under(before, "hooks"), key))
  {
    MergeIs(settings, options, canon);
    HooksAreSound(settings, canon);
    var hooks, command := HooksOf(settings).fields, Command(options).value;
    var now := Spread(hooks, NewEvents(hooks, EVENTS, command));
    var after := Put(settings, "hooks", Obj(now));
    CommandIncludesMarker(options);
    GetPut(settings, "hooks", Obj(now));
    assert HooksOf(after) == Obj(now);
    forall event | event in OLD_APP_EVENTS
      ensures EventKept(EventGroups(Obj(settings), event), EventGroups(Obj(after), event), command)
    {
      OneEventKept(settings, after, command, event, canon);
    }
    forall key | key != "hooks" ensures Under(Obj(after), key) == Under(Obj(settings), key) {
      OtherUnder(settings, "hooks", Obj(now), key);
    }
    forall key | key !in OLD_APP_EVENTS
      ensures Under(Under(Obj(after), "hooks"), key) == Under(Under(Obj(settings), "hooks"), key)
    {
      OtherHookUnder(settings, after, hooks, command, key);
    }
  }

  lemma OneEventKept(
      settings: Object<Json>, after: Object<Json>, command: string, event: string, canon: Numeral -> Numeral)
    requires Sound(Obj(settings), canon) && HooksOf(settings).Obj? && EventsAreArrays(HooksOf(settings).fields, EVENTS)
    requires HooksOf(after) == Obj(Spread(HooksOf(settings).fields, NewEvents(HooksOf(settings).fields, EVENTS, command)))
    requires event in OLD_APP_EVENTS && Includes(command, "dwarfai-miners-hook")
    ensures EventKept(EventGroups(Obj(settings), event), EventGroups(Obj(after), event), command)
  {
    var hooks := HooksOf(settings).fields;
    HooksAreSound(settings, canon);
    TheOldAppEvents(event);
    var i :| 0 <= i < |EVENTS| && EVENTS[i] == event;
    NewGroupsOfEvent(hooks, command, i);
    GroupsUnder(settings, event);
    GroupsUnder(after, event);
    GroupsAreSound(hooks, event, canon);
    NewGroupsKeepTheirs(Groups(hooks, event).items, command, canon);
  }

  lemma OtherUnder(o: Object<Json>, put: string, value: Json, key: string)
    requires DistinctKeys(o) && Proper(o) && key != put
    ensures Under(Obj(Put(o, put, value)), key) == Under(Obj(o), key)
  {
    var r := Put(o, put, value);
    PutKeepsProper(o, put, value);
    FieldIsGot(o, key);
    FieldIsGot(r, key);
    if HasKey(o, key) {
      var e := o[Position(o, key)];
      PutEntries(o, put, value, e);
      GetIsHeld(r, e);
      GetIsHeld(o, e);
    }
    if HasKey(r, key) {
      var e := r[Position(r, key)];
      PutEntries(o, put, value, e);
      GetIsHeld(o, e);
    }
  }

  lemma OtherHookUnder(settings: Object<Json>, after: Object<Json>, hooks: Object<Json>, command: string, key: string)
    requires Proper(hooks) && EventsAreArrays(hooks, EVENTS) && key !in OLD_APP_EVENTS
    requires HooksOf(settings) == Obj(hooks)
    requires HooksOf(after) == Obj(Spread(hooks, NewEvents(hooks, EVENTS, command)))
    requires HasKey(after, "hooks")
    ensures Under(Under(Obj(after), "hooks"), key) == Under(Under(Obj(settings), "hooks"), key)
  {
    var overlay := NewEvents(hooks, EVENTS, command);
    GotUnder(settings, "hooks", Obj([]));
    GotUnder(after, "hooks", Obj([]));
    NoSuchEvent(hooks, command, key);
    NewEventsDistinct(hooks, command);
    NotSpread(hooks, overlay, key);
  }

  lemma NoSuchEvent(hooks: Object<Json>, command: string, key: string)
    requires EventsAreArrays(hooks, EVENTS) && key !in OLD_APP_EVENTS
    ensures !HasKey(NewEvents(hooks, EVENTS, command), key)
  {
    var overlay := NewEvents(hooks, EVENTS, command);
    forall i | 0 <= i < |overlay| ensures overlay[i].key != key {
      TheOldAppEvents(EVENTS[i]);
    }
  }

  lemma NotSpread(o: Object<Json>, overlay: seq<Entry<Json>>, key: string)
    requires Proper(o) && DistinctKeys(overlay) && !HasKey(overlay, key)
    ensures Under(Obj(Spread(o, overlay)), key) == Under(Obj(o), key)
  {
    FieldIsGot(o, key);
    FieldIsGot(Spread(o, overlay), key);
    GetSpread(o, overlay, key);
  }
}

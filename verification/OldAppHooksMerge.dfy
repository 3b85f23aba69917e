// What merging keeps and changes: groups, events, settings.
module OldAppHooksMerge {
  import opened JsObject
  import opened Json
  import opened JsonText
  import opened JsText
  import opened JsonRoundTrip
  import opened OldAppHooks

  // ---- The command carries the marker ----

  lemma CommandIncludesMarker(options: Options)
    requires Command(options).Ok?
    ensures Includes(Command(options).value, MARKER)
  {
    var command := Command(options).value;
    var at := |command| - |MARKER|;
    assert command[at..] == MARKER;
    assert MARKER <= command[at..];
  }

  // ---- Entries ----

  lemma {:induction false} ForeignEntriesTwice(entries: seq<Json>)
    ensures ForeignEntries(ForeignEntries(entries)) == ForeignEntries(entries)
  {
    if entries != [] {
      ForeignEntriesTwice(entries[1..]);
      var others := ForeignEntries(entries[1..]);
      assert ([entries[0]] + others)[1..] == others && [] + others == others;
    }
  }

  lemma {:induction false} ForeignEntriesOfForeign(entries: seq<Json>)
    requires |ForeignEntries(entries)| == |entries|
    ensures ForeignEntries(entries) == entries
    ensures OwnEntries(entries) == []
  {
    if entries != [] {
      assert |ForeignEntries(entries[1..])| <= |entries[1..]|;
      ForeignEntriesOfForeign(entries[1..]);
    }
  }

  function OwnEntries(entries: seq<Json>): seq<Json> {
    if entries == [] then []
    else (if IsOwnEntry(entries[0]) then [entries[0]] else []) + OwnEntries(entries[1..])
  }

  lemma {:induction false} NoOwnAmongForeign(entries: seq<Json>)
    ensures OwnEntries(ForeignEntries(entries)) == []
  {
    if entries != [] {
      NoOwnAmongForeign(entries[1..]);
      var others := ForeignEntries(entries[1..]);
      assert ([entries[0]] + others)[1..] == others && [] + others == others;
    }
  }

  // ---- Groups ----

  // What is not the old app's in a list of groups: groups of another shape, and the foreign handlers, each with what
  // else its group says.
  datatype Item = Malformed(group: Json) | Handler(beside: Object<Json>, entry: Json)

  function Handlers(group: Object<Json>, entries: seq<Json>): seq<Item> {
    seq(|entries|, i requires 0 <= i < |entries| => Handler(group, entries[i]))
  }

  function ForeignOf(group: Json): seq<Item> {
    if !IsGroup(group) then [Malformed(group)]
    else Handlers(Delete(group.fields, "hooks"), ForeignEntries(GroupHooks(group)))
  }

  function Foreign(groups: seq<Json>): seq<Item> {
    if groups == [] then [] else ForeignOf(groups[0]) + Foreign(groups[1..])
  }

  function OwnOf(group: Json): seq<Json> {
    if IsGroup(group) then OwnEntries(GroupHooks(group)) else []
  }

  // The old app's entries in a list of groups.
  function Own(groups: seq<Json>): seq<Json> {
    if groups == [] then [] else OwnOf(groups[0]) + Own(groups[1..])
  }

  ghost predicate AllSound(values: seq<Json>, canon: Numeral -> Numeral) {
    forall i | 0 <= i < |values| :: Sound(values[i], canon)
  }

  lemma NewHooks(fields: Object<Json>, kept: seq<Json>)
    requires DistinctKeys(fields)
    ensures var group := Obj(Put(fields, "hooks", Arr(kept)));
            && IsGroup(group) && GroupHooks(group) == kept
            && Delete(group.fields, "hooks") == Delete(fields, "hooks")
  {
    GetPut(fields, "hooks", Arr(kept));
    PutDelete(fields, "hooks", Arr(kept));
  }

  // Stripping one group: nothing foreign goes, nothing of its own stays, and there is nothing more to strip.
  lemma StripGroup(group: Json)
    requires WellFormed(group)
    ensures var r := GroupWithoutOwn(group);
            && |r| <= 1
            && Foreign(r) == ForeignOf(group) && Own(r) == [] && WithoutOwn(r) == r
  {
    if IsGroup(group) {
      var hooks := GroupHooks(group);
      var kept := ForeignEntries(hooks);
      if |kept| == |hooks| {
        ForeignEntriesOfForeign(hooks);
      } else if kept != [] {
        NewHooks(group.fields, kept);
        ForeignEntriesTwice(hooks);
        NoOwnAmongForeign(hooks);
      }
    }
  }

  lemma {:induction false} WithoutOwnAppend(a: seq<Json>, b: seq<Json>)
    ensures WithoutOwn(a + b) == WithoutOwn(a) + WithoutOwn(b)
  {
    if a == [] {
      assert a + b == b;
    } else {
      assert (a + b)[1..] == a[1..] + b;
      WithoutOwnAppend(a[1..], b);
    }
  }

  lemma {:induction false} ForeignAppend(a: seq<Json>, b: seq<Json>)
    ensures Foreign(a + b) == Foreign(a) + Foreign(b)
  {
    if a == [] {
      assert a + b == b;
    } else {
      assert (a + b)[1..] == a[1..] + b;
      ForeignAppend(a[1..], b);
    }
  }

  lemma {:induction false} OwnAppend(a: seq<Json>, b: seq<Json>)
    ensures Own(a + b) == Own(a) + Own(b)
  {
    if a == [] {
      assert a + b == b;
    } else {
      assert (a + b)[1..] == a[1..] + b;
      OwnAppend(a[1..], b);
    }
  }

  lemma StrippedAppend(a: seq<Json>, b: seq<Json>)
    ensures WithoutOwn(a + b) == WithoutOwn(a) + WithoutOwn(b)
    ensures Foreign(a + b) == Foreign(a) + Foreign(b)
    ensures Own(a + b) == Own(a) + Own(b)
  {
    WithoutOwnAppend(a, b);
    ForeignAppend(a, b);
    OwnAppend(a, b);
  }

  lemma {:induction false} Strip(groups: seq<Json>, canon: Numeral -> Numeral)
    requires AllSound(groups, canon)
    ensures Foreign(WithoutOwn(groups)) == Foreign(groups)
    ensures Own(WithoutOwn(groups)) == []
    ensures WithoutOwn(WithoutOwn(groups)) == WithoutOwn(groups)
  {
    if groups != [] {
      var first := GroupWithoutOwn(groups[0]);
      StripGroup(groups[0]);
      Strip(groups[1..], canon);
      StrippedAppend(first, WithoutOwn(groups[1..]));
    }
  }

  lemma OwnGroupIsOwn(command: string)
    requires Includes(command, MARKER)
    ensures IsGroup(OwnGroup(command)) && GroupHooks(OwnGroup(command)) == [OwnEntry(command)]
    ensures IsOwnEntry(OwnEntry(command))
  {
    var group, entry := OwnGroup(command).fields, OwnEntry(command).fields;
    assert group[1].key == "hooks" && group[0].key == "matcher";
    assert entry[1].key == "command" && entry[0].key == "type";
    assert Position(group, "hooks") == 1;
    assert Position(entry, "command") == 1;
  }

  lemma OwnGroupStrips(command: string)
    requires Includes(command, MARKER)
    ensures var own := [OwnGroup(command)];
            WithoutOwn(own) == [] && Foreign(own) == [] && Own(own) == [OwnEntry(command)]
  {
    OwnGroupIsOwn(command);
    assert ForeignEntries([OwnEntry(command)]) == [];
    assert OwnEntries([OwnEntry(command)]) == [OwnEntry(command)];
  }

  // Installing one event: foreign content is conserved, the one entry of its own is in the last group, and stripping the
  // result gives what stripping the input gives.
  lemma NewGroupsLaws(groups: seq<Json>, command: string, canon: Numeral -> Numeral)
    requires AllSound(groups, canon)
    requires Includes(command, MARKER)
    ensures var r := NewGroups(groups, command);
            && Foreign(r) == Foreign(groups)
            && Own(r) == [OwnEntry(command)]
            && Own(r[..|r| - 1]) == [] && r[|r| - 1] == OwnGroup(command)
            && WithoutOwn(r) == WithoutOwn(groups)
  {
    var kept, own := WithoutOwn(groups), [OwnGroup(command)];
    Strip(groups, canon);
    OwnGroupStrips(command);
    StrippedAppend(kept, own);
    assert NewGroups(groups, command)[..|kept|] == kept;
  }

  lemma {:induction false} ForeignEntriesSound(entries: seq<Json>, canon: Numeral -> Numeral)
    requires AllSound(entries, canon)
    ensures AllSound(ForeignEntries(entries), canon)
  {
    if entries != [] {
      ForeignEntriesSound(entries[1..], canon);
    }
  }

  lemma {:induction false} WithoutOwnSound(groups: seq<Json>, canon: Numeral -> Numeral)
    requires AllSound(groups, canon)
    ensures AllSound(WithoutOwn(groups), canon)
  {
    if groups != [] {
      WithoutOwnSound(groups[1..], canon);
      GroupWithoutOwnSound(groups[0], canon);
    }
  }

  lemma GroupWithoutOwnSound(group: Json, canon: Numeral -> Numeral)
    requires Sound(group, canon)
    ensures AllSound(GroupWithoutOwn(group), canon)
  {
    if IsGroup(group) {
      var kept := ForeignEntries(GroupHooks(group));
      assert Sound(Get(group.fields, "hooks"), canon);
      ForeignEntriesSound(GroupHooks(group), canon);
      PutSound(group.fields, Entry("hooks", Arr(kept)), canon);
      PutKeepsProper(group.fields, "hooks", Arr(kept));
    }
  }

  // JavaScript's own texts of numbers: reading one back and printing it changes nothing, and 5 is printed "5".
  ghost predicate PrintsNumbers(canon: Numeral -> Numeral) {
    Idempotent(canon) && canon(TIMEOUT) == TIMEOUT
  }

  lemma PlainKeysProper(o: Object<Json>)
    requires DistinctKeys(o)
    requires forall i | 0 <= i < |o| :: o[i].key != "" && !IsDigit(o[i].key[0])
    ensures Proper(o)
  {
    forall i | 0 <= i < |o| ensures !IsIndex(o[i].key) {
      PlainKey(o[i].key);
    }
  }

  lemma OwnEntrySound(command: string, canon: Numeral -> Numeral)
    requires PrintsNumbers(canon)
    ensures Sound(OwnEntry(command), canon)
  {
    var o := OwnEntry(command).fields;
    assert o[0].key == "type" && o[1].key == "command" && o[2].key == "timeout";
    assert |o| == 3 && |o[0].key| == 4 && o[1].key[0] == 'c' && o[2].key[0] == 't' && |o[2].key| == 7;
    PlainKeysProper(o);
    assert Sound(o[0].value, canon) && Sound(o[1].value, canon) && Sound(o[2].value, canon);
  }

  lemma OwnGroupSound(command: string, canon: Numeral -> Numeral)
    requires PrintsNumbers(canon)
    ensures Sound(OwnGroup(command), canon)
  {
    var o, entry := OwnGroup(command).fields, OwnEntry(command);
    OwnEntrySound(command, canon);
    assert |o| == 2 && o[0].key == "matcher" && o[1].key == "hooks";
    assert o[0].key[0] == 'm' && o[1].key[0] == 'h';
    PlainKeysProper(o);
    assert Sound(o[0].value, canon) && Sound(Arr([entry]), canon);
  }

  lemma NewGroupsSound(groups: seq<Json>, command: string, canon: Numeral -> Numeral)
    requires PrintsNumbers(canon) && AllSound(groups, canon)
    ensures Sound(Arr(NewGroups(groups, command)), canon)
  {
    WithoutOwnSound(groups, canon);
    OwnGroupSound(command, canon);
  }

  // ---- Events ----

  ghost predicate DistinctPlain(events: seq<string>) {
    && (forall i, j | 0 <= i < j < |events| :: events[i] != events[j])
    && (forall i | 0 <= i < |events| :: !IsIndex(events[i]))
  }

  lemma TheEvents()
    ensures DistinctPlain(EVENTS)
  {
    forall i | 0 <= i < |EVENTS| ensures !IsIndex(EVENTS[i]) {
      PlainKey(EVENTS[i]);
    }
  }

  // The groups of an event; none when the event is missing or null.
  function Groups(hooks: Object<Json>, event: string): Json {
    GetOr(hooks, event, Arr([]))
  }

  predicate EventsAreArrays(hooks: Object<Json>, events: seq<string>) {
    forall i | 0 <= i < |events| :: Groups(hooks, events[i]).Arr?
  }

  function NewEvents(hooks: Object<Json>, events: seq<string>, command: string): (r: seq<Entry<Json>>)
    requires EventsAreArrays(hooks, events)
    ensures |r| == |events|
  {
    seq(|events|, i requires 0 <= i < |events| =>
      Entry(events[i], Arr(NewGroups(Groups(hooks, events[i]).items, command))))
  }

  lemma OneMoreEvent(hooks: Object<Json>, events: seq<string>)
    requires events != []
    ensures var n := |events| - 1;
            EventsAreArrays(hooks, events) <==> EventsAreArrays(hooks, events[..n]) && Groups(hooks, events[n]).Arr?
  {
    var n := |events| - 1;
    assert forall i | 0 <= i < n :: events[..n][i] == events[i];
  }

  // The loop assigns every event at once: no event reads what another one wrote.
  lemma {:induction false} InstallIsOneOverlay(hooks: Object<Json>, events: seq<string>, command: string)
    requires Proper(hooks) && DistinctPlain(events)
    ensures InstallEvents(hooks, events, command).Ok? <==> EventsAreArrays(hooks, events)
    ensures EventsAreArrays(hooks, events) ==>
              InstallEvents(hooks, events, command) == Ok(Spread(hooks, NewEvents(hooks, events, command)))
  {
    if events != [] {
      var n := |events| - 1;
      InstallIsOneOverlay(hooks, events[..n], command);
      OneMoreEvent(hooks, events);
      if EventsAreArrays(hooks, events[..n]) {
        OverlayOneMore(hooks, events, command);
      }
    }
  }

  lemma OverlayOneMore(hooks: Object<Json>, events: seq<string>, command: string)
    requires Proper(hooks) && DistinctPlain(events) && events != []
    requires EventsAreArrays(hooks, events[..|events| - 1])
    requires var init := events[..|events| - 1];
             InstallEvents(hooks, init, command) == Ok(Spread(hooks, NewEvents(hooks, init, command)))
    ensures InstallEvents(hooks, events, command).Ok? <==> Groups(hooks, events[|events| - 1]).Arr?
    ensures EventsAreArrays(hooks, events) ==>
              InstallEvents(hooks, events, command) == Ok(Spread(hooks, NewEvents(hooks, events, command)))
  {
    var n := |events| - 1;
    LastEventUntouched(hooks, events, command);
    if EventsAreArrays(hooks, events) {
      NewEventsOneMore(hooks, events, command);
      var last := Entry(events[n], Arr(NewGroups(Groups(hooks, events[n]).items, command)));
      SpreadOneMore(hooks, NewEvents(hooks, events[..n], command), last);
    }
  }

  lemma SpreadOneMore(hooks: Object<Json>, overlay: seq<Entry<Json>>, last: Entry<Json>)
    ensures Spread(hooks, overlay + [last]) == Put(Spread(hooks, overlay), last.key, last.value)
  {
    assert (overlay + [last])[..|overlay|] == overlay;
  }

  lemma LastEventUntouched(hooks: Object<Json>, events: seq<string>, command: string)
    requires Proper(hooks) && DistinctPlain(events) && events != []
    requires EventsAreArrays(hooks, events[..|events| - 1])
    ensures var n := |events| - 1;
            Groups(Spread(hooks, NewEvents(hooks, events[..n], command)), events[n]) == Groups(hooks, events[n])
  {
    var n := |events| - 1;
    var overlay := NewEvents(hooks, events[..n], command);
    assert !HasKey(overlay, events[n]);
    GetSpread(hooks, overlay, events[n]);
  }

  lemma NewEventsOneMore(hooks: Object<Json>, events: seq<string>, command: string)
    requires events != [] && EventsAreArrays(hooks, events)
    ensures EventsAreArrays(hooks, events[..|events| - 1])
    ensures var n := |events| - 1;
            NewEvents(hooks, events, command) == NewEvents(hooks, events[..n], command) +
              [Entry(events[n], Arr(NewGroups(Groups(hooks, events[n]).items, command)))]
  {
    OneMoreEvent(hooks, events);
  }
}

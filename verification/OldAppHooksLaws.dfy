// What installing promises: foreign content is conserved, a later install absorbs an earlier one byte for byte, and the
// backup is taken once.
module OldAppHooksLaws {
  import opened JsObject
  import opened Json
  import opened JsonText
  import opened JsText
  import opened JsonRoundTrip
  import opened OldAppHooks
  import opened OldAppHooksText
  import opened OldAppHooksMerge

  // ---- One merge ----

  function HooksOf(settings: Object<Json>): Json {
    GetOr(settings, "hooks", Obj([]))
  }

  lemma HooksAreSound(settings: Object<Json>, canon: Numeral -> Numeral)
    requires Sound(Obj(settings), canon)
    ensures Sound(HooksOf(settings), canon)
  {
  }

  lemma GroupsAreSound(hooks: Object<Json>, event: string, canon: Numeral -> Numeral)
    requires Sound(Obj(hooks), canon)
    ensures Sound(Groups(hooks, event), canon)
  {
  }

  // A merge succeeds exactly when "hooks" is an object (or missing, or null), the options make a command and every event
  // holds an array (or is missing, or null); then all events are assigned at once.
  lemma MergeIs(settings: Object<Json>, options: Options, canon: Numeral -> Numeral)
    requires Sound(Obj(settings), canon)
    ensures Merge(settings, options).Ok? <==>
            HooksOf(settings).Obj? && Command(options).Ok? && EventsAreArrays(HooksOf(settings).fields, EVENTS)
    ensures Merge(settings, options).Ok? ==>
              var hooks := HooksOf(settings).fields;
              && Proper(hooks)
              && Merge(settings, options).value ==
                   Put(settings, "hooks", Obj(Spread(hooks, NewEvents(hooks, EVENTS, Command(options).value))))
  {
    HooksAreSound(settings, canon);
    TheEvents();
    if HooksOf(settings).Obj? && Command(options).Ok? {
      InstallIsOneOverlay(HooksOf(settings).fields, EVENTS, Command(options).value);
    }
  }

  lemma {:induction false} SpreadSound(o: Object<Json>, overlay: seq<Entry<Json>>, canon: Numeral -> Numeral)
    requires Sound(Obj(o), canon)
    requires forall i | 0 <= i < |overlay| :: Sound(overlay[i].value, canon)
    ensures Sound(Obj(Spread(o, overlay)), canon)
  {
    if overlay != [] {
      var n := |overlay| - 1;
      SpreadSound(o, overlay[..n], canon);
      PutSound(Spread(o, overlay[..n]), overlay[n], canon);
      PutKeepsProper(Spread(o, overlay[..n]), overlay[n].key, overlay[n].value);
    }
  }

  lemma NewEventsSound(hooks: Object<Json>, command: string, canon: Numeral -> Numeral)
    requires Sound(Obj(hooks), canon) && PrintsNumbers(canon)
    requires EventsAreArrays(hooks, EVENTS)
    ensures Sound(Obj(Spread(hooks, NewEvents(hooks, EVENTS, command))), canon)
  {
    var overlay := NewEvents(hooks, EVENTS, command);
    forall i | 0 <= i < |overlay| ensures Sound(overlay[i].value, canon) {
      GroupsAreSound(hooks, EVENTS[i], canon);
      NewGroupsSound(Groups(hooks, EVENTS[i]).items, command, canon);
    }
    SpreadSound(hooks, overlay, canon);
  }

  lemma PutOneSound(o: Object<Json>, key: string, value: Json, canon: Numeral -> Numeral)
    requires Sound(Obj(o), canon) && Sound(value, canon)
    ensures Sound(Obj(Put(o, key, value)), canon) && Put(o, key, value) != []
  {
    PutSound(o, Entry(key, value), canon);
    PutKeepsProper(o, key, value);
    GetPut(o, key, value);
  }

  lemma MergeIsSound(settings: Object<Json>, options: Options, canon: Numeral -> Numeral)
    requires Sound(Obj(settings), canon) && PrintsNumbers(canon)
    requires Merge(settings, options).Ok?
    ensures Sound(Obj(Merge(settings, options).value), canon)
    ensures Merge(settings, options).value != []
  {
    MergeIs(settings, options, canon);
    HooksAreSound(settings, canon);
    var hooks, command := HooksOf(settings).fields, Command(options).value;
    NewEventsSound(hooks, command, canon);
    PutOneSound(settings, "hooks", Obj(Spread(hooks, NewEvents(hooks, EVENTS, command))), canon);
  }

  // The groups each event is left with.
  lemma NewEventsDistinct(hooks: Object<Json>, command: string)
    requires EventsAreArrays(hooks, EVENTS)
    ensures DistinctKeys(NewEvents(hooks, EVENTS, command))
  {
    TheEvents();
  }

  lemma NewGroupsOfEvent(hooks: Object<Json>, command: string, i: nat)
    requires Proper(hooks) && EventsAreArrays(hooks, EVENTS) && i < |EVENTS|
    ensures var r := Spread(hooks, NewEvents(hooks, EVENTS, command));
            Groups(r, EVENTS[i]) == Arr(NewGroups(Groups(hooks, EVENTS[i]).items, command))
  {
    var overlay := NewEvents(hooks, EVENTS, command);
    NewEventsDistinct(hooks, command);
    GetIsHeld(overlay, overlay[i]);
    GetSpread(hooks, overlay, EVENTS[i]);
  }

  // ---- Absorption ----

  lemma NewEventsAbsorb(hooks: Object<Json>, first: string, second: string, canon: Numeral -> Numeral)
    requires Sound(Obj(hooks), canon) && EventsAreArrays(hooks, EVENTS)
    requires Includes(first, MARKER)
    ensures var once := Spread(hooks, NewEvents(hooks, EVENTS, first));
            && EventsAreArrays(once, EVENTS)
            && NewEvents(once, EVENTS, second) == NewEvents(hooks, EVENTS, second)
            && Spread(once, NewEvents(once, EVENTS, second)) == Spread(hooks, NewEvents(hooks, EVENTS, second))
  {
    var overlay := NewEvents(hooks, EVENTS, first);
    var once := Spread(hooks, overlay);
    forall i | 0 <= i < |EVENTS|
      ensures Groups(once, EVENTS[i]).Arr?
      ensures NewGroups(Groups(once, EVENTS[i]).items, second) == NewGroups(Groups(hooks, EVENTS[i]).items, second)
    {
      NewGroupsOfEvent(hooks, first, i);
      GroupsAreSound(hooks, EVENTS[i], canon);
      NewGroupsLaws(Groups(hooks, EVENTS[i]).items, first, canon);
    }
    assert NewEvents(once, EVENTS, second) == NewEvents(hooks, EVENTS, second);
    NewEventsDistinct(hooks, first);
    SpreadTwice(hooks, overlay, NewEvents(hooks, EVENTS, second));
  }

  // Merging over a merge is merging over what was there before it.
  lemma MergeAbsorbs(settings: Object<Json>, first: Options, second: Options, canon: Numeral -> Numeral)
    requires Sound(Obj(settings), canon) && PrintsNumbers(canon)
    requires Merge(settings, first).Ok?
    ensures Merge(Merge(settings, first).value, second) == Merge(settings, second)
  {
    var once := Merge(settings, first).value;
    MergeIs(settings, first, canon);
    MergeIs(settings, second, canon);
    MergeIsSound(settings, first, canon);
    MergeIs(once, second, canon);
    HooksAreSound(settings, canon);
    CommandIncludesMarker(first);
    var hooks, c := HooksOf(settings).fields, Command(first).value;
    var merged := Spread(hooks, NewEvents(hooks, EVENTS, c));
    GetPut(settings, "hooks", Obj(merged));
    assert HooksOf(once) == Obj(merged);
    match Command(second)
    case Failed(error) =>
    case Ok(d) =>
      NewEventsAbsorb(hooks, c, d, canon);
      PutTwice(settings, "hooks", Obj(merged), Obj(Spread(hooks, NewEvents(hooks, EVENTS, d))));
  }

  lemma ReadSettingsSound(text: string, canon: Numeral -> Numeral)
    requires PrintsNumbers(canon)
    requires ReadSettings(text, canon).Ok?
    ensures Sound(Obj(ReadSettings(text, canon).value), canon)
  {
    if !IsBlank(text) {
      ParseIsSound(text, canon);
    }
  }

  // What an install writes is read back as the merged settings, and laid out alike.
  lemma InstalledIsRead(text: string, options: Options, canon: Numeral -> Numeral)
    requires PrintsNumbers(canon)
    requires Installed(text, options, canon).Ok?
    ensures ReadSettings(text, canon).Ok? && Merge(ReadSettings(text, canon).value, options).Ok?
    ensures var after, merged := Installed(text, options, canon).value, Merge(ReadSettings(text, canon).value, options).value;
            && after == Write(merged, LayoutOf(text))
            && Parse(after, canon) == Value(Obj(merged)) && ReadSettings(after, canon) == Ok(merged)
  {
    var settings := ReadSettings(text, canon).value;
    ReadSettingsSound(text, canon);
    MergeIsSound(settings, options, canon);
    LayoutOfAnyText(text);
    WrittenIsRead(Merge(settings, options).value, LayoutOf(text), canon);
  }

  // Installing with one set of options and then with another gives the bytes (or the refusal) the second alone gives.
  lemma InstallAbsorbs(text: string, first: Options, second: Options, canon: Numeral -> Numeral)
    requires PrintsNumbers(canon)
    ensures Installed(text, first, canon).Ok? ==>
              Installed(Installed(text, first, canon).value, second, canon) == Installed(text, second, canon)
  {
    if Installed(text, first, canon).Ok? {
      var settings, layout := ReadSettings(text, canon).value, LayoutOf(text);
      InstalledIsRead(text, first, canon);
      ReadSettingsSound(text, canon);
      MergeIsSound(settings, first, canon);
      MergeAbsorbs(settings, first, second, canon);
      LayoutOfAnyText(text);
      LayoutIsStable(Merge(settings, first).value, layout);
      if Merge(settings, second).Ok? {
        MergeIsSound(settings, second, canon);
        LayoutIsStable(Merge(settings, second).value, layout);
      }
    }
  }

  // A missing, empty or blank file takes every install whose options make a command.
  lemma BlankTextInstalls(text: string, options: Options, canon: Numeral -> Numeral)
    requires PrintsNumbers(canon)
    requires IsBlank(text) && !Includes(text, "\r\n") && !("\U{FEFF}" <= text)
    ensures Installed(text, options, canon).Ok? <==> Command(options).Ok?
  {
    MergeIs([], options, canon);
    assert HooksOf([]) == Obj([]) && EventsAreArrays([], EVENTS);
  }

  // A second install with the same options writes nothing.
  lemma InstallIsIdempotent(text: string, options: Options, canon: Numeral -> Numeral)
    requires PrintsNumbers(canon)
    ensures Installed(text, options, canon).Ok? ==>
              Installed(Installed(text, options, canon).value, options, canon) == Installed(text, options, canon)
  {
    InstallAbsorbs(text, options, options, canon);
  }

  // ---- Conservation ----

  // The properties under no event key, in their order.
  function Unrelated(hooks: Object<Json>, events: seq<string>): seq<Entry<Json>> {
    if hooks == [] then []
    else (if hooks[0].key in events then [] else [hooks[0]]) + Unrelated(hooks[1..], events)
  }

  lemma {:induction false} UnrelatedAppend(a: Object<Json>, b: Object<Json>, events: seq<string>)
    ensures Unrelated(a + b, events) == Unrelated(a, events) + Unrelated(b, events)
  {
    if a == [] {
      assert a + b == b;
    } else {
      assert (a + b)[1..] == a[1..] + b;
      UnrelatedAppend(a[1..], b, events);
    }
  }

  lemma UnrelatedAround(a: Object<Json>, middle: Object<Json>, b: Object<Json>, events: seq<string>)
    requires |middle| <= 1 && forall e | e in middle :: e.key in events
    ensures Unrelated(a + middle + b, events) == Unrelated(a, events) + Unrelated(b, events)
  {
    assert Unrelated(middle, events) == [];
    UnrelatedAppend(a + middle, b, events);
    UnrelatedAppend(a, middle, events);
  }

  lemma PutAround<V>(o: Object<V>, key: string, value: V) returns (from: nat, to: nat)
    ensures from <= to <= |o| && to - from <= 1
    ensures forall e | e in o[from..to] :: e.key == key
    ensures Put(o, key, value) == o[..from] + [Entry(key, value)] + o[to..]
    ensures o == o[..from] + o[from..to] + o[to..]
  {
    var at := Position(o, key);
    from := if at < |o| then at else Slot(o, key);
    to := if at < |o| then at + 1 else from;
  }

  lemma UnrelatedPut(o: Object<Json>, event: string, value: Json, events: seq<string>)
    requires event in events
    ensures Unrelated(Put(o, event, value), events) == Unrelated(o, events)
  {
    var from, to := PutAround(o, event, value);
    UnrelatedAround(o[..from], [Entry(event, value)], o[to..], events);
    UnrelatedAround(o[..from], o[from..to], o[to..], events);
  }

  lemma {:induction false} UnrelatedSpread(o: Object<Json>, overlay: seq<Entry<Json>>, events: seq<string>)
    requires forall i | 0 <= i < |overlay| :: overlay[i].key in events
    ensures Unrelated(Spread(o, overlay), events) == Unrelated(o, events)
  {
    if overlay != [] {
      var n := |overlay| - 1;
      UnrelatedSpread(o, overlay[..n], events);
      UnrelatedPut(Spread(o, overlay[..n]), overlay[n].key, overlay[n].value, events);
    }
  }

  // What every install keeps of the settings, and what it adds.
  ghost predicate Conserved(before: Object<Json>, after: Object<Json>, command: string) {
    // Every setting beside "hooks" is as it was, in its order, and "hooks" keeps its place or comes last.
    && Delete(after, "hooks") == Delete(before, "hooks")
    && Position(after, "hooks") == Position(before, "hooks")
    && HooksOf(before).Obj? && HooksOf(after).Obj?
    && HooksConserved(HooksOf(before).fields, HooksOf(after).fields, command)
  }

  // So is every key of "hooks" that is no event of the old app.
  ghost predicate HooksConserved(before: Object<Json>, after: Object<Json>, command: string) {
    && Unrelated(after, EVENTS) == Unrelated(before, EVENTS)
    && (forall i | 0 <= i < |EVENTS| :: EventConserved(Groups(before, EVENTS[i]), Groups(after, EVENTS[i]), command))
  }

  // Every foreign handler and malformed group of an event stays, in order; one own entry, in the last group.
  ghost predicate EventConserved(before: Json, after: Json, command: string) {
    && before.Arr? && after.Arr? && after.items != []
    && Foreign(after.items) == Foreign(before.items)
    && Own(after.items) == [OwnEntry(command)]
    && after.items[|after.items| - 1] == OwnGroup(command)
    && WithoutOwn(after.items) == WithoutOwn(before.items)
  }

  lemma EventIsConserved(hooks: Object<Json>, command: string, i: nat, canon: Numeral -> Numeral)
    requires Sound(Obj(hooks), canon) && EventsAreArrays(hooks, EVENTS) && i < |EVENTS|
    requires Includes(command, MARKER)
    ensures EventConserved(
              Groups(hooks, EVENTS[i]), Groups(Spread(hooks, NewEvents(hooks, EVENTS, command)), EVENTS[i]), command)
  {
    NewGroupsOfEvent(hooks, command, i);
    GroupsAreSound(hooks, EVENTS[i], canon);
    NewGroupsLaws(Groups(hooks, EVENTS[i]).items, command, canon);
  }

  lemma HooksAreConserved(hooks: Object<Json>, command: string, canon: Numeral -> Numeral)
    requires Sound(Obj(hooks), canon) && EventsAreArrays(hooks, EVENTS)
    requires Includes(command, MARKER)
    ensures HooksConserved(hooks, Spread(hooks, NewEvents(hooks, EVENTS, command)), command)
  {
    UnrelatedSpread(hooks, NewEvents(hooks, EVENTS, command), EVENTS);
    forall i | 0 <= i < |EVENTS| {
      EventIsConserved(hooks, command, i, canon);
    }
  }

  lemma MergeConserves(settings: Object<Json>, options: Options, canon: Numeral -> Numeral)
    requires Sound(Obj(settings), canon)
    requires Merge(settings, options).Ok?
    ensures Conserved(settings, Merge(settings, options).value, Command(options).value)
  {
    MergeIs(settings, options, canon);
    HooksAreSound(settings, canon);
    CommandIncludesMarker(options);
    var hooks, command := HooksOf(settings).fields, Command(options).value;
    HooksAreConserved(hooks, command, canon);
    PutHooksConserves(settings, Obj(Spread(hooks, NewEvents(hooks, EVENTS, command))));
  }

  lemma PutHooksConserves(settings: Object<Json>, value: Json)
    requires Proper(settings) && value.Obj?
    ensures var after := Put(settings, "hooks", value);
            && Delete(after, "hooks") == Delete(settings, "hooks")
            && Position(after, "hooks") == Position(settings, "hooks")
            && HooksOf(after) == value
  {
    GetPut(settings, "hooks", value);
    PutDelete(settings, "hooks", value);
    PlainKey("hooks");
    PutPosition(settings, "hooks", value);
  }

  // Text to text: the file written holds the settings read, conserved, with the new entries.
  lemma InstallConserves(text: string, options: Options, canon: Numeral -> Numeral)
    requires PrintsNumbers(canon)
    ensures Installed(text, options, canon).Ok? ==> ReadSettings(text, canon).Ok? && Command(options).Ok?
    ensures Installed(text, options, canon).Ok? ==>
              var after := Parse(Installed(text, options, canon).value, canon);
              && after.Value? && after.json.Obj?
              && Conserved(ReadSettings(text, canon).value, after.json.fields, Command(options).value)
  {
    if Installed(text, options, canon).Ok? {
      InstalledIsRead(text, options, canon);
      ReadSettingsSound(text, canon);
      MergeIs(ReadSettings(text, canon).value, options, canon);
      MergeConserves(ReadSettings(text, canon).value, options, canon);
    }
  }
}

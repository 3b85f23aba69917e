// What projecting a recording onto the rows a later release still serves promises.
module ReplayProjection {
  import opened Seqs
  import opened JsObject
  import opened Json
  import opened Replay
  import opened ReplayLaws

  // ---- The kept positions ----

  // Exactly the positions of the calls with a kept channel, each once, in order.
  lemma {:induction false} KeptAtIsExact<A>(calls: seq<Call<A>>, kept: set<string>)
    ensures var at := KeptAt(calls, kept);
            && (forall i, j | 0 <= i < j < |at| :: at[i] < at[j])
            && (forall n: nat :: n in at <==> n < |calls| && calls[n].channel in kept)
  {
    if calls != [] {
      var n := |calls| - 1;
      KeptAtIsExact(calls[..n], kept);
      var before := KeptAt(calls[..n], kept);
      var last := if calls[n].channel in kept then [n] else [];
      assert KeptAt(calls, kept) == before + last;
      forall m: nat ensures m in before + last <==> m < |calls| && calls[m].channel in kept {
        assert m in before <==> m < n && calls[..n][m].channel in kept;
      }
    }
  }

  ghost predicate SameChannels<A, B>(calls: seq<Call<A>>, others: seq<Call<B>>) {
    |calls| == |others| && forall i | 0 <= i < |calls| :: calls[i].channel == others[i].channel
  }

  // A recording in step keeps the positions its scenario keeps.
  lemma {:induction false} KeptAtDependsOnChannels<A, B>(calls: seq<Call<A>>, others: seq<Call<B>>, kept: set<string>)
    requires SameChannels(calls, others)
    ensures KeptAt(calls, kept) == KeptAt(others, kept)
  {
    if calls != [] {
      KeptAtDependsOnChannels(calls[..|calls| - 1], others[..|others| - 1], kept);
    }
  }

  // The projection is in step again, and each kept call still carries what it carried, under its own row and channel.
  lemma PartStaysInStep(scenario: Scenario, recorded: Run, routes: seq<Route>)
    requires LegacyTodayPart(scenario, recorded, routes).Part?
    ensures var part := LegacyTodayPart(scenario, recorded, routes);
            var at := KeptAt(scenario.calls, Kept(routes));
            && InStep(part.scenario, part.recorded)
            && |part.recorded.calls| == |part.scenario.calls| == |at|
            && forall i | 0 <= i < |at| ::
                 var now, was := part.recorded.calls[i], recorded.calls[at[i]];
                 && now.carried == was.carried && now.row == was.row && now.channel == was.channel
                 && part.scenario.calls[i].carried == scenario.calls[at[i]].carried
                 && part.scenario.calls[i].row == scenario.calls[at[i]].row
    ensures var at := KeptAt(scenario.calls, Kept(routes));
            && (forall i, j | 0 <= i < j < |at| :: at[i] < at[j])
            && (forall n: nat :: n in at <==> n < |recorded.calls| && recorded.calls[n].channel in Kept(routes))
  {
    KeptAtIsExact(scenario.calls, Kept(routes));
  }

  // ---- What is kept, told of the routes ----

  // Some route serves the channel `legacy` in today's shape.
  ghost predicate Served(routes: seq<Route>, channel: string) {
    exists i | 0 <= i < |routes| ::
      routes[i].channel == channel && routes[i].owner == "legacy" && routes[i].shape == "today"
  }

  lemma KeptIsServed(routes: seq<Route>, channel: string)
    ensures channel in Kept(routes) <==> Served(routes, channel)
  {
    if channel in Kept(routes) {
      var route :| route in routes && route.owner == "legacy" && route.shape == "today" && route.channel == channel;
    }
  }

  // `at` are positions below `n`, ascending.
  ghost predicate Ascending(at: seq<nat>, n: nat) {
    && (forall i | 0 <= i < |at| :: at[i] < n)
    && forall i, j | 0 <= i < j < |at| :: at[i] < at[j]
  }

  lemma {:induction false} KeptRowsAt(pushes: seq<ScenarioPush>, kept: set<string>) returns (at: seq<nat>)
    ensures Ascending(at, |pushes|) && |KeptRows(pushes, kept)| == |at|
    ensures forall i | 0 <= i < |at| :: KeptRows(pushes, kept)[i] == pushes[at[i]]
    ensures forall n: nat :: n in at <==> n < |pushes| && pushes[n].channel in kept
  {
    if pushes == [] {
      at := [];
    } else {
      var n := |pushes| - 1;
      var before := KeptRowsAt(pushes[..n], kept);
      at := before + if pushes[n].channel in kept then [n] else [];
      forall m: nat ensures m in at <==> m < |pushes| && pushes[m].channel in kept {
        assert m in before <==> m < n && pushes[..n][m].channel in kept;
      }
    }
  }

  lemma {:induction false} KeptEntriesAt<V>(entries: seq<Entry<V>>, kept: set<string>) returns (at: seq<nat>)
    ensures Ascending(at, |entries|) && |KeptEntries(entries, kept)| == |at|
    ensures forall i | 0 <= i < |at| :: KeptEntries(entries, kept)[i] == entries[at[i]]
    ensures forall n: nat :: n in at <==> n < |entries| && entries[n].key in kept
  {
    if entries == [] {
      at := [];
    } else {
      var n := |entries| - 1;
      var before := KeptEntriesAt(entries[..n], kept);
      at := before + if entries[n].key in kept then [n] else [];
      forall m: nat ensures m in at <==> m < |entries| && entries[m].key in kept {
        assert m in before <==> m < n && entries[..n][m].key in kept;
      }
    }
  }

  // A projection is refused exactly when the recording is out of step with the scenario.
  lemma RefusedExactlyOutOfStep(scenario: Scenario, recorded: Run, routes: seq<Route>)
    ensures LegacyTodayPart(scenario, recorded, routes).OutOfStep? <==>
            || |recorded.calls| != |scenario.calls|
            || exists at | 0 <= at < |recorded.calls| ::
                 recorded.calls[at].channel != scenario.calls[at].channel
                 || recorded.calls[at].member != scenario.calls[at].member
  {
  }

  // Exactly the push rows and the recorded pushes of served channels are kept, each as it was, in their order.
  lemma PushesKeptExactly(scenario: Scenario, recorded: Run, routes: seq<Route>)
    returns (rowsAt: seq<nat>, pushesAt: seq<nat>)
    requires LegacyTodayPart(scenario, recorded, routes).Part?
    requires Proper(recorded.pushes)
    ensures var rows, kept := scenario.pushes, LegacyTodayPart(scenario, recorded, routes).scenario.pushes;
            && Ascending(rowsAt, |rows|) && |kept| == |rowsAt|
            && (forall i | 0 <= i < |rowsAt| :: kept[i] == rows[rowsAt[i]])
            && (forall n | 0 <= n < |rows| :: n in rowsAt <==> Served(routes, rows[n].channel))
    ensures var pushes, kept := recorded.pushes, LegacyTodayPart(scenario, recorded, routes).recorded.pushes;
            && Ascending(pushesAt, |pushes|) && |kept| == |pushesAt|
            && (forall i | 0 <= i < |pushesAt| :: kept[i] == pushes[pushesAt[i]])
            && (forall n | 0 <= n < |pushes| :: n in pushesAt <==> Served(routes, pushes[n].key))
  {
    var kept := Kept(routes);
    PartOf(scenario, recorded, routes);
    rowsAt := KeptRowsAt(scenario.pushes, kept);
    pushesAt := KeptEntriesAt(recorded.pushes, kept);
    forall n | 0 <= n < |scenario.pushes|
      ensures n in rowsAt <==> Served(routes, scenario.pushes[n].channel)
    {
      KeptIsServed(routes, scenario.pushes[n].channel);
    }
    forall n | 0 <= n < |recorded.pushes| ensures n in pushesAt <==> Served(routes, recorded.pushes[n].key) {
      KeptIsServed(routes, recorded.pushes[n].key);
    }
  }

  // A call as it is spoken today.
  ghost predicate SpokenToday<A>(was: Call<A>, now: Call<A>) {
    && now.row == was.row && now.channel == was.channel && now.carried == was.carried
    && now.member == if was.channel == "dwarf:resetName" then "resetDwarfNameToday" else was.member
  }

  // Exactly the calls of served channels are kept, in the scenario and in the recording at the same positions and in their
  // order, each as it is spoken today.
  lemma CallsKeptExactly(scenario: Scenario, recorded: Run, routes: seq<Route>) returns (at: seq<nat>)
    requires LegacyTodayPart(scenario, recorded, routes).Part?
    ensures var part := LegacyTodayPart(scenario, recorded, routes);
            && |recorded.calls| == |scenario.calls|
            && |part.scenario.calls| == |part.recorded.calls| == |at|
            && Ascending(at, |scenario.calls|)
            && (forall i | 0 <= i < |at| :: SpokenToday(scenario.calls[at[i]], part.scenario.calls[i]))
            && (forall i | 0 <= i < |at| :: SpokenToday(recorded.calls[at[i]], part.recorded.calls[i]))
            && (forall n | 0 <= n < |scenario.calls| :: n in at <==> Served(routes, scenario.calls[n].channel))
            && part.scenario.about == scenario.about && part.scenario.world == scenario.world
  {
    at := KeptAt(scenario.calls, Kept(routes));
    KeptAtIsExact(scenario.calls, Kept(routes));
    forall n | 0 <= n < |scenario.calls| ensures n in at <==> Served(routes, scenario.calls[n].channel) {
      KeptIsServed(routes, scenario.calls[n].channel);
    }
    forall i | 0 <= i < |at|
      ensures SpokenToday(scenario.calls[at[i]], RenamedCall(scenario.calls[at[i]]))
      ensures SpokenToday(recorded.calls[at[i]], RenamedCall(recorded.calls[at[i]]))
    {
      RenamedIsSpokenToday(scenario.calls[at[i]]);
      RenamedIsSpokenToday(recorded.calls[at[i]]);
    }
  }

  lemma RenamedIsSpokenToday<A>(call: Call<A>)
    ensures SpokenToday(call, RenamedCall(call))
  {
  }

  // ---- Projecting twice ----

  // Kept calls under their new names, one by one.
  function KeptCalls<A>(calls: seq<Call<A>>, kept: set<string>): seq<Call<A>> {
    if calls == [] then []
    else
      var n := |calls| - 1;
      KeptCalls(calls[..n], kept) + if calls[n].channel in kept then [RenamedCall(calls[n])] else []
  }

  lemma {:induction false} CallsAtKept<A>(calls: seq<Call<A>>, kept: set<string>)
    ensures CallsAt(calls, KeptAt(calls, kept)) == KeptCalls(calls, kept)
  {
    if calls != [] {
      var n := |calls| - 1;
      var at := KeptAt(calls[..n], kept);
      CallsAtKept(calls[..n], kept);
      assert CallsAt(calls, at) == CallsAt(calls[..n], at);
      if calls[n].channel in kept {
        assert CallsAt(calls, at + [n]) == CallsAt(calls, at) + [RenamedCall(calls[n])];
      }
    }
  }

  lemma {:induction false} KeptCallsTwice<A>(calls: seq<Call<A>>, first: set<string>, second: set<string>)
    ensures KeptCalls(KeptCalls(calls, first), second) == KeptCalls(calls, first * second)
  {
    if calls != [] {
      var n := |calls| - 1;
      KeptCallsTwice(calls[..n], first, second);
      var before := KeptCalls(calls[..n], first);
      if calls[n].channel in first {
        assert (before + [RenamedCall(calls[n])])[..|before|] == before;
      } else {
        assert KeptCalls(calls, first) == before;
      }
    }
  }

  lemma {:induction false} KeptRowsTwice(pushes: seq<ScenarioPush>, first: set<string>, second: set<string>)
    ensures KeptRows(KeptRows(pushes, first), second) == KeptRows(pushes, first * second)
  {
    if pushes != [] {
      var n := |pushes| - 1;
      KeptRowsTwice(pushes[..n], first, second);
      var before := KeptRows(pushes[..n], first);
      if pushes[n].channel in first {
        assert (before + [pushes[n]])[..|before|] == before;
      } else {
        assert KeptRows(pushes, first) == before;
      }
    }
  }

  lemma {:induction false} KeptEntriesTwice<V>(o: seq<Entry<V>>, first: set<string>, second: set<string>)
    ensures KeptEntries(KeptEntries(o, first), second) == KeptEntries(o, first * second)
  {
    if o != [] {
      var n := |o| - 1;
      KeptEntriesTwice(o[..n], first, second);
      var before := KeptEntries(o[..n], first);
      if o[n].key in first {
        assert (before + [o[n]])[..|before|] == before;
      } else {
        assert KeptEntries(o, first) == before;
      }
    }
  }

  // Dropping properties keeps a proper object proper.
  lemma {:induction false} KeptEntriesProper<V>(o: Object<V>, kept: set<string>)
    requires Proper(o)
    ensures Proper(KeptEntries(o, kept))
    ensures forall e :: e in KeptEntries(o, kept) ==> e in o
  {
    if o != [] {
      var n := |o| - 1;
      KeptEntriesProper(o[..n], kept);
      var before := KeptEntries(o[..n], kept);
      forall i | 0 <= i < |before| ensures before[i].key != o[n].key && !Earlier(o[n].key, before[i].key) {
        assert before[i] in o[..n];
      }
    }
  }

  lemma PartOf(scenario: Scenario, recorded: Run, routes: seq<Route>)
    requires InStep(scenario, recorded)
    requires Proper(recorded.pushes)
    ensures var kept := Kept(routes);
            LegacyTodayPart(scenario, recorded, routes) ==
              Part(scenario.(calls := KeptCalls(scenario.calls, kept), pushes := KeptRows(scenario.pushes, kept)),
                   Run(KeptCalls(recorded.calls, kept), KeptEntries(recorded.pushes, kept)))
  {
    var kept := Kept(routes);
    KeptAtDependsOnChannels(scenario.calls, recorded.calls, kept);
    CallsAtKept(scenario.calls, kept);
    CallsAtKept(recorded.calls, kept);
    KeptEntriesProper(recorded.pushes, kept);
    FromEntriesOfObject(KeptEntries(recorded.pushes, kept));
  }

  // Projecting by one release's routes and then by another's is projecting once by the channels both keep.
  lemma ProjectionsCompose(
      scenario: Scenario, recorded: Run, first: seq<Route>, second: seq<Route>, both: seq<Route>)
    requires Proper(recorded.pushes)
    requires Kept(both) == Kept(first) * Kept(second)
    ensures var once := LegacyTodayPart(scenario, recorded, first);
            LegacyTodayPart(scenario, recorded, both) ==
              if once.OutOfStep? then OutOfStep else LegacyTodayPart(once.scenario, once.recorded, second)
  {
    if InStep(scenario, recorded) {
      PartOf(scenario, recorded, first);
      PartOf(scenario, recorded, both);
      PartStaysInStep(scenario, recorded, first);
      var once := LegacyTodayPart(scenario, recorded, first);
      KeptEntriesProper(recorded.pushes, Kept(first));
      PartOf(once.scenario, once.recorded, second);
      KeptCallsTwice(scenario.calls, Kept(first), Kept(second));
      KeptCallsTwice(recorded.calls, Kept(first), Kept(second));
      KeptRowsTwice(scenario.pushes, Kept(first), Kept(second));
      KeptEntriesTwice(recorded.pushes, Kept(first), Kept(second));
    }
  }

  // ---- Projecting what is compared ----

  lemma {:induction false} KeptCallsMasked(calls: seq<Call<Json>>, kept: set<string>)
    ensures KeptCalls(Map(MaskAnswer, calls), kept) == Map(MaskAnswer, KeptCalls(calls, kept))
  {
    if calls != [] {
      var n := |calls| - 1;
      KeptCallsMasked(calls[..n], kept);
      assert Map(MaskAnswer, calls)[..n] == Map(MaskAnswer, calls[..n]);
    }
  }

  lemma {:induction false} KeptEntriesCompared(o: Object<seq<Json>>, kept: set<string>)
    ensures KeptEntries(Map(ComparablePush, o), kept) == Map(ComparablePush, KeptEntries(o, kept))
  {
    if o != [] {
      var n := |o| - 1;
      KeptEntriesCompared(o[..n], kept);
      assert Map(ComparablePush, o)[..n] == Map(ComparablePush, o[..n]);
    }
  }

  lemma ComparablePushesInPlace(o: Object<seq<Json>>)
    requires Proper(o)
    ensures ComparablePushes(o) == Map(ComparablePush, o) && Proper(ComparablePushes(o))
  {
    SameKeysProper(o, Map(ComparablePush, o));
    FromEntriesOfObject(Map(ComparablePush, o));
  }

  // Masking and dropping repeats, then projecting, is projecting, then masking and dropping repeats.
  lemma ComparingCommutesWithProjecting(scenario: Scenario, recorded: Run, routes: seq<Route>)
    requires Proper(recorded.pushes)
    ensures LegacyTodayPart(scenario, ComparableRun(recorded), routes) ==
              match LegacyTodayPart(scenario, recorded, routes)
              case OutOfStep => OutOfStep
              case Part(s, r) => Part(s, ComparableRun(r))
  {
    var masked, kept := ComparableRun(recorded), Kept(routes);
    assert InStep(scenario, masked) <==> InStep(scenario, recorded) by {
      if InStep(scenario, masked) {
        forall at | 0 <= at < |recorded.calls|
          ensures recorded.calls[at].channel == scenario.calls[at].channel
               && recorded.calls[at].member == scenario.calls[at].member
        {
          assert masked.calls[at].channel == scenario.calls[at].channel;
        }
      }
    }
    if InStep(scenario, recorded) {
      ComparablePushesInPlace(recorded.pushes);
      PartOf(scenario, recorded, routes);
      PartOf(scenario, masked, routes);
      KeptCallsMasked(recorded.calls, kept);
      KeptEntriesCompared(recorded.pushes, kept);
      KeptEntriesProper(recorded.pushes, kept);
      ComparablePushesInPlace(KeptEntries(recorded.pushes, kept));
    }
  }
}

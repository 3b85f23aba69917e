// The replay of a recorded run (scripts/strangler/seamAReplay.ts): what of a run is compared, the bytes compared, and
// the part of a recording a later release still serves.
module Replay {
  import opened Seqs
  import opened JsObject
  import opened Json
  import opened JsonText
  import opened JsonRoundTrip
  import opened Canonical

  // A call of the scenario carries its arguments, a call of a recording the answer it got.
  datatype Call<+A> = Call(row: string, channel: string, member: string, carried: A)

  datatype ScenarioPush = ScenarioPush(row: string, channel: string, member: string)

  datatype Scenario = Scenario(
    about: string, world: Object<string>, calls: seq<Call<seq<Json>>>, pushes: seq<ScenarioPush>)

  // Each call's answer and each push row's payloads, by channel (`ScenarioRun`, `Recorded`).
  datatype Run = Run(calls: seq<Call<Json>>, pushes: Object<seq<Json>>)

  datatype Route = Route(channel: string, owner: string, shape: string)

  ghost predicate AllWellFormed(payloads: seq<Json>) {
    forall i | 0 <= i < |payloads| :: WellFormed(payloads[i])
  }

  ghost predicate WellFormedRun(run: Run) {
    && Proper(run.pushes)
    && (forall i | 0 <= i < |run.pushes| :: AllWellFormed(run.pushes[i].value))
    && (forall i | 0 <= i < |run.calls| :: WellFormed(run.calls[i].carried))
  }

  // ---- Masking the wall clock ----

  const WALL_CLOCK_KEYS: seq<string> := ["updatedAt"]
  const WALL_CLOCK: Json := Str("<wall-clock>")

  function MaskField(key: string, field: Json): Json
    decreases field, 1
  {
    if key in WALL_CLOCK_KEYS && field.Num? then WALL_CLOCK else MaskWallClock(field)
  }

  function MaskWallClock(v: Json): Json
    decreases v, 0
  {
    match v
    case Arr(items) => Arr(seq(|items|, i requires 0 <= i < |items| => MaskWallClock(items[i])))
    case Obj(fields) => Obj(FromEntries(MaskedFields(fields)))
    case _ => v
  }

  function MaskedFields(fields: Object<Json>): seq<Entry<Json>>
    decreases fields, 0
  {
    seq(|fields|, i requires 0 <= i < |fields| => Entry(fields[i].key, MaskField(fields[i].key, fields[i].value)))
  }

  // ---- What is compared ----

  function Text(payload: Json): string {
    Stringify(payload, "")
  }

  // The payloads whose text no earlier one has.
  function DistinctPayloads(payloads: seq<Json>): seq<Json> {
    if payloads == [] then []
    else
      var distinct, payload := DistinctPayloads(payloads[..|payloads| - 1]), payloads[|payloads| - 1];
      if exists i | 0 <= i < |distinct| :: Text(distinct[i]) == Text(payload) then distinct else distinct + [payload]
  }

  function ComparablePush(push: Entry<seq<Json>>): Entry<seq<Json>> {
    Entry(push.key, DistinctPayloads(Map(MaskWallClock, push.value)))
  }

  function ComparablePushes(pushes: Object<seq<Json>>): Object<seq<Json>> {
    FromEntries(Map(ComparablePush, pushes))
  }

  function MaskAnswer(call: Call<Json>): Call<Json> {
    call.(carried := MaskWallClock(call.carried))
  }

  function ComparableRun(run: Run): Run {
    Run(Map(MaskAnswer, run.calls), ComparablePushes(run.pushes))
  }

  function CallToJson(call: Call<Json>): Json {
    Obj([Entry("row", Str(call.row)), Entry("channel", Str(call.channel)), Entry("member", Str(call.member)),
         Entry("answer", call.carried)])
  }

  function PushToJson(push: Entry<seq<Json>>): Entry<Json> {
    Entry(push.key, Arr(push.value))
  }

  function RunToJson(run: Run): Json {
    Obj([Entry("calls", Arr(Map(CallToJson, run.calls))), Entry("pushes", Obj(Map(PushToJson, run.pushes)))])
  }

  // The bytes the replay compares.
  function Comparable(run: Run): string {
    CanonicalJson(RunToJson(ComparableRun(run)))
  }

  // `comparableRun` as it runs: one loop over the push rows, one over the payloads of each.
  method ComparableRunInLoops(run: Run) returns (r: Run)
    ensures r == ComparableRun(run)
  {
    var pushes: Object<seq<Json>> := [];
    ghost var entries := Map(ComparablePush, run.pushes);
    for row := 0 to |run.pushes|
      invariant pushes == FromEntries(entries[..row])
    {
      var payloads := Map(MaskWallClock, run.pushes[row].value);
      var distinct := [];
      for at := 0 to |payloads|
        invariant distinct == DistinctPayloads(payloads[..at])
      {
        var payload := payloads[at];
        if !exists i | 0 <= i < |distinct| :: Text(distinct[i]) == Text(payload) {
          distinct := distinct + [payload];
        }
        assert payloads[..at + 1][..at] == payloads[..at];
      }
      assert payloads[..|payloads|] == payloads;
      pushes := Put(pushes, run.pushes[row].key, distinct);
      assert entries[..row + 1][..row] == entries[..row];
    }
    assert entries[..|run.pushes|] == entries;
    r := Run(Map(MaskAnswer, run.calls), pushes);
  }

  // ---- The part a later release still serves ----

  const RENAMED_SINCE_RECORDING: map<string, string> := map["dwarf:resetName" := "resetDwarfNameToday"]

  function RenamedCall<A>(call: Call<A>): Call<A> {
    if call.channel in RENAMED_SINCE_RECORDING then call.(member := RENAMED_SINCE_RECORDING[call.channel]) else call
  }

  // The channels still routed `legacy` with today's shape.
  function Kept(routes: seq<Route>): set<string> {
    set route | route in routes && route.owner == "legacy" && route.shape == "today" :: route.channel
  }

  predicate InStep(scenario: Scenario, recorded: Run) {
    && |recorded.calls| == |scenario.calls|
    && forall at | 0 <= at < |recorded.calls| ::
         && recorded.calls[at].channel == scenario.calls[at].channel
         && recorded.calls[at].member == scenario.calls[at].member
  }

  // The positions of the kept calls.
  function KeptAt<A>(calls: seq<Call<A>>, kept: set<string>): (at: seq<nat>)
    ensures forall i | 0 <= i < |at| :: at[i] < |calls|
  {
    if calls == [] then []
    else
      var n := |calls| - 1;
      KeptAt(calls[..n], kept) + if calls[n].channel in kept then [n] else []
  }

  function CallsAt<A>(calls: seq<Call<A>>, at: seq<nat>): (r: seq<Call<A>>)
    requires forall i | 0 <= i < |at| :: at[i] < |calls|
  {
    seq(|at|, i requires 0 <= i < |at| => RenamedCall(calls[at[i]]))
  }

  function KeptRows(pushes: seq<ScenarioPush>, kept: set<string>): seq<ScenarioPush> {
    if pushes == [] then []
    else
      var n := |pushes| - 1;
      KeptRows(pushes[..n], kept) + if pushes[n].channel in kept then [pushes[n]] else []
  }

  function KeptEntries<V>(entries: seq<Entry<V>>, kept: set<string>): seq<Entry<V>> {
    if entries == [] then []
    else
      var n := |entries| - 1;
      KeptEntries(entries[..n], kept) + if entries[n].key in kept then [entries[n]] else []
  }

  datatype Projection = OutOfStep | Part(scenario: Scenario, recorded: Run)

  function LegacyTodayPart(scenario: Scenario, recorded: Run, routes: seq<Route>): Projection {
    var kept := Kept(routes);
    if !InStep(scenario, recorded) then OutOfStep
    else
      var keptAt := KeptAt(scenario.calls, kept);
      Part(scenario.(calls := CallsAt(scenario.calls, keptAt), pushes := KeptRows(scenario.pushes, kept)),
           Run(CallsAt(recorded.calls, keptAt), FromEntries(KeptEntries(recorded.pushes, kept))))
  }
}

// The recorder's own dropping of repeats (`runScenario`): while the scenario runs, a push is kept only if its text is
// new. What is compared afterwards cannot tell.
module ReplayRecorder {
  import opened Seqs
  import opened JsObject
  import opened Json
  import opened JsonText
  import opened JsonRoundTrip
  import opened Replay
  import opened ReplayLaws

  datatype Payload = Undefined | Sent(value: Json)

  // `payload ?? null`
  function OrNull(payload: Payload): Json {
    match payload
    case Undefined => Null
    case Sent(value) => value
  }

  // Each row's listener fills an array of its own; a channel listened to twice is read from the last row that names it.
  function LastRow(rows: seq<ScenarioPush>, channel: string): (at: nat)
    requires exists i | 0 <= i < |rows| :: rows[i].channel == channel
    ensures at < |rows| && rows[at].channel == channel
    ensures forall i | at < i < |rows| :: rows[i].channel != channel
  {
    var n := |rows| - 1;
    if rows[n].channel == channel then n else
      assert exists i | 0 <= i < n :: rows[..n][i].channel == channel by {
        var i :| 0 <= i < |rows| && rows[i].channel == channel;
        assert rows[..n][i].channel == channel;
      }
      LastRow(rows[..n], channel)
  }

  function ParseText(canon: Numeral -> Numeral): string -> Json {
    text => match Parse(text, canon) case Value(v) => v case SyntaxError => Null
  }

  // The pushes a run answers when its rows hold `lists`.
  function PushesOf(rows: seq<ScenarioPush>, lists: seq<seq<Json>>): Object<seq<Json>>
    requires |lists| == |rows|
  {
    FromEntries(PushEntries(rows, lists))
  }

  function PushEntries(rows: seq<ScenarioPush>, lists: seq<seq<Json>>): seq<Entry<seq<Json>>>
    requires |lists| == |rows|
  {
    seq(|rows|, i requires 0 <= i < |rows| => Entry(rows[i].channel, lists[LastRow(rows, rows[i].channel)]))
  }

  class PushRecorder {
    const rows: seq<ScenarioPush>
    var seen: seq<seq<string>>
    ghost var sent: seq<seq<Json>>

    ghost predicate Valid()
      reads this
    {
      && |seen| == |sent| == |rows|
      && forall row | 0 <= row < |rows| :: seen[row] == FirstSeen(Map(Text, sent[row]))
    }

    constructor (rows: seq<ScenarioPush>)
      ensures Valid() && this.rows == rows
      ensures forall row | 0 <= row < |rows| :: sent[row] == []
    {
      this.rows := rows;
      seen := seq(|rows|, _ => []);
      sent := seq(|rows|, _ => []);
    }

    // The listener of one row.
    method OnPush(row: nat, payload: Payload)
      requires Valid() && row < |rows|
      modifies this`seen, this`sent
      ensures Valid()
      ensures sent == old(sent)[row := old(sent)[row] + [if payload.Undefined? then Null else payload.value]]
      ensures forall other | 0 <= other < |rows| && other != row :: seen[other] == old(seen)[other]
    {
      var text := Text(OrNull(payload));
      ghost var was := sent[row];
      if text !in seen[row] {
        seen := seen[row := seen[row] + [text]];
      }
      sent := sent[row := was + [OrNull(payload)]];
      assert Map(Text, was + [OrNull(payload)]) == Map(Text, was) + [text];
      FirstSeenNext(Map(Text, was), text);
    }

    // What the run answers: the kept texts of each channel, parsed.
    method Pushes(canon: Numeral -> Numeral) returns (pushes: Object<seq<Json>>)
      requires Valid()
      requires forall row, i | 0 <= row < |rows| && 0 <= i < |sent[row]| :: Sound(sent[row][i], canon)
      ensures pushes == PushesOf(rows, Map(FirstSeen, sent))
      ensures forall channel :: HasKey(pushes, channel) <==> exists row | 0 <= row < |rows| :: rows[row].channel == channel
      ensures forall row | 0 <= row < |rows| && (forall later | row < later < |rows| :: rows[later].channel != rows[row].channel) ::
                HasKey(pushes, rows[row].channel) && Get(pushes, rows[row].channel) == FirstSeen(sent[row])
    {
      pushes := [];
      ghost var kept := Map(FirstSeen, sent);
      ghost var entries := PushEntries(rows, kept);
      for at := 0 to |rows|
        invariant pushes == FromEntries(entries[..at])
      {
        var row := LastRow(rows, rows[at].channel);
        KeptTextsParse(sent[row], canon);
        pushes := Put(pushes, rows[at].channel, Map(ParseText(canon), seen[row]));
        assert entries[at] == Entry(rows[at].channel, kept[row]);
        assert entries[..at + 1][..at] == entries[..at];
      }
      assert entries[..|rows|] == entries;
      ChannelsAnswered(rows, kept);
    }
  }

  // Entries that repeat a key with its value build an object of just these properties.
  lemma {:induction false} RepeatedEntries<V>(entries: seq<Entry<V>>, e: Entry<V>)
    requires forall i, j | 0 <= i < |entries| && 0 <= j < |entries| && entries[i].key == entries[j].key ::
               entries[i] == entries[j]
    ensures e in FromEntries(entries) <==> e in entries
  {
    if entries != [] {
      var n := |entries| - 1;
      var before := entries[..n];
      SpreadKeepsProper<V>([], before);
      RepeatedEntries(before, e);
      PutEntries(FromEntries(before), entries[n].key, entries[n].value, e);
      assert entries == before + [entries[n]];
    }
  }

  lemma HeldOnce<V>(o: Object<V>, e: Entry<V>)
    requires DistinctKeys(o) && e in o
    ensures HasKey(o, e.key) && Get(o, e.key) == e.value
  {
    GetIsHeld(o, e);
  }

  // The run answers each channel some row names, with what the last row naming it holds.
  lemma ChannelsAnswered(rows: seq<ScenarioPush>, lists: seq<seq<Json>>)
    requires |lists| == |rows|
    ensures var pushes := PushesOf(rows, lists);
            && (forall channel :: HasKey(pushes, channel) <==> exists row | 0 <= row < |rows| :: rows[row].channel == channel)
            && (forall row | 0 <= row < |rows| && (forall later | row < later < |rows| :: rows[later].channel != rows[row].channel) ::
                  HasKey(pushes, rows[row].channel) && Get(pushes, rows[row].channel) == lists[row])
  {
    var entries, pushes := PushEntries(rows, lists), PushesOf(rows, lists);
    SpreadKeepsProper<seq<Json>>([], entries);
    forall i | 0 <= i < |entries| ensures entries[i] in pushes {
      RepeatedEntries(entries, entries[i]);
    }
    forall channel
      ensures HasKey(pushes, channel) <==> exists row | 0 <= row < |rows| :: rows[row].channel == channel
    {
      if i :| 0 <= i < |pushes| && pushes[i].key == channel {
        RepeatedEntries(entries, pushes[i]);
        var row :| 0 <= row < |entries| && entries[row] == pushes[i];
        assert rows[row].channel == channel;
      }
      if row :| 0 <= row < |rows| && rows[row].channel == channel {
        HeldOnce(pushes, entries[row]);
      }
    }
    forall row | 0 <= row < |rows| && (forall later | row < later < |rows| :: rows[later].channel != rows[row].channel)
      ensures HasKey(pushes, rows[row].channel) && Get(pushes, rows[row].channel) == lists[row]
    {
      HeldOnce(pushes, entries[row]);
    }
  }

  lemma TextParses(v: Json, canon: Numeral -> Numeral)
    requires Sound(v, canon)
    ensures ParseText(canon)(Text(v)) == v
  {
    ParseStringify(v, "", "", canon);
  }

  lemma TextsDifferIn(payloads: seq<Json>)
    requires AllWellFormed(payloads)
    ensures forall v, w | v in payloads && w in payloads && Text(v) == Text(w) :: v == w
  {
    forall v, w | v in payloads && w in payloads && Text(v) == Text(w) ensures v == w {
      TextsDiffer(v, w);
    }
  }

  // Parsed back, the kept texts are the distinct payloads.
  lemma KeptTextsParse(payloads: seq<Json>, canon: Numeral -> Numeral)
    requires forall i | 0 <= i < |payloads| :: Sound(payloads[i], canon)
    ensures Map(ParseText(canon), FirstSeen(Map(Text, payloads))) == FirstSeen(payloads)
  {
    TextsDifferIn(payloads);
    FirstSeenOfInjective(Text, payloads);
    var kept := FirstSeen(payloads);
    forall i | 0 <= i < |kept| ensures ParseText(canon)(Map(Text, kept)[i]) == kept[i] {
      FirstSeenHolds(payloads, kept[i]);
      TextParses(kept[i], canon);
    }
  }

  // For every history of pushes, comparing what the recorder kept gives what comparing everything sent would give.
  lemma EarlyDropIsInvisible(calls: seq<Call<Json>>, rows: seq<ScenarioPush>, sent: seq<seq<Json>>)
    requires |sent| == |rows|
    requires forall row | 0 <= row < |rows| :: AllWellFormed(sent[row])
    ensures ComparableRun(Run(calls, PushesOf(rows, Map(FirstSeen, sent))))
         == ComparableRun(Run(calls, PushesOf(rows, sent)))
    ensures Comparable(Run(calls, PushesOf(rows, Map(FirstSeen, sent)))) == Comparable(Run(calls, PushesOf(rows, sent)))
  {
    var es, fs := PushEntries(rows, Map(FirstSeen, sent)), PushEntries(rows, sent);
    var pairs := set i | 0 <= i < |rows| :: (es[i], fs[i]);
    FromEntriesPairUp(es, fs, pairs);
    var o, p := FromEntries(es), FromEntries(fs);
    forall i | 0 <= i < |o| ensures ComparablePush(o[i]) == ComparablePush(p[i]) {
      var j :| 0 <= j < |rows| && (o[i], p[i]) == (es[j], fs[j]);
      ComparedAlike(sent[LastRow(rows, rows[j].channel)]);
    }
    assert Map(ComparablePush, o) == Map(ComparablePush, p);
  }

  lemma ComparedAlike(payloads: seq<Json>)
    requires AllWellFormed(payloads)
    ensures DistinctPayloads(Map(MaskWallClock, FirstSeen(payloads))) == DistinctPayloads(Map(MaskWallClock, payloads))
  {
    forall i | 0 <= i < |FirstSeen(payloads)| ensures WellFormed(FirstSeen(payloads)[i]) {
      FirstSeenHolds(payloads, FirstSeen(payloads)[i]);
    }
    ComparedIsDistinct(payloads);
    ComparedIsDistinct(FirstSeen(payloads));
    FirstSeenBeforeMap(MaskWallClock, payloads);
  }
}

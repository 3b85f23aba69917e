// The replay's verdict told of the two runs themselves, and masking told field by field.
module ReplayVerdict {
  import opened Seqs
  import opened JsObject
  import opened Json
  import opened JsonText
  import opened JsonRoundTrip
  import opened Canonical
  import opened Replay
  import opened ReplayLaws

  // Masking keeps every array, every key in its place and every scalar; the one thing it replaces is a number under
  // "updatedAt", at whatever depth.
  lemma MaskReplacesUpdatedAt(v: Json)
    requires WellFormed(v)
    ensures var r := MaskWallClock(v);
            match v
            case Arr(items) =>
              && r.Arr? && |r.items| == |items|
              && forall i | 0 <= i < |items| :: r.items[i] == MaskWallClock(items[i])
            case Obj(fields) =>
              && r.Obj? && |r.fields| == |fields|
              && forall i | 0 <= i < |fields| ::
                   && r.fields[i].key == fields[i].key
                   && r.fields[i].value == if fields[i].key == "updatedAt" && fields[i].value.Num? then Str("<wall-clock>")
                                           else MaskWallClock(fields[i].value)
            case _ => r == v
  {
    if v.Obj? {
      MaskedFieldsInPlace(v.fields);
      assert forall key :: key in WALL_CLOCK_KEYS <==> key == "updatedAt";
    }
  }

  // What a run is compared by: every call with its masked answer, and per push row the masked payloads first seen.
  lemma ComparedCalls(run: Run)
    ensures var calls := ComparableRun(run).calls;
            && |calls| == |run.calls|
            && forall i | 0 <= i < |calls| ::
                 && calls[i].row == run.calls[i].row && calls[i].channel == run.calls[i].channel
                 && calls[i].member == run.calls[i].member
                 && calls[i].carried == MaskWallClock(run.calls[i].carried)
  {
  }

  ghost predicate CallsAlike(a: seq<Call<Json>>, b: seq<Call<Json>>) {
    && |a| == |b|
    && forall i | 0 <= i < |a| ::
         && a[i].row == b[i].row && a[i].channel == b[i].channel && a[i].member == b[i].member
         && Equivalent(MaskWallClock(a[i].carried), MaskWallClock(b[i].carried))
  }

  ghost predicate PayloadsAlike(s: seq<Json>, t: seq<Json>) {
    var u, w := FirstSeen(Map(MaskWallClock, s)), FirstSeen(Map(MaskWallClock, t));
    |u| == |w| && forall k | 0 <= k < |u| :: Equivalent(u[k], w[k])
  }

  ghost predicate PushesAlike(a: Object<seq<Json>>, b: Object<seq<Json>>) {
    && (forall channel :: HasKey(a, channel) <==> HasKey(b, channel))
    && forall i, j | 0 <= i < |a| && 0 <= j < |b| && a[i].key == b[j].key :: PayloadsAlike(a[i].value, b[j].value)
  }

  lemma ComparedCallsAlike(a: Run, b: Run)
    ensures CallsAlike(a.calls, b.calls) <==>
            var c, d := ComparableRun(a).calls, ComparableRun(b).calls;
            |c| == |d| && forall i | 0 <= i < |c| :: CallsAgree(c[i], d[i])
  {
    var c, d := ComparableRun(a).calls, ComparableRun(b).calls;
    ComparedCalls(a);
    ComparedCalls(b);
    if |c| == |d| {
      forall i | 0 <= i < |c|
        ensures CallsAgree(c[i], d[i]) <==>
                && a.calls[i].row == b.calls[i].row && a.calls[i].channel == b.calls[i].channel
                && a.calls[i].member == b.calls[i].member
                && Equivalent(MaskWallClock(a.calls[i].carried), MaskWallClock(b.calls[i].carried))
      {
      }
    }
  }

  lemma ComparedPushesAlike(a: Run, b: Run)
    requires WellFormedRun(a) && WellFormedRun(b)
    ensures PushesAlike(a.pushes, b.pushes) <==>
            var c, d := ComparableRun(a).pushes, ComparableRun(b).pushes;
            && (forall channel :: HasKey(c, channel) <==> HasKey(d, channel))
            && forall i, j | 0 <= i < |c| && 0 <= j < |d| && c[i].key == d[j].key :: AgreeInOrder(c[i].value, d[j].value)
  {
    var c, d := ComparableRun(a).pushes, ComparableRun(b).pushes;
    ComparableRunPushes(a);
    ComparableRunPushes(b);
    forall channel
      ensures HasKey(c, channel) <==> HasKey(a.pushes, channel)
      ensures HasKey(d, channel) <==> HasKey(b.pushes, channel)
    {
      SameKeysHold(a.pushes, c, channel);
      SameKeysHold(b.pushes, d, channel);
    }
    forall i, j | 0 <= i < |c| && 0 <= j < |d|
      ensures PayloadsAlike(a.pushes[i].value, b.pushes[j].value) <==> AgreeInOrder(c[i].value, d[j].value)
    {
    }
  }

  // Two runs have equal bytes exactly when their calls are the same, one by one, with answers equal under the mask up to
  // key order, and on the same channels the masked payloads, each where it was first seen, are equal up to key order.
  lemma EqualBytesExactlyWhenAlike(a: Run, b: Run)
    requires WellFormedRun(a) && WellFormedRun(b)
    ensures Comparable(a) == Comparable(b) <==> CallsAlike(a.calls, b.calls) && PushesAlike(a.pushes, b.pushes)
  {
    EqualBytesExactlyWhenRunsAgree(a, b);
    ComparedCallsAlike(a, b);
    ComparedPushesAlike(a, b);
  }

  // What the bytes say of a call and of a push row.
  function SaidOfCall(call: Call<Json>): Json {
    Obj([Entry("row", Str(call.row)), Entry("channel", Str(call.channel)), Entry("member", Str(call.member)),
         Entry("answer", MaskWallClock(call.carried))])
  }

  function SaidOfPush(push: Entry<seq<Json>>): Entry<Json> {
    Entry(push.key, Arr(FirstSeen(Map(MaskWallClock, push.value))))
  }

  // The bytes are the canonical text of the calls with their masked answers, and of each channel's masked payloads.
  lemma BytesAre(run: Run)
    requires WellFormedRun(run)
    ensures Comparable(run) ==
            CanonicalJson(Obj([Entry("calls", Arr(Map(SaidOfCall, run.calls))),
                               Entry("pushes", Obj(Map(SaidOfPush, run.pushes)))]))
  {
    var r := ComparableRun(run);
    ComparedCalls(run);
    ComparableRunPushes(run);
    assert Map(CallToJson, r.calls) == Map(SaidOfCall, run.calls);
    assert Map(PushToJson, r.pushes) == Map(SaidOfPush, run.pushes);
  }
}

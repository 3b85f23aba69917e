// What masking, dropping repeats and comparing promise.
module ReplayLaws {
  import opened Seqs
  import opened JsObject
  import opened Json
  import opened JsonText
  import opened JsonRoundTrip
  import opened Canonical
  import opened Replay

  // ---- Masking ----

  lemma SameKeysProper<V>(o: Object<V>, p: Object<V>)
    requires SameKeys(o, p) && Proper(o)
    ensures Proper(p)
  {
  }

  // Masking keeps every key where it is, so the object built from the masked entries is those entries.
  lemma MaskedFieldsInPlace(fields: Object<Json>)
    requires Proper(fields)
    ensures Proper(MaskedFields(fields))
    ensures MaskWallClock(Obj(fields)) == Obj(MaskedFields(fields))
  {
    SameKeysProper(fields, MaskedFields(fields));
    FromEntriesOfObject(MaskedFields(fields));
  }

  lemma {:induction false} MaskIsSound(v: Json, canon: Numeral -> Numeral)
    requires Sound(v, canon)
    ensures Sound(MaskWallClock(v), canon)
    decreases v
  {
    match v
    case Arr(items) => forall i | 0 <= i < |items| { MaskIsSound(items[i], canon); }
    case Obj(fields) =>
      MaskedFieldsInPlace(fields);
      forall i | 0 <= i < |fields| { MaskIsSound(fields[i].value, canon); }
    case _ =>
  }

  lemma MaskIsWellFormed(v: Json)
    requires WellFormed(v)
    ensures WellFormed(MaskWallClock(v))
  {
    EverySettled(v);
    MaskIsSound(v, (n: Numeral) => n);
  }

  lemma {:induction false} MaskIsIdempotent(v: Json)
    requires WellFormed(v)
    ensures MaskWallClock(MaskWallClock(v)) == MaskWallClock(v)
    decreases v
  {
    match v
    case Arr(items) => forall i | 0 <= i < |items| { MaskIsIdempotent(items[i]); }
    case Obj(fields) =>
      MaskedFieldsInPlace(fields);
      MaskedFieldsInPlace(MaskedFields(fields));
      forall i | 0 <= i < |fields| { MaskIsIdempotent(fields[i].value); }
      assert MaskedFields(MaskedFields(fields)) == MaskedFields(fields);
    case _ =>
  }

  // What masking cannot tell from the time of the run: a number, or the marker itself.
  predicate IsClock(v: Json) {
    v.Num? || v == WALL_CLOCK
  }

  // Equal but for wall-clock fields that hold a time (or the marker) on both sides.
  ghost predicate ClockTwins(v: Json, w: Json)
    decreases v
  {
    match v
    case Arr(items) => w.Arr? && |items| == |w.items| && forall i | 0 <= i < |items| :: ClockTwins(items[i], w.items[i])
    case Obj(fields) =>
      && w.Obj?
      && SameKeys(fields, w.fields)
      && forall i | 0 <= i < |fields| ::
           || (fields[i].key in WALL_CLOCK_KEYS && IsClock(fields[i].value) && IsClock(w.fields[i].value))
           || ClockTwins(fields[i].value, w.fields[i].value)
    case _ => v == w
  }

  lemma MaskedItemsMeet(s: seq<Json>, t: seq<Json>)
    requires |s| == |t|
    ensures MaskWallClock(Arr(s)) == MaskWallClock(Arr(t)) <==>
            forall i | 0 <= i < |s| :: MaskWallClock(s[i]) == MaskWallClock(t[i])
  {
    var f, g := MaskWallClock(Arr(s)).items, MaskWallClock(Arr(t)).items;
    if f == g {
      forall i | 0 <= i < |s| ensures MaskWallClock(s[i]) == MaskWallClock(t[i]) {
        assert f[i] == g[i];
      }
    } else {
      var i :| 0 <= i < |s| && f[i] != g[i];
      assert MaskWallClock(s[i]) != MaskWallClock(t[i]);
    }
  }

  predicate FieldTwins(e: Entry<Json>, f: Entry<Json>) {
    e.key == f.key && MaskField(e.key, e.value) == MaskField(f.key, f.value)
  }

  lemma MaskedFieldsMeet(o: Object<Json>, p: Object<Json>)
    requires |o| == |p|
    ensures MaskedFields(o) == MaskedFields(p) <==> forall i | 0 <= i < |o| :: FieldTwins(o[i], p[i])
  {
    var f, g := MaskedFields(o), MaskedFields(p);
    if f == g {
      forall i | 0 <= i < |o| ensures FieldTwins(o[i], p[i]) {
        assert f[i] == g[i];
      }
    }
    if forall i | 0 <= i < |o| :: FieldTwins(o[i], p[i]) {
      assert forall i | 0 <= i < |o| :: FieldTwins(o[i], p[i]) ==> f[i] == g[i];
    }
  }

  // Masking makes two payloads equal exactly when they differ in wall-clock fields only.
  lemma {:induction false} MaskMeetsExactlyTwins(v: Json, w: Json)
    requires WellFormed(v) && WellFormed(w)
    ensures MaskWallClock(v) == MaskWallClock(w) <==> ClockTwins(v, w)
    decreases v
  {
    if v.Arr? && w.Arr? && |v.items| == |w.items| {
      forall i | 0 <= i < |v.items| { MaskMeetsExactlyTwins(v.items[i], w.items[i]); }
      MaskedItemsMeet(v.items, w.items);
    } else if v.Obj? && w.Obj? && |v.fields| == |w.fields| {
      MaskedFieldsInPlace(v.fields);
      MaskedFieldsInPlace(w.fields);
      forall i | 0 <= i < |v.fields| { MaskMeetsExactlyTwins(v.fields[i].value, w.fields[i].value); }
      MaskedFieldsMeet(v.fields, w.fields);
    } else if v.Arr? && w.Arr? {
      assert |MaskWallClock(v).items| != |MaskWallClock(w).items|;
    } else if v.Obj? && w.Obj? {
      MaskedFieldsInPlace(v.fields);
      MaskedFieldsInPlace(w.fields);
      assert |MaskWallClock(v).fields| != |MaskWallClock(w).fields|;
    }
  }

  // Masking and sorting the keys commute, at every depth.
  lemma {:induction false} MaskCommutesWithSort(v: Json)
    requires WellFormed(v)
    ensures MaskWallClock(SortKeys(v)) == SortKeys(MaskWallClock(v))
    decreases v
  {
    match v
    case Arr(items) => forall i | 0 <= i < |items| { MaskCommutesWithSort(items[i]); }
    case Obj(fields) =>
      forall i | 0 <= i < |fields| { MaskCommutesWithSort(fields[i].value); }
      MaskedObjectSorted(fields);
    case _ =>
  }

  lemma MaskedObjectSorted(fields: Object<Json>)
    requires Proper(fields)
    requires forall i | 0 <= i < |fields| ::
               MaskWallClock(SortKeys(fields[i].value)) == SortKeys(MaskWallClock(fields[i].value))
    ensures MaskWallClock(SortKeys(Obj(fields))) == SortKeys(MaskWallClock(Obj(fields)))
  {
    MaskedFieldsInPlace(fields);
    SortedMaskedFields(fields);
    var es, fs := SortedEntries(fields), SortedEntries(MaskedFields(fields));
    MaskedEntriesBuild(es, fs);
  }

  lemma MaskedEntriesBuild(es: seq<Entry<Json>>, fs: seq<Entry<Json>>)
    requires SameKeys(es, fs)
    requires forall i | 0 <= i < |es| :: fs[i].value == MaskField(es[i].key, es[i].value)
    ensures MaskWallClock(Obj(FromEntries(es))) == Obj(FromEntries(fs))
  {
    var pairs := set i | 0 <= i < |es| :: (es[i], fs[i]);
    FromEntriesPairUp(es, fs, pairs);
    SpreadKeepsProper<Json>([], es);
    MaskedFieldsInPlace(FromEntries(es));
    assert MaskedFields(FromEntries(es)) == FromEntries(fs);
  }

  lemma SortedMaskedFields(fields: Object<Json>)
    requires Proper(fields)
    requires forall i | 0 <= i < |fields| ::
               MaskWallClock(SortKeys(fields[i].value)) == SortKeys(MaskWallClock(fields[i].value))
    ensures var es, fs := SortedEntries(fields), SortedEntries(MaskedFields(fields));
            && SameKeys(es, fs)
            && forall i | 0 <= i < |es| :: fs[i].value == MaskField(es[i].key, es[i].value)
  {
    var keys := SortTexts(Keys(fields));
    SameKeysInOrder(fields);
    forall i | 0 <= i < |keys| {
      SortedMaskedField(fields, keys[i]);
    }
  }

  lemma SameKeysInOrder(fields: Object<Json>)
    ensures Keys(MaskedFields(fields)) == Keys(fields)
  {
  }

  lemma SortedMaskedField(fields: Object<Json>, key: string)
    requires forall i | 0 <= i < |fields| ::
               MaskWallClock(SortKeys(fields[i].value)) == SortKeys(MaskWallClock(fields[i].value))
    requires key in Keys(fields)
    ensures var at := Position(fields, key);
            && at < |fields| && Position(MaskedFields(fields), key) == at
            && SortKeys(MaskedFields(fields)[at].value) == MaskField(key, SortKeys(fields[at].value))
  {
    PlaceDependsOnKeys(fields, MaskedFields(fields), key);
    SortKeepsNumbers(fields[Position(fields, key)].value);
  }

  lemma SortKeepsNumbers(v: Json)
    ensures SortKeys(v).Num? <==> v.Num?
    ensures SortKeys(WALL_CLOCK) == WALL_CLOCK
  {
  }

  // ---- Dropping repeats ----

  lemma TextsDiffer(v: Json, w: Json)
    requires WellFormed(v) && WellFormed(w)
    ensures Text(v) == Text(w) <==> v == w
  {
    if Text(v) == Text(w) {
      StringifyIsInjective(v, w, "");
    }
  }

  // Comparing texts drops exactly the repeated values.
  lemma {:induction false} DistinctIsFirstSeen(payloads: seq<Json>)
    requires AllWellFormed(payloads)
    ensures DistinctPayloads(payloads) == FirstSeen(payloads)
  {
    if payloads != [] {
      var n := |payloads| - 1;
      DistinctIsFirstSeen(payloads[..n]);
      var distinct := FirstSeen(payloads[..n]);
      forall i | 0 <= i < |distinct| ensures Text(distinct[i]) == Text(payloads[n]) <==> distinct[i] == payloads[n] {
        FirstSeenHolds(payloads[..n], distinct[i]);
        TextsDiffer(distinct[i], payloads[n]);
      }
    }
  }

  lemma MaskedAreWellFormed(payloads: seq<Json>)
    requires AllWellFormed(payloads)
    ensures AllWellFormed(Map(MaskWallClock, payloads))
  {
    forall i | 0 <= i < |payloads| { MaskIsWellFormed(payloads[i]); }
  }

  // The payloads compared for one push row.
  function Compared(payloads: seq<Json>): seq<Json> {
    FirstSeen(Map(MaskWallClock, payloads))
  }

  lemma ComparedIsDistinct(payloads: seq<Json>)
    requires AllWellFormed(payloads)
    ensures DistinctPayloads(Map(MaskWallClock, payloads)) == Compared(payloads)
  {
    MaskedAreWellFormed(payloads);
    DistinctIsFirstSeen(Map(MaskWallClock, payloads));
  }

  lemma ComparableRunPushes(run: Run)
    requires WellFormedRun(run)
    ensures var r := ComparableRun(run).pushes;
            && SameKeys(run.pushes, r)
            && Proper(r)
            && forall i | 0 <= i < |r| :: r[i].value == Compared(run.pushes[i].value)
  {
    var entries := Map(ComparablePush, run.pushes);
    SameKeysProper(run.pushes, entries);
    FromEntriesOfObject(entries);
    forall i | 0 <= i < |entries| { ComparedIsDistinct(run.pushes[i].value); }
  }

  // Per push row of what is compared: pairwise distinct payloads, every masked payload sent and no other, in the order
  // first seen.
  lemma ComparedPayloads(run: Run, row: nat)
    requires WellFormedRun(run) && row < |run.pushes|
    ensures var pushes := ComparableRun(run).pushes;
            && |pushes| == |run.pushes| && pushes[row].key == run.pushes[row].key
            && var masked, r := Map(MaskWallClock, run.pushes[row].value), pushes[row].value;
               && (forall i, j | 0 <= i < j < |r| :: r[i] != r[j])
               && (forall p :: p in r <==> p in masked)
               && (forall i, j | 0 <= i < j < |r| :: IndexOf(masked, r[i]) < IndexOf(masked, r[j]))
  {
    ComparableRunPushes(run);
    ComparedOnce(run.pushes[row].value);
  }

  lemma ComparedOnce(payloads: seq<Json>)
    ensures var masked, r := Map(MaskWallClock, payloads), Compared(payloads);
            && (forall i, j | 0 <= i < j < |r| :: r[i] != r[j])
            && (forall p :: p in r <==> p in masked)
            && (forall i, j | 0 <= i < j < |r| :: IndexOf(masked, r[i]) < IndexOf(masked, r[j]))
  {
    var masked, r := Map(MaskWallClock, payloads), Compared(payloads);
    FirstSeenIsDistinct(masked);
    forall p ensures p in r <==> p in masked {
      FirstSeenHolds(masked, p);
    }
    forall i, j | 0 <= i < j < |r| ensures IndexOf(masked, r[i]) < IndexOf(masked, r[j]) {
      FirstSeenKeepsOrder(masked, i, j);
    }
  }

  lemma ComparedTwice(payloads: seq<Json>)
    requires AllWellFormed(payloads)
    ensures AllWellFormed(Compared(payloads))
    ensures Compared(Compared(payloads)) == Compared(payloads)
  {
    var masked, r := Map(MaskWallClock, payloads), Compared(payloads);
    MaskedAreWellFormed(payloads);
    forall i | 0 <= i < |r| ensures WellFormed(r[i]) && MaskWallClock(r[i]) == r[i] {
      FirstSeenHolds(masked, r[i]);
      MaskIsIdempotent(payloads[IndexOf(masked, r[i])]);
    }
    assert Map(MaskWallClock, r) == r;
    FirstSeenIsDistinct(masked);
    FirstSeenOfDistinct(r);
  }

  // Comparing what is already the comparable part changes nothing.
  lemma ComparableRunIsIdempotent(run: Run)
    requires WellFormedRun(run)
    ensures WellFormedRun(ComparableRun(run))
    ensures ComparableRun(ComparableRun(run)) == ComparableRun(run)
  {
    var r := ComparableRun(run);
    ComparableRunPushes(run);
    forall i | 0 <= i < |run.calls|
      ensures WellFormed(r.calls[i].carried) && MaskAnswer(r.calls[i]) == r.calls[i]
    {
      MaskIsWellFormed(run.calls[i].carried);
      MaskIsIdempotent(run.calls[i].carried);
    }
    forall i | 0 <= i < |run.pushes| { ComparedTwice(run.pushes[i].value); }
    ComparableRunPushes(r);
    assert ComparableRun(r).calls == r.calls;
    assert ComparableRun(r).pushes == r.pushes;
  }

  lemma ComparedWithTwin(payloads: seq<Json>, earlier: nat, payload: Json)
    requires AllWellFormed(payloads) && WellFormed(payload)
    requires earlier < |payloads| && ClockTwins(payloads[earlier], payload)
    ensures Compared(payloads + [payload]) == Compared(payloads)
  {
    MaskMeetsExactlyTwins(payloads[earlier], payload);
    var masked := Map(MaskWallClock, payloads);
    assert Map(MaskWallClock, payloads + [payload]) == masked + [MaskWallClock(payload)];
    FirstSeenNext(masked, MaskWallClock(payload));
    assert masked[earlier] == MaskWallClock(payload);
    FirstSeenHolds(masked, MaskWallClock(payload));
  }

  function WithPush(run: Run, row: nat, payload: Json): Run
    requires row < |run.pushes|
  {
    var push := run.pushes[row];
    run.(pushes := run.pushes[row := push.(value := push.value + [payload])])
  }

  // A row that gets one more payload, a twin of an earlier one of the row, is compared as before.
  lemma RepeatWithNewerTime(run: Run, row: nat, earlier: nat, payload: Json)
    requires WellFormedRun(run) && WellFormed(payload)
    requires row < |run.pushes| && earlier < |run.pushes[row].value|
    requires ClockTwins(run.pushes[row].value[earlier], payload)
    ensures ComparableRun(WithPush(run, row, payload)) == ComparableRun(run)
    ensures Comparable(WithPush(run, row, payload)) == Comparable(run)
  {
    var longer := WithPush(run, row, payload);
    ComparedWithTwin(run.pushes[row].value, earlier, payload);
    forall i | 0 <= i < |run.pushes|
      ensures ComparablePush(longer.pushes[i]) == ComparablePush(run.pushes[i])
    {
      ComparedIsDistinct(run.pushes[i].value);
      if i == row {
        ComparedIsDistinct(run.pushes[row].value + [payload]);
      }
    }
    assert Map(ComparablePush, longer.pushes) == Map(ComparablePush, run.pushes);
  }

  // ---- Equal bytes ----

  ghost predicate AgreeInOrder(s: seq<Json>, t: seq<Json>) {
    |s| == |t| && forall k | 0 <= k < |s| :: Equivalent(s[k], t[k])
  }

  ghost predicate CallsAgree(a: Call<Json>, b: Call<Json>) {
    a.row == b.row && a.channel == b.channel && a.member == b.member && Equivalent(a.carried, b.carried)
  }

  // The same calls with the same answers, and on the same channels the same payloads in the same order, up to the order
  // of object keys.
  ghost predicate RunsAgree(a: Run, b: Run) {
    && |a.calls| == |b.calls|
    && (forall i | 0 <= i < |a.calls| :: CallsAgree(a.calls[i], b.calls[i]))
    && (forall channel :: HasKey(a.pushes, channel) <==> HasKey(b.pushes, channel))
    && forall i, j | 0 <= i < |a.pushes| && 0 <= j < |b.pushes| && a.pushes[i].key == b.pushes[j].key ::
         AgreeInOrder(a.pushes[i].value, b.pushes[j].value)
  }

  lemma EquivalentInPlace(o: Object<Json>, p: Object<Json>)
    requires DistinctKeys(o) && SameKeys(o, p)
    ensures Equivalent(Obj(o), Obj(p)) <==> forall i | 0 <= i < |o| :: Equivalent(o[i].value, p[i].value)
  {
    forall key { SameKeysHold(o, p, key); }
  }

  lemma CallKeys(a: Call<Json>)
    ensures Proper(CallToJson(a).fields)
  {
    var o := CallToJson(a).fields;
    assert o[0].key[0] == 'r' && o[1].key[0] == 'c' && o[2].key[0] == 'm' && o[3].key[0] == 'a';
    forall i | 0 <= i < |o| ensures !IsIndex(o[i].key) { PlainKey(o[i].key); }
  }

  lemma CallObjects(a: Call<Json>, b: Call<Json>)
    ensures WellFormed(a.carried) ==> WellFormed(CallToJson(a))
    ensures Equivalent(CallToJson(a), CallToJson(b)) <==> CallsAgree(a, b)
  {
    CallKeys(a);
    var o, p := CallToJson(a).fields, CallToJson(b).fields;
    EquivalentInPlace(o, p);
    assert Equivalent(o[0].value, p[0].value) <==> a.row == b.row;
    assert Equivalent(o[1].value, p[1].value) <==> a.channel == b.channel;
    assert Equivalent(o[2].value, p[2].value) <==> a.member == b.member;
    assert o[3].value == a.carried && p[3].value == b.carried;
  }

  lemma PushObjects(o: Object<seq<Json>>, p: Object<seq<Json>>)
    requires Proper(o)
    ensures (forall i | 0 <= i < |o| :: AllWellFormed(o[i].value)) ==> WellFormed(Obj(Map(PushToJson, o)))
    ensures Equivalent(Obj(Map(PushToJson, o)), Obj(Map(PushToJson, p))) <==>
            && (forall channel :: HasKey(o, channel) <==> HasKey(p, channel))
            && forall i, j | 0 <= i < |o| && 0 <= j < |p| && o[i].key == p[j].key :: AgreeInOrder(o[i].value, p[j].value)
  {
    var q, r := Map(PushToJson, o), Map(PushToJson, p);
    SameHeldKeys(o);
    SameHeldKeys(p);
    forall i, j | 0 <= i < |o| && 0 <= j < |p|
      ensures Equivalent(q[i].value, r[j].value) <==> AgreeInOrder(o[i].value, p[j].value)
      ensures q[i].key == o[i].key && r[j].key == p[j].key
    {
    }
    if forall i | 0 <= i < |o| :: AllWellFormed(o[i].value) {
      forall i | 0 <= i < |q| ensures WellFormed(q[i].value) {
        assert AllWellFormed(o[i].value);
      }
    }
  }

  lemma SameHeldKeys(o: Object<seq<Json>>)
    ensures forall channel :: HasKey(Map(PushToJson, o), channel) <==> HasKey(o, channel)
  {
    var q := Map(PushToJson, o);
    forall channel ensures HasKey(q, channel) <==> HasKey(o, channel) {
      if i :| 0 <= i < |o| && o[i].key == channel { assert q[i].key == channel; }
      if i :| 0 <= i < |q| && q[i].key == channel { assert o[i].key == channel; }
    }
  }

  lemma RunObjects(a: Run, b: Run)
    requires WellFormedRun(a) && WellFormedRun(b)
    ensures WellFormed(RunToJson(a))
    ensures Equivalent(RunToJson(a), RunToJson(b)) <==> RunsAgree(a, b)
  {
    PushObjects(a.pushes, b.pushes);
    CallLists(a.calls, b.calls);
    RunParts(a);
    RunParts(b);
    EquivalentInPlace(RunToJson(a).fields, RunToJson(b).fields);
  }

  lemma RunParts(a: Run)
    ensures var o := RunToJson(a).fields;
            && |o| == 2 && Proper(o)
            && o[0].key == "calls" && o[0].value == Arr(Map(CallToJson, a.calls))
            && o[1].key == "pushes" && o[1].value == Obj(Map(PushToJson, a.pushes))
  {
    PlainKey("calls");
    PlainKey("pushes");
  }

  lemma CallLists(a: seq<Call<Json>>, b: seq<Call<Json>>)
    ensures (forall i | 0 <= i < |a| :: WellFormed(a[i].carried)) ==> WellFormed(Arr(Map(CallToJson, a)))
    ensures Equivalent(Arr(Map(CallToJson, a)), Arr(Map(CallToJson, b))) <==>
            |a| == |b| && forall i | 0 <= i < |a| :: CallsAgree(a[i], b[i])
  {
    forall i | 0 <= i < |a| { CallObjects(a[i], a[i]); }
    if |a| == |b| {
      forall i | 0 <= i < |a| { CallObjects(a[i], b[i]); }
    }
  }

  // The replay's verdict: two runs have equal bytes exactly when their comparable parts agree up to key order.
  lemma EqualBytesExactlyWhenRunsAgree(a: Run, b: Run)
    requires WellFormedRun(a) && WellFormedRun(b)
    ensures Comparable(a) == Comparable(b) <==> RunsAgree(ComparableRun(a), ComparableRun(b))
  {
    ComparableRunIsIdempotent(a);
    ComparableRunIsIdempotent(b);
    RunObjects(ComparableRun(a), ComparableRun(b));
    RunObjects(ComparableRun(b), ComparableRun(a));
    CanonicalTextDecides(RunToJson(ComparableRun(a)), RunToJson(ComparableRun(b)));
  }

  // ---- Where key order shows ----

  lemma SameSorted(v: Json, w: Json)
    requires WellFormed(v) && WellFormed(w)
    ensures Equivalent(v, w) <==> SortKeys(v) == SortKeys(w)
  {
    if Equivalent(v, w) { EquivalentSortAlike(v, w); }
    if SortKeys(v) == SortKeys(w) { SortAlikeIsEquivalent(v, w); }
  }

  // No two payloads differ in key order alone.
  ghost predicate OneOrder(s: seq<Json>) {
    forall i, j | 0 <= i < j < |s| && SortKeys(s[i]) == SortKeys(s[j]) :: s[i] == s[j]
  }

  ghost predicate SortedAlike(s: seq<Json>, t: seq<Json>) {
    |s| == |t| && forall k | 0 <= k < |s| :: SortKeys(s[k]) == SortKeys(t[k])
  }

  lemma {:induction false} OneOrderAgrees(s: seq<Json>, t: seq<Json>)
    requires SortedAlike(s, t) && OneOrder(s) && OneOrder(t)
    ensures SortedAlike(FirstSeen(s), FirstSeen(t))
  {
    if s != [] {
      var n := |s| - 1;
      OneOrderAgrees(s[..n], t[..n]);
      FirstSeenHolds(s[..n], s[n]);
      FirstSeenHolds(t[..n], t[n]);
      SeenInBoth(s, t, n);
      SeenInBoth(t, s, n);
      AddedAlike(FirstSeen(s[..n]), FirstSeen(t[..n]), s[n], t[n]);
    }
  }

  lemma AddedAlike(s: seq<Json>, t: seq<Json>, v: Json, w: Json)
    requires SortedAlike(s, t) && SortKeys(v) == SortKeys(w)
    ensures SortedAlike(s + [v], t + [w])
  {
  }

  lemma SeenInBoth(s: seq<Json>, t: seq<Json>, n: nat)
    requires SortedAlike(s, t) && OneOrder(t) && n < |s|
    ensures s[n] in s[..n] ==> t[n] in t[..n]
  {
    if s[n] in s[..n] {
      var i := IndexOf(s[..n], s[n]);
      SameOrder(t, i, n);
      assert t[..n][i] == t[n];
    }
  }

  lemma TwoOrdersDisagree(s: seq<Json>, t: seq<Json>, i: nat, j: nat)
    requires SortedAlike(s, t) && OneOrder(s)
    requires i < j < |t| && SortKeys(t[i]) == SortKeys(t[j]) && t[i] != t[j]
    ensures !SortedAlike(FirstSeen(s), FirstSeen(t))
  {
    var u, w := FirstSeen(s), FirstSeen(t);
    FirstSeenHolds(t, t[i]);
    FirstSeenHolds(t, t[j]);
    if SortedAlike(u, w) {
      var a, b := IndexOf(w, t[i]), IndexOf(w, t[j]);
      FirstSeenIsDistinct(s);
      SeenInOneOrder(s, u[a], u[b]);
    }
  }

  lemma SeenInOneOrder(s: seq<Json>, v: Json, w: Json)
    requires OneOrder(s) && v in FirstSeen(s) && w in FirstSeen(s) && SortKeys(v) == SortKeys(w)
    ensures v == w
  {
    FirstSeenHolds(s, v);
    FirstSeenHolds(s, w);
    SameOrder(s, IndexOf(s, v), IndexOf(s, w));
  }

  lemma SameOrder(s: seq<Json>, i: nat, j: nat)
    requires OneOrder(s) && i < |s| && j < |s| && SortKeys(s[i]) == SortKeys(s[j])
    ensures s[i] == s[j]
  {
  }

  // Dropping repeats keeps two such lists equal up to key order exactly when neither holds a payload in two key orders.
  lemma RepeatsAgreeExactlyInOneOrder(s: seq<Json>, t: seq<Json>)
    requires AllWellFormed(s) && AllWellFormed(t)
    requires AgreeInOrder(s, t) && OneOrder(s)
    ensures AgreeInOrder(FirstSeen(s), FirstSeen(t)) <==> OneOrder(t)
  {
    AgreeingSortAlike(s, t);
    forall k | 0 <= k < |FirstSeen(s)| ensures WellFormed(FirstSeen(s)[k]) { FirstSeenHolds(s, FirstSeen(s)[k]); }
    forall k | 0 <= k < |FirstSeen(t)| ensures WellFormed(FirstSeen(t)[k]) { FirstSeenHolds(t, FirstSeen(t)[k]); }
    AgreeingSortAlike(FirstSeen(s), FirstSeen(t));
    if OneOrder(t) {
      OneOrderAgrees(s, t);
    } else {
      var i, j :| 0 <= i < j < |t| && SortKeys(t[i]) == SortKeys(t[j]) && t[i] != t[j];
      TwoOrdersDisagree(s, t, i, j);
    }
  }

  lemma AgreeingSortAlike(s: seq<Json>, t: seq<Json>)
    requires AllWellFormed(s) && AllWellFormed(t)
    ensures AgreeInOrder(s, t) <==> SortedAlike(s, t)
  {
    if |s| == |t| {
      forall k | 0 <= k < |s| { SameSorted(s[k], t[k]); }
    }
  }

  // Every row's payloads, masked, are in one key order.
  ghost predicate OneOrderMasked(run: Run) {
    forall i | 0 <= i < |run.pushes| :: OneOrder(Map(MaskWallClock, run.pushes[i].value))
  }

  lemma MaskKeepsEquivalent(v: Json, w: Json)
    requires WellFormed(v) && WellFormed(w) && Equivalent(v, w)
    ensures WellFormed(MaskWallClock(v)) && WellFormed(MaskWallClock(w))
    ensures Equivalent(MaskWallClock(v), MaskWallClock(w))
  {
    MaskIsWellFormed(v);
    MaskIsWellFormed(w);
    SameSorted(v, w);
    MaskCommutesWithSort(v);
    MaskCommutesWithSort(w);
    SameSorted(MaskWallClock(v), MaskWallClock(w));
  }

  lemma RowsAgreeExactlyInOneOrder(s: seq<Json>, t: seq<Json>)
    requires AllWellFormed(s) && AllWellFormed(t) && AgreeInOrder(s, t)
    requires OneOrder(Map(MaskWallClock, s))
    ensures AgreeInOrder(Compared(s), Compared(t)) <==> OneOrder(Map(MaskWallClock, t))
  {
    MaskedAreWellFormed(s);
    MaskedAreWellFormed(t);
    forall k | 0 <= k < |s| { MaskKeepsEquivalent(s[k], t[k]); }
    RepeatsAgreeExactlyInOneOrder(Map(MaskWallClock, s), Map(MaskWallClock, t));
  }

  lemma ComparedCallsAgree(a: Run, b: Run)
    requires WellFormedRun(a) && WellFormedRun(b) && RunsAgree(a, b)
    ensures var c, d := ComparableRun(a).calls, ComparableRun(b).calls;
            |c| == |d| && forall i | 0 <= i < |c| :: CallsAgree(c[i], d[i])
  {
    forall i | 0 <= i < |a.calls| ensures CallsAgree(MaskAnswer(a.calls[i]), MaskAnswer(b.calls[i])) {
      assert CallsAgree(a.calls[i], b.calls[i]);
      MaskKeepsEquivalent(a.calls[i].carried, b.calls[i].carried);
    }
  }

  lemma ComparedChannelsAgree(a: Run, b: Run)
    requires WellFormedRun(a) && WellFormedRun(b) && RunsAgree(a, b)
    ensures forall channel ::
              HasKey(ComparableRun(a).pushes, channel) <==> HasKey(ComparableRun(b).pushes, channel)
  {
    ComparableRunPushes(a);
    ComparableRunPushes(b);
    forall channel
      ensures HasKey(ComparableRun(a).pushes, channel) <==> HasKey(ComparableRun(b).pushes, channel)
    {
      SameKeysHold(a.pushes, ComparableRun(a).pushes, channel);
      SameKeysHold(b.pushes, ComparableRun(b).pushes, channel);
    }
  }

  // When the bytes depend on the values only. Repeats are told by their masked text, before keys are sorted: a run that
  // agrees up to key order with one whose rows each keep one key order under the mask has its bytes exactly when it keeps
  // one key order under the mask too.
  lemma BytesAgreeExactlyInOneOrder(a: Run, b: Run)
    requires WellFormedRun(a) && WellFormedRun(b) && RunsAgree(a, b)
    requires OneOrderMasked(a)
    ensures Comparable(a) == Comparable(b) <==> OneOrderMasked(b)
  {
    var c, d := ComparableRun(a), ComparableRun(b);
    EqualBytesExactlyWhenRunsAgree(a, b);
    ComparedCallsAgree(a, b);
    ComparedChannelsAgree(a, b);
    ComparableRunPushes(a);
    ComparableRunPushes(b);
    forall i, j | 0 <= i < |a.pushes| && 0 <= j < |b.pushes| && a.pushes[i].key == b.pushes[j].key
      ensures AgreeInOrder(c.pushes[i].value, d.pushes[j].value) <==> OneOrder(Map(MaskWallClock, b.pushes[j].value))
    {
      RowsAgreeExactlyInOneOrder(a.pushes[i].value, b.pushes[j].value);
    }
    if RunsAgree(c, d) {
      forall j | 0 <= j < |b.pushes| ensures OneOrder(Map(MaskWallClock, b.pushes[j].value)) {
        assert HasKey(b.pushes, b.pushes[j].key);
        var i :| 0 <= i < |a.pushes| && a.pushes[i].key == b.pushes[j].key;
        assert c.pushes[i].key == d.pushes[j].key;
      }
    }
  }

  // An object of two keys that are no array indices, and what masking leaves of it.
  function TwoKeys(k: string, l: string): Object<Json> {
    [Entry(k, Null), Entry(l, Null)]
  }

  lemma TwoKeysStay(k: string, l: string)
    requires k != l && !IsIndex(k) && !IsIndex(l)
    ensures WellFormed(Obj(TwoKeys(k, l)))
    ensures MaskWallClock(Obj(TwoKeys(k, l))) == Obj(TwoKeys(k, l))
  {
    MaskedFieldsInPlace(TwoKeys(k, l));
    assert MaskedFields(TwoKeys(k, l)) == TwoKeys(k, l);
  }

  lemma TwoKeysHeld(k: string, l: string, key: string)
    ensures HasKey(TwoKeys(k, l), key) <==> key == k || key == l
  {
    var o := TwoKeys(k, l);
    assert o[0].key == k && o[1].key == l;
  }

  lemma TwoKeysEquivalent(k: string, l: string)
    ensures Equivalent(Obj(TwoKeys(k, l)), Obj(TwoKeys(l, k)))
  {
    forall key ensures HasKey(TwoKeys(k, l), key) <==> HasKey(TwoKeys(l, k), key) {
      TwoKeysHeld(k, l, key);
      TwoKeysHeld(l, k, key);
    }
  }

  lemma ComparedTwo(p: Json, q: Json)
    requires MaskWallClock(p) == p && MaskWallClock(q) == q
    ensures Compared([p, q]) == if p == q then [p] else [p, q]
  {
    assert Map(MaskWallClock, [p, q]) == [p] + [q];
    FirstSeenNext([p], q);
    FirstSeenOfDistinct([p]);
  }

  lemma OneRow(channel: string, payloads: seq<Json>)
    requires AllWellFormed(payloads)
    ensures var run := Run([], [Entry(channel, payloads)]);
            WellFormedRun(run) && ComparableRun(run).pushes == [Entry(channel, Compared(payloads))]
  {
    var run := Run([], [Entry(channel, payloads)]);
    ComparableRunPushes(run);
    assert ComparableRun(run).pushes == [ComparableRun(run).pushes[0]];
  }

  lemma OneRowsAgree(channel: string, s: seq<Json>, t: seq<Json>)
    requires AllWellFormed(s) && AllWellFormed(t)
    requires Comparable(Run([], [Entry(channel, s)])) == Comparable(Run([], [Entry(channel, t)]))
    ensures AgreeInOrder(Compared(s), Compared(t))
  {
    var a, b := Run([], [Entry(channel, s)]), Run([], [Entry(channel, t)]);
    OneRow(channel, s);
    OneRow(channel, t);
    EqualBytesExactlyWhenRunsAgree(a, b);
    assert ComparableRun(a).pushes[0].key == ComparableRun(b).pushes[0].key;
  }

  lemma TwoOfOneOrder(p: Json, q: Json)
    requires WellFormed(p) && WellFormed(q)
    requires Equivalent(p, p) && Equivalent(p, q)
    ensures AllWellFormed([p, p]) && AllWellFormed([p, q]) && AgreeInOrder([p, p], [p, q])
  {
  }

  lemma SecondOrderIsCompared(p: Json, q: Json)
    requires p != q
    requires MaskWallClock(p) == p && MaskWallClock(q) == q
    ensures !AgreeInOrder(Compared([p, p]), Compared([p, q]))
  {
    ComparedTwo(p, p);
    ComparedTwo(p, q);
  }

  lemma KeysApart() returns (k: string, l: string)
    ensures k != l && !IsIndex(k) && !IsIndex(l)
  {
    k, l := "a", "b";
    PlainKey(k);
    PlainKey(l);
  }

  // One payload twice, and the same payload once in each key order: equal up to key order, yet other bytes.
  lemma KeyOrderShows(channel: string) returns (s: seq<Json>, t: seq<Json>)
    ensures AllWellFormed(s) && AllWellFormed(t) && AgreeInOrder(s, t)
    ensures Comparable(Run([], [Entry(channel, s)])) != Comparable(Run([], [Entry(channel, t)]))
  {
    var k, l := KeysApart();
    var p, q := Obj(TwoKeys(k, l)), Obj(TwoKeys(l, k));
    TwoKeysStay(k, l);
    TwoKeysStay(l, k);
    TwoKeysEquivalent(k, l);
    SameSorted(p, p);
    assert TwoKeys(k, l)[0] != TwoKeys(l, k)[0];
    s, t := [p, p], [p, q];
    TwoOfOneOrder(p, q);
    SecondOrderIsCompared(p, q);
    if Comparable(Run([], [Entry(channel, s)])) == Comparable(Run([], [Entry(channel, t)])) {
      OneRowsAgree(channel, s, t);
    }
  }
}

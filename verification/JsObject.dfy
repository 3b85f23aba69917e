// JavaScript objects as ordered property lists: what object spread, `Object.entries`, `Object.fromEntries`,
// property assignment and `delete` do to the properties and to their order.
//
// A property whose key is an array index (`"0"`, `"17"`) always comes before every other property, in ascending
// order; the others keep the order they were first added in. Assigning to a key that is already there keeps its place.
module JsObject {

  datatype Entry<+V> = Entry(key: string, value: V)

  type Object<+V> = seq<Entry<V>>

  const MAX_INDEX: nat := 0xFFFF_FFFE

  predicate IsDigit(c: char) {
    '0' <= c <= '9'
  }

  function DecimalValue(s: string): nat
    requires forall c | c in s :: IsDigit(c)
  {
    if s == "" then 0
    else
      assert IsDigit(s[|s| - 1]);
      10 * DecimalValue(s[..|s| - 1]) + (s[|s| - 1] as int - '0' as int)
  }

  // A canonical array index: decimal digits without a leading zero, below 2^32 - 1.
  predicate IsIndex(key: string) {
    && key != ""
    && (forall c | c in key :: IsDigit(c))
    && (key[0] == '0' ==> key == "0")
    && DecimalValue(key) <= MAX_INDEX
  }

  // Whether property order puts `a` before `b` whatever the order they were added in.
  predicate Earlier(a: string, b: string) {
    IsIndex(a) && (IsIndex(b) ==> DecimalValue(a) < DecimalValue(b))
  }

  ghost predicate DistinctKeys<V>(o: Object<V>) {
    forall i, j | 0 <= i < j < |o| :: o[i].key != o[j].key
  }

  ghost predicate InPropertyOrder<V>(o: Object<V>) {
    forall i, j | 0 <= i < j < |o| :: !Earlier(o[j].key, o[i].key)
  }

  // What every JavaScript object satisfies.
  ghost predicate Proper<V>(o: Object<V>) {
    DistinctKeys(o) && InPropertyOrder(o)
  }

  predicate HasKey<V>(o: Object<V>, key: string) {
    exists i | 0 <= i < |o| :: o[i].key == key
  }

  // Where `key` is in `o`; |o| when it is not there.
  function Position<V>(o: Object<V>, key: string): (at: nat)
    ensures at <= |o|
    ensures at < |o| ==> o[at].key == key
    ensures forall i | 0 <= i < at :: o[i].key != key
  {
    if o == [] then 0 else if o[0].key == key then 0 else 1 + Position(o[1..], key)
  }

  function Get<V>(o: Object<V>, key: string): V
    requires HasKey(o, key)
  {
    o[Position(o, key)].value
  }

  function Keys<V>(o: Object<V>): (keys: seq<string>)
    ensures |keys| == |o| && forall i | 0 <= i < |o| :: keys[i] == o[i].key
  {
    seq(|o|, i requires 0 <= i < |o| => o[i].key)
  }

  // Where a new key goes: before the first property it is earlier than.
  function Slot<V>(o: Object<V>, key: string): (at: nat)
    ensures at <= |o|
    ensures at < |o| ==> Earlier(key, o[at].key)
    ensures forall i | 0 <= i < at :: !Earlier(key, o[i].key)
  {
    if o == [] then 0 else if Earlier(key, o[0].key) then 0 else 1 + Slot(o[1..], key)
  }

  // `o[key] = value`
  function Put<V>(o: Object<V>, key: string, value: V): Object<V> {
    var at := Position(o, key);
    if at < |o| then o[at := Entry(key, value)]
    else var slot := Slot(o, key); o[..slot] + [Entry(key, value)] + o[slot..]
  }

  // `delete o[key]`
  function Delete<V>(o: Object<V>, key: string): Object<V> {
    var at := Position(o, key);
    if at < |o| then o[..at] + o[at + 1..] else o
  }

  // `{ ...o, ...overlay }`, and assigning the entries of `overlay` one by one.
  function Spread<V>(o: Object<V>, overlay: seq<Entry<V>>): Object<V> {
    if overlay == [] then o
    else
      var last := overlay[|overlay| - 1];
      Put(Spread(o, overlay[..|overlay| - 1]), last.key, last.value)
  }

  // `Object.fromEntries(entries)`, and what `JSON.parse` builds from the members it reads.
  function FromEntries<V>(entries: seq<Entry<V>>): Object<V> {
    Spread([], entries)
  }

  // ---- One assignment ----

  lemma EarlierIsTransitive(a: string, b: string, c: string)
    ensures Earlier(a, b) && Earlier(b, c) ==> Earlier(a, c)
  {
  }

  // A key that starts with no digit is no array index.
  lemma PlainKey(key: string)
    requires key != "" && !IsDigit(key[0])
    ensures !IsIndex(key)
  {
    assert key[0] in key;
  }

  lemma PutKeepsProper<V>(o: Object<V>, key: string, value: V)
    requires Proper(o)
    ensures Proper(Put(o, key, value))
  {
    if Position(o, key) == |o| {
      var slot := Slot(o, key);
      var r := Put(o, key, value);
      forall i, j | 0 <= i < j < |r|
        ensures r[i].key != r[j].key && !Earlier(r[j].key, r[i].key)
      {
        if i == slot {
          EarlierIsTransitive(r[j].key, key, o[slot].key);
        }
      }
    }
  }

  // After an assignment the object holds the new property and every other one it held before.
  lemma PutEntries<V>(o: Object<V>, key: string, value: V, e: Entry<V>)
    requires DistinctKeys(o)
    ensures e in Put(o, key, value) <==> e == Entry(key, value) || (e in o && e.key != key)
  {
    var at, r := Position(o, key), Put(o, key, value);
    if at < |o| {
      assert r[at] == Entry(key, value);
      if e in o && e.key != key {
        var i :| 0 <= i < |o| && o[i] == e;
        assert r[i] == e;
      }
    } else {
      var slot := Slot(o, key);
      assert o == o[..slot] + o[slot..];
    }
  }

  // The other properties and their order are untouched, wherever the assigned one is.
  lemma PutDelete<V>(o: Object<V>, key: string, value: V)
    requires DistinctKeys(o)
    ensures Delete(Put(o, key, value), key) == Delete(o, key)
  {
    var at, r := Position(o, key), Put(o, key, value);
    if at < |o| {
      assert r[at].key == key;
      assert Position(r, key) == at;
      assert Delete(r, key) == Delete(o, key);
    } else {
      var slot := Slot(o, key);
      assert r[slot].key == key;
      assert Position(r, key) == slot;
      assert r[..slot] + r[slot + 1..] == o;
    }
  }

  // The key stays where it was, or comes last when it is new and no array index.
  lemma PutPosition<V>(o: Object<V>, key: string, value: V)
    requires Proper(o)
    requires !IsIndex(key)
    ensures Position(Put(o, key, value), key) == Position(o, key)
    ensures |Put(o, key, value)| == if HasKey(o, key) then |o| else |o| + 1
  {
    var at := Position(o, key);
    if at == |o| {
      assert Slot(o, key) == |o|;
      assert Put(o, key, value)[|o|].key == key;
    }
  }

  lemma PutTwice<V>(o: Object<V>, key: string, first: V, second: V)
    requires Proper(o)
    ensures Put(Put(o, key, first), key, second) == Put(o, key, second)
  {
    var at := Position(o, key);
    if at == |o| {
      var slot := Slot(o, key);
      var head, tail := o[..slot], o[slot..];
      AddedAt(head, Entry(key, first), tail);
      ReplaceBetween(head, Entry(key, first), Entry(key, second), tail);
    }
  }

  lemma AddedAt<V>(head: Object<V>, e: Entry<V>, tail: Object<V>)
    requires forall i | 0 <= i < |head| :: head[i].key != e.key
    ensures Position(head + [e] + tail, e.key) == |head|
  {
    assert (head + [e] + tail)[|head|] == e;
  }

  lemma ReplaceBetween<T>(head: seq<T>, x: T, y: T, tail: seq<T>)
    ensures (head + [x] + tail)[|head| := y] == head + [y] + tail
  {
  }

  lemma GetPut<V>(o: Object<V>, key: string, value: V)
    ensures HasKey(Put(o, key, value), key) && Get(Put(o, key, value), key) == value
  {
    var at, r := Position(o, key), Put(o, key, value);
    var here := if at < |o| then at else Slot(o, key);
    assert r[here] == Entry(key, value);
    assert Position(r, key) == here;
  }

  lemma GetIsHeld<V>(o: Object<V>, e: Entry<V>)
    requires DistinctKeys(o)
    ensures e in o <==> HasKey(o, e.key) && Get(o, e.key) == e.value
  {
    if e in o {
      var i :| 0 <= i < |o| && o[i] == e;
      assert o[i].key == e.key;
      assert Position(o, e.key) == i;
    }
  }

  // ---- Whole objects ----

  lemma SpreadKeepsProper<V>(o: Object<V>, overlay: seq<Entry<V>>)
    requires Proper(o)
    ensures Proper(Spread(o, overlay))
  {
    if overlay != [] {
      var n := |overlay| - 1;
      SpreadKeepsProper(o, overlay[..n]);
      PutKeepsProper(Spread(o, overlay[..n]), overlay[n].key, overlay[n].value);
    }
  }

  // Entries already in property order build the object they list.
  lemma {:induction false} FromEntriesOfObject<V>(o: Object<V>)
    requires Proper(o)
    ensures FromEntries(o) == o
  {
    if o != [] {
      var n := |o| - 1;
      FromEntriesOfObject(o[..n]);
      assert Position(o[..n], o[n].key) == n;
      assert Slot(o[..n], o[n].key) == n;
      assert o == o[..n] + [o[n]];
    }
  }

  // Distinct entries are exactly the properties of the object built from them.
  lemma {:induction false} FromEntriesHolds<V>(entries: seq<Entry<V>>, e: Entry<V>)
    requires DistinctKeys(entries)
    ensures e in FromEntries(entries) <==> e in entries
  {
    if entries != [] {
      var n := |entries| - 1;
      var before := entries[..n];
      SpreadKeepsProper<V>([], before);
      FromEntriesHolds(before, e);
      PutEntries(FromEntries(before), entries[n].key, entries[n].value, e);
      assert entries == before + [entries[n]];
      if e in before {
        var i :| 0 <= i < n && entries[i] == e;
        assert e.key != entries[n].key;
      }
    }
  }

  // ---- The order depends on the keys only ----

  ghost predicate SameKeys<V>(o: seq<Entry<V>>, p: seq<Entry<V>>) {
    |o| == |p| && forall i | 0 <= i < |o| :: o[i].key == p[i].key
  }

  lemma SameKeysHold<V>(o: Object<V>, p: Object<V>, key: string)
    requires SameKeys(o, p)
    ensures HasKey(o, key) <==> HasKey(p, key)
  {
    if i :| 0 <= i < |o| && o[i].key == key { assert p[i].key == key; }
    if i :| 0 <= i < |p| && p[i].key == key { assert o[i].key == key; }
  }

  lemma {:induction false} PlaceDependsOnKeys<V>(o: Object<V>, p: Object<V>, key: string)
    requires SameKeys(o, p)
    ensures Position(o, key) == Position(p, key) && Slot(o, key) == Slot(p, key)
  {
    if o != [] {
      assert o[0].key == p[0].key;
      PlaceDependsOnKeys(o[1..], p[1..], key);
    }
  }

  // `o` and `p` have the same keys in the same order, and hold at each place one of the given pairs of properties.
  ghost predicate PairUp<V>(o: seq<Entry<V>>, p: seq<Entry<V>>, pairs: set<(Entry<V>, Entry<V>)>) {
    SameKeys(o, p) && forall i | 0 <= i < |o| :: (o[i], p[i]) in pairs
  }

  lemma PutPairsUp<V>(o: Object<V>, p: Object<V>, e: Entry<V>, f: Entry<V>, pairs: set<(Entry<V>, Entry<V>)>)
    requires PairUp(o, p, pairs)
    requires e.key == f.key && (e, f) in pairs
    ensures PairUp(Put(o, e.key, e.value), Put(p, f.key, f.value), pairs)
  {
    PlaceDependsOnKeys(o, p, e.key);
    var at, slot := Position(o, e.key), Slot(o, e.key);
    var q, r := Put(o, e.key, e.value), Put(p, f.key, f.value);
    forall i | 0 <= i < |q| ensures q[i].key == r[i].key && (q[i], r[i]) in pairs {
      if at == |o| && slot < i {
        assert q[i] == o[i - 1] && r[i] == p[i - 1];
      }
    }
  }

  lemma {:induction false} SpreadPairsUp<V>(
      o: Object<V>, p: Object<V>, es: seq<Entry<V>>, fs: seq<Entry<V>>, pairs: set<(Entry<V>, Entry<V>)>)
    requires PairUp(o, p, pairs)
    requires PairUp(es, fs, pairs)
    ensures PairUp(Spread(o, es), Spread(p, fs), pairs)
  {
    if es != [] {
      var n := |es| - 1;
      SpreadPairsUp(o, p, es[..n], fs[..n], pairs);
      PutPairsUp(Spread(o, es[..n]), Spread(p, fs[..n]), es[n], fs[n], pairs);
    }
  }

  lemma FromEntriesPairUp<V>(es: seq<Entry<V>>, fs: seq<Entry<V>>, pairs: set<(Entry<V>, Entry<V>)>)
    requires PairUp(es, fs, pairs)
    ensures PairUp(FromEntries(es), FromEntries(fs), pairs)
  {
    SpreadPairsUp([], [], es, fs, pairs);
  }

  // ---- Overlays ----

  lemma {:induction false} SpreadHolds<V>(o: Object<V>, overlay: seq<Entry<V>>, e: Entry<V>)
    requires Proper(o) && DistinctKeys(overlay)
    ensures e in Spread(o, overlay) <==> e in overlay || (e in o && !HasKey(overlay, e.key))
  {
    if overlay != [] {
      var n := |overlay| - 1;
      var before, last := overlay[..n], overlay[n];
      SpreadHolds(o, before, e);
      SpreadKeepsProper(o, before);
      PutEntries(Spread(o, before), last.key, last.value, e);
      assert overlay == before + [last];
      assert HasKey(overlay, e.key) <==> HasKey(before, e.key) || e.key == last.key by {
        if i :| 0 <= i < |before| && before[i].key == e.key { assert overlay[i].key == e.key; }
        if i :| 0 <= i < |overlay| && overlay[i].key == e.key { assert i < n ==> before[i].key == e.key; }
      }
      if e in before {
        var i :| 0 <= i < n && overlay[i] == e;
        assert e.key != last.key;
      }
    }
  }

  // Assigning to keys that are there moves nothing.
  lemma {:induction false} SpreadInPlace<V>(o: Object<V>, overlay: seq<Entry<V>>)
    requires forall i | 0 <= i < |overlay| :: HasKey(o, overlay[i].key)
    ensures SameKeys(Spread(o, overlay), o)
  {
    if overlay != [] {
      var n := |overlay| - 1;
      SpreadInPlace(o, overlay[..n]);
      var r, key := Spread(o, overlay[..n]), overlay[n].key;
      var i :| 0 <= i < |o| && o[i].key == key;
      assert r[i].key == key;
      assert Position(r, key) < |r|;
    }
  }

  lemma SameProperties<V>(o: Object<V>, p: Object<V>)
    requires DistinctKeys(o) && SameKeys(o, p)
    requires forall e :: e in o ==> e in p
    ensures o == p
  {
    forall i | 0 <= i < |o| ensures o[i] == p[i] {
      assert o[i] in p;
      var j :| 0 <= j < |p| && p[j] == o[i];
      assert o[j].key == p[j].key;
    }
  }

  // A second overlay of the same keys hides the first altogether.
  lemma SpreadTwice<V>(o: Object<V>, first: seq<Entry<V>>, second: seq<Entry<V>>)
    requires Proper(o) && DistinctKeys(first) && SameKeys(first, second)
    ensures Spread(Spread(o, first), second) == Spread(o, second)
  {
    var once, direct := Spread(o, first), Spread(o, second);
    var twice := Spread(once, second);
    SpreadKeepsProper(o, first);
    SpreadKeepsProper(once, second);
    assert DistinctKeys(second);
    var pairs := (set i | 0 <= i < |first| :: (first[i], second[i])) + (set i | 0 <= i < |o| :: (o[i], o[i]));
    SpreadPairsUp(o, o, first, second, pairs);
    assert SameKeys(once, direct);
    forall i | 0 <= i < |second| ensures HasKey(once, second[i].key) {
      SpreadHolds(o, first, first[i]);
      var j :| 0 <= j < |once| && once[j] == first[i];
      assert once[j].key == second[i].key;
    }
    SpreadInPlace(once, second);
    forall e | e in twice ensures e in direct {
      SpreadHolds(once, second, e);
      SpreadHolds(o, first, e);
      SpreadHolds(o, second, e);
      HeldAlike(first, second, e.key);
    }
    SameProperties(twice, direct);
  }

  lemma HeldAlike<V>(o: Object<V>, p: Object<V>, key: string)
    requires SameKeys(o, p)
    ensures HasKey(o, key) <==> HasKey(p, key)
  {
    if i :| 0 <= i < |o| && o[i].key == key { assert p[i].key == key; }
    if i :| 0 <= i < |p| && p[i].key == key { assert o[i].key == key; }
  }

  // Objects that hold the same property under a key, or none, answer the same for it.
  lemma HeldAlikeGetAlike<V>(o: Object<V>, p: Object<V>, key: string)
    requires DistinctKeys(o) && DistinctKeys(p)
    requires forall e: Entry<V> | e.key == key :: e in o <==> e in p
    ensures HasKey(o, key) <==> HasKey(p, key)
    ensures HasKey(o, key) ==> Get(o, key) == Get(p, key)
  {
    if HasKey(o, key) {
      GetIsHeld(o, Entry(key, Get(o, key)));
      GetIsHeld(p, Entry(key, Get(o, key)));
    }
    if HasKey(p, key) {
      GetIsHeld(p, Entry(key, Get(p, key)));
      GetIsHeld(o, Entry(key, Get(p, key)));
    }
  }

  // An overlay leaves the other keys alone, and answers for its own.
  lemma GetSpread<V>(o: Object<V>, overlay: seq<Entry<V>>, key: string)
    requires Proper(o) && DistinctKeys(overlay)
    ensures HasKey(Spread(o, overlay), key) <==> HasKey(overlay, key) || HasKey(o, key)
    ensures HasKey(overlay, key) ==> Get(Spread(o, overlay), key) == Get(overlay, key)
    ensures !HasKey(overlay, key) && HasKey(o, key) ==> Get(Spread(o, overlay), key) == Get(o, key)
  {
    var r := Spread(o, overlay);
    SpreadKeepsProper(o, overlay);
    forall e: Entry<V> | e.key == key ensures e in r <==> e in (if HasKey(overlay, key) then overlay else o) {
      SpreadHolds(o, overlay, e);
      if e in overlay {
        var i :| 0 <= i < |overlay| && overlay[i] == e;
        assert overlay[i].key == key;
      }
      if e in o && HasKey(overlay, key) {
        assert e in r <==> e in overlay;
      }
    }
    HeldAlikeGetAlike(r, if HasKey(overlay, key) then overlay else o, key);
  }
}

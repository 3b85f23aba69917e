// The order of the keys in the canonical text, told by the characters of the keys.
module CanonicalOrder {
  import opened JsObject
  import opened Json
  import opened JsonText
  import opened JsonRoundTrip
  import opened Canonical

  // ---- Properties that are no array indices keep the order they were added in ----

  lemma PutAt<V>(o: Object<V>, e: Entry<V>) returns (at: nat)
    requires !HasKey(o, e.key)
    ensures at <= |o| && Put(o, e.key, e.value) == o[..at] + [e] + o[at..]
    ensures !IsIndex(e.key) ==> at == |o|
  {
    at := Slot(o, e.key);
  }

  lemma {:induction false} AddedInOrder<V>(entries: seq<Entry<V>>, i: nat, j: nat, p: nat, q: nat)
    requires DistinctKeys(entries) && i < j < |entries|
    requires !IsIndex(entries[i].key) && !IsIndex(entries[j].key)
    requires p < |FromEntries(entries)| && FromEntries(entries)[p].key == entries[i].key
    requires q < |FromEntries(entries)| && FromEntries(entries)[q].key == entries[j].key
    ensures p < q
  {
    var n := |entries| - 1;
    var before, last := FromEntries(entries[..n]), entries[n];
    LastIsNew(entries);
    var at := PutAt(before, last);
    assert FromEntries(entries) == before[..at] + [last] + before[at..];
    Back(before, at, last, p);
    if j < n {
      Back(before, at, last, q);
      AddedInOrder(entries[..n], i, j, if p < at then p else p - 1, if q < at then q else q - 1);
    } else {
      AtTheEnd(before, last, q);
    }
  }

  lemma AtTheEnd<V>(before: Object<V>, last: Entry<V>, q: nat)
    requires !HasKey(before, last.key)
    requires q <= |before| && (before[..|before|] + [last] + before[|before|..])[q].key == last.key
    ensures q == |before|
  {
    NotAmong(before, last.key);
  }

  lemma NotAmong<V>(o: Object<V>, key: string)
    requires !HasKey(o, key)
    ensures forall i | 0 <= i < |o| :: o[i].key != key
  {
  }

  // Where a property was before another one was put in.
  lemma Back<V>(o: Object<V>, at: nat, e: Entry<V>, p: nat)
    requires at <= |o| && p <= |o| && (o[..at] + [e] + o[at..])[p].key != e.key
    ensures p != at && o[if p < at then p else p - 1] == (o[..at] + [e] + o[at..])[p]
  {
  }

  lemma LastIsNew<V>(entries: seq<Entry<V>>)
    requires DistinctKeys(entries) && entries != []
    ensures !HasKey(FromEntries(entries[..|entries| - 1]), entries[|entries| - 1].key)
  {
    var n := |entries| - 1;
    var before := FromEntries(entries[..n]);
    forall i | 0 <= i < |before| ensures before[i].key != entries[n].key {
      FromEntriesHolds(entries[..n], before[i]);
      assert before[i] in before;
      var j :| 0 <= j < n && entries[..n][j] == before[i];
    }
  }

  // ---- Keys compared character by character ----

  lemma {:induction false} BelowAt(k: string, l: string, i: nat)
    requires i <= |k| && i < |l| && k[..i] == l[..i]
    requires i == |k| || Rank(k[i]) < Rank(l[i])
    ensures Below(k, l)
  {
    if i > 0 {
      assert k[0] == k[..i][0] == l[..i][0] == l[0];
      assert k[1..][..i - 1] == k[..i][1..] == l[..i][1..] == l[1..][..i - 1];
      BelowAt(k[1..], l[1..], i - 1);
    }
  }

  lemma SortedBefore(fields: Object<Json>, k: string, l: string, p: nat, q: nat)
    requires DistinctKeys(fields) && Below(k, l)
    requires !IsIndex(k) && !IsIndex(l)
    requires p < |FromEntries(SortedEntries(fields))| && FromEntries(SortedEntries(fields))[p].key == k
    requires q < |FromEntries(SortedEntries(fields))| && FromEntries(SortedEntries(fields))[q].key == l
    ensures p < q
  {
    var es := SortedEntries(fields);
    var o := FromEntries(es);
    SortedEntriesDistinct(fields);
    FromEntriesHolds(es, o[p]);
    FromEntriesHolds(es, o[q]);
    assert o[p] in o && o[q] in o;
    var i :| 0 <= i < |es| && es[i] == o[p];
    var j :| 0 <= j < |es| && es[j] == o[q];
    var keys := SortTexts(Keys(fields));
    assert keys[i] == k && keys[j] == l;
    if j <= i {
      BelowIsStrict(k);
      if j < i { BelowIsTransitive(k, l, k); }
      assert false;
    }
    AddedInOrder(es, i, j, p, q);
  }

  // Of two keys that are no array indices the canonical object holds first the one that the other goes on from, or whose
  // character is smaller at the first place where they differ, except that the characters above U+FFFF, which take two
  // UTF-16 units from U+D800 on, come before those from U+E000 to U+FFFF.
  lemma KeysInCharOrder(fields: Object<Json>, k: string, l: string, at: nat)
    requires Proper(fields) && HasKey(fields, k) && HasKey(fields, l)
    requires !IsIndex(k) && !IsIndex(l)
    requires at <= |k| && at < |l| && k[..at] == l[..at]
    requires
      || at == |k|
      || (k[at] < l[at] && (l[at] < '\U{E000}' || k[at] >= '\U{E000}') && (l[at] < '\U{10000}' || k[at] >= '\U{10000}'))
      || (k[at] < '\U{E000}' && l[at] >= '\U{E000}')
      || (k[at] >= '\U{10000}' && '\U{E000}' <= l[at] < '\U{10000}')
    ensures SortKeys(Obj(fields)).Obj?
    ensures var sorted := SortKeys(Obj(fields)).fields;
            exists p, q | 0 <= p < q < |sorted| :: sorted[p].key == k && sorted[q].key == l
    ensures var sorted := SortKeys(Obj(fields)).fields;
            forall p, q | 0 <= p < |sorted| && 0 <= q < |sorted| && sorted[p].key == k && sorted[q].key == l :: p < q
  {
    BelowAt(k, l, at);
    var sorted := SortKeys(Obj(fields)).fields;
    forall p, q | 0 <= p < |sorted| && 0 <= q < |sorted| && sorted[p].key == k && sorted[q].key == l ensures p < q {
      SortedBefore(fields, k, l, p, q);
    }
    var p := SortedHolds(fields, k);
    var q := SortedHolds(fields, l);
    assert sorted[p].key == k && sorted[q].key == l;
  }

  lemma SortedHolds(fields: Object<Json>, key: string) returns (p: nat)
    requires DistinctKeys(fields) && HasKey(fields, key)
    ensures p < |FromEntries(SortedEntries(fields))| && FromEntries(SortedEntries(fields))[p].key == key
  {
    var i :| 0 <= i < |fields| && fields[i].key == key;
    var e := Entry(key, SortKeys(fields[i].value));
    SortedEntriesDistinct(fields);
    FieldIsASortedEntry(fields, i);
    FromEntriesHolds(SortedEntries(fields), e);
    p :| 0 <= p < |FromEntries(SortedEntries(fields))| && FromEntries(SortedEntries(fields))[p] == e;
  }

  // ---- Array indices ----

  ghost predicate AllDigits(s: string) {
    forall i | 0 <= i < |s| :: '0' <= s[i] <= '9'
  }

  function Pow10(n: nat): nat {
    if n == 0 then 1 else 10 * Pow10(n - 1)
  }

  lemma {:induction false} ValueBound(s: string)
    requires forall c | c in s :: IsDigit(c)
    ensures DecimalValue(s) < Pow10(|s|)
    ensures s != "" && s[0] != '0' ==> DecimalValue(s) >= Pow10(|s| - 1)
  {
    if s != "" {
      var n := |s| - 1;
      assert s[n] in s;
      ValueBound(s[..n]);
      if n == 0 {
        assert s[..n] == "";
      } else {
        assert s[..n][0] == s[0];
        assert Pow10(n) == 10 * Pow10(n - 1);
      }
    }
  }

  lemma {:induction false} ValueOrder(s: string, t: string, at: nat)
    requires |s| == |t| && at < |s| && s[..at] == t[..at] && s[at] < t[at]
    requires (forall c | c in s :: IsDigit(c)) && (forall c | c in t :: IsDigit(c))
    ensures DecimalValue(s) < DecimalValue(t)
  {
    var n := |s| - 1;
    assert s[n] in s && t[n] in t;
    if at == n {
      assert s[..n] == t[..n];
    } else {
      assert s[..n][..at] == s[..at] && t[..n][..at] == t[..at];
      ValueOrder(s[..n], t[..n], at);
    }
  }

  lemma {:induction false} PowGrows(a: nat, b: nat)
    requires a <= b
    ensures Pow10(a) <= Pow10(b)
  {
    if a < b { PowGrows(a, b - 1); }
  }

  lemma DigitsHold(s: string)
    requires AllDigits(s)
    ensures forall c | c in s :: IsDigit(c)
  {
  }

  lemma ShortIsIndex(key: string)
    requires key != "" && |key| <= 9 && AllDigits(key) && (key[0] != '0' || key == "0")
    ensures IsIndex(key)
  {
    DigitsHold(key);
    ValueBound(key);
    PowGrows(|key|, 9);
    NineDigits();
  }

  lemma NineDigits()
    ensures Pow10(9) <= MAX_INDEX
  {
    assert Pow10(4) == 10000;
    assert Pow10(8) == 10000 * 10000;
  }

  // In every object JavaScript can hold, a key of at most nine digits without a leading zero comes before every key that
  // holds anything but digits, and before every such key that is a greater number.
  lemma IndexKeysFirst<V>(o: Object<V>, p: nat, q: nat)
    requires Proper(o) && p < |o| && q < |o|
    requires var k := o[p].key; k != "" && |k| <= 9 && AllDigits(k) && (k[0] != '0' || k == "0")
    requires var k, l := o[p].key, o[q].key;
             || (exists i :: 0 <= i < |l| && !('0' <= l[i] <= '9'))
             || (l != "" && |l| <= 9 && AllDigits(l) && l[0] != '0' &&
                 (|k| < |l| || (|k| == |l| && exists i :: 0 <= i < |k| && k[..i] == l[..i] && k[i] < l[i])))
    ensures p < q
  {
    var k, l := o[p].key, o[q].key;
    ShortIsIndex(k);
    if i :| 0 <= i < |l| && !('0' <= l[i] <= '9') {
      assert l[i] in l && !IsDigit(l[i]);
      assert Earlier(k, l);
    } else {
      ShortIsIndex(l);
      DigitsHold(k);
      DigitsHold(l);
      ValueBound(k);
      ValueBound(l);
      if |k| < |l| {
        PowGrows(|k|, |l| - 1);
      } else {
        var i :| 0 <= i < |k| && k[..i] == l[..i] && k[i] < l[i];
        ValueOrder(k, l, i);
      }
      assert Earlier(k, l);
    }
  }
}

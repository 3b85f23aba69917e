// `canonicalJson`: one JSON document with its keys sorted, so that equal text means equal up to key order.
module Canonical {
  import opened JsObject
  import opened Json
  import opened JsonText
  import opened JsonRoundTrip

  // ---- The order of `Array.prototype.sort()`: by UTF-16 code units ----

  // Characters beyond U+FFFF are written with units U+D800 to U+DFFF, so they sort before U+E000 to U+FFFF.
  function Rank(c: char): int {
    if '\U{E000}' <= c <= '\U{FFFF}' then c as int + 0x11_0000 else c as int
  }

  predicate Below(a: string, b: string) {
    b != "" && (a == "" || Rank(a[0]) < Rank(b[0]) || (a[0] == b[0] && Below(a[1..], b[1..])))
  }

  lemma {:induction false} BelowIsStrict(a: string)
    ensures !Below(a, a)
  {
    if a != "" {
      BelowIsStrict(a[1..]);
    }
  }

  lemma {:induction false} BelowIsTransitive(a: string, b: string, c: string)
    requires Below(a, b) && Below(b, c)
    ensures Below(a, c)
  {
    if a != "" && a[0] == b[0] && b[0] == c[0] {
      if Below(a[1..], b[1..]) && Below(b[1..], c[1..]) {
        BelowIsTransitive(a[1..], b[1..], c[1..]);
      }
    }
  }

  lemma {:induction false} BelowIsTotal(a: string, b: string)
    ensures Below(a, b) || a == b || Below(b, a)
  {
    if a != "" && b != "" && a[0] == b[0] {
      BelowIsTotal(a[1..], b[1..]);
      assert a == [a[0]] + a[1..] && b == [b[0]] + b[1..];
    }
  }

  ghost predicate Ascending(keys: seq<string>) {
    forall i, j | 0 <= i < j < |keys| :: Below(keys[i], keys[j])
  }

  function Insert(key: string, keys: seq<string>): (r: seq<string>)
    ensures |r| == |keys| + 1
    ensures forall k :: k in r <==> k == key || k in keys
  {
    if keys == [] || Below(key, keys[0]) then [key] + keys
    else
      var others := Insert(key, keys[1..]);
      assert forall k :: k in keys <==> k == keys[0] || k in keys[1..];
      [keys[0]] + others
  }

  // `keys.sort()`
  function SortTexts(keys: seq<string>): (r: seq<string>)
    ensures |r| == |keys|
    ensures forall k :: k in r <==> k in keys
  {
    if keys == [] then [] else Insert(keys[0], SortTexts(keys[1..]))
  }

  lemma {:induction false} InsertAscends(key: string, keys: seq<string>)
    requires Ascending(keys)
    requires key !in keys
    ensures Ascending(Insert(key, keys))
  {
    if keys == [] {
    } else if Below(key, keys[0]) {
      forall j | 0 < j < |keys| ensures Below(key, keys[j]) {
        BelowIsTransitive(key, keys[0], keys[j]);
      }
    } else {
      BelowIsTotal(key, keys[0]);
      InsertAscends(key, keys[1..]);
      var others := Insert(key, keys[1..]);
      forall j | 0 <= j < |others| ensures Below(keys[0], others[j]) {
        assert others[j] in others;
      }
    }
  }

  lemma {:induction false} SortAscends(keys: seq<string>)
    requires forall i, j | 0 <= i < j < |keys| :: keys[i] != keys[j]
    ensures Ascending(SortTexts(keys))
  {
    if keys != [] {
      SortAscends(keys[1..]);
      InsertAscends(keys[0], SortTexts(keys[1..]));
    }
  }

  // Only one ascending list holds a given set of keys.
  lemma {:induction false} AscendingIsUnique(keys: seq<string>, others: seq<string>)
    requires Ascending(keys) && Ascending(others)
    requires forall k :: k in keys <==> k in others
    ensures keys == others
  {
    if keys == [] {
      if others != [] {
        SameHead(others, keys);
      }
    } else {
      SameHead(keys, others);
      forall k ensures k in keys[1..] <==> k in others[1..] {
        HeadIsNotInTail(keys);
        HeadIsNotInTail(others);
        assert k in keys <==> k == keys[0] || k in keys[1..];
        assert k in others <==> k == others[0] || k in others[1..];
      }
      AscendingIsUnique(keys[1..], others[1..]);
      assert keys == [keys[0]] + keys[1..] && others == [others[0]] + others[1..];
    }
  }

  lemma HeadIsNotInTail(keys: seq<string>)
    requires keys != [] && Ascending(keys)
    ensures keys[0] !in keys[1..]
  {
    BelowIsStrict(keys[0]);
  }

  lemma SameHead(keys: seq<string>, others: seq<string>)
    requires Ascending(keys) && Ascending(others)
    requires keys != []
    requires forall k :: k in keys <==> k in others
    ensures others != [] && keys[0] == others[0]
  {
    assert keys[0] in others;
    assert others[0] in keys;
    var i :| 0 <= i < |others| && others[i] == keys[0];
    var j :| 0 <= j < |keys| && keys[j] == others[0];
    if i > 0 && j > 0 {
      BelowIsTransitive(keys[0], keys[j], others[i]);
      BelowIsStrict(keys[0]);
    }
  }

  // ---- sortKeys and canonicalJson ----

  function SortKeys(v: Json): Json
    decreases v, 1
  {
    match v
    case Arr(items) => Arr(seq(|items|, i requires 0 <= i < |items| => SortKeys(items[i])))
    case Obj(fields) => Obj(FromEntries(SortedEntries(fields)))
    case _ => v
  }

  // `Object.keys(record).sort().map((key) => [key, sortKeys(record[key])])`
  function SortedEntries(fields: Object<Json>): (es: seq<Entry<Json>>)
    ensures |es| == |fields|
    ensures forall i | 0 <= i < |es| :: es[i].key == SortTexts(Keys(fields))[i]
    decreases fields, 0
  {
    var keys := SortTexts(Keys(fields));
    seq(|keys|, i requires 0 <= i < |keys| =>
      assert keys[i] in Keys(fields);
      Entry(keys[i], SortKeys(fields[Position(fields, keys[i])].value)))
  }

  // `canonicalJson(value)`
  function CanonicalJson(v: Json): string {
    Stringify(SortKeys(v), "  ") + "\n"
  }

  // ---- What sorting keeps ----

  lemma SortedEntriesDistinct(fields: Object<Json>)
    requires DistinctKeys(fields)
    ensures DistinctKeys(SortedEntries(fields))
    ensures Ascending(SortTexts(Keys(fields)))
  {
    var keys := SortTexts(Keys(fields));
    SortAscends(Keys(fields));
    var es := SortedEntries(fields);
    forall i, j | 0 <= i < j < |es| ensures es[i].key != es[j].key {
      BelowIsStrict(keys[i]);
    }
  }

  // The properties of the sorted object are the sorted properties of the object.
  lemma SortedEntriesHold(fields: Object<Json>, e: Entry<Json>)
    requires DistinctKeys(fields)
    ensures e in SortedEntries(fields) <==>
            exists i | 0 <= i < |fields| :: e == Entry(fields[i].key, SortKeys(fields[i].value))
  {
    if e in SortedEntries(fields) {
      SortedEntryIsAField(fields, e);
    }
    if i :| 0 <= i < |fields| && e == Entry(fields[i].key, SortKeys(fields[i].value)) {
      FieldIsASortedEntry(fields, i);
    }
  }

  lemma SortedEntryIsAField(fields: Object<Json>, e: Entry<Json>)
    requires e in SortedEntries(fields)
    ensures exists i | 0 <= i < |fields| :: e == Entry(fields[i].key, SortKeys(fields[i].value))
  {
    var keys, es := SortTexts(Keys(fields)), SortedEntries(fields);
    var n :| 0 <= n < |es| && es[n] == e;
    assert keys[n] in Keys(fields);
    var i := Position(fields, keys[n]);
    assert e == Entry(fields[i].key, SortKeys(fields[i].value));
  }

  lemma FieldIsASortedEntry(fields: Object<Json>, i: nat)
    requires DistinctKeys(fields) && i < |fields|
    ensures Entry(fields[i].key, SortKeys(fields[i].value)) in SortedEntries(fields)
  {
    var keys, es := SortTexts(Keys(fields)), SortedEntries(fields);
    assert Keys(fields)[i] == fields[i].key;
    assert fields[i].key in keys;
    var n :| 0 <= n < |keys| && keys[n] == fields[i].key;
    assert Position(fields, keys[n]) == i;
    assert es[n] == Entry(fields[i].key, SortKeys(fields[i].value));
  }

  // A property of the sorted object is a property of the object with its value sorted.
  lemma SortedFieldComesFrom(fields: Object<Json>, e: Entry<Json>) returns (i: nat)
    requires DistinctKeys(fields)
    requires e in FromEntries(SortedEntries(fields))
    ensures i < |fields| && e == Entry(fields[i].key, SortKeys(fields[i].value))
  {
    SortedEntriesDistinct(fields);
    FromEntriesHolds(SortedEntries(fields), e);
    SortedEntriesHold(fields, e);
    i :| 0 <= i < |fields| && e == Entry(fields[i].key, SortKeys(fields[i].value));
  }

  lemma {:induction false} SortKeysIsSound(v: Json, canon: Numeral -> Numeral)
    requires Sound(v, canon)
    ensures Sound(SortKeys(v), canon)
    decreases v
  {
    match v
    case Arr(items) => forall i | 0 <= i < |items| { SortKeysIsSound(items[i], canon); }
    case Obj(fields) =>
      SpreadKeepsProper<Json>([], SortedEntries(fields));
      var o := FromEntries(SortedEntries(fields));
      forall n | 0 <= n < |o| ensures Sound(o[n].value, canon) {
        var i := SortedFieldComesFrom(fields, o[n]);
        SortKeysIsSound(fields[i].value, canon);
      }
    case _ =>
  }

  // ---- Equal bytes, equal values ----

  // Sorting depends on the keys and the values only, not on the order the keys came in.
  lemma {:induction false} EquivalentSortAlike(v: Json, w: Json)
    requires WellFormed(v) && WellFormed(w)
    requires Equivalent(v, w)
    ensures SortKeys(v) == SortKeys(w)
    decreases v
  {
    match v
    case Arr(items) =>
      forall i | 0 <= i < |items| { EquivalentSortAlike(items[i], w.items[i]); }
    case Obj(fields) =>
      SameKeysSortAlike(fields, w.fields);
      var keys, es, fs := SortTexts(Keys(fields)), SortedEntries(fields), SortedEntries(w.fields);
      forall n | 0 <= n < |es| ensures es[n] == fs[n] {
        assert keys[n] in Keys(fields) && keys[n] in Keys(w.fields);
        var i, j := Position(fields, keys[n]), Position(w.fields, keys[n]);
        EquivalentSortAlike(fields[i].value, w.fields[j].value);
      }
      assert es == fs;
    case _ =>
  }

  lemma SameKeysSortAlike(o: Object<Json>, p: Object<Json>)
    requires DistinctKeys(o) && DistinctKeys(p)
    requires forall key :: HasKey(o, key) <==> HasKey(p, key)
    ensures SortTexts(Keys(o)) == SortTexts(Keys(p))
  {
    SortAscends(Keys(o));
    SortAscends(Keys(p));
    forall k ensures k in SortTexts(Keys(o)) <==> k in SortTexts(Keys(p)) {
      KeysHold(o, k);
      KeysHold(p, k);
    }
    AscendingIsUnique(SortTexts(Keys(o)), SortTexts(Keys(p)));
  }

  lemma KeysHold(o: Object<Json>, key: string)
    ensures key in Keys(o) <==> HasKey(o, key)
  {
    if HasKey(o, key) {
      var i :| 0 <= i < |o| && o[i].key == key;
      assert Keys(o)[i] == key;
    }
  }

  lemma {:induction false} SortAlikeIsEquivalent(v: Json, w: Json)
    requires WellFormed(v) && WellFormed(w)
    requires SortKeys(v) == SortKeys(w)
    ensures Equivalent(v, w)
    decreases v
  {
    match v
    case Arr(items) =>
      forall i | 0 <= i < |items| ensures Equivalent(items[i], w.items[i]) {
        assert SortKeys(v).items[i] == SortKeys(w).items[i];
        SortAlikeIsEquivalent(items[i], w.items[i]);
      }
    case Obj(fields) =>
      forall i | 0 <= i < |fields| ensures HasKey(w.fields, fields[i].key) {
        var j := SortedAlikeHolds(fields, w.fields, i);
      }
      forall j | 0 <= j < |w.fields| ensures HasKey(fields, w.fields[j].key) {
        var i := SortedAlikeHolds(w.fields, fields, j);
      }
      forall i, j | 0 <= i < |fields| && 0 <= j < |w.fields| && fields[i].key == w.fields[j].key
        ensures Equivalent(fields[i].value, w.fields[j].value)
      {
        var j' := SortedAlikeHolds(fields, w.fields, i);
        SortAlikeIsEquivalent(fields[i].value, w.fields[j].value);
      }
    case _ =>
  }

  // A property of one object is, sorted, a property of another that sorts alike.
  lemma SortedAlikeHolds(o: Object<Json>, p: Object<Json>, i: nat) returns (j: nat)
    requires DistinctKeys(o) && DistinctKeys(p)
    requires FromEntries(SortedEntries(o)) == FromEntries(SortedEntries(p))
    requires i < |o|
    ensures j < |p| && p[j].key == o[i].key && SortKeys(p[j].value) == SortKeys(o[i].value)
  {
    var e := Entry(o[i].key, SortKeys(o[i].value));
    SortedEntriesHold(o, e);
    SortedEntriesDistinct(o);
    SortedEntriesDistinct(p);
    FromEntriesHolds(SortedEntries(o), e);
    FromEntriesHolds(SortedEntries(p), e);
    SortedEntriesHold(p, e);
    j :| 0 <= j < |p| && e == Entry(p[j].key, SortKeys(p[j].value));
  }

  lemma TwoSpaces()
    ensures IsSpace("  ")
  {
  }

  // Two values have the same canonical text exactly when they are equal up to the order of object keys.
  lemma CanonicalTextDecides(v: Json, w: Json)
    requires WellFormed(v) && WellFormed(w)
    ensures CanonicalJson(v) == CanonicalJson(w) <==> Equivalent(v, w)
  {
    if Equivalent(v, w) {
      EquivalentSortAlike(v, w);
    }
    if CanonicalJson(v) == CanonicalJson(w) {
      var s, t := SortKeys(v), SortKeys(w);
      assert Stringify(s, "  ") == CanonicalJson(v)[..|CanonicalJson(v)| - 1];
      assert Stringify(t, "  ") == CanonicalJson(w)[..|CanonicalJson(w)| - 1];
      EverySettled(v);
      EverySettled(w);
      SortKeysIsSound(v, (n: Numeral) => n);
      SortKeysIsSound(w, (n: Numeral) => n);
      TwoSpaces();
      StringifyIsInjective(s, t, "  ");
      SortAlikeIsEquivalent(v, w);
    }
  }

  lemma {:induction false} SortKeysIsEquivalent(v: Json)
    requires WellFormed(v)
    ensures Equivalent(v, SortKeys(v))
    decreases v
  {
    match v
    case Arr(items) => forall i | 0 <= i < |items| { SortKeysIsEquivalent(items[i]); }
    case Obj(fields) =>
      var o := FromEntries(SortedEntries(fields));
      forall i | 0 <= i < |fields| ensures HasKey(o, fields[i].key) {
        var e := Entry(fields[i].key, SortKeys(fields[i].value));
        SortedEntriesHold(fields, e);
        SortedEntriesDistinct(fields);
        FromEntriesHolds(SortedEntries(fields), e);
      }
      forall n | 0 <= n < |o| ensures HasKey(fields, o[n].key) {
        var i := SortedFieldComesFrom(fields, o[n]);
      }
      forall i, n | 0 <= i < |fields| && 0 <= n < |o| && fields[i].key == o[n].key
        ensures Equivalent(fields[i].value, o[n].value)
      {
        var j := SortedFieldComesFrom(fields, o[n]);
        SortKeysIsEquivalent(fields[i].value);
      }
    case _ =>
  }

  // The canonical text holds the value up to key order: read back, it is the value with its keys sorted, and sorting
  // and printing that again gives the same text.
  lemma CanonicalTextParses(v: Json, canon: Numeral -> Numeral)
    requires Sound(v, canon)
    ensures Parse(CanonicalJson(v), canon) == Value(SortKeys(v))
    ensures Equivalent(v, SortKeys(v))
    ensures CanonicalJson(SortKeys(v)) == CanonicalJson(v)
  {
    SortKeysIsSound(v, canon);
    TwoSpaces();
    PrintThen(SortKeys(v), "  ", "", "", "\n");
    assert "" + "\n" == "\n";
    ParseStringify(SortKeys(v), "  ", "\n", canon);
    SortKeysIsEquivalent(v);
    EquivalentSortAlike(v, SortKeys(v));
  }
}

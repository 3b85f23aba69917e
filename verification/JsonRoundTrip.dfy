// Reading back what was printed gives the same value, whatever the indent, so printing is injective.
module JsonRoundTrip {
  import opened JsObject
  import opened Json
  import opened JsonText

  ghost predicate IsSpace(s: string) {
    forall c | c in s :: IsJsonSpace(c)
  }

  // Numbers carry the text JavaScript prints them with.
  ghost predicate Settled(v: Json, canon: Numeral -> Numeral)
    decreases v
  {
    match v
    case Num(text) => canon(text) == text
    case Arr(items) => forall i | 0 <= i < |items| :: Settled(items[i], canon)
    case Obj(fields) => forall i | 0 <= i < |fields| :: Settled(fields[i].value, canon)
    case _ => true
  }

  ghost predicate EndsValue(rest: string) {
    rest != "" ==> !IsNumeralChar(rest[0])
  }

  // ---- Space ----

  lemma {:induction false} SkipSpaceSkips(space: string, rest: string)
    requires IsSpace(space)
    requires rest != "" ==> !IsJsonSpace(rest[0])
    ensures SkipSpace(space + rest) == rest
  {
    if space == "" {
      assert space + rest == rest;
    } else {
      assert (space + rest)[1..] == space[1..] + rest;
      SkipSpaceSkips(space[1..], rest);
    }
  }

  // ---- Strings ----

  lemma HexDigitRead(n: nat)
    requires n < 16
    ensures HexValue(HexDigit(n)) == n
  {
  }

  lemma ReadControlEscape(c: char, rest: string)
    requires c < ' '
    ensures ReadUnicodeEscape("00" + [HexDigit(c as int / 16), HexDigit(c as int % 16)] + rest) == Read(c, rest)
  {
    HexDigitRead(c as int / 16);
    HexDigitRead(c as int % 16);
    var s := "00" + [HexDigit(c as int / 16), HexDigit(c as int % 16)] + rest;
    assert s[4..] == rest;
    assert HexUnit(s) == c as int;
  }

  // An escaped character is read back as itself and takes ReadChars past no quotation mark.
  lemma ReadEscapedChar(c: char, rest: string)
    ensures var s := EscapeChar(c) + rest;
            && s[0] >= ' ' && s[0] != '\"'
            && (if s[0] == '\\' then ReadEscape(s[1..]) else Read(s[0], s[1..])) == Read(c, rest)
  {
    var s := EscapeChar(c) + rest;
    if s[0] == '\\' && s[1] == 'u' {
      ReadControlEscape(c, rest);
      assert s[1..][1..] == "00" + [HexDigit(c as int / 16), HexDigit(c as int % 16)] + rest;
    } else if s[0] == '\\' {
      assert s[1..][1..] == rest;
    } else {
      assert s[1..] == rest;
    }
  }

  lemma {:induction false} ReadEscaped(s: string, rest: string)
    ensures ReadChars(Escape(s, "\"" + rest)) == Read(s, rest)
  {
    if s == "" {
      assert ("\"" + rest)[1..] == rest;
    } else {
      var others := Escape(s[1..], "\"" + rest);
      ReadEscapedChar(s[0], others);
      ReadEscaped(s[1..], rest);
      assert s == [s[0]] + s[1..];
    }
  }

  lemma ReadQuoted(s: string, rest: string)
    ensures ReadString(Quote(s, rest)) == Read(s, rest)
  {
    assert Quote(s, rest)[1..] == Escape(s, "\"" + rest);
    ReadEscaped(s, rest);
  }

  // ---- Numbers ----

  lemma {:induction false} NumeralRunStops(run: string, rest: string)
    requires forall c | c in run :: IsNumeralChar(c)
    requires EndsValue(rest)
    ensures NumeralRun(run + rest) == run
  {
    if run == "" {
      assert run + rest == rest;
    } else {
      assert (run + rest)[1..] == run[1..] + rest;
      NumeralRunStops(run[1..], rest);
    }
  }

  ghost predicate NumeralCharsOnly(s: string) {
    forall c | c in s :: IsNumeralChar(c)
  }

  lemma JoinNumeralChars(a: string, b: string)
    requires NumeralCharsOnly(a) && NumeralCharsOnly(b)
    ensures NumeralCharsOnly(a + b)
  {
  }

  lemma ExponentChars(s: string)
    requires IsExponent(s)
    ensures NumeralCharsOnly(s)
  {
    if s != "" {
      var signed := |s| > 1 && (s[1] == '+' || s[1] == '-');
      var head, body := if signed then s[..2] else s[..1], if signed then s[2..] else s[1..];
      assert NumeralCharsOnly(LeadingDigits(body));
      JoinNumeralChars(head, body);
      assert s == head + body;
    }
  }

  lemma AfterPoint(s: string, digits: string)
    requires s != "" && s[0] == '.' && digits <= s[1..]
    requires NumeralCharsOnly(digits + s[1 + |digits|..])
    ensures NumeralCharsOnly(s)
  {
    assert s[1..] == digits + s[1 + |digits|..];
    JoinNumeralChars(s[..1], s[1..]);
    assert s == s[..1] + s[1..];
  }

  lemma FractionAndExponentChars(s: string)
    requires IsFractionAndExponent(s)
    ensures NumeralCharsOnly(s)
  {
    if s != "" && s[0] == '.' {
      var digits := LeadingDigits(s[1..]);
      var tail := s[1 + |digits|..];
      ExponentChars(tail);
      JoinNumeralChars(digits, tail);
      AfterPoint(s, digits);
    } else {
      ExponentChars(s);
    }
  }

  lemma UnsignedChars(s: string)
    requires IsUnsigned(s)
    ensures s != "" && IsDigit(s[0])
    ensures NumeralCharsOnly(s)
  {
    var whole := LeadingDigits(s);
    var tail := s[|whole|..];
    FractionAndExponentChars(tail);
    JoinNumeralChars(whole, tail);
    assert s == whole + tail;
    assert whole[0] in whole;
  }

  lemma NumeralChars(text: string)
    requires IsNumeral(text)
    ensures text != "" && (text[0] == '-' || IsDigit(text[0]))
    ensures NumeralCharsOnly(text)
  {
    if text[0] == '-' {
      UnsignedChars(text[1..]);
      JoinNumeralChars(text[..1], text[1..]);
      assert text == text[..1] + text[1..];
    } else {
      UnsignedChars(text);
    }
  }

  lemma ReadNumber(text: Numeral, rest: string, canon: Numeral -> Numeral)
    requires canon(text) == text
    requires EndsValue(rest)
    ensures ReadScalar(text + rest, canon) == Read(Num(text), rest)
  {
    NumeralChars(text);
    NumeralRunStops(text, rest);
    assert (text + rest)[|text|..] == rest;
    assert (text + rest)[0] == text[0];
  }

  // ---- Values ----

  lemma SpaceBefore(gap: string, margin: string, t: string)
    requires IsSpace(margin)
    requires t != "" && !IsJsonSpace(t[0])
    ensures SkipSpace(NewLine(gap, margin, t)) == t
  {
    if gap != "" {
      var space := "\n" + margin;
      assert IsSpace(space);
      SkipSpaceSkips(space, t);
      assert NewLine(gap, margin, t) == space + t;
    }
  }

  lemma EndsAtBreak(gap: string, margin: string, c: char, rest: string)
    requires !IsNumeralChar(c)
    ensures EndsValue(NewLine(gap, margin, [c] + rest))
  {
  }

  // A printed value starts with a character that is no space and closes nothing.
  lemma PrintStarts(v: Json, gap: string, margin: string, rest: string)
    ensures var text := Print(v, gap, margin, rest);
            text != "" && !IsJsonSpace(text[0]) && text[0] != ']' && text[0] != '}'
  {
    if v.Num? {
      NumeralChars(v.text);
    }
  }

  // The reader finds the closing bracket, or goes on after a comma.
  lemma ReadLastItem(s: string, v: Json, gap: string, margin: string, rest: string, canon: Numeral -> Numeral)
    requires IsSpace(margin)
    requires ReadValue(s, canon) == Read(v, NewLine(gap, margin, "]" + rest))
    ensures ReadItems(s, canon) == Read([v], rest)
  {
    SpaceBefore(gap, margin, "]" + rest);
  }

  lemma ReadNextItem(s: string, v: Json, others: string, vs: seq<Json>, rest: string, canon: Numeral -> Numeral)
    requires ReadValue(s, canon) == Read(v, "," + others)
    requires ReadItems(others, canon) == Read(vs, rest)
    ensures ReadItems(s, canon) == Read([v] + vs, rest)
  {
    assert SkipSpace("," + others) == "," + others;
    assert ("," + others)[1..] == others;
  }

  lemma ReadLastMember(s: string, e: Entry<Json>, gap: string, margin: string, rest: string, canon: Numeral -> Numeral)
    requires IsSpace(margin)
    requires ReadMember(s, canon) == Read(e, NewLine(gap, margin, "}" + rest))
    ensures ReadMembers(s, canon) == Read([e], rest)
  {
    SpaceBefore(gap, margin, "}" + rest);
  }

  lemma ReadNextMember(
      s: string, e: Entry<Json>, others: string, es: seq<Entry<Json>>, rest: string, canon: Numeral -> Numeral)
    requires ReadMember(s, canon) == Read(e, "," + others)
    requires ReadMembers(others, canon) == Read(es, rest)
    ensures ReadMembers(s, canon) == Read([e] + es, rest)
  {
    assert SkipSpace("," + others) == "," + others;
    assert ("," + others)[1..] == others;
  }

  lemma ReadMemberText(
      key: string, v: Json, value: string, gap: string, margin: string, rest: string, canon: Numeral -> Numeral)
    requires IsSpace(margin)
    requires value != "" && !IsJsonSpace(value[0])
    requires ReadHere(value, canon) == Read(v, rest)
    ensures ReadMember(NewLine(gap, margin, Quote(key, Colon(gap, value))), canon) == Read(Entry(key, v), rest)
  {
    var tail := Colon(gap, value);
    SpaceBefore(gap, margin, Quote(key, tail));
    ReadQuoted(key, tail);
    assert SkipSpace(tail) == tail;
    SkipSpaceSkips(if gap == "" then "" else " ", value);
    assert tail[1..] == (if gap == "" then "" else " ") + value;
  }

  lemma ReadArrayText(items: seq<Json>, text: string, rest: string, canon: Numeral -> Numeral)
    requires SkipSpace(text) != "" && SkipSpace(text)[0] != ']'
    requires ReadItems(text, canon) == Read(items, rest)
    ensures ReadHere("[" + text, canon) == Read(Arr(items), rest)
  {
    assert ("[" + text)[1..] == text;
  }

  lemma ReadObjectText(fields: Object<Json>, text: string, rest: string, canon: Numeral -> Numeral)
    requires Proper(fields)
    requires SkipSpace(text) != "" && SkipSpace(text)[0] != '}'
    requires ReadMembers(text, canon) == Read(fields, rest)
    ensures ReadHere("{" + text, canon) == Read(Obj(fields), rest)
  {
    assert ("{" + text)[1..] == text;
    FromEntriesOfObject(fields);
  }

  lemma ReadEmpty(rest: string, canon: Numeral -> Numeral)
    ensures ReadHere("[" + ("]" + rest), canon) == Read(Arr([]), rest)
    ensures ReadHere("{" + ("}" + rest), canon) == Read(Obj([]), rest)
  {
    assert ("[" + ("]" + rest))[1..] == "]" + rest && ("]" + rest)[1..] == rest;
    assert ("{" + ("}" + rest))[1..] == "}" + rest && ("}" + rest)[1..] == rest;
    assert SkipSpace("]" + rest) == "]" + rest && SkipSpace("}" + rest) == "}" + rest;
  }

  lemma ReadScalarText(v: Json, gap: string, margin: string, rest: string, canon: Numeral -> Numeral)
    requires !v.Arr? && !v.Obj? && Settled(v, canon)
    requires EndsValue(rest)
    ensures ReadHere(Print(v, gap, margin, rest), canon) == Read(v, rest)
  {
    match v
    case Num(text) => NumeralChars(text); ReadNumber(text, rest, canon);
    case Str(chars) => ReadQuoted(chars, rest);
    case _ => ReadWord(v, gap, margin, rest, canon);
  }

  lemma ReadWord(v: Json, gap: string, margin: string, rest: string, canon: Numeral -> Numeral)
    requires v.Null? || v.Bool?
    ensures ReadHere(Print(v, gap, margin, rest), canon) == Read(v, rest)
  {
    match v
    case Null => assert ("null" + rest)[4..] == rest;
    case Bool(b) => if b { assert ("true" + rest)[4..] == rest; } else { assert ("false" + rest)[5..] == rest; }
  }

  lemma {:induction false} ReadPrinted(v: Json, gap: string, margin: string, rest: string, canon: Numeral -> Numeral)
    requires WellFormed(v) && Settled(v, canon)
    requires IsSpace(gap) && IsSpace(margin)
    requires EndsValue(rest)
    ensures ReadHere(Print(v, gap, margin, rest), canon) == Read(v, rest)
    decreases v, 1
  {
    match v
    case Arr(items) =>
      if items == [] {
        ReadEmpty(rest, canon);
      } else {
        ReadPrintedItems(items, gap, margin, rest, canon);
        ReadArrayText(items, PrintItems(items, gap, margin + gap, NewLine(gap, margin, "]" + rest)), rest, canon);
      }
    case Obj(fields) =>
      if fields == [] {
        ReadEmpty(rest, canon);
      } else {
        ReadPrintedFields(fields, gap, margin, rest, canon);
        ReadObjectText(fields, PrintFields(fields, gap, margin + gap, NewLine(gap, margin, "}" + rest)), rest, canon);
      }
    case _ => ReadScalarText(v, gap, margin, rest, canon);
  }

  lemma {:induction false} ReadPrintedItems(
      items: seq<Json>, gap: string, margin: string, rest: string, canon: Numeral -> Numeral)
    requires items != []
    requires forall i | 0 <= i < |items| :: WellFormed(items[i]) && Settled(items[i], canon)
    requires IsSpace(gap) && IsSpace(margin)
    ensures var text := PrintItems(items, gap, margin + gap, NewLine(gap, margin, "]" + rest));
            && SkipSpace(text) != "" && SkipSpace(text)[0] != ']'
            && ReadItems(text, canon) == Read(items, rest)
    decreases items, 0
  {
    var inner, close := margin + gap, NewLine(gap, margin, "]" + rest);
    var others := if |items| == 1 then "" else PrintItems(items[1..], gap, inner, close);
    var after := if |items| == 1 then close else "," + others;
    EndsAtBreak(gap, margin, ']', rest);
    PrintStarts(items[0], gap, inner, after);
    SpaceBefore(gap, inner, Print(items[0], gap, inner, after));
    ReadPrinted(items[0], gap, inner, after, canon);
    var text := NewLine(gap, inner, Print(items[0], gap, inner, after));
    assert text == PrintItems(items, gap, inner, close);
    if |items| == 1 {
      ReadLastItem(text, items[0], gap, margin, rest, canon);
      assert [items[0]] == items;
    } else {
      ReadPrintedItems(items[1..], gap, margin, rest, canon);
      ReadNextItem(text, items[0], others, items[1..], rest, canon);
      assert [items[0]] + items[1..] == items;
    }
  }

  lemma {:induction false} ReadPrintedMember(
      e: Entry<Json>, gap: string, margin: string, rest: string, canon: Numeral -> Numeral)
    requires WellFormed(e.value) && Settled(e.value, canon)
    requires IsSpace(gap) && IsSpace(margin)
    requires EndsValue(rest)
    ensures var text := PrintField(e, gap, margin, rest);
            && SkipSpace(text) != "" && SkipSpace(text)[0] != '}'
            && ReadMember(text, canon) == Read(e, rest)
    decreases e, 0
  {
    var value := Print(e.value, gap, margin, rest);
    PrintStarts(e.value, gap, margin, rest);
    ReadPrinted(e.value, gap, margin, rest, canon);
    ReadMemberText(e.key, e.value, value, gap, margin, rest, canon);
    SpaceBefore(gap, margin, Quote(e.key, Colon(gap, value)));
  }

  lemma {:induction false} ReadPrintedFields(
      fields: Object<Json>, gap: string, margin: string, rest: string, canon: Numeral -> Numeral)
    requires fields != []
    requires forall i | 0 <= i < |fields| :: WellFormed(fields[i].value) && Settled(fields[i].value, canon)
    requires IsSpace(gap) && IsSpace(margin)
    ensures var text := PrintFields(fields, gap, margin + gap, NewLine(gap, margin, "}" + rest));
            && SkipSpace(text) != "" && SkipSpace(text)[0] != '}'
            && ReadMembers(text, canon) == Read(fields, rest)
    decreases fields, 0
  {
    var e, inner, close := fields[0], margin + gap, NewLine(gap, margin, "}" + rest);
    var others := if |fields| == 1 then "" else PrintFields(fields[1..], gap, inner, close);
    var after := if |fields| == 1 then close else "," + others;
    EndsAtBreak(gap, margin, '}', rest);
    ReadPrintedMember(e, gap, inner, after, canon);
    var text := PrintField(e, gap, inner, after);
    if |fields| == 1 {
      ReadLastMember(text, e, gap, margin, rest, canon);
      assert fields == [e];
    } else {
      ReadPrintedFields(fields[1..], gap, margin, rest, canon);
      ReadNextMember(text, e, others, fields[1..], rest, canon);
      assert fields == [e] + fields[1..];
    }
  }

  // ---- The round trip ----

  // Whatever the indent, and with space (a final newline) after it, the printed text is read back as the value.
  lemma ParseStringify(v: Json, indent: string, space: string, canon: Numeral -> Numeral)
    requires WellFormed(v) && Settled(v, canon)
    requires IsSpace(indent) && IsSpace(space)
    ensures Parse(Print(v, Gap(indent), "", space), canon) == Value(v)
  {
    var text := Print(v, Gap(indent), "", space);
    assert EndsValue(space) by {
      if space != "" {
        assert space[0] in space;
      }
    }
    ReadPrinted(v, Gap(indent), "", space, canon);
    PrintStarts(v, Gap(indent), "", space);
    assert SkipSpace(text) == text;
    SkipSpaceSkips(space, "");
    assert space + "" == space;
  }

  // No two values print alike.
  lemma StringifyIsInjective(v: Json, w: Json, indent: string)
    requires WellFormed(v) && WellFormed(w)
    requires IsSpace(indent)
    requires Stringify(v, indent) == Stringify(w, indent)
    ensures v == w
  {
    EverySettled(v);
    EverySettled(w);
    ParseStringify(v, indent, "", (n: Numeral) => n);
    ParseStringify(w, indent, "", (n: Numeral) => n);
  }

  lemma {:induction false} EverySettled(v: Json)
    ensures Settled(v, (n: Numeral) => n)
    decreases v
  {
    match v
    case Arr(items) => forall i | 0 <= i < |items| { EverySettled(items[i]); }
    case Obj(fields) => forall i | 0 <= i < |fields| { EverySettled(fields[i].value); }
    case _ =>
  }

  // ---- The rest is only appended ----

  lemma {:induction false} EscapeThen(s: string, a: string, b: string)
    ensures Escape(s, a + b) == Escape(s, a) + b
  {
    if s != "" {
      EscapeThen(s[1..], a, b);
    }
  }

  lemma QuoteThen(s: string, a: string, b: string)
    ensures Quote(s, a + b) == Quote(s, a) + b
  {
    EscapeThen(s, "\"" + a, b);
    assert "\"" + (a + b) == ("\"" + a) + b;
  }

  lemma BreakThen(gap: string, margin: string, a: string, b: string)
    ensures NewLine(gap, margin, a + b) == NewLine(gap, margin, a) + b
    ensures Colon(gap, a + b) == Colon(gap, a) + b
  {
    assert margin + (a + b) == (margin + a) + b;
    assert "\n" + ((margin + a) + b) == ("\n" + (margin + a)) + b;
    assert " " + (a + b) == (" " + a) + b;
    assert ":" + (a + b) == (":" + a) + b;
    assert ":" + ((" " + a) + b) == (":" + (" " + a)) + b;
  }

  lemma {:induction false} PrintThen(v: Json, gap: string, margin: string, a: string, b: string)
    ensures Print(v, gap, margin, a + b) == Print(v, gap, margin, a) + b
    decreases v, 1
  {
    match v
    case Str(chars) => QuoteThen(chars, a, b);
    case Arr(items) =>
      if items != [] {
        assert "]" + (a + b) == ("]" + a) + b;
        BreakThen(gap, margin, "]" + a, b);
        PrintItemsThen(items, gap, margin + gap, NewLine(gap, margin, "]" + a), b);
      }
    case Obj(fields) =>
      if fields != [] {
        assert "}" + (a + b) == ("}" + a) + b;
        BreakThen(gap, margin, "}" + a, b);
        PrintFieldsThen(fields, gap, margin + gap, NewLine(gap, margin, "}" + a), b);
      }
    case _ =>
  }

  lemma {:induction false} PrintItemsThen(items: seq<Json>, gap: string, margin: string, a: string, b: string)
    requires items != []
    ensures PrintItems(items, gap, margin, a + b) == PrintItems(items, gap, margin, a) + b
    decreases items, 0
  {
    if |items| == 1 {
      PrintThen(items[0], gap, margin, a, b);
      BreakThen(gap, margin, Print(items[0], gap, margin, a), b);
    } else {
      PrintItemsThen(items[1..], gap, margin, a, b);
      var after := "," + PrintItems(items[1..], gap, margin, a);
      PrintThen(items[0], gap, margin, after, b);
      BreakThen(gap, margin, Print(items[0], gap, margin, after), b);
      assert "," + (PrintItems(items[1..], gap, margin, a) + b) == after + b;
    }
  }

  lemma {:induction false} PrintFieldThen(e: Entry<Json>, gap: string, margin: string, a: string, b: string)
    ensures PrintField(e, gap, margin, a + b) == PrintField(e, gap, margin, a) + b
    decreases e, 0
  {
    PrintThen(e.value, gap, margin, a, b);
    var value := Print(e.value, gap, margin, a);
    BreakThen(gap, margin, value, b);
    QuoteThen(e.key, Colon(gap, value), b);
    BreakThen(gap, margin, Quote(e.key, Colon(gap, value)), b);
  }

  lemma {:induction false} PrintFieldsThen(fields: Object<Json>, gap: string, margin: string, a: string, b: string)
    requires fields != []
    ensures PrintFields(fields, gap, margin, a + b) == PrintFields(fields, gap, margin, a) + b
    decreases fields, 0
  {
    if |fields| == 1 {
      PrintFieldThen(fields[0], gap, margin, a, b);
    } else {
      PrintFieldsThen(fields[1..], gap, margin, a, b);
      var after := "," + PrintFields(fields[1..], gap, margin, a);
      PrintFieldThen(fields[0], gap, margin, after, b);
      assert "," + (PrintFields(fields[1..], gap, margin, a) + b) == after + b;
    }
  }

  // ---- What the reader answers is a JavaScript value ----

  ghost predicate Idempotent(canon: Numeral -> Numeral) {
    forall n: Numeral :: canon(canon(n)) == canon(n)
  }

  ghost predicate Sound(v: Json, canon: Numeral -> Numeral) {
    WellFormed(v) && Settled(v, canon)
  }

  lemma {:induction false} ReadIsSound(s: string, canon: Numeral -> Numeral)
    requires Idempotent(canon)
    ensures ReadHere(s, canon).Read? ==> Sound(ReadHere(s, canon).value, canon)
    decreases |s|, 0
  {
    if ReadHere(s, canon).Read? {
      if s[0] == '[' {
        ReadArrayIsSound(s[1..], canon);
      } else if s[0] == '{' {
        ReadObjectIsSound(s[1..], canon);
      }
    }
  }

  lemma {:induction false} ReadArrayIsSound(s: string, canon: Numeral -> Numeral)
    requires Idempotent(canon)
    ensures ReadArray(s, canon).Read? ==> Sound(ReadArray(s, canon).value, canon)
    decreases |s|, 3
  {
    ReadItemsSound(s, canon);
  }

  ghost predicate ItemsSound(vs: seq<Json>, canon: Numeral -> Numeral) {
    forall i | 0 <= i < |vs| :: Sound(vs[i], canon)
  }

  ghost predicate MembersSound(es: seq<Entry<Json>>, canon: Numeral -> Numeral) {
    forall i | 0 <= i < |es| :: Sound(es[i].value, canon)
  }

  lemma ItemThenItems(v: Json, vs: seq<Json>, canon: Numeral -> Numeral)
    requires Sound(v, canon)
    ensures ItemsSound(vs, canon) ==> ItemsSound([v] + vs, canon)
    ensures ItemsSound([v], canon)
  {
  }

  lemma MemberThenMembers(e: Entry<Json>, es: seq<Entry<Json>>, canon: Numeral -> Numeral)
    requires Sound(e.value, canon)
    ensures MembersSound(es, canon) ==> MembersSound([e] + es, canon)
    ensures MembersSound([e], canon)
  {
  }

  lemma {:induction false} ReadItemsSound(s: string, canon: Numeral -> Numeral)
    requires Idempotent(canon)
    ensures ReadItems(s, canon).Read? ==> ItemsSound(ReadItems(s, canon).value, canon)
    decreases |s|, 2
  {
    var r, first := ReadItems(s, canon), ReadValue(s, canon);
    if r.Read? {
      ReadIsSound(SkipSpace(s), canon);
      var t := SkipSpace(first.rest);
      if t[0] == ',' {
        ReadItemsSound(t[1..], canon);
        var others := ReadItems(t[1..], canon).value;
        ItemThenItems(first.value, others, canon);
        assert r.value == [first.value] + others;
      } else {
        ItemThenItems(first.value, [], canon);
        assert r.value == [first.value];
      }
    }
  }

  lemma {:induction false} ReadObjectIsSound(s: string, canon: Numeral -> Numeral)
    requires Idempotent(canon)
    ensures ReadObject(s, canon).Read? ==> Sound(ReadObject(s, canon).value, canon)
    decreases |s|, 4
  {
    var members := ReadMembers(s, canon);
    if members.Read? {
      ReadMembersSound(s, canon);
      SpreadKeepsProper<Json>([], members.value);
      FromEntriesSound(members.value, canon);
    }
  }

  lemma {:induction false} ReadMembersSound(s: string, canon: Numeral -> Numeral)
    requires Idempotent(canon)
    ensures ReadMembers(s, canon).Read? ==> MembersSound(ReadMembers(s, canon).value, canon)
    decreases |s|, 3
  {
    var r, first := ReadMembers(s, canon), ReadMember(s, canon);
    if r.Read? {
      ReadMemberSound(s, canon);
      var t := SkipSpace(first.rest);
      if t[0] == ',' {
        ReadMembersSound(t[1..], canon);
        var others := ReadMembers(t[1..], canon).value;
        MemberThenMembers(first.value, others, canon);
        assert r.value == [first.value] + others;
      } else {
        MemberThenMembers(first.value, [], canon);
        assert r.value == [first.value];
      }
    }
  }

  lemma {:induction false} ReadMemberSound(s: string, canon: Numeral -> Numeral)
    requires Idempotent(canon)
    ensures var r := ReadMember(s, canon); r.Read? ==> Sound(r.value.value, canon)
    decreases |s|, 2
  {
    if ReadMember(s, canon).Read? {
      var u := SkipSpace(ReadString(SkipSpace(s)).rest);
      ReadIsSound(SkipSpace(u[1..]), canon);
    }
  }

  lemma {:induction false} FromEntriesSound(entries: seq<Entry<Json>>, canon: Numeral -> Numeral)
    requires forall i | 0 <= i < |entries| :: Sound(entries[i].value, canon)
    ensures var o := FromEntries(entries); forall i | 0 <= i < |o| :: Sound(o[i].value, canon)
  {
    if entries != [] {
      var n := |entries| - 1;
      FromEntriesSound(entries[..n], canon);
      PutSound(FromEntries(entries[..n]), entries[n], canon);
    }
  }

  lemma PutSound(o: Object<Json>, e: Entry<Json>, canon: Numeral -> Numeral)
    requires forall i | 0 <= i < |o| :: Sound(o[i].value, canon)
    requires Sound(e.value, canon)
    ensures var r := Put(o, e.key, e.value); forall i | 0 <= i < |r| :: Sound(r[i].value, canon)
  {
  }

  lemma ParseIsSound(text: string, canon: Numeral -> Numeral)
    requires Idempotent(canon)
    requires Parse(text, canon).Value?
    ensures Sound(Parse(text, canon).json, canon)
  {
    ReadIsSound(SkipSpace(text), canon);
  }

  // ---- A printed text holds no carriage return ----

  lemma EscapeCharHasNoReturn(c: char)
    ensures '\r' !in EscapeChar(c)
  {
    if c < ' ' {
      assert HexDigit(c as int / 16) in HEX && HexDigit(c as int % 16) in HEX;
      assert '\r' !in HEX;
    }
  }

  lemma {:induction false} EscapeHasNoReturn(s: string, rest: string)
    requires '\r' !in rest
    ensures '\r' !in Escape(s, rest)
  {
    if s != "" {
      EscapeHasNoReturn(s[1..], rest);
      EscapeCharHasNoReturn(s[0]);
    }
  }

  lemma {:induction false} PrintHasNoReturn(v: Json, gap: string, margin: string, rest: string)
    requires '\r' !in gap && '\r' !in margin && '\r' !in rest
    ensures '\r' !in Print(v, gap, margin, rest)
    decreases v, 1
  {
    match v
    case Num(text) => NumeralChars(text);
    case Str(chars) => EscapeHasNoReturn(chars, "\"" + rest);
    case Arr(items) =>
      if items != [] {
        PrintItemsHasNoReturn(items, gap, margin + gap, NewLine(gap, margin, "]" + rest));
      }
    case Obj(fields) =>
      if fields != [] {
        PrintFieldsHasNoReturn(fields, gap, margin + gap, NewLine(gap, margin, "}" + rest));
      }
    case _ =>
  }

  lemma {:induction false} PrintItemsHasNoReturn(items: seq<Json>, gap: string, margin: string, rest: string)
    requires items != []
    requires '\r' !in gap && '\r' !in margin && '\r' !in rest
    ensures '\r' !in PrintItems(items, gap, margin, rest)
    decreases items, 0
  {
    if |items| > 1 {
      PrintItemsHasNoReturn(items[1..], gap, margin, rest);
    }
    var after := if |items| == 1 then rest else "," + PrintItems(items[1..], gap, margin, rest);
    PrintHasNoReturn(items[0], gap, margin, after);
  }

  lemma {:induction false} PrintFieldsHasNoReturn(fields: Object<Json>, gap: string, margin: string, rest: string)
    requires fields != []
    requires '\r' !in gap && '\r' !in margin && '\r' !in rest
    ensures '\r' !in PrintFields(fields, gap, margin, rest)
    decreases fields, 0
  {
    if |fields| > 1 {
      PrintFieldsHasNoReturn(fields[1..], gap, margin, rest);
    }
    var after := if |fields| == 1 then rest else "," + PrintFields(fields[1..], gap, margin, rest);
    var e := fields[0];
    PrintHasNoReturn(e.value, gap, margin, after);
    EscapeHasNoReturn(e.key, "\"" + Colon(gap, Print(e.value, gap, margin, after)));
  }
}

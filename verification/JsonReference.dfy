// The text of a JSON value as ECMAScript defines it (section 25.5.2 of ECMA-262): each value serialized by itself, members
// and items joined with separators.
module JsonReference {
  import opened JsObject
  import opened Json
  import opened JsonText
  import opened JsonRoundTrip

  // `parts.join(separator)`
  function Joined(parts: seq<string>, separator: string): string {
    if parts == [] then ""
    else if |parts| == 1 then parts[0]
    else parts[0] + separator + Joined(parts[1..], separator)
  }

  // QuoteJSONString
  function Quoted(s: string): string {
    "\"" + Escaped(s) + "\""
  }

  function Escaped(s: string): string {
    if s == "" then "" else EscapedUnit(s[0]) + Escaped(s[1..])
  }

  function EscapedUnit(c: char): string {
    var n := c as int;
    if n == 0x22 then [0x5C as char, c]
    else if n == 0x5C then [c, c]
    else if n == 8 then [0x5C as char, 'b']
    else if n == 9 then [0x5C as char, 't']
    else if n == 10 then [0x5C as char, 'n']
    else if n == 12 then [0x5C as char, 'f']
    else if n == 13 then [0x5C as char, 'r']
    else if n < 0x20 then
      [0x5C as char, 'u', '0', '0', if n < 16 then '0' else '1',
       if n % 16 < 10 then (0x30 + n % 16) as char else (0x57 + n % 16) as char]
    else [c]
  }

  // SerializeJSONProperty, SerializeJSONArray and SerializeJSONObject
  function Serialized(v: Json, gap: string, indent: string): string
    decreases v, 1
  {
    match v
    case Null => "null"
    case Bool(b) => if b then "true" else "false"
    case Num(text) => text
    case Str(chars) => Quoted(chars)
    case Arr(items) => Wrapped(SerializedItems(items, gap, indent + gap), "[", "]", gap, indent)
    case Obj(fields) => Wrapped(SerializedFields(fields, gap, indent + gap), "{", "}", gap, indent)
  }

  function SerializedItems(items: seq<Json>, gap: string, indent: string): seq<string>
    decreases items, 0
  {
    seq(|items|, i requires 0 <= i < |items| => Serialized(items[i], gap, indent))
  }

  function SerializedFields(fields: Object<Json>, gap: string, indent: string): seq<string>
    decreases fields, 0
  {
    seq(|fields|, i requires 0 <= i < |fields| => SerializedField(fields[i], gap, indent))
  }

  function SerializedField(e: Entry<Json>, gap: string, indent: string): string
    decreases e, 0
  {
    Quoted(e.key) + (if gap == "" then ":" else ": ") + Serialized(e.value, gap, indent)
  }

  function Wrapped(parts: seq<string>, open: string, close: string, gap: string, indent: string): string {
    if parts == [] then open + close
    else if gap == "" then open + Joined(parts, ",") + close
    else open + "\n" + (indent + gap) + Joined(parts, ",\n" + (indent + gap)) + "\n" + indent + close
  }

  // ---- The printer prints that text ----

  lemma UnitEscaped(c: char)
    ensures EscapeChar(c) == EscapedUnit(c)
  {
  }

  lemma {:induction false} EscapeIsEscaped(s: string, rest: string)
    ensures Escape(s, rest) == Escaped(s) + rest
  {
    if s != "" {
      UnitEscaped(s[0]);
      EscapeIsEscaped(s[1..], rest);
      var unit, others := EscapedUnit(s[0]), Escaped(s[1..]);
      assert unit + (others + rest) == unit + others + rest;
    }
  }

  lemma QuoteIsQuoted(s: string, rest: string)
    ensures Quote(s, rest) == Quoted(s) + rest
  {
    EscapeIsEscaped(s, "\"" + rest);
    assert Quoted(s) + rest == "\"" + (Escaped(s) + ("\"" + rest));
  }

  function Separator(gap: string, margin: string): string {
    if gap == "" then "" else "\n" + margin
  }

  lemma {:induction false} PrintIsSerialized(v: Json, gap: string, margin: string, rest: string)
    ensures Print(v, gap, margin, rest) == Serialized(v, gap, margin) + rest
    decreases v, 1
  {
    match v
    case Str(chars) => QuoteIsQuoted(chars, rest);
    case Arr(items) =>
      if items != [] {
        var close := NewLine(gap, margin, "]" + rest);
        PrintItemsAreJoined(items, gap, margin + gap, close);
        WrappedText(SerializedItems(items, gap, margin + gap), "[", "]", gap, margin, rest);
      }
    case Obj(fields) =>
      if fields != [] {
        var close := NewLine(gap, margin, "}" + rest);
        PrintFieldsAreJoined(fields, gap, margin + gap, close);
        WrappedText(SerializedFields(fields, gap, margin + gap), "{", "}", gap, margin, rest);
      }
    case _ =>
  }

  lemma WrappedText(parts: seq<string>, open: string, close: string, gap: string, margin: string, rest: string)
    requires parts != []
    ensures Wrapped(parts, open, close, gap, margin) + rest ==
            open + (Separator(gap, margin + gap) + Joined(parts, "," + Separator(gap, margin + gap))
                    + NewLine(gap, margin, close + rest))
  {
    var sep := Separator(gap, margin + gap);
    var body := Joined(parts, "," + sep);
    if gap == "" {
      assert "," + sep == ",";
      assert open + body + close + rest == open + ("" + body + (close + rest));
    } else {
      assert ",\n" + (margin + gap) == "," + sep;
      assert open + "\n" + (margin + gap) + body + "\n" + margin + close + rest
          == open + (sep + body + ("\n" + (margin + (close + rest))));
    }
  }

  lemma OnePart(gap: string, margin: string, text: string, rest: string)
    ensures NewLine(gap, margin, text + rest) == Separator(gap, margin) + text + rest
  {
    if gap != "" {
      assert "\n" + (margin + (text + rest)) == "\n" + margin + text + rest;
    }
  }

  // One more part in front of the others.
  lemma PartThenParts(parts: seq<string>, gap: string, margin: string, close: string)
    requires |parts| > 1
    ensures var sep := Separator(gap, margin);
            NewLine(gap, margin, parts[0] + ("," + (sep + Joined(parts[1..], "," + sep) + close)))
            == sep + Joined(parts, "," + sep) + close
  {
    var sep := Separator(gap, margin);
    var others := Joined(parts[1..], "," + sep);
    OnePart(gap, margin, parts[0], "," + (sep + others + close));
    Regroup(sep, parts[0], ",", others, close);
  }

  lemma Regroup(sep: string, part: string, comma: string, others: string, close: string)
    ensures sep + part + (comma + (sep + others + close)) == sep + (part + (comma + sep) + others) + close
  {
    assert comma + (sep + others + close) == (comma + sep) + others + close;
    assert part + ((comma + sep) + others + close) == part + (comma + sep) + others + close;
    assert sep + part + ((comma + sep) + others + close) == sep + (part + ((comma + sep) + others + close));
    assert sep + (part + (comma + sep) + others + close) == sep + (part + (comma + sep) + others) + close;
  }

  lemma PartsText(parts: seq<string>, gap: string, margin: string, close: string, after: string)
    requires parts != []
    requires var sep := Separator(gap, margin);
             after == if |parts| == 1 then close else "," + (sep + Joined(parts[1..], "," + sep) + close)
    ensures var sep := Separator(gap, margin);
            NewLine(gap, margin, parts[0] + after) == sep + Joined(parts, "," + sep) + close
  {
    if |parts| == 1 {
      OnePart(gap, margin, parts[0], close);
    } else {
      PartThenParts(parts, gap, margin, close);
    }
  }

  lemma {:induction false} PrintItemsAreJoined(items: seq<Json>, gap: string, margin: string, close: string)
    requires items != []
    ensures var sep := Separator(gap, margin);
            PrintItems(items, gap, margin, close) == sep + Joined(SerializedItems(items, gap, margin), "," + sep) + close
    decreases items, 0
  {
    var parts := SerializedItems(items, gap, margin);
    var after := if |items| == 1 then close else "," + PrintItems(items[1..], gap, margin, close);
    PrintIsSerialized(items[0], gap, margin, after);
    assert PrintItems(items, gap, margin, close) == NewLine(gap, margin, parts[0] + after);
    if |items| > 1 {
      PrintItemsAreJoined(items[1..], gap, margin, close);
      assert parts[1..] == SerializedItems(items[1..], gap, margin);
    }
    PartsText(parts, gap, margin, close, after);
  }

  lemma {:induction false} PrintFieldIsSerialized(e: Entry<Json>, gap: string, margin: string, rest: string)
    ensures PrintField(e, gap, margin, rest) ==
            NewLine(gap, margin, SerializedField(e, gap, margin) + rest)
    decreases e, 0
  {
    var colon := if gap == "" then ":" else ": ";
    var value := Serialized(e.value, gap, margin);
    PrintIsSerialized(e.value, gap, margin, rest);
    QuoteIsQuoted(e.key, Colon(gap, value + rest));
    assert Colon(gap, value + rest) == colon + (value + rest);
    FieldText(Quoted(e.key), colon, value, rest);
  }

  lemma FieldText(key: string, colon: string, value: string, rest: string)
    ensures key + (colon + (value + rest)) == key + colon + value + rest
  {
    assert colon + (value + rest) == colon + value + rest;
  }

  lemma {:induction false} PrintFieldsAreJoined(fields: Object<Json>, gap: string, margin: string, close: string)
    requires fields != []
    ensures var sep := Separator(gap, margin);
            PrintFields(fields, gap, margin, close) ==
              sep + Joined(SerializedFields(fields, gap, margin), "," + sep) + close
    decreases fields, 0
  {
    var parts := SerializedFields(fields, gap, margin);
    var after := if |fields| == 1 then close else "," + PrintFields(fields[1..], gap, margin, close);
    PrintFieldIsSerialized(fields[0], gap, margin, after);
    assert PrintFields(fields, gap, margin, close) == NewLine(gap, margin, parts[0] + after);
    if |fields| > 1 {
      PrintFieldsAreJoined(fields[1..], gap, margin, close);
      assert parts[1..] == SerializedFields(fields[1..], gap, margin);
    }
    PartsText(parts, gap, margin, close, after);
  }

  // `JSON.stringify(value, null, indent)` is the text ECMAScript defines, its gap at most ten characters of the indent.
  lemma StringifyIsSerialized(v: Json, indent: string)
    ensures Stringify(v, indent) == Serialized(v, if |indent| < 10 then indent else indent[..10], "")
  {
    PrintIsSerialized(v, Gap(indent), "", "");
    var gap := if |indent| < 10 then indent else indent[..10];
    assert Gap(indent) == gap;
    assert Serialized(v, gap, "") + "" == Serialized(v, gap, "");
  }
}

// The text of JSON values: `JSON.stringify(value, null, indent)` and `JSON.parse`.
module JsonText {
  import opened JsObject
  import opened Json

  // ---- Strings ----

  const HEX: string := "0123456789abcdef"

  function HexDigit(n: nat): char
    requires n < 16
  {
    HEX[n]
  }

  // Control characters, quotation marks and reverse solidi are escaped; every other character stands for itself.
  function EscapeChar(c: char): string {
    if c == '\"' then "\\\""
    else if c == '\\' then "\\\\"
    else if c == '\U{0008}' then "\\b"
    else if c == '\U{000C}' then "\\f"
    else if c == '\n' then "\\n"
    else if c == '\r' then "\\r"
    else if c == '\t' then "\\t"
    else if c < ' ' then "\\u00" + [HexDigit(c as int / 16), HexDigit(c as int % 16)]
    else [c]
  }

  // Each printing function gives the printed text followed by `rest`.
  function Escape(s: string, rest: string): string {
    if s == "" then rest else EscapeChar(s[0]) + Escape(s[1..], rest)
  }

  function Quote(s: string, rest: string): string {
    "\"" + Escape(s, "\"" + rest)
  }

  // ---- JSON.stringify ----

  const GAP_LIMIT := 10

  // The indent string JSON.stringify uses: at most its first ten characters.
  function Gap(indent: string): string {
    if |indent| <= GAP_LIMIT then indent else indent[..GAP_LIMIT]
  }

  function NewLine(gap: string, margin: string, rest: string): string {
    if gap == "" then rest else "\n" + (margin + rest)
  }

  function Colon(gap: string, rest: string): string {
    if gap == "" then ":" + rest else ":" + (" " + rest)
  }

  function Print(v: Json, gap: string, margin: string, rest: string): string
    decreases v, 1
  {
    match v
    case Null => "null" + rest
    case Bool(b) => (if b then "true" else "false") + rest
    case Num(text) => text + rest
    case Str(chars) => Quote(chars, rest)
    case Arr(items) =>
      if items == [] then "[" + ("]" + rest)
      else "[" + PrintItems(items, gap, margin + gap, NewLine(gap, margin, "]" + rest))
    case Obj(fields) =>
      if fields == [] then "{" + ("}" + rest)
      else "{" + PrintFields(fields, gap, margin + gap, NewLine(gap, margin, "}" + rest))
  }

  function PrintItems(items: seq<Json>, gap: string, margin: string, rest: string): string
    requires items != []
    decreases items, 0
  {
    var after := if |items| == 1 then rest else "," + PrintItems(items[1..], gap, margin, rest);
    NewLine(gap, margin, Print(items[0], gap, margin, after))
  }

  function PrintField(e: Entry<Json>, gap: string, margin: string, rest: string): string
    decreases e, 0
  {
    NewLine(gap, margin, Quote(e.key, Colon(gap, Print(e.value, gap, margin, rest))))
  }

  function PrintFields(fields: Object<Json>, gap: string, margin: string, rest: string): string
    requires fields != []
    decreases fields, 0
  {
    var after := if |fields| == 1 then rest else "," + PrintFields(fields[1..], gap, margin, rest);
    PrintField(fields[0], gap, margin, after)
  }

  // `JSON.stringify(value, null, indent)`
  function Stringify(v: Json, indent: string): string {
    Print(v, Gap(indent), "", "")
  }

  // ---- JSON.parse ----

  datatype Parsed<+T> = Refused | Read(value: T, rest: string)

  predicate IsJsonSpace(c: char) {
    c == ' ' || c == '\t' || c == '\n' || c == '\r'
  }

  function SkipSpace(s: string): (rest: string)
    ensures |rest| <= |s|
    ensures rest != "" ==> !IsJsonSpace(rest[0])
  {
    if s != "" && IsJsonSpace(s[0]) then SkipSpace(s[1..]) else s
  }

  function HexValue(c: char): (n: int)
    ensures -1 <= n < 16
  {
    if '0' <= c <= '9' then c as int - '0' as int
    else if 'a' <= c <= 'f' then c as int - 'a' as int + 10
    else if 'A' <= c <= 'F' then c as int - 'A' as int + 10
    else -1
  }

  // The code unit of the four hexadecimal digits `s` starts with; -1 when it does not.
  function HexUnit(s: string): (n: int)
    ensures -1 <= n < 0x1_0000
    ensures n >= 0 ==> |s| >= 4
  {
    if |s| < 4 || HexValue(s[0]) < 0 || HexValue(s[1]) < 0 || HexValue(s[2]) < 0 || HexValue(s[3]) < 0 then -1
    else HexValue(s[0]) * 0x1000 + HexValue(s[1]) * 0x100 + HexValue(s[2]) * 0x10 + HexValue(s[3])
  }

  // What follows `\u`: one code unit, or two that make up a surrogate pair. A lone surrogate is refused (no `char`).
  function ReadUnicodeEscape(s: string): (r: Parsed<char>)
    ensures r.Read? ==> |r.rest| < |s|
  {
    var n := HexUnit(s);
    if n < 0 then Refused
    else if n < 0xD800 || 0xE000 <= n then Read(n as char, s[4..])
    else if 0xDC00 <= n || |s| < 6 || s[4] != '\\' || s[5] != 'u' then Refused
    else
      var low := HexUnit(s[6..]);
      if low < 0xDC00 || 0xE000 <= low then Refused
      else Read((0x1_0000 + (n - 0xD800) * 0x400 + (low - 0xDC00)) as char, s[10..])
  }

  // What follows a reverse solidus.
  function ReadEscape(s: string): (r: Parsed<char>)
    ensures r.Read? ==> |r.rest| < |s|
  {
    if s == "" then Refused
    else if s[0] == 'u' then ReadUnicodeEscape(s[1..])
    else
      match s[0]
      case '\"' => Read('\"', s[1..])
      case '\\' => Read('\\', s[1..])
      case '/' => Read('/', s[1..])
      case 'b' => Read('\U{0008}', s[1..])
      case 'f' => Read('\U{000C}', s[1..])
      case 'n' => Read('\n', s[1..])
      case 'r' => Read('\r', s[1..])
      case 't' => Read('\t', s[1..])
      case _ => Refused
  }

  // The characters of a string up to its closing quotation mark.
  function ReadChars(s: string): (r: Parsed<string>)
    ensures r.Read? ==> |r.rest| < |s|
    decreases |s|
  {
    if s == "" || s[0] < ' ' then Refused
    else if s[0] == '\"' then Read("", s[1..])
    else
      var first := if s[0] == '\\' then ReadEscape(s[1..]) else Read(s[0], s[1..]);
      if first.Refused? then Refused
      else
        var others := ReadChars(first.rest);
        if others.Refused? then Refused else Read([first.value] + others.value, others.rest)
  }

  predicate IsNumeralChar(c: char) {
    IsDigit(c) || c == '-' || c == '+' || c == '.' || c == 'e' || c == 'E'
  }

  function NumeralRun(s: string): (run: string)
    ensures run <= s
    ensures forall c | c in run :: IsNumeralChar(c)
  {
    if s != "" && IsNumeralChar(s[0]) then [s[0]] + NumeralRun(s[1..]) else ""
  }

  // `null`, `true`, `false` or a number. `canon` reads a numeral and prints the number back, as JavaScript does.
  function ReadScalar(t: string, canon: Numeral -> Numeral): (r: Parsed<Json>)
    ensures r.Read? ==> |r.rest| < |t|
  {
    if "null" <= t then Read(Null, t[4..])
    else if "true" <= t then Read(Bool(true), t[4..])
    else if "false" <= t then Read(Bool(false), t[5..])
    else
      var run := NumeralRun(t);
      if IsNumeral(run) then Read(Num(canon(run)), t[|run|..]) else Refused
  }

  function ReadString(s: string): (r: Parsed<string>)
    ensures r.Read? ==> |r.rest| < |s|
  {
    if s == "" || s[0] != '\"' then Refused else ReadChars(s[1..])
  }

  function ReadValue(s: string, canon: Numeral -> Numeral): (r: Parsed<Json>)
    ensures r.Read? ==> |r.rest| < |s|
    decreases |s|, 1
  {
    ReadHere(SkipSpace(s), canon)
  }

  // A value without leading space.
  function ReadHere(t: string, canon: Numeral -> Numeral): (r: Parsed<Json>)
    ensures r.Read? ==> |r.rest| < |t|
    decreases |t|, 0
  {
    if t == "" then Refused
    else if t[0] == '\"' then
      var chars := ReadString(t);
      if chars.Refused? then Refused else Read(Str(chars.value), chars.rest)
    else if t[0] == '[' then ReadArray(t[1..], canon)
    else if t[0] == '{' then ReadObject(t[1..], canon)
    else ReadScalar(t, canon)
  }

  // What follows an opening bracket.
  function ReadArray(s: string, canon: Numeral -> Numeral): (r: Parsed<Json>)
    ensures r.Read? ==> |r.rest| < |s|
    decreases |s|, 3
  {
    var u := SkipSpace(s);
    if u != "" && u[0] == ']' then Read(Arr([]), u[1..])
    else
      var items := ReadItems(s, canon);
      if items.Refused? then Refused else Read(Arr(items.value), items.rest)
  }

  // What follows an opening brace.
  function ReadObject(s: string, canon: Numeral -> Numeral): (r: Parsed<Json>)
    ensures r.Read? ==> |r.rest| < |s|
    decreases |s|, 4
  {
    var u := SkipSpace(s);
    if u != "" && u[0] == '}' then Read(Obj([]), u[1..])
    else
      var members := ReadMembers(s, canon);
      if members.Refused? then Refused else Read(Obj(FromEntries(members.value)), members.rest)
  }

  // The items of a non-empty array and its closing bracket.
  function ReadItems(s: string, canon: Numeral -> Numeral): (r: Parsed<seq<Json>>)
    ensures r.Read? ==> |r.rest| < |s|
    decreases |s|, 2
  {
    var first := ReadValue(s, canon);
    if first.Refused? then Refused
    else
      var t := SkipSpace(first.rest);
      if t != "" && t[0] == ']' then Read([first.value], t[1..])
      else if t != "" && t[0] == ',' then
        var others := ReadItems(t[1..], canon);
        if others.Refused? then Refused else Read([first.value] + others.value, others.rest)
      else Refused
  }

  // One member: its key, a colon and its value.
  function ReadMember(s: string, canon: Numeral -> Numeral): (r: Parsed<Entry<Json>>)
    ensures r.Read? ==> |r.rest| < |s|
    decreases |s|, 2
  {
    var key := ReadString(SkipSpace(s));
    if key.Refused? then Refused
    else
      var u := SkipSpace(key.rest);
      if u == "" || u[0] != ':' then Refused
      else
        var value := ReadValue(u[1..], canon);
        if value.Refused? then Refused else Read(Entry(key.value, value.value), value.rest)
  }

  // The members of a non-empty object and its closing brace.
  function ReadMembers(s: string, canon: Numeral -> Numeral): (r: Parsed<seq<Entry<Json>>>)
    ensures r.Read? ==> |r.rest| < |s|
    decreases |s|, 3
  {
    var first := ReadMember(s, canon);
    if first.Refused? then Refused
    else
      var t := SkipSpace(first.rest);
      if t != "" && t[0] == '}' then Read([first.value], t[1..])
      else if t != "" && t[0] == ',' then
        var others := ReadMembers(t[1..], canon);
        if others.Refused? then Refused else Read([first.value] + others.value, others.rest)
      else Refused
  }

  datatype ParseResult = SyntaxError | Value(json: Json)

  // `JSON.parse(text)`
  function Parse(text: string, canon: Numeral -> Numeral): ParseResult {
    var r := ReadValue(text, canon);
    if r.Read? && SkipSpace(r.rest) == "" then Value(r.value) else SyntaxError
  }
}

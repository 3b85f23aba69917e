// JSON values as JavaScript holds them.
module Json {
  import opened JsObject

  // A numeral of JSON's grammar (section 6 of RFC 8259).
  predicate IsNumeral(s: string) {
    if s != "" && s[0] == '-' then IsUnsigned(s[1..]) else IsUnsigned(s)
  }

  predicate IsUnsigned(s: string) {
    var whole := LeadingDigits(s);
    && whole != ""
    && (whole[0] == '0' ==> whole == "0")
    && IsFractionAndExponent(s[|whole|..])
  }

  predicate IsFractionAndExponent(s: string) {
    if s != "" && s[0] == '.' then
      var digits := LeadingDigits(s[1..]);
      digits != "" && IsExponent(s[1 + |digits|..])
    else IsExponent(s)
  }

  predicate IsExponent(s: string) {
    s == "" ||
    (&& (s[0] == 'e' || s[0] == 'E')
     && var body := if |s| > 1 && (s[1] == '+' || s[1] == '-') then s[2..] else s[1..];
        body != "" && LeadingDigits(body) == body)
  }

  function LeadingDigits(s: string): (digits: string)
    ensures digits <= s
    ensures forall c | c in digits :: IsDigit(c)
  {
    if s != "" && IsDigit(s[0]) then [s[0]] + LeadingDigits(s[1..]) else ""
  }

  type Numeral = s: string | IsNumeral(s) witness "0"

  // A number is carried as the text JavaScript prints it with. How JavaScript reads a numeral and prints the number
  // back is a parameter of the reader (see JsonText).
  datatype Json =
    | Null
    | Bool(value: bool)
    | Num(text: Numeral)
    | Str(chars: string)
    | Arr(items: seq<Json>)
    | Obj(fields: Object<Json>)

  // Every object in the value is one JavaScript can hold: distinct keys, in property order.
  ghost predicate WellFormed(v: Json)
    decreases v
  {
    match v
    case Arr(items) => forall i | 0 <= i < |items| :: WellFormed(items[i])
    case Obj(fields) => Proper(fields) && forall i | 0 <= i < |fields| :: WellFormed(fields[i].value)
    case _ => true
  }

  // Equal up to the order of object keys, at every depth.
  ghost predicate Equivalent(v: Json, w: Json)
    decreases v
  {
    match v
    case Arr(items) =>
      w.Arr? && |items| == |w.items| && forall i | 0 <= i < |items| :: Equivalent(items[i], w.items[i])
    case Obj(fields) =>
      && w.Obj?
      && (forall key :: HasKey(fields, key) <==> HasKey(w.fields, key))
      && forall i, j | 0 <= i < |fields| && 0 <= j < |w.fields| && fields[i].key == w.fields[j].key ::
           Equivalent(fields[i].value, w.fields[j].value)
    case _ => v == w
  }
}

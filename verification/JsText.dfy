// JavaScript text: white space, `trim()` and `includes()`.
module JsText {

  // What `trim()` and `\s` take for white space.
  predicate IsWhite(c: char) {
    || '\t' <= c <= '\r' || c == ' ' || c == '\U{00A0}' || c == '\U{1680}' || '\U{2000}' <= c <= '\U{200A}'
    || c == '\U{2028}' || c == '\U{2029}' || c == '\U{202F}' || c == '\U{205F}' || c == '\U{3000}' || c == '\U{FEFF}'
  }

  function TrimStart(s: string): string {
    if s != "" && IsWhite(s[0]) then TrimStart(s[1..]) else s
  }

  function TrimEnd(s: string): string {
    if s != "" && IsWhite(s[|s| - 1]) then TrimEnd(s[..|s| - 1]) else s
  }

  function Trim(s: string): string {
    TrimEnd(TrimStart(s))
  }

  // `text.trim() === ''`
  predicate IsBlank(text: string) {
    forall c | c in text :: IsWhite(c)
  }

  predicate Includes(s: string, part: string) {
    exists i | 0 <= i <= |s| :: part <= s[i..]
  }

  // Trimming takes a white character at the end with it.
  lemma {:induction false} TrimWhiteEnd(s: string, c: char)
    requires IsWhite(c)
    ensures Trim(s + [c]) == Trim(s)
  {
    if s == "" {
      assert s + [c] == [c];
      assert TrimStart([c]) == TrimStart([c][1..]);
    } else if IsWhite(s[0]) {
      assert (s + [c])[1..] == s[1..] + [c];
      TrimWhiteEnd(s[1..], c);
    } else {
      assert (s + [c])[..|s|] == s;
    }
  }

  // `includes`: the text is the part with something, or nothing, around it.
  lemma IncludesAround(s: string, part: string)
    ensures Includes(s, part) <==> exists before: string, after: string :: s == before + part + after
  {
    if i :| 0 <= i <= |s| && part <= s[i..] {
      assert s == s[..i] + part + s[i + |part|..];
    }
    if before: string, after: string :| s == before + part + after {
      assert s[|before|..] == part + after;
      assert part <= s[|before|..];
    }
  }

  // `trim()`: white space goes at both ends, and nothing else does.
  lemma TrimTakesWhite(s: string) returns (before: string, after: string)
    ensures s == before + Trim(s) + after
    ensures IsBlank(before) && IsBlank(after)
    ensures var r := Trim(s); r == "" || (!IsWhite(r[0]) && !IsWhite(r[|r| - 1]))
  {
    var t := TrimStart(s);
    before := StartTaken(s);
    after := EndTaken(t);
    assert before + t == before + TrimEnd(t) + after;
    if TrimEnd(t) != "" { assert TrimEnd(t)[0] == t[0]; }
  }

  lemma {:induction false} StartTaken(s: string) returns (before: string)
    ensures s == before + TrimStart(s) && IsBlank(before)
    ensures TrimStart(s) == "" || !IsWhite(TrimStart(s)[0])
  {
    if s != "" && IsWhite(s[0]) {
      var others := StartTaken(s[1..]);
      before := [s[0]] + others;
    } else {
      before := "";
    }
  }

  lemma {:induction false} EndTaken(s: string) returns (after: string)
    ensures s == TrimEnd(s) + after && IsBlank(after)
    ensures TrimEnd(s) == "" || !IsWhite(TrimEnd(s)[|TrimEnd(s)| - 1])
  {
    if s != "" && IsWhite(s[|s| - 1]) {
      var n := |s| - 1;
      var others := EndTaken(s[..n]);
      after := others + [s[n]];
    } else {
      after := "";
    }
  }
}

// What the installer writes is read back as it was written, in the layout it was written in.
module OldAppHooksText {
  import opened JsObject
  import opened Json
  import opened JsonText
  import opened JsText
  import opened JsonRoundTrip
  import opened OldAppHooks

  ghost predicate Blanks(s: string) {
    forall c | c in s :: IsIndentChar(c)
  }

  ghost predicate IsLayout(layout: Layout) {
    layout.indent != "" && Blanks(layout.indent)
  }

  lemma LayoutOfAnyText(text: string)
    ensures IsLayout(LayoutOf(text))
  {
  }

  lemma GapOfGap(indent: string)
    ensures Gap(Gap(indent)) == Gap(indent)
    ensures indent != "" ==> Gap(indent) != ""
    ensures Blanks(indent) ==> Blanks(Gap(indent)) && IsSpace(indent) && IsSpace(Gap(indent))
  {
  }

  lemma NoCarriageReturn(text: string)
    requires '\r' !in text
    ensures !Includes(text, "\r\n")
  {
    forall i | 0 <= i <= |text| ensures !("\r\n" <= text[i..]) {
      assert i < |text| ==> text[i..][0] in text;
    }
  }

  lemma BodyShape(settings: Object<Json>, gap: string) returns (inner: string)
    requires settings != [] && gap != ""
    ensures Print(Obj(settings), gap, "", "") == "{" + ("\n" + (gap + ("\"" + inner)))
  {
    var close := NewLine(gap, "", "}" + "");
    var after := if |settings| == 1 then close else "," + PrintFields(settings[1..], gap, gap, close);
    var e := settings[0];
    inner := Escape(e.key, "\"" + Colon(gap, Print(e.value, gap, gap, after)));
    assert PrintField(e, gap, gap, after) == "\n" + (gap + ("\"" + inner));
    assert "" + gap == gap;
  }

  // How the text of a non-empty object starts and ends.
  lemma WrittenShape(settings: Object<Json>, layout: Layout) returns (tail: string)
    requires settings != [] && IsLayout(layout)
    ensures Write(settings, layout) == "{\n" + Gap(layout.indent) + "\"" + tail
    ensures var text := Write(settings, layout); (text[|text| - 1] == '\n') == layout.trailingNewline
  {
    var gap := Gap(layout.indent);
    GapOfGap(layout.indent);
    var inner := BodyShape(settings, gap);
    BodyEndsInBrace(settings, gap);
    tail := inner + if layout.trailingNewline then "\n" else "";
  }

  lemma BodyEndsInBrace(settings: Object<Json>, gap: string)
    requires settings != [] && gap != ""
    ensures var body := Print(Obj(settings), gap, "", ""); body[|body| - 1] == '}'
  {
    PrintFieldsThen(settings, gap, "" + gap, "\n", "}");
    assert NewLine(gap, "", "}" + "") == "\n" + "}";
  }

  lemma {:induction false} BlankRunStops(run: string, rest: string)
    requires Blanks(run)
    requires rest != "" && rest[0] != ' ' && rest[0] != '\t'
    ensures BlankRun(run + rest) == run
  {
    if run == "" {
      assert run + rest == rest;
    } else {
      assert (run + rest)[1..] == run[1..] + rest;
      BlankRunStops(run[1..], rest);
    }
  }

  // The indent is found again at the first property.
  lemma IndentFoundAgain(gap: string, tail: string)
    requires gap != "" && Blanks(gap)
    ensures FirstIndent("{\n" + gap + "\"" + tail) == gap
  {
    var text := "{\n" + gap + "\"" + tail;
    assert text[1..] == ['\n'] + gap + "\"" + tail;
    assert text[1..][1..] == gap + ("\"" + tail);
    BlankRunStops(gap, "\"" + tail);
    assert text[1..][|gap| + 1] == '\"';
  }

  lemma NotBlank(text: string)
    requires text != "" && text[0] == '{'
    ensures !IsBlank(text)
  {
    assert text[0] in text && !IsWhite('{');
  }

  // The layout of what was written is the layout it was written in, its indent cut to what the printer uses.
  lemma LayoutIsStable(settings: Object<Json>, layout: Layout)
    requires settings != [] && IsLayout(layout)
    ensures LayoutOf(Write(settings, layout)) == Layout(Gap(layout.indent), layout.trailingNewline)
    ensures Write(settings, Layout(Gap(layout.indent), layout.trailingNewline)) == Write(settings, layout)
  {
    GapOfGap(layout.indent);
    var tail := WrittenShape(settings, layout);
    IndentFoundAgain(Gap(layout.indent), tail);
    assert Write(settings, layout)[0] == '{';
    NotBlank(Write(settings, layout));
  }

  lemma WrittenHasNoReturn(settings: Object<Json>, layout: Layout)
    requires IsLayout(layout)
    ensures '\r' !in Write(settings, layout)
  {
    GapOfGap(layout.indent);
    assert '\r' !in Gap(layout.indent) by {
      assert !IsIndentChar('\r');
    }
    PrintHasNoReturn(Obj(settings), Gap(layout.indent), "", "");
  }

  // What was written is read back.
  lemma WrittenIsRead(settings: Object<Json>, layout: Layout, canon: Numeral -> Numeral)
    requires settings != [] && Sound(Obj(settings), canon) && IsLayout(layout)
    ensures Parse(Write(settings, layout), canon) == Value(Obj(settings))
    ensures ReadSettings(Write(settings, layout), canon) == Ok(settings)
  {
    var text := Write(settings, layout);
    var close := if layout.trailingNewline then "\n" else "";
    WrittenHasNoReturn(settings, layout);
    NoCarriageReturn(text);
    var tail := WrittenShape(settings, layout);
    assert text[0] == '{';
    NotBlank(text);
    PrintThen(Obj(settings), Gap(layout.indent), "", "", close);
    assert "" + close == close;
    GapOfGap(layout.indent);
    ParseStringify(Obj(settings), layout.indent, close, canon);
  }

  // ---- The layout of any text ----

  // A line feed at `p`, `n` blanks and then something that is no white space.
  ghost predicate IndentsAt(text: string, p: nat, n: nat) {
    && n > 0 && p + 1 + n < |text| && text[p] == '\n'
    && Blanks(text[p + 1..p + 1 + n]) && !IsWhite(text[p + 1 + n])
  }

  ghost predicate IndentsNowhereBefore(text: string, p: nat) {
    forall q: nat, n: nat | q < p :: !IndentsAt(text, q, n)
  }

  lemma IndentsLater(text: string, p: nat, n: nat)
    requires text != ""
    ensures IndentsAt(text, p + 1, n) <==> IndentsAt(text[1..], p, n)
  {
    if p + 2 + n < |text| {
      assert text[1..][p + 1..p + 1 + n] == text[p + 2..p + 2 + n];
    }
  }

  lemma BlankRunIs(text: string, n: nat)
    requires IndentsAt(text, 0, n)
    ensures BlankRun(text[1..]) == text[1..1 + n]
  {
    assert text[1..] == text[1..1 + n] + text[1 + n..];
    BlankRunStops(text[1..1 + n], text[1 + n..]);
  }

  // The indent `JSON.stringify` is given for a text: that of its first line that has one, which `p` says, or two spaces.
  ghost predicate IsIndentOf(text: string, p: nat, indent: string) {
    && p <= |text| && IndentsNowhereBefore(text, p)
    && if p == |text| then indent == "  "
       else IndentsAt(text, p, |indent|) && indent == text[p + 1..p + 1 + |indent|]
  }

  ghost predicate FirstAt(text: string, p: nat) {
    var first := FirstIndent(text);
    && p <= |text|
    && if first == "" then p == |text| else IndentsAt(text, p, |first|) && first == text[p + 1..p + 1 + |first|]
  }

  lemma {:induction false} FirstIndentIsFirst(text: string) returns (p: nat)
    ensures FirstAt(text, p) && IndentsNowhereBefore(text, p)
  {
    if text == "" {
      p := 0;
    } else {
      var run := if text[0] == '\n' then BlankRun(text[1..]) else "";
      if run != "" && |run| + 1 < |text| && !IsWhite(text[|run| + 1]) {
        p := 0;
        FoundAtStart(text, run);
      } else {
        var later := FirstIndentIsFirst(text[1..]);
        p := later + 1;
        NotAtStart(text, run);
        NowhereBeforeLater(text, later);
        assert FirstIndent(text) == FirstIndent(text[1..]);
        FirstLater(text, later);
      }
    }
  }

  lemma FoundAtStart(text: string, run: string)
    requires text != "" && run != "" && run == if text[0] == '\n' then BlankRun(text[1..]) else ""
    requires |run| + 1 < |text| && !IsWhite(text[|run| + 1])
    ensures FirstAt(text, 0)
  {
    assert FirstIndent(text) == run && text[1..1 + |run|] == run;
  }

  lemma NowhereBeforeLater(text: string, p: nat)
    requires text != "" && IndentsNowhereBefore(text[1..], p)
    requires forall n: nat :: !IndentsAt(text, 0, n)
    ensures IndentsNowhereBefore(text, p + 1)
  {
    forall q: nat, n: nat | q < p + 1 ensures !IndentsAt(text, q, n) {
      if q > 0 { IndentsLater(text, q - 1, n); }
    }
  }

  lemma FirstLater(text: string, p: nat)
    requires text != "" && FirstAt(text[1..], p) && FirstIndent(text) == FirstIndent(text[1..])
    ensures FirstAt(text, p + 1)
  {
    var first := FirstIndent(text);
    IndentsLater(text, p, |first|);
    if first != "" {
      assert text[1..][p + 1..p + 1 + |first|] == text[p + 2..p + 2 + |first|];
    }
  }

  lemma NotAtStart(text: string, run: string)
    requires text != ""
    requires run == if text[0] == '\n' then BlankRun(text[1..]) else ""
    requires !(run != "" && |run| + 1 < |text| && !IsWhite(text[|run| + 1]))
    ensures forall n: nat :: !IndentsAt(text, 0, n)
  {
    forall n: nat ensures !IndentsAt(text, 0, n) {
      if IndentsAt(text, 0, n) { BlankRunIs(text, n); }
    }
  }

  lemma LayoutIs(text: string) returns (p: nat)
    ensures if IsBlank(text) then LayoutOf(text) == Layout("  ", true)
            else IsIndentOf(text, p, LayoutOf(text).indent) && LayoutOf(text).trailingNewline == (text[|text| - 1] == '\n')
  {
    p := FirstIndentIsFirst(text);
  }
}

// What an app under test prints (scripts/os-lane/electronProcess.ts): standard output line by line, and the end of
// standard error, however the output is cut into chunks.
module ElectronProcess {
  import opened JsText

  const STDERR_TAIL_CHARS := 4_000

  // `text.split(/\r?\n/)`
  function Split(text: string): (parts: seq<string>)
    ensures parts != []
  {
    if text == "" then [""]
    else if text[0] == '\n' then [""] + Split(text[1..])
    else if "\r\n" <= text then [""] + Split(text[2..])
    else
      var parts := Split(text[1..]);
      [[text[0]] + parts[0]] + parts[1..]
  }

  function Last(parts: seq<string>): string
    requires parts != []
  {
    parts[|parts| - 1]
  }

  function Complete(parts: seq<string>): seq<string>
    requires parts != []
  {
    parts[..|parts| - 1]
  }

  // The lines that are not empty, trimmed.
  function Kept(parts: seq<string>): seq<string> {
    if parts == [] then []
    else (if Trim(parts[0]) == "" then [] else [Trim(parts[0])]) + Kept(parts[1..])
  }

  // `text.slice(-n)`, for a positive n
  function TailOf(text: string, n: nat): string {
    if |text| <= n then text else text[|text| - n..]
  }

  class ElectronProcess {
    var lines: seq<string>
    var buffer: string
    var stderrTail: string
    // All that was printed so far.
    ghost var printed: string
    ghost var printedError: string

    ghost predicate Valid()
      reads this
    {
      && lines == LinesOf(printed)
      && buffer == Last(Split(printed))
      && stderrTail == TailOf(printedError, STDERR_TAIL_CHARS)
    }

    constructor ()
      ensures Valid() && printed == printedError == ""
    {
      lines, buffer, stderrTail := [], "", "";
      printed, printedError := "", "";
    }

    method OnStdout(chunk: string)
      requires Valid()
      modifies this`lines, this`buffer, this`printed
      ensures Valid()
      ensures printed == old(printed) + chunk
    {
      LinesGrow(printed, chunk);
      buffer := buffer + chunk;
      var parts := Split(buffer);
      buffer := parts[|parts| - 1];
      lines := lines + Kept(parts[..|parts| - 1]);
      printed := printed + chunk;
    }

    method OnStderr(chunk: string)
      requires Valid()
      modifies this`stderrTail, this`printedError
      ensures Valid()
      ensures printedError == old(printedError) + chunk
      ensures |stderrTail| == if |printedError| < 4_000 then |printedError| else 4_000
      ensures stderrTail == printedError[|printedError| - |stderrTail|..]
    {
      TailAppend(printedError, chunk, STDERR_TAIL_CHARS);
      stderrTail := TailOf(stderrTail + chunk, STDERR_TAIL_CHARS);
      printedError := printedError + chunk;
    }
  }

  // ---- The lines of a whole stream ----

  // Every stretch of the stream that a line feed ends, the rest left out.
  function FedLines(stream: string): (seq<string>, string) {
    if stream == "" then ([], "")
    else
      var (others, rest) := FedLines(stream[1..]);
      if stream[0] == '\n' then ([""] + others, rest)
      else if others == [] then ([], [stream[0]] + rest)
      else ([[stream[0]] + others[0]] + others[1..], rest)
  }

  // The trimmed complete lines of the stream that are not empty.
  function LinesOf(stream: string): seq<string> {
    Kept(FedLines(stream).0)
  }

  // Each line is the part, or the part and the carriage return that came before its line feed.
  ghost predicate SameButReturns(parts: seq<string>, lines: seq<string>) {
    |parts| == |lines| && forall i | 0 <= i < |parts| :: lines[i] == parts[i] || lines[i] == parts[i] + "\r"
  }

  lemma ReturnAndFeed(stream: string)
    requires "\r\n" <= stream
    ensures FedLines(stream) == (["\r"] + FedLines(stream[2..]).0, FedLines(stream[2..]).1)
  {
    var (others, rest) := FedLines(stream[2..]);
    assert stream[1..][1..] == stream[2..];
    assert FedLines(stream[1..]) == ([""] + others, rest);
    assert ([""] + others)[1..] == others;
    assert [stream[0]] + "" == "\r";
  }

  lemma OneLineMore(part: string, line: string, parts: seq<string>, lines: seq<string>)
    requires line == part || line == part + "\r"
    requires parts != [] && SameButReturns(Complete(parts), lines)
    ensures SameButReturns(Complete([part] + parts), [line] + lines) && Last([part] + parts) == Last(parts)
  {
    assert Complete([part] + parts) == [part] + Complete(parts);
  }

  lemma OneCharMore(c: char, parts: seq<string>, lines: seq<string>)
    requires |parts| > 1 && SameButReturns(Complete(parts), lines)
    ensures SameButReturns(Complete([[c] + parts[0]] + parts[1..]), [[c] + lines[0]] + lines[1..])
  {
    assert [c] + (parts[0] + "\r") == ([c] + parts[0]) + "\r";
    assert Complete([[c] + parts[0]] + parts[1..]) == [[c] + parts[0]] + Complete(parts)[1..];
  }

  lemma {:induction false} SplitMatchesLines(stream: string)
    ensures SameButReturns(Complete(Split(stream)), FedLines(stream).0)
    ensures Last(Split(stream)) == FedLines(stream).1
  {
    if stream == "" {
    } else if stream[0] == '\n' {
      SplitMatchesLines(stream[1..]);
      OneLineMore("", "", Split(stream[1..]), FedLines(stream[1..]).0);
    } else if "\r\n" <= stream {
      SplitMatchesLines(stream[2..]);
      ReturnAndFeed(stream);
      OneLineMore("", "\r", Split(stream[2..]), FedLines(stream[2..]).0);
    } else {
      SplitMatchesLines(stream[1..]);
      if |Split(stream[1..])| > 1 {
        OneCharMore(stream[0], Split(stream[1..]), FedLines(stream[1..]).0);
      }
    }
  }

  lemma {:induction false} KeptAlike(parts: seq<string>, lines: seq<string>)
    requires SameButReturns(parts, lines)
    ensures Kept(parts) == Kept(lines)
  {
    if parts != [] {
      TrimWhiteEnd(parts[0], '\r');
      KeptAlike(parts[1..], lines[1..]);
    }
  }

  // Splitting at CR LF or LF and trimming gives those lines: a carriage return before the line feed is trimmed away.
  lemma SplitGivesLines(stream: string)
    ensures Kept(Complete(Split(stream))) == LinesOf(stream)
  {
    SplitMatchesLines(stream);
    KeptAlike(Complete(Split(stream)), FedLines(stream).0);
  }

  // The lines told line by line: what a line feed ends counts, trimmed, unless nothing but white space is in it; what
  // none ends is still unfinished.
  lemma {:induction false} LinesOneByOne(line: string, rest: string)
    requires '\n' !in line
    ensures LinesOf(line) == [] && Last(Split(line)) == line
    ensures LinesOf(line + ("\n" + rest)) == (if IsBlank(line) then [] else [Trim(line)]) + LinesOf(rest)
    ensures Last(Split(line + ("\n" + rest))) == Last(Split(rest))
  {
    FedOneByOne(line, rest);
    SplitMatchesLines(line);
    SplitMatchesLines(rest);
    SplitMatchesLines(line + ("\n" + rest));
    BlankTrims(line);
    KeptOne(line, FedLines(rest).0);
  }

  lemma KeptOne(line: string, others: seq<string>)
    ensures Kept([line] + others) == (if Trim(line) == "" then [] else [Trim(line)]) + Kept(others)
  {
    assert ([line] + others)[1..] == others;
  }

  lemma {:induction false} FedOneByOne(line: string, rest: string)
    requires '\n' !in line
    ensures FedLines(line) == ([], line)
    ensures FedLines(line + ("\n" + rest)) == ([line] + FedLines(rest).0, FedLines(rest).1)
  {
    var text := line + ("\n" + rest);
    if line == "" {
      assert text == "\n" + rest && text[1..] == rest;
    } else {
      assert text[1..] == line[1..] + ("\n" + rest);
      FedOneByOne(line[1..], rest);
      var others := [line[1..]] + FedLines(rest).0;
      assert others[1..] == FedLines(rest).0 && [line[0]] + line[1..] == line;
      assert line[0] in line;
    }
  }

  lemma BlankTrims(line: string)
    ensures Trim(line) == "" <==> IsBlank(line)
  {
    var before, after := TrimTakesWhite(line);
    if Trim(line) != "" {
      assert Trim(line)[0] in line;
    }
  }

  // ---- Chunks ----

  lemma {:induction false} OnePart(text: string)
    requires |Split(text)| == 1
    ensures Split(text) == [text]
  {
    if text != "" {
      OnePart(text[1..]);
      assert [text[0]] + text[1..] == text;
    }
  }

  // Only the last part can change when more is printed, even between a carriage return and its line feed.
  lemma {:induction false} SplitAppend(a: string, b: string)
    ensures Split(a + b) == Complete(Split(a)) + Split(Last(Split(a)) + b)
  {
    if |Split(a)| == 1 {
      OnePart(a);
    } else if a[0] == '\n' {
      SplitAppend(a[1..], b);
      SplitFeed(a, b, 1);
    } else if "\r\n" <= a {
      SplitAppend(a[2..], b);
      SplitFeed(a, b, 2);
    } else {
      SplitAppend(a[1..], b);
      SplitChar(a, b);
    }
  }

  lemma ConsComplete(x: string, p: seq<string>, q: seq<string>)
    requires p != []
    ensures Complete([x] + p) + q == [x] + (Complete(p) + q) && Last([x] + p) == Last(p)
  {
    assert Complete([x] + p) == [x] + Complete(p);
  }

  // A line feed, with or without its carriage return, ends a part of its own.
  lemma SplitFeed(a: string, b: string, n: nat)
    requires n <= |a| && a != []
    requires if n == 1 then a[0] == '\n' else n == 2 && a[0] != '\n' && "\r\n" <= a
    requires Split(a[n..] + b) == Complete(Split(a[n..])) + Split(Last(Split(a[n..])) + b)
    ensures Split(a + b) == Complete(Split(a)) + Split(Last(Split(a)) + b)
  {
    assert (a + b)[n..] == a[n..] + b;
    ConsComplete("", Split(a[n..]), Split(Last(Split(a[n..])) + b));
    FeedCut(a, n);
    FeedCut(a + b, n);
  }

  lemma FeedCut(text: string, n: nat)
    requires n <= |text| && text != []
    requires if n == 1 then text[0] == '\n' else n == 2 && text[0] != '\n' && "\r\n" <= text
    ensures Split(text) == [""] + Split(text[n..])
  {
  }

  lemma GlueComplete(c: char, p: seq<string>, q: seq<string>)
    requires |p| > 1
    ensures var w := Complete(p) + q;
            var glued := [[c] + p[0]] + p[1..];
            Complete(glued) + q == [[c] + w[0]] + w[1..] && Last(glued) == Last(p)
  {
    var w := Complete(p) + q;
    var glued := [[c] + p[0]] + p[1..];
    assert w[0] == p[0] && w[1..] == Complete(p)[1..] + q;
    assert Complete(glued) == [[c] + p[0]] + Complete(p)[1..];
  }

  // Any other character goes to the first part.
  lemma SplitChar(a: string, b: string)
    requires |Split(a)| > 1
    requires a[0] != '\n' && !("\r\n" <= a)
    requires Split(a[1..] + b) == Complete(Split(a[1..])) + Split(Last(Split(a[1..])) + b)
    ensures Split(a + b) == Complete(Split(a)) + Split(Last(Split(a)) + b)
  {
    assert (a + b)[1..] == a[1..] + b && |a| > 1;
    CharGlued(a);
    CharGlued(a + b);
    GlueComplete(a[0], Split(a[1..]), Split(Last(Split(a[1..])) + b));
  }

  lemma CharGlued(text: string)
    requires text != "" && text[0] != '\n' && !("\r\n" <= text)
    ensures var parts := Split(text[1..]); Split(text) == [[text[0]] + parts[0]] + parts[1..]
  {
  }

  lemma {:induction false} KeptAppend(a: seq<string>, b: seq<string>)
    ensures Kept(a + b) == Kept(a) + Kept(b)
  {
    if a == [] {
      assert a + b == b;
    } else {
      assert (a + b)[1..] == a[1..] + b;
      KeptAppend(a[1..], b);
    }
  }

  // What one more chunk adds: the lines it completes, counted from the part it continues.
  lemma LinesGrow(a: string, b: string)
    ensures var more := Split(Last(Split(a)) + b);
            LinesOf(a + b) == LinesOf(a) + Kept(Complete(more)) && Last(Split(a + b)) == Last(more)
  {
    SplitAppend(a, b);
    SplitGivesLines(a);
    SplitGivesLines(a + b);
    var more := Split(Last(Split(a)) + b);
    assert Complete(Split(a + b)) == Complete(Split(a)) + Complete(more);
    KeptAppend(Complete(Split(a)), Complete(more));
  }

  lemma TailAppend(a: string, b: string, n: nat)
    ensures TailOf(TailOf(a, n) + b, n) == TailOf(a + b, n)
  {
    if |a| > n {
      assert a + b == a[..|a| - n] + (TailOf(a, n) + b);
    }
  }
}

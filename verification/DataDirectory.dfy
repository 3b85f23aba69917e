// The folder the UI and its Host keep their data in (src/ui-main/dataDirectory.ts): a development build never uses the
// release build's.
module DataDirectory {
  import opened Seqs
  import opened Options
  import opened Platforms
  import opened Paths

  const PRODUCT_NAME: string := "DwarfAI-Miners"
  const DEV_DATA_DIR_NAME: string := "DwarfAI-dev"

  datatype Facts = Facts(platform: Platform, isPackaged: bool, appData: string, userData: string)

  // Both folders are absolute, as Electron names them.
  predicate Absolute(facts: Facts) {
    IsAbsolute(facts.platform, facts.appData) && IsAbsolute(facts.platform, facts.userData)
  }

  // How `toLowerCase` changes one character.
  type Fold = char -> char

  // ASCII letters become lower case, other ASCII characters stay, and no other character becomes a separator.
  ghost predicate FoldsCase(fold: Fold) {
    && (forall c | 'A' <= c <= 'Z' :: fold(c) as int == c as int + 32)
    && (forall c | c < '\U{0080}' && !('A' <= c <= 'Z') :: fold(c) == c)
    && (forall c | c >= '\U{0080}' :: fold(c) != '/' && fold(c) != '\\')
  }

  // Separators stay, and nothing else becomes one.
  ghost predicate KeepsSeps(fold: Fold) {
    && fold('/') == '/' && fold('\\') == '\\'
    && forall c | c != '/' && c != '\\' :: fold(c) != '/' && fold(c) != '\\'
  }

  lemma FoldingCaseKeepsSeps(fold: Fold)
    requires FoldsCase(fold)
    ensures KeepsSeps(fold)
  {
    forall c | c != '/' && c != '\\' ensures fold(c) != '/' && fold(c) != '\\' {
      if 'A' <= c <= 'Z' {
        assert fold(c) as int == c as int + 32;
      }
    }
  }

  function FoldText(fold: Fold, text: string): string {
    Map(fold, text)
  }

  function FoldAll(fold: Fold, segments: seq<string>): (r: seq<string>)
    ensures |r| == |segments| && forall i | 0 <= i < |segments| :: r[i] == FoldText(fold, segments[i])
  {
    seq(|segments|, i requires 0 <= i < |segments| => FoldText(fold, segments[i]))
  }

  // The text two paths are compared by: Windows and macOS compare without regard to case.
  function Canonical(platform: Platform, path: string, fold: Fold): string
    requires IsAbsolute(platform, path)
  {
    var resolved := TextOf(platform, Resolve(platform, path));
    if platform == Linux then resolved else FoldText(fold, resolved)
  }

  predicate SamePath(platform: Platform, a: string, b: string, fold: Fold)
    requires IsAbsolute(platform, a) && IsAbsolute(platform, b)
  {
    Canonical(platform, a, fold) == Canonical(platform, b, fold)
  }

  lemma TheNamesArePlain(platform: Platform)
    ensures IsPlain(platform, PRODUCT_NAME) && IsPlain(platform, DEV_DATA_DIR_NAME)
  {
  }

  function ReleaseFolder(facts: Facts): (folder: string)
    requires Absolute(facts)
    ensures IsAbsolute(facts.platform, folder)
  {
    TheNamesArePlain(facts.platform);
    ResolveJoin(facts.platform, facts.appData, PRODUCT_NAME);
    Join(facts.platform, facts.appData, PRODUCT_NAME)
  }

  function UiDataDirectory(facts: Facts, fold: Fold): (folder: string)
    requires Absolute(facts)
    ensures IsAbsolute(facts.platform, folder)
  {
    TheNamesArePlain(facts.platform);
    ResolveJoin(facts.platform, facts.appData, DEV_DATA_DIR_NAME);
    if facts.isPackaged then facts.userData
    else if SamePath(facts.platform, facts.userData, ReleaseFolder(facts), fold)
    then Join(facts.platform, facts.appData, DEV_DATA_DIR_NAME)
    else facts.userData
  }

  // ---- What comparing paths means ----

  lemma FoldAppend(fold: Fold, a: string, b: string)
    ensures FoldText(fold, a + b) == FoldText(fold, a) + FoldText(fold, b)
  {
  }

  lemma FoldKeepsSeps(platform: Platform, fold: Fold, text: string)
    requires KeepsSeps(fold)
    ensures FoldText(fold, [Sep(platform)]) == [Sep(platform)]
    ensures NoSep(platform, text) ==> NoSep(platform, FoldText(fold, text))
  {
    var r := FoldText(fold, text);
    if NoSep(platform, text) {
      forall i | 0 <= i < |r| ensures !IsSep(platform, r[i]) {
        assert text[i] in text;
      }
    }
  }

  lemma {:induction false} FoldJoined(platform: Platform, fold: Fold, segments: seq<string>)
    requires KeepsSeps(fold)
    ensures FoldText(fold, JoinText(segments, Sep(platform))) == JoinText(FoldAll(fold, segments), Sep(platform))
  {
    if |segments| > 1 {
      var sep := [Sep(platform)];
      FoldJoined(platform, fold, segments[1..]);
      assert FoldAll(fold, segments)[1..] == FoldAll(fold, segments[1..]);
      FoldAppend(fold, segments[0] + sep, JoinText(segments[1..], Sep(platform)));
      FoldAppend(fold, segments[0], sep);
      FoldKeepsSeps(platform, fold, "");
    }
  }

  // What the compared text is made of: the device and the segments, each folded.
  function FoldFor(platform: Platform, fold: Fold): Fold {
    if platform == Linux then c => c else fold
  }

  ghost predicate SameFolder(platform: Platform, a: Resolved, b: Resolved, fold: Fold) {
    if platform == Linux then a == b
    else FoldText(fold, a.device) == FoldText(fold, b.device) && FoldAll(fold, a.segments) == FoldAll(fold, b.segments)
  }

  lemma IdentityFold(text: string)
    ensures FoldText(c => c, text) == text
  {
  }

  lemma IdentityFolds(text: string, segments: seq<string>)
    ensures FoldText(c => c, text) == text
    ensures FoldAll(c => c, segments) == segments
  {
    IdentityFold(text);
    forall i | 0 <= i < |segments| { IdentityFold(segments[i]); }
  }

  lemma SameFolderFolds(platform: Platform, a: Resolved, b: Resolved, fold: Fold)
    ensures var f := FoldFor(platform, fold);
            SameFolder(platform, a, b, fold) <==>
            FoldText(f, a.device) == FoldText(f, b.device) && FoldAll(f, a.segments) == FoldAll(f, b.segments)
  {
    if platform == Linux {
      IdentityFolds(a.device, a.segments);
      IdentityFolds(b.device, b.segments);
    }
  }

  lemma CanonicalIsFolded(platform: Platform, path: string, fold: Fold)
    requires IsAbsolute(platform, path) && FoldsCase(fold)
    ensures var f, r := FoldFor(platform, fold), Resolve(platform, path);
            Canonical(platform, path, fold) ==
              FoldText(f, r.device) + ([Sep(platform)] + JoinText(FoldAll(f, r.segments), Sep(platform)))
  {
    var f, r := FoldFor(platform, fold), Resolve(platform, path);
    FoldingCaseKeepsSeps(fold);
    TextIsFolded(platform, r, f);
    if platform == Linux {
      assert FoldText(f, TextOf(platform, r)) == TextOf(platform, r);
    }
  }

  lemma TextIsFolded(platform: Platform, r: Resolved, fold: Fold)
    requires KeepsSeps(fold)
    ensures FoldText(fold, TextOf(platform, r)) ==
            FoldText(fold, r.device) + ([Sep(platform)] + JoinText(FoldAll(fold, r.segments), Sep(platform)))
  {
    var sep, tail := [Sep(platform)], JoinText(r.segments, Sep(platform));
    FoldJoined(platform, fold, r.segments);
    FoldAppend(fold, r.device + sep, tail);
    FoldAppend(fold, r.device, sep);
    FoldKeepsSeps(platform, fold, "");
  }

  // The pieces of the text after the device tell the segments.
  lemma FoldedPieces(platform: Platform, segments: seq<string>, fold: Fold)
    requires AllPlain(platform, segments) && KeepsSeps(fold)
    ensures Pieces(platform, JoinText(FoldAll(fold, segments), Sep(platform))) ==
            if segments == [] then [""] else FoldAll(fold, segments)
    ensures forall i | 0 <= i < |segments| :: FoldAll(fold, segments)[i] != ""
  {
    forall i | 0 <= i < |segments| ensures NoSep(platform, FoldAll(fold, segments)[i]) {
      FoldKeepsSeps(platform, fold, segments[i]);
    }
    if segments != [] {
      PiecesOfJoined(platform, FoldAll(fold, segments));
    }
  }

  // A drive is one piece, a share four of which the first is empty; a POSIX root is one empty piece.
  lemma DevicePieces(platform: Platform, path: string, fold: Fold) returns (pieces: seq<string>)
    requires IsAbsolute(platform, path) && KeepsSeps(fold)
    ensures pieces == Pieces(platform, FoldText(fold, Resolve(platform, path).device))
    ensures |pieces| == if platform == Win32 && pieces[0] == "" then 4 else 1
  {
    var device := Resolve(platform, path).device;
    pieces := Pieces(platform, FoldText(fold, device));
    if platform == Win32 {
      if IsLetter(path[0]) {
        FoldKeepsSeps(platform, fold, device);
        PiecesOfName(platform, FoldText(fold, device));
      } else {
        var server, share := ShareNames(path[2..]);
        SharePieces(server, share, fold);
      }
    }
  }

  lemma SharePieces(server: string, share: string, fold: Fold)
    requires NoSep(Win32, server) && NoSep(Win32, share) && KeepsSeps(fold)
    ensures Pieces(Win32, FoldText(fold, "\\\\" + server + "\\" + share)) ==
            ["", "", FoldText(fold, server), FoldText(fold, share)]
  {
    var s, t := FoldText(fold, server), FoldText(fold, share);
    FoldKeepsSeps(Win32, fold, server);
    FoldKeepsSeps(Win32, fold, share);
    var text := FoldText(fold, "\\\\" + server + "\\" + share);
    assert text == "" + (['\\'] + ("" + (['\\'] + (s + (['\\'] + t)))));
    PiecesThen(Win32, s, '\\', t);
    PiecesThen(Win32, "", '\\', s + (['\\'] + t));
    PiecesThen(Win32, "", '\\', "" + (['\\'] + (s + (['\\'] + t))));
    PiecesOfName(Win32, s);
    PiecesOfName(Win32, t);
  }

  // Two paths are the same as the OS compares them exactly when their devices and their segments are, one by one.
  lemma SamePathComparesSegments(platform: Platform, a: string, b: string, fold: Fold)
    requires IsAbsolute(platform, a) && IsAbsolute(platform, b) && FoldsCase(fold)
    ensures SamePath(platform, a, b, fold) <==> SameFolder(platform, Resolve(platform, a), Resolve(platform, b), fold)
  {
    var f, ra, rb := FoldFor(platform, fold), Resolve(platform, a), Resolve(platform, b);
    FoldingCaseKeepsSeps(fold);
    SameFolderFolds(platform, ra, rb, fold);
    CanonicalIsFolded(platform, a, fold);
    CanonicalIsFolded(platform, b, fold);
    if SamePath(platform, a, b, fold) {
      var da := DevicePieces(platform, a, f);
      var db := DevicePieces(platform, b, f);
      var ta, tb := JoinText(FoldAll(f, ra.segments), Sep(platform)), JoinText(FoldAll(f, rb.segments), Sep(platform));
      PiecesThen(platform, FoldText(f, ra.device), Sep(platform), ta);
      PiecesThen(platform, FoldText(f, rb.device), Sep(platform), tb);
      ResolvedIsPlain(platform, a);
      ResolvedIsPlain(platform, b);
      FoldedPieces(platform, ra.segments, f);
      FoldedPieces(platform, rb.segments, f);
      SameParts(da, Pieces(platform, ta), db, Pieces(platform, tb), platform == Win32);
      SameTails(FoldAll(f, ra.segments), FoldAll(f, rb.segments));
      SameHeads(FoldText(f, ra.device), FoldText(f, rb.device), [Sep(platform)] + ta);
    }
  }

  lemma SameParts(da: seq<string>, ta: seq<string>, db: seq<string>, tb: seq<string>, windows: bool)
    requires da != [] && db != [] && da + ta == db + tb
    requires |da| == if windows && da[0] == "" then 4 else 1
    requires |db| == if windows && db[0] == "" then 4 else 1
    ensures ta == tb
  {
    assert da[0] == (da + ta)[0] == (db + tb)[0] == db[0];
    assert ta == (da + ta)[|da|..] && tb == (db + tb)[|db|..];
  }

  lemma SameTails(a: seq<string>, b: seq<string>)
    requires (if a == [] then [""] else a) == (if b == [] then [""] else b)
    requires (forall i | 0 <= i < |a| :: a[i] != "") && (forall i | 0 <= i < |b| :: b[i] != "")
    ensures a == b
  {
    var x, y := if a == [] then [""] else a, if b == [] then [""] else b;
    assert x[0] == y[0];
  }

  lemma SameHeads(a: string, b: string, tail: string)
    requires a + tail == b + tail
    ensures a == b
  {
    assert |a| == |b|;
    assert a == (a + tail)[..|a|];
    assert b == (b + tail)[..|b|];
  }

  // The last name decides, whatever the fold.
  lemma EndsInName(platform: Platform, resolved: Resolved)
    requires resolved.segments != []
    ensures var text, name := TextOf(platform, resolved), resolved.segments[|resolved.segments| - 1];
            |text| >= |name| && text[|text| - |name|..] == name
  {
    JoinedEndsInName(resolved.segments, Sep(platform));
  }

  lemma {:induction false} JoinedEndsInName(segments: seq<string>, sep: char)
    requires segments != []
    ensures var text, name := JoinText(segments, sep), segments[|segments| - 1];
            |text| >= |name| && text[|text| - |name|..] == name
  {
    if |segments| > 1 {
      JoinedEndsInName(segments[1..], sep);
    }
  }

  // ---- The rule ----

  // The text compared ends as the last segment does.
  lemma CanonicalEnds(platform: Platform, path: string, fold: Fold)
    requires IsAbsolute(platform, path)
    requires Resolve(platform, path).segments != []
    requires var s := Resolve(platform, path).segments; s[|s| - 1] != ""
    ensures var text, s := Canonical(platform, path, fold), Resolve(platform, path).segments;
            var name := s[|s| - 1];
            && text != ""
            && text[|text| - 1] == if platform == Linux then name[|name| - 1] else fold(name[|name| - 1])
  {
    var resolved := Resolve(platform, path);
    var name := resolved.segments[|resolved.segments| - 1];
    EndsInName(platform, resolved);
    var text := TextOf(platform, resolved);
    assert text[|text| - |name|..][|name| - 1] == text[|text| - 1];
  }

  lemma LastLetters()
    ensures DEV_DATA_DIR_NAME[|DEV_DATA_DIR_NAME| - 1] == 'v' && PRODUCT_NAME[|PRODUCT_NAME| - 1] == 's'
  {
  }

  lemma DevIsNotRelease(platform: Platform, appData: string, fold: Fold)
    requires IsAbsolute(platform, appData) && FoldsCase(fold)
    ensures IsPlain(platform, PRODUCT_NAME) && IsPlain(platform, DEV_DATA_DIR_NAME)
    ensures var release, dev := Join(platform, appData, PRODUCT_NAME), Join(platform, appData, DEV_DATA_DIR_NAME);
            && IsAbsolute(platform, release) && IsAbsolute(platform, dev)
            && !SamePath(platform, dev, release, fold)
  {
    TheNamesArePlain(platform);
    LastLetters();
    NamesStayApart(platform, appData, DEV_DATA_DIR_NAME, PRODUCT_NAME, fold);
  }

  // Names with different last letters stay apart.
  lemma NamesStayApart(platform: Platform, folder: string, a: string, b: string, fold: Fold)
    requires IsAbsolute(platform, folder) && FoldsCase(fold)
    requires IsPlain(platform, a) && IsPlain(platform, b)
    requires a[|a| - 1] != b[|b| - 1] && fold(a[|a| - 1]) != fold(b[|b| - 1])
    ensures IsAbsolute(platform, Join(platform, folder, a)) && IsAbsolute(platform, Join(platform, folder, b))
    ensures !SamePath(platform, Join(platform, folder, a), Join(platform, folder, b), fold)
  {
    JoinedEnds(platform, folder, a, fold);
    JoinedEnds(platform, folder, b, fold);
  }

  lemma JoinedEnds(platform: Platform, folder: string, name: string, fold: Fold)
    requires IsAbsolute(platform, folder) && IsPlain(platform, name)
    ensures IsAbsolute(platform, Join(platform, folder, name))
    ensures var text := Canonical(platform, Join(platform, folder, name), fold);
            && text != ""
            && text[|text| - 1] == if platform == Linux then name[|name| - 1] else fold(name[|name| - 1])
  {
    ResolveJoin(platform, folder, name);
    CanonicalEnds(platform, Join(platform, folder, name), fold);
  }

  // A development build never shares the release folder, as its OS compares paths.
  lemma NeverTheReleaseFolder(facts: Facts, fold: Fold)
    requires Absolute(facts) && FoldsCase(fold)
    requires !facts.isPackaged
    ensures !SamePath(facts.platform, UiDataDirectory(facts, fold), ReleaseFolder(facts), fold)
  {
    DevIsNotRelease(facts.platform, facts.appData, fold);
  }

  // It moves exactly when its own folder is the release folder; every other folder, and a packaged build's, is kept as it
  // is spelled.
  lemma MovesExactlyFromRelease(facts: Facts, fold: Fold)
    requires Absolute(facts) && FoldsCase(fold)
    ensures UiDataDirectory(facts, fold) == facts.userData <==>
            facts.isPackaged || !SamePath(facts.platform, facts.userData, ReleaseFolder(facts), fold)
  {
    DevIsNotRelease(facts.platform, facts.appData, fold);
  }

  // The rule told of resolved paths: an unpackaged build whose folder is "DwarfAI-Miners" in the application data folder,
  // as its OS compares paths, moves to "DwarfAI-dev" beside it, and so is in no other; every other build stays.
  lemma RuleSpelledOut(facts: Facts, fold: Fold)
    requires Absolute(facts) && FoldsCase(fold)
    ensures var home, folder := Resolve(facts.platform, facts.appData), UiDataDirectory(facts, fold);
            var release := Resolved(home.device, home.segments + ["DwarfAI-Miners"]);
            if !facts.isPackaged && SameFolder(facts.platform, Resolve(facts.platform, facts.userData), release, fold)
            then Resolve(facts.platform, folder) == Resolved(home.device, home.segments + ["DwarfAI-dev"])
            else folder == facts.userData
    ensures var home, folder := Resolve(facts.platform, facts.appData), UiDataDirectory(facts, fold);
            facts.isPackaged
            || !SameFolder(facts.platform, Resolve(facts.platform, folder),
                           Resolved(home.device, home.segments + ["DwarfAI-Miners"]), fold)
  {
    TheNamesArePlain(facts.platform);
    ResolveJoin(facts.platform, facts.appData, "DwarfAI-Miners");
    ResolveJoin(facts.platform, facts.appData, "DwarfAI-dev");
    SamePathComparesSegments(facts.platform, facts.userData, ReleaseFolder(facts), fold);
    SamePathComparesSegments(facts.platform, UiDataDirectory(facts, fold), ReleaseFolder(facts), fold);
    DevIsNotRelease(facts.platform, facts.appData, fold);
  }

  // Applied to the folder it chose, the rule chooses it again.
  lemma RuleIsStable(facts: Facts, fold: Fold)
    requires Absolute(facts) && FoldsCase(fold)
    ensures var folder := UiDataDirectory(facts, fold);
            UiDataDirectory(facts.(userData := folder), fold) == folder
  {
    DevIsNotRelease(facts.platform, facts.appData, fold);
  }
}

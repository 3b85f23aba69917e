// Paths as Node's `path.posix` and `path.win32` resolve and join them: separators, dot segments and drives.
module Paths {
  import opened Options
  import opened Platforms

  predicate IsSep(platform: Platform, c: char) {
    c == '/' || (platform == Win32 && c == '\\')
  }

  function Sep(platform: Platform): char {
    if platform == Win32 then '\\' else '/'
  }

  // What a path says between its separators, empty stretches included.
  function Pieces(platform: Platform, path: string): (pieces: seq<string>)
    ensures pieces != []
  {
    if path == "" then [""]
    else
      var others := Pieces(platform, path[1..]);
      if IsSep(platform, path[0]) then [""] + others else [[path[0]] + others[0]] + others[1..]
  }

  // One more piece below a root: ".." takes the last segment away, if there is one.
  function Onto(segments: seq<string>, piece: string): seq<string> {
    if piece == "" || piece == "." then segments
    else if piece == ".." then if segments == [] then [] else segments[..|segments| - 1]
    else segments + [piece]
  }

  // `normalizeString` below a root, on segments
  function Normalize(segments: seq<string>, pieces: seq<string>): seq<string> {
    if pieces == [] then segments
    else Onto(Normalize(segments, pieces[..|pieces| - 1]), pieces[|pieces| - 1])
  }

  function JoinText(segments: seq<string>, sep: char): string {
    if segments == [] then ""
    else if |segments| == 1 then segments[0]
    else segments[0] + [sep] + JoinText(segments[1..], sep)
  }

  // ---- Roots ----

  predicate IsLetter(c: char) {
    'a' <= c <= 'z' || 'A' <= c <= 'Z'
  }

  // The stretch up to the first separator.
  function Name(path: string): (name: string)
    ensures name <= path
    ensures forall c | c in name :: !IsSep(Win32, c)
    ensures |name| < |path| ==> IsSep(Win32, path[|name|])
  {
    if path == "" || IsSep(Win32, path[0]) then "" else [path[0]] + Name(path[1..])
  }

  function SkipSeps(path: string): (rest: string)
    ensures rest != "" ==> !IsSep(Win32, rest[0])
    ensures |rest| <= |path|
  {
    if path != "" && IsSep(Win32, path[0]) then SkipSeps(path[1..]) else path
  }

  // A path from a root: its device ("" on POSIX, a drive or a share on Windows) and what follows.
  datatype Rooted = Rooted(device: string, rest: string)

  // The root of an absolute path, None for a path that is not absolute. On Windows: a drive and a separator, or a share
  // of a server (other than the device names "." and "?").
  function Root(platform: Platform, path: string): Option<Rooted> {
    if platform != Win32 then
      if path != "" && path[0] == '/' then Some(Rooted("", path)) else None
    else if |path| >= 3 && IsLetter(path[0]) && path[1] == ':' && IsSep(Win32, path[2]) then
      Some(Rooted(path[..2], path[2..]))
    else if |path| >= 3 && IsSep(Win32, path[0]) && IsSep(Win32, path[1]) then Share(path[2..])
    else None
  }

  // What follows two separators: a server, separators and a share.
  function Share(path: string): Option<Rooted> {
    var server := Name(path);
    var after := SkipSeps(path[|server|..]);
    var share := Name(after);
    if server == "" || server == "." || server == "?" || share == "" then None
    else Some(Rooted("\\\\" + server + "\\" + share, after[|share|..]))
  }

  // ---- resolve and join ----

  // A resolved path: its device and its segments.
  datatype Resolved = Resolved(device: string, segments: seq<string>)

  function TextOf(platform: Platform, path: Resolved): string {
    path.device + [Sep(platform)] + JoinText(path.segments, Sep(platform))
  }

  predicate IsAbsolute(platform: Platform, path: string) {
    Root(platform, path).Some?
  }

  function Resolve(platform: Platform, path: string): Resolved
    requires IsAbsolute(platform, path)
  {
    var root := Root(platform, path).value;
    Resolved(root.device, Normalize([], Pieces(platform, root.rest)))
  }

  // A name that is one segment.
  predicate IsPlain(platform: Platform, name: string) {
    name != "" && name != "." && name != ".." && forall c | c in name :: !IsSep(platform, c)
  }

  // `path.join(folder, name)` for an absolute folder and a plain name: the normalized path, without a separator at its
  // end since the name is last.
  function Join(platform: Platform, folder: string, name: string): string
    requires IsAbsolute(platform, folder)
    requires IsPlain(platform, name)
  {
    var joined := folder + ([Sep(platform)] + name);
    RootThen(platform, folder, [Sep(platform)] + name);
    TextOf(platform, Resolve(platform, joined))
  }

  // ---- Roots of longer paths ----

  ghost predicate NoSep(platform: Platform, text: string) {
    forall c | c in text :: !IsSep(platform, c)
  }

  lemma {:induction false} NameThen(path: string, more: string)
    requires more != "" && IsSep(Win32, more[0])
    ensures Name(path + more) == Name(path)
  {
    if path == "" {
      assert path + more == more;
    } else {
      assert (path + more)[1..] == path[1..] + more;
      NameThen(path[1..], more);
    }
  }

  lemma {:induction false} NameOfName(name: string)
    requires forall c | c in name :: !IsSep(Win32, c)
    ensures Name(name) == name
  {
    if name != "" {
      assert name[0] in name;
      NameOfName(name[1..]);
    }
  }

  lemma {:induction false} SkipSepsThen(path: string, more: string)
    requires SkipSeps(path) != ""
    ensures SkipSeps(path + more) == SkipSeps(path) + more
  {
    if IsSep(Win32, path[0]) {
      assert (path + more)[1..] == path[1..] + more;
      SkipSepsThen(path[1..], more);
    }
  }

  lemma ShareThen(path: string, more: string)
    requires Share(path).Some?
    requires more != "" && IsSep(Win32, more[0])
    ensures Share(path + more) == Some(Rooted(Share(path).value.device, Share(path).value.rest + more))
  {
    var server := Name(path);
    var tail := path[|server|..];
    var after := SkipSeps(tail);
    NameThen(path, more);
    DropThen(path, more, |server|);
    SkipSepsThen(tail, more);
    NameThen(after, more);
    DropThen(after, more, |Name(after)|);
  }

  lemma DropThen(s: string, more: string, n: nat)
    requires n <= |s|
    ensures (s + more)[n..] == s[n..] + more
  {
  }

  // What follows a separator after an absolute path changes nothing of its root.
  lemma RootThen(platform: Platform, path: string, more: string)
    requires IsAbsolute(platform, path)
    requires more != "" && IsSep(platform, more[0])
    ensures Root(platform, path + more) == Some(Rooted(Root(platform, path).value.device, Root(platform, path).value.rest + more))
  {
    if platform == Win32 {
      DropThen(path, more, 2);
      if IsLetter(path[0]) {
        assert (path + more)[..2] == path[..2];
      } else {
        ShareThen(path[2..], more);
      }
    }
  }

  // A device is found again at the front of a text it starts.
  lemma RootOfDevice(platform: Platform, path: string, text: string)
    requires IsAbsolute(platform, path)
    requires text != "" && text[0] == Sep(platform)
    ensures var device := Root(platform, path).value.device;
            Root(platform, device + text) == Some(Rooted(device, text))
  {
    var device := Root(platform, path).value.device;
    if platform != Win32 {
      assert device + text == text;
    } else if IsLetter(path[0]) {
      assert (device + text)[..2] == device && (device + text)[2..] == text;
    } else {
      var server, share := ShareNames(path[2..]);
      ShareOf(server, share, text);
      ShareText(server, share, text);
    }
  }

  // The names a share is made of.
  lemma ShareNames(path: string) returns (server: string, share: string)
    requires Share(path).Some?
    ensures server != "" && server != "." && server != "?" && share != ""
    ensures NoSep(Win32, server) && NoSep(Win32, share)
    ensures Share(path).value.device == "\\\\" + server + "\\" + share
  {
    server := Name(path);
    share := Name(SkipSeps(path[|server|..]));
  }

  lemma ShareText(server: string, share: string, text: string)
    ensures ("\\\\" + server + "\\" + share + text)[2..] == server + ("\\" + (share + text))
    ensures ("\\\\" + server + "\\" + share + text)[..2] == "\\\\"
  {
  }

  lemma ShareOf(server: string, share: string, text: string)
    requires server != "" && server != "." && server != "?" && share != ""
    requires NoSep(Win32, server) && NoSep(Win32, share)
    requires text != "" && text[0] == '\\'
    ensures Share(server + ("\\" + (share + text))) == Some(Rooted("\\\\" + server + "\\" + share, text))
  {
    var path := server + ("\\" + (share + text));
    NameOfName(server);
    NameThen(server, "\\" + (share + text));
    assert path[|server|..] == "\\" + (share + text);
    assert ("\\" + (share + text))[1..] == share + text;
    assert share[0] in share;
    assert SkipSeps("\\" + (share + text)) == share + text;
    NameOfName(share);
    NameThen(share, text);
    assert (share + text)[|share|..] == text;
  }

  // ---- Pieces and segments ----

  lemma {:induction false} PiecesHaveNoSep(platform: Platform, path: string)
    ensures forall i | 0 <= i < |Pieces(platform, path)| :: NoSep(platform, Pieces(platform, path)[i])
  {
    if path != "" {
      PiecesHaveNoSep(platform, path[1..]);
    }
  }

  lemma {:induction false} PiecesThen(platform: Platform, path: string, sep: char, more: string)
    requires IsSep(platform, sep)
    ensures Pieces(platform, path + ([sep] + more)) == Pieces(platform, path) + Pieces(platform, more)
  {
    var text := path + ([sep] + more);
    if path == "" {
      assert text == [sep] + more && text[1..] == more;
    } else {
      assert text[1..] == path[1..] + ([sep] + more);
      PiecesThen(platform, path[1..], sep, more);
    }
  }

  lemma {:induction false} PiecesOfName(platform: Platform, name: string)
    requires NoSep(platform, name)
    ensures Pieces(platform, name) == [name]
  {
    if name != "" {
      assert name[0] in name;
      PiecesOfName(platform, name[1..]);
      assert [name[0]] + name[1..] == name;
    }
  }

  ghost predicate AllPlain(platform: Platform, segments: seq<string>) {
    forall i | 0 <= i < |segments| :: IsPlain(platform, segments[i])
  }

  lemma {:induction false} PiecesOfJoined(platform: Platform, segments: seq<string>)
    requires segments != [] && forall i | 0 <= i < |segments| :: NoSep(platform, segments[i])
    ensures Pieces(platform, JoinText(segments, Sep(platform))) == segments
  {
    PiecesOfName(platform, segments[0]);
    if |segments| > 1 {
      var others := JoinText(segments[1..], Sep(platform));
      PiecesOfJoined(platform, segments[1..]);
      PiecesThen(platform, segments[0], Sep(platform), others);
      assert segments[0] + [Sep(platform)] + others == segments[0] + ([Sep(platform)] + others);
    }
  }

  lemma {:induction false} NormalizeThen(segments: seq<string>, a: seq<string>, b: seq<string>)
    ensures Normalize(segments, a + b) == Normalize(Normalize(segments, a), b)
  {
    if b == [] {
      assert a + b == a;
    } else {
      assert (a + b)[..|a + b| - 1] == a + b[..|b| - 1];
      NormalizeThen(segments, a, b[..|b| - 1]);
    }
  }

  // From a root, normalizing leaves names only.
  lemma {:induction false} NormalizedIsPlain(platform: Platform, segments: seq<string>, pieces: seq<string>)
    requires AllPlain(platform, segments)
    requires forall i | 0 <= i < |pieces| :: NoSep(platform, pieces[i])
    ensures AllPlain(platform, Normalize(segments, pieces))
  {
    if pieces != [] {
      NormalizedIsPlain(platform, segments, pieces[..|pieces| - 1]);
    }
  }

  // Names stay as they are.
  lemma {:induction false} NormalizePlain(platform: Platform, segments: seq<string>, names: seq<string>)
    requires AllPlain(platform, names)
    ensures Normalize(segments, names) == segments + names
  {
    if names != [] {
      NormalizePlain(platform, segments, names[..|names| - 1]);
    }
  }

  lemma ResolvedIsPlain(platform: Platform, path: string)
    requires IsAbsolute(platform, path)
    ensures AllPlain(platform, Resolve(platform, path).segments)
  {
    PiecesHaveNoSep(platform, Root(platform, path).value.rest);
    NormalizedIsPlain(platform, [], Pieces(platform, Root(platform, path).value.rest));
  }

  // ---- The laws ----

  // Going on below an absolute path goes on from its segments.
  lemma ResolveThen(platform: Platform, path: string, sep: char, more: string)
    requires IsAbsolute(platform, path) && IsSep(platform, sep)
    ensures IsAbsolute(platform, path + ([sep] + more))
    ensures Resolve(platform, path + ([sep] + more)) ==
            Resolved(Resolve(platform, path).device,
                     Normalize(Resolve(platform, path).segments, Pieces(platform, more)))
  {
    var rest := Root(platform, path).value.rest;
    RootThen(platform, path, [sep] + more);
    PiecesThen(platform, rest, sep, more);
    NormalizeThen([], Pieces(platform, rest), Pieces(platform, more));
  }

  // How a path goes on: after "/", on Windows also after "\\", "" and "." stay, ".." goes up as long as there is somewhere
  // to go, and any other name goes down, "\\" being part of a name elsewhere.
  lemma ResolveBelow(platform: Platform, path: string, sep: char, name: string)
    requires IsAbsolute(platform, path)
    requires sep == '/' || (platform == Win32 && sep == '\\')
    requires '/' !in name && (platform == Win32 ==> '\\' !in name)
    ensures IsAbsolute(platform, path + ([sep] + name))
    ensures var was, r := Resolve(platform, path), Resolve(platform, path + ([sep] + name));
            && r.device == was.device
            && r.segments == if name == "" || name == "." then was.segments
                             else if name == ".." then
                               if was.segments == [] then [] else was.segments[..|was.segments| - 1]
                             else was.segments + [name]
  {
    ResolveThen(platform, path, sep, name);
    PiecesOfName(platform, name);
    OnePiece(Resolve(platform, path).segments, name);
  }

  // Where that starts: "/" on macOS and Linux, a drive or a share on Windows.
  lemma RootsAreEmpty(letter: char, sep: char, server: string, share: string)
    requires 'a' <= letter <= 'z' || 'A' <= letter <= 'Z'
    requires sep == '/' || sep == '\\'
    requires server != "" && server != "." && server != "?" && share != ""
    requires NoSep(Win32, server) && NoSep(Win32, share)
    ensures forall platform | platform != Win32 :: IsAbsolute(platform, "/") && Resolve(platform, "/") == Resolved("", [])
    ensures var drive := [letter, ':', sep];
            IsAbsolute(Win32, drive) && Resolve(Win32, drive) == Resolved([letter, ':'], [])
    ensures var unc := "\\\\" + server + "\\" + share;
            IsAbsolute(Win32, unc) && Resolve(Win32, unc) == Resolved(unc, [])
  {
    forall platform | platform != Win32
      ensures IsAbsolute(platform, "/") && Resolve(platform, "/") == Resolved("", [])
    {
      RootPieces(platform, '/');
    }
    var drive := [letter, ':', sep];
    assert drive[..2] == [letter, ':'] && drive[2..] == [sep];
    RootPieces(Win32, sep);
    ShareAlone(server, share);
  }

  lemma RootPieces(platform: Platform, sep: char)
    requires IsSep(platform, sep)
    ensures Normalize([], Pieces(platform, [sep])) == []
    ensures Normalize([], Pieces(platform, "")) == []
  {
    OnePiece([], "");
    assert [sep][1..] == "";
    assert Pieces(platform, [sep]) == [""] + [""];
    NormalizeThen([], [""], [""]);
  }

  lemma ShareAlone(server: string, share: string)
    requires server != "" && server != "." && server != "?" && share != ""
    requires NoSep(Win32, server) && NoSep(Win32, share)
    ensures var unc := "\\\\" + server + "\\" + share;
            IsAbsolute(Win32, unc) && Resolve(Win32, unc) == Resolved(unc, [])
  {
    var unc := "\\\\" + server + "\\" + share;
    var path := server + ("\\" + share);
    assert unc[2..] == path;
    NameOfName(server);
    NameThen(server, "\\" + share);
    assert path[|server|..] == "\\" + share && ("\\" + share)[1..] == share;
    assert share[0] in share;
    assert SkipSeps("\\" + share) == share;
    NameOfName(share);
    assert share[|share|..] == "";
    assert Share(path) == Some(Rooted(unc, ""));
    RootPieces(Win32, '/');
  }

  // A resolved path's text resolves to that path.
  lemma ResolveText(platform: Platform, path: string)
    requires IsAbsolute(platform, path)
    ensures var text := TextOf(platform, Resolve(platform, path));
            IsAbsolute(platform, text) && Resolve(platform, text) == Resolve(platform, path)
  {
    var resolved := Resolve(platform, path);
    ResolvedIsPlain(platform, path);
    JoinedNormalizes(platform, resolved.segments);
    RootOfText(platform, path, resolved);
  }

  lemma RootOfText(platform: Platform, path: string, resolved: Resolved)
    requires IsAbsolute(platform, path) && resolved.device == Root(platform, path).value.device
    ensures Root(platform, TextOf(platform, resolved)) ==
            Some(Rooted(resolved.device, [Sep(platform)] + JoinText(resolved.segments, Sep(platform))))
  {
    var tail := [Sep(platform)] + JoinText(resolved.segments, Sep(platform));
    RootOfDevice(platform, path, tail);
    assert TextOf(platform, resolved) == resolved.device + tail;
  }

  // Names joined behind a separator are found again.
  lemma JoinedNormalizes(platform: Platform, names: seq<string>)
    requires AllPlain(platform, names)
    ensures Normalize([], Pieces(platform, [Sep(platform)] + JoinText(names, Sep(platform)))) == names
  {
    var sep := Sep(platform);
    var tail := JoinText(names, sep);
    assert "" + ([sep] + tail) == [sep] + tail;
    PiecesThen(platform, "", sep, tail);
    NormalizeThen([], [""], Pieces(platform, tail));
    OnePiece([], "");
    if names != [] {
      PiecesOfJoined(platform, names);
      NormalizePlain(platform, [], names);
    }
  }

  // Joining a name is going one segment down.
  lemma ResolveJoin(platform: Platform, folder: string, name: string)
    requires IsAbsolute(platform, folder) && IsPlain(platform, name)
    ensures var joined := Join(platform, folder, name);
            && IsAbsolute(platform, joined)
            && Resolve(platform, joined) ==
                 Resolved(Resolve(platform, folder).device, Resolve(platform, folder).segments + [name])
  {
    ResolveThen(platform, folder, Sep(platform), name);
    PiecesOfName(platform, name);
    NormalizePlain(platform, Resolve(platform, folder).segments, [name]);
    ResolveText(platform, folder + ([Sep(platform)] + name));
  }

  // A separator at the end, and a detour down and up again, lead to the same folder.
  lemma DetoursLeadBack(platform: Platform, path: string, name: string)
    requires IsAbsolute(platform, path) && IsPlain(platform, name)
    ensures var sep := [Sep(platform)];
            && IsAbsolute(platform, path + sep) && Resolve(platform, path + sep) == Resolve(platform, path)
            && IsAbsolute(platform, path + (sep + (name + (sep + ".."))))
            && Resolve(platform, path + (sep + (name + (sep + "..")))) == Resolve(platform, path)
  {
    var sep := [Sep(platform)];
    var segments := Resolve(platform, path).segments;
    ResolveThen(platform, path, Sep(platform), "");
    assert sep + "" == sep;
    OnePiece(segments, "");
    ResolveThen(platform, path, Sep(platform), name + (sep + ".."));
    PiecesThen(platform, name, Sep(platform), "..");
    PiecesOfName(platform, name);
    PiecesOfName(platform, "..");
    DownAndUp(segments, name);
  }

  lemma OnePiece(segments: seq<string>, piece: string)
    ensures Normalize(segments, [piece]) == Onto(segments, piece)
  {
    assert [piece][..0] == [];
  }

  lemma DownAndUp(segments: seq<string>, name: string)
    requires name != "" && name != "." && name != ".."
    ensures Normalize(segments, [name] + [".."]) == segments
  {
    NormalizeThen(segments, [name], [".."]);
    OnePiece(segments, name);
    OnePiece(segments + [name], "..");
    assert (segments + [name])[..|segments|] == segments;
  }
}

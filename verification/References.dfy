/** Parsing and printing references (src/stashd/domain/references.py): a storage id, a colon, and then a path if a slash
    comes next and a fileset name if not. */
module References {
  import opened Options

  datatype Refusal = InvalidName | InvalidPath

  datatype Reference = PathRef(storage: string, path: string) | FilesetRef(storage: string, name: string)

  function Print(r: Reference): string {
    match r
    case PathRef(storage, path) => storage + ":" + path
    case FilesetRef(storage, name) => storage + ":" + name
  }

  predicate Upper(c: char) { 'A' <= c <= 'Z' }
  predicate Lower(c: char) { 'a' <= c <= 'z' }
  predicate Digit(c: char) { '0' <= c <= '9' }

  predicate StorageId(s: string) {
    && 1 <= |s| <= 32
    && Upper(s[0])
    && forall i :: 1 <= i < |s| ==> Upper(s[i]) || Digit(s[i]) || s[i] in "_-"
  }

  predicate FilesetName(s: string) {
    && 1 <= |s| <= 64
    && (Upper(s[0]) || Lower(s[0]) || Digit(s[0]))
    && forall i :: 1 <= i < |s| ==> Upper(s[i]) || Lower(s[i]) || Digit(s[i]) || s[i] in "._-"
  }

  /** What the patterns' closing `$` lets through: the end of the text, or one newline before it. */
  function BeforeFinalNewline(s: string): string {
    if s != "" && s[|s| - 1] == '\n' then s[..|s| - 1] else s
  }

  function ValidateStorageId(s: string): Result<string, Refusal> {
    if StorageId(BeforeFinalNewline(s)) then Ok(s) else Err(InvalidName)
  }

  function ValidateFilesetName(s: string): Result<string, Refusal> {
    if FilesetName(BeforeFinalNewline(s)) then Ok(s) else Err(InvalidName)
  }

  /** The validators let through what the patterns describe and, beyond that, exactly those texts with one newline
      behind them. */
  lemma NewlineSlipsThrough(s: string)
    ensures ValidateFilesetName(s).Ok?
      <==> FilesetName(s) || (s != "" && s[|s| - 1] == '\n' && FilesetName(s[..|s| - 1]))
    ensures ValidateStorageId(s).Ok? <==> StorageId(s) || (s != "" && s[|s| - 1] == '\n' && StorageId(s[..|s| - 1]))
  {
    if s != "" && s[|s| - 1] == '\n' {
      assert !FilesetName(s) by { if |s| > 1 { assert s[|s| - 1] !in "._-"; } }
      assert !StorageId(s) by { if |s| > 1 { assert s[|s| - 1] !in "_-"; } }
    }
  }

  function DropSlashes(s: string): string {
    if s != "" && s[|s| - 1] == '/' then DropSlashes(s[..|s| - 1]) else s
  }

  /** Python's text.split("/"): the pieces between the slashes, at least one. */
  function Split(s: string): (pieces: seq<string>)
    ensures pieces != []
  {
    if s == "" then [""]
    else if s[0] == '/' then [""] + Split(s[1..])
    else
      var rest := Split(s[1..]);
      [[s[0]] + rest[0]] + rest[1..]
  }

  predicate PlainSegment(segment: string) {
    segment !in ["", ".", ".."]
  }

  function ValidateStoragePath(path: string): Result<string, Refusal> {
    if path == "" || path[0] != '/' then Err(InvalidPath)
    else
      var stripped := DropSlashes(path);
      var kept := if stripped == "" then "/" else stripped;
      var segments := if kept != "/" then Split(kept)[1..] else [];
      if forall s :: s in segments ==> PlainSegment(s) then Ok(kept) else Err(InvalidPath)
  }

  /** The position of the first colon, which is what partition(":") cuts at. */
  function FirstColon(text: string): (at: Option<nat>)
    ensures at.Some? ==> at.value < |text| && text[at.value] == ':' && ':' !in text[..at.value]
    ensures at.None? ==> ':' !in text
  {
    if text == "" then None
    else if text[0] == ':' then Some(0)
    else
      match FirstColon(text[1..])
      case Some(k) => (assert text[..k + 1] == [text[0]] + text[1..][..k]; Some(k + 1))
      case None => None
  }

  function ParseReference(text: string): Result<Reference, Refusal> {
    match FirstColon(text)
    case None => Err(InvalidName)
    case Some(k) => ParseParts(text[..k], text[k + 1..])
  }

  function ParseParts(storage: string, rest: string): Result<Reference, Refusal> {
    if rest == "" then Err(InvalidName)
    else if ValidateStorageId(storage).Err? then Err(InvalidName)
    else if rest[0] == '/' then
      match ValidateStoragePath(rest)
      case Ok(path) => Ok(PathRef(storage, path))
      case Err(e) => Err(e)
    else
      match ValidateFilesetName(rest)
      case Ok(name) => Ok(FilesetRef(storage, name))
      case Err(e) => Err(e)
  }

  /** A reference whose parts the validators return unchanged. */
  predicate Valid(r: Reference) {
    && ValidateStorageId(r.storage).Ok?
    && match r
       case PathRef(_, path) => ValidateStoragePath(path) == Ok(path)
       case FilesetRef(_, name) => ValidateFilesetName(name).Ok?
  }

  // ---- Paths: an independent description of what is accepted ----

  function Join(segments: seq<string>): string {
    if segments == [] then "" else "/" + segments[0] + Join(segments[1..])
  }

  predicate Plain(segments: seq<string>) {
    forall s :: s in segments ==> PlainSegment(s) && '/' !in s
  }

  function Slashes(n: nat): string {
    if n == 0 then "" else Slashes(n - 1) + "/"
  }

  lemma {:induction false} DropSlashesDrops(s: string) returns (n: nat)
    ensures s == DropSlashes(s) + Slashes(n)
    ensures DropSlashes(s) == "" || DropSlashes(s)[|DropSlashes(s)| - 1] != '/'
    ensures DropSlashes(DropSlashes(s)) == DropSlashes(s)
  {
    if s != "" && s[|s| - 1] == '/' {
      n := DropSlashesDrops(s[..|s| - 1]);
      n := n + 1;
      assert s == s[..|s| - 1] + "/";
    } else {
      n := 0;
    }
  }

  lemma {:induction false} DropsAppended(s: string, n: nat)
    requires s == "" || s[|s| - 1] != '/'
    ensures DropSlashes(s + Slashes(n)) == s
  {
    if n > 0 {
      DropsAppended(s, n - 1);
      assert (s + Slashes(n))[..|s + Slashes(n)| - 1] == s + Slashes(n - 1);
    } else {
      assert s + Slashes(0) == s;
    }
  }

  lemma {:induction false} SplitPieces(s: string)
    ensures forall p :: p in Split(s) ==> '/' !in p
    ensures s == Split(s)[0] + Join(Split(s)[1..])
  {
    if s != "" {
      SplitPieces(s[1..]);
      var rest := Split(s[1..]);
      assert s == [s[0]] + s[1..];
      if s[0] == '/' {
        assert Split(s)[1..] == rest;
      } else {
        assert Split(s)[1..] == rest[1..];
      }
    }
  }

  lemma {:induction false} SplitOfPiece(piece: string, tail: string)
    requires '/' !in piece && (tail == "" || tail[0] == '/')
    ensures Split(piece + tail) == [piece] + Split(tail)[1..]
    ensures tail != "" ==> Split(piece + tail) == [piece] + Split(tail[1..])
  {
    if piece == "" {
      assert piece + tail == tail;
    } else {
      SplitOfPiece(piece[1..], tail);
      assert (piece + tail)[1..] == piece[1..] + tail;
      assert [piece[0]] + piece[1..] == piece;
    }
  }

  lemma SplitOfSegment(first: string, rest: string, segments: seq<string>)
    requires '/' !in first && (rest == "" || rest[0] == '/') && Split(rest) == [""] + segments
    ensures Split("/" + first + rest) == [""] + ([first] + segments)
  {
    SplitOfPiece(first, rest);
    assert ("/" + first + rest)[1..] == first + rest;
    assert Split(first + rest) == [first] + segments;
  }

  lemma {:induction false} SplitOfJoin(segments: seq<string>)
    requires forall s :: s in segments ==> '/' !in s
    ensures Split(Join(segments)) == [""] + segments
  {
    if segments != [] {
      SplitOfJoin(segments[1..]);
      SplitOfSegment(segments[0], Join(segments[1..]), segments[1..]);
      assert segments == [segments[0]] + segments[1..];
    }
  }

  /** A path is accepted, and normalised to `kept`, exactly when it is `kept` with slashes appended
      and `kept` is either the root or a join of plain segments. */
  lemma PathAcceptedIff(path: string, kept: string)
    ensures ValidateStoragePath(path) == Ok(kept)
       <==> exists segments, n :: && Plain(segments)
                                  && path == Join(segments) + Slashes(n)
                                  && path != ""
                                  && kept == (if segments == [] then "/" else Join(segments))
  {
    if ValidateStoragePath(path) == Ok(kept) {
      var n := DropSlashesDrops(path);
      var stripped := DropSlashes(path);
      if stripped == "" {
        assert Plain([]) && path == Join([]) + Slashes(n);
      } else {
        assert stripped[0] == path[0] == '/';
        assert stripped != "/";
        SplitPieces(stripped);
        var segments := Split(stripped)[1..];
        assert Split(stripped)[0] == "";
        assert Plain(segments) && path == Join(segments) + Slashes(n);
        assert segments != [];
      }
    }
    if segments, n :| Plain(segments) && path == Join(segments) + Slashes(n) && path != ""
                      && kept == (if segments == [] then "/" else Join(segments)) {
      JoinEnds(segments);
      DropsAppended(Join(segments), n);
      if segments == [] {
        assert path == Slashes(n);
        SlashesOnly(n);
      } else {
        SplitOfJoin(segments);
        assert Join(segments) != "/" by { assert '/' !in segments[0] && segments[0] in segments; }
        assert Split(kept)[1..] == segments;
      }
    }
  }

  lemma {:induction false} SlashesOnly(n: nat)
    ensures |Slashes(n)| == n
    ensures n > 0 ==> Slashes(n)[0] == '/'
  {
    if n > 0 { SlashesOnly(n - 1); }
  }

  lemma {:induction false} JoinEnds(segments: seq<string>)
    requires Plain(segments)
    ensures segments != [] ==> |Join(segments)| > 1 && Join(segments)[0] == '/'
    ensures segments != [] ==> Join(segments)[|Join(segments)| - 1] != '/'
  {
    if segments != [] {
      assert segments[0] in segments;
      assert PlainSegment(segments[0]);
      JoinEnds(segments[1..]);
      if segments[1..] == [] {
        assert Join(segments) == "/" + segments[0];
        assert segments[0][|segments[0]| - 1] in segments[0];
      }
    }
  }

  lemma PathIdempotent(path: string)
    requires ValidateStoragePath(path).Ok?
    ensures ValidateStoragePath(ValidateStoragePath(path).value) == ValidateStoragePath(path)
  {
    var kept := ValidateStoragePath(path).value;
    var n := DropSlashesDrops(path);
    if kept == "/" { assert DropSlashes("/") == DropSlashes("") == ""; }
  }

  // ---- Printing and parsing undo each other ----

  lemma {:induction false} FirstColonAfter(storage: string, rest: string)
    requires ':' !in storage
    ensures FirstColon(storage + ":" + rest) == Some(|storage|)
  {
    var text := storage + ":" + rest;
    if storage != "" {
      FirstColonAfter(storage[1..], rest);
      assert text[1..] == storage[1..] + ":" + rest;
    }
  }

  lemma StorageIdHasNoColon(s: string)
    requires ValidateStorageId(s).Ok?
    ensures ':' !in s && s != ""
  {
    var b := BeforeFinalNewline(s);
    forall i | 0 <= i < |s| ensures s[i] != ':' {
      if i < |b| { assert s[i] == b[i]; }
    }
  }

  lemma ParsePrinted(r: Reference)
    requires Valid(r)
    ensures ParseReference(Print(r)) == Ok(r)
  {
    StorageIdHasNoColon(r.storage);
    var rest := match r case PathRef(_, path) => path case FilesetRef(_, name) => name;
    FirstColonAfter(r.storage, rest);
    assert Print(r) == r.storage + ":" + rest;
    assert Print(r)[..|r.storage|] == r.storage && Print(r)[|r.storage| + 1..] == rest;
  }

  lemma ParsedIsValid(text: string)
    requires ParseReference(text).Ok?
    ensures Valid(ParseReference(text).value)
  {
    var k := FirstColon(text).value;
    if text[k + 1] == '/' { PathIdempotent(text[k + 1..]); }
  }

  /** Only the slashes at the end of a path are lost, and the root keeps its one. */
  lemma PrintParsed(text: string, r: Reference)
    requires ParseReference(text) == Ok(r)
    ensures r.FilesetRef? ==> Print(r) == text
    ensures r.PathRef? ==> Print(r) == DropSlashes(text) + (if r.path == "/" then "/" else "")
  {
    var k := FirstColon(text).value;
    assert text == text[..k] + ":" + text[k + 1..];
    PrintedParts(text[..k], text[k + 1..], r);
  }

  lemma PrintedParts(storage: string, rest: string, r: Reference)
    requires ParseParts(storage, rest) == Ok(r)
    ensures r.FilesetRef? ==> Print(r) == storage + ":" + rest
    ensures r.PathRef? ==> Print(r) == DropSlashes(storage + ":" + rest) + (if r.path == "/" then "/" else "")
  {
    if r.PathRef? {
      TrailingSlashes(storage + ":", rest);
      var n := DropSlashesDrops(rest);
      assert storage + ":" + "/" == storage + ":" + "" + "/";
    }
  }

  lemma TrailingSlashes(front: string, rest: string)
    requires front != "" && front[|front| - 1] != '/'
    ensures DropSlashes(front + rest) == front + DropSlashes(rest)
  {
    var n := DropSlashesDrops(rest);
    assert front + rest == (front + DropSlashes(rest)) + Slashes(n);
    DropsAppended(front + DropSlashes(rest), n);
  }

  // ---- Routes ----

  function RouteText(source: string, target: string): string {
    source + "->" + target
  }

  /** text.split("->", 1) */
  function SplitRoute(text: string): Option<(string, string)> {
    if |text| < 2 then None
    else if text[0] == '-' && text[1] == '>' then Some(("", text[2..]))
    else
      match SplitRoute(text[1..])
      case Some(p) => Some(([text[0]] + p.0, p.1))
      case None => None
  }

  /** Splitting the stored text of a route gives back its two ends, even when a storage id ends in a dash. */
  lemma {:induction false} RouteSurvivesStorage(source: string, target: string)
    requires '>' !in source
    ensures SplitRoute(RouteText(source, target)) == Some((source, target))
  {
    var text := RouteText(source, target);
    if source == "" {
      assert text[2..] == target;
    } else {
      RouteSurvivesStorage(source[1..], target);
      assert text[1..] == RouteText(source[1..], target);
      assert source == [source[0]] + source[1..];
      assert text[1] != '>' by {
        if |source| > 1 { assert text[1] == source[1] && source[1] in source; }
      }
    }
  }
}

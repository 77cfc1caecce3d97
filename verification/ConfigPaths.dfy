/**
 Paths, their names in the file system, and what an Include pattern stands for.

 A path is its components: repeated slashes and inner dots are gone, as in the
 comparison of paths that the search relies on.  Two paths can lead to one file
 (symbolic links, parent directories, mounts); `resolve` says which file each leads to.
 */
module ConfigPaths {
  import opened Wrappers
  import Glob

  datatype Path = Path(absolute: bool, parts: seq<string>)
  {
    function Parent(): Path {
      if parts == [] then Path(false, ["."]) else this.(parts := parts[..|parts| - 1])
    }

    function Join(other: Path): Path {
      if other.absolute || this == Path(false, []) then other
      else this.(parts := parts + if other.parts != [] && other.parts[0] == "." then other.parts[1..] else other.parts)
    }

    function FileName(): Option<string> {
      if parts == [] || parts[|parts| - 1] in {".", ".."} then None else Some(parts[|parts| - 1])
    }
  }

  // ---- Text and paths ----

  /** The text between slashes, with `piece` already collected. */
  function Pieces(text: string, piece: string): seq<string> {
    if text == "" then [piece]
    else if text[0] == '/' then [piece] + Pieces(text[1..], "")
    else Pieces(text[1..], piece + [text[0]])
  }

  /** A dot counts only at the very beginning. */
  function Significant(pieces: seq<string>, first: bool): seq<string> {
    if pieces == [] then []
    else
      (if pieces[0] == "" || (pieces[0] == "." && !first) then [] else [pieces[0]]) + Significant(pieces[1..], false)
  }

  function ParsePath(text: string): Path {
    Path(text != "" && text[0] == '/', Significant(Pieces(text, ""), true))
  }

  function PartsText(parts: seq<string>): string {
    if parts == [] then "" else "/" + parts[0] + PartsText(parts[1..])
  }

  predicate HasWildcard(name: string) {
    '*' in name || '?' in name
  }

  predicate PlainPart(part: string) {
    part != "" && part != "." && '/' !in part && '\n' !in part
  }

  /** Paths that a line of a configuration file can name one by one. */
  predicate Nameable(path: Path) {
    && path.absolute && path.parts != [] && (forall i | 0 <= i < |path.parts| :: PlainPart(path.parts[i]))
    && path.FileName().Some? && !HasWildcard(path.FileName().value)
  }

  lemma {:induction false} PiecesOf(part: string, rest: string, piece: string)
    requires '/' !in part && (rest == "" || rest[0] == '/')
    ensures Pieces(part + rest, piece) == if rest == "" then [piece + part] else [piece + part] + Pieces(rest[1..], "")
    decreases |part|
  {
    if part == "" {
      assert part + rest == rest && piece + part == piece;
    } else {
      assert part[0] != '/' && forall c | c in part[1..] :: c in part;
      PiecesOf(part[1..], rest, piece + [part[0]]);
      assert (part + rest)[1..] == part[1..] + rest && piece + [part[0]] + part[1..] == piece + part;
    }
  }

  lemma {:induction false} PiecesOfParts(parts: seq<string>)
    requires forall i | 0 <= i < |parts| :: PlainPart(parts[i])
    ensures parts != [] ==> PartsText(parts) != "" && PartsText(parts)[0] == '/'
    ensures parts != [] ==> Significant(Pieces(PartsText(parts)[1..], ""), false) == parts
  {
    if parts != [] {
      var rest := PartsText(parts[1..]);
      PiecesOfParts(parts[1..]);
      assert PartsText(parts)[1..] == parts[0] + rest;
      PiecesOf(parts[0], rest, "");
      assert "" + parts[0] == parts[0];
      if rest == "" {
        assert parts[1..] == [] && parts == [parts[0]];
        assert [parts[0]][1..] == [] && Significant([parts[0]], false) == [parts[0]] + Significant([], false);
      } else {
        var tail := Pieces(rest[1..], "");
        assert ([parts[0]] + tail)[1..] == tail;
      }
    }
  }

  lemma NameableParsesBack(path: Path)
    requires Nameable(path)
    ensures PartsText(path.parts) != "" && PartsText(path.parts)[0] == '/' && '\n' !in PartsText(path.parts)
    ensures ParsePath(PartsText(path.parts)) == path
  {
    var text := PartsText(path.parts);
    PiecesOfParts(path.parts);
    NoNewlineInParts(path.parts);
    assert Pieces(text, "") == [""] + Pieces(text[1..], "");
    assert ([""] + Pieces(text[1..], ""))[1..] == Pieces(text[1..], "");
  }

  lemma {:induction false} NoNewlineInParts(parts: seq<string>)
    requires forall i | 0 <= i < |parts| :: PlainPart(parts[i])
    ensures '\n' !in PartsText(parts)
  {
    if parts != [] {
      NoNewlineInParts(parts[1..]);
      assert PlainPart(parts[0]);
    }
  }

  // ---- Names are compared byte by byte ----

  function Encoded(c: char): (bytes: Bytes)
    ensures bytes != []
  {
    var n := c as int;
    if n < 0x80 then [n as byte]
    else if n < 0x800 then [(0xC0 + n / 0x40) as byte, (0x80 + n % 0x40) as byte]
    else if n < 0x10000 then [(0xE0 + n / 0x1000) as byte, (0x80 + n / 0x40 % 0x40) as byte, (0x80 + n % 0x40) as byte]
    else
      [(0xF0 + n / 0x40000) as byte, (0x80 + n / 0x1000 % 0x40) as byte, (0x80 + n / 0x40 % 0x40) as byte,
       (0x80 + n % 0x40) as byte]
  }

  function Decoded(bytes: Bytes): int {
    match |bytes|
    case 1 => bytes[0] as int
    case 2 => (bytes[0] as int - 0xC0) * 0x40 + bytes[1] as int - 0x80
    case 3 => (bytes[0] as int - 0xE0) * 0x1000 + (bytes[1] as int - 0x80) * 0x40 + bytes[2] as int - 0x80
    case 4 =>
      (bytes[0] as int - 0xF0) * 0x40000 + (bytes[1] as int - 0x80) * 0x1000 + (bytes[2] as int - 0x80) * 0x40
      + bytes[3] as int - 0x80
    case _ => 0
  }

  lemma Sextets(n: nat)
    ensures n == n / 0x40 * 0x40 + n % 0x40
    ensures n / 0x40 == n / 0x1000 * 0x40 + n / 0x40 % 0x40
    ensures n / 0x1000 == n / 0x40000 * 0x40 + n / 0x1000 % 0x40
  {
  }

  /** Every character has its shortest form, reads back, and no byte of a longer form is an ASCII character. */
  lemma EncodedReadsBack(c: char)
    ensures Decoded(Encoded(c)) == c as int
    ensures |Encoded(c)| == if c as int <= 0x7F then 1 else if c as int <= 0x7FF then 2 else if c as int <= 0xFFFF then 3 else 4
    ensures forall k | 0 <= k < |Encoded(c)| :: Encoded(c)[k] < 0x80 <==> c as int < 0x80
  {
    Sextets(c as int);
  }

  /** The UTF-8 form of a text. */
  function Utf8(text: string): Bytes {
    if text == "" then [] else Encoded(text[0]) + Utf8(text[1..])
  }

  lemma {:induction false} StarsOfUtf8(text: string)
    ensures Glob.STAR in Utf8(text) <==> '*' in text
  {
    if text != "" {
      StarsOfUtf8(text[1..]);
      assert text == [text[0]] + text[1..];
      assert Glob.STAR in Encoded(text[0]) <==> text[0] == '*';
    }
  }

  // ---- What a pattern stands for ----

  /**
   `resolve` is the file a path leads to, under its canonical path; `listing` the names in a directory in the order of
   their bytes, empty if it cannot be read.
   */
  datatype NameSpace = NameSpace(home: Option<Path>, resolve: Path -> Option<Path>, listing: Path -> seq<string>)
  {
    ghost predicate Valid() {
      && (home.Some? ==> home.value.absolute)
      && (forall p | resolve(p).Some? :: resolve(p).value.absolute && resolve(resolve(p).value) == resolve(p))
      && (forall d, n | n in listing(d) :: PlainName(n))
      && listing(Path(false, [])) == []
    }

    /** A leading tilde, however often it is repeated, stands for the home directory. */
    function WordPath(word: string): Path {
      if home.Some? && (word == "~" || "~/" <= word) then home.value.Join(ParsePath(WithoutTildes(word)))
      else ParsePath(word)
    }

    /** A path on its way to the file system, a leading tilde replaced. */
    function Opened(path: Path): Path {
      if home.Some? && !path.absolute && path.parts != [] && path.parts[0] == "~" then
        home.value.Join(Path(false, WithoutTildeParts(path.parts)))
      else path
    }

    /** The paths a pattern stands for in a file opened in the directory `dir`. */
    function ExpandAt(dir: Path, word: string): seq<Path> {
      var full := dir.Join(WordPath(word));
      match full.FileName()
      case None => []
      case Some(name) =>
        if HasWildcard(name) then Listed(full.Parent(), name, listing(full.Parent())) else [full]
    }

    function Expand(path: Path, word: string): seq<Path> {
      ExpandAt(Opened(path).Parent(), word)
    }

    function File(path: Path): Option<Path> {
      resolve(Opened(path))
    }

    /** The files a pattern leads to from a directory. */
    ghost function FilesAt(dir: Path, word: string): set<Path> {
      set t | t in ExpandAt(dir, word) && File(t).Some? :: File(t).value
    }
  }

  predicate PlainName(name: string) {
    name !in {"", ".", ".."}
  }

  function WithoutTildes(text: string): string {
    if "~/" <= text then WithoutTildes(text[2..]) else text
  }

  function WithoutTildeParts(parts: seq<string>): seq<string> {
    if |parts| > 1 && parts[0] == "~" then WithoutTildeParts(parts[1..]) else parts
  }

  function Listed(dir: Path, pattern: string, names: seq<string>): seq<Path> {
    if names == [] then []
    else
      (if Glob.Accepts(Utf8(pattern), Utf8(names[0])) then [dir.Join(Path(false, [names[0]]))] else [])
      + Listed(dir, pattern, names[1..])
  }

  lemma EmptyListed(dir: Path, pattern: string)
    ensures Listed(dir, pattern, []) == []
  {
  }

  lemma ListedStep(dir: Path, pattern: string, names: seq<string>, i: nat)
    requires i < |names|
    ensures Listed(dir, pattern, names[i..])
         == (if Glob.Accepts(Utf8(pattern), Utf8(names[i])) then [dir.Join(Path(false, [names[i]]))] else [])
            + Listed(dir, pattern, names[i + 1..])
  {
    assert names[i..][0] == names[i] && names[i..][1..] == names[i + 1..];
    hide Utf8, Glob.Accepts, Path.Join;
  }

  /** The loop over a directory. */
  method ListMatches(dir: Path, pattern: string, names: seq<string>) returns (paths: seq<Path>)
    ensures paths == Listed(dir, pattern, names)
  {
    hide Utf8, Glob.Accepts, Listed, Path.Join;
    paths := [];
    assert names[0..] == names && names[|names|..] == [] && Listed(dir, pattern, []) == [] by {
      EmptyListed(dir, pattern);
    }
    for i := 0 to |names|
      invariant paths + Listed(dir, pattern, names[i..]) == Listed(dir, pattern, names)
    {
      ListedStep(dir, pattern, names, i);
      var matched := Glob.WildcardMatch(Utf8(pattern), Utf8(names[i]));
      if matched {
        paths := paths + [dir.Join(Path(false, [names[i]]))];
      }
    }
  }

  lemma {:induction false} ListedNames(dir: Path, pattern: string, names: seq<string>, name: string)
    requires forall n | n in names :: PlainName(n)
    requires PlainName(name)
    ensures dir.Join(Path(false, [name])) in Listed(dir, pattern, names)
       <==> name in names && Glob.Accepts(Utf8(pattern), Utf8(name))
  {
    if names != [] {
      assert names == [names[0]] + names[1..] && PlainName(names[0]);
      ListedNames(dir, pattern, names[1..], name);
      JoinIsInjective(dir, name, names[0]);
    }
  }

  lemma JoinIsInjective(dir: Path, a: string, b: string)
    requires PlainName(a) && PlainName(b)
    ensures dir.Join(Path(false, [a])) == dir.Join(Path(false, [b])) <==> a == b
  {
    var p, q := dir.Join(Path(false, [a])), dir.Join(Path(false, [b]));
    assert p.parts[|p.parts| - 1] == a && q.parts[|q.parts| - 1] == b;
  }

  /**
   An Include with a wildcard stands for exactly the entries of the directory that match it in the usual meaning of
   stars and question marks, one byte each, if their names have no literal star; otherwise for nothing else.
   */
  lemma WildcardMeansMatches(names: NameSpace, dir: Path, word: string, name: string)
    requires names.Valid() && PlainName(name)
    requires dir.Join(names.WordPath(word)).FileName().Some?
    requires HasWildcard(dir.Join(names.WordPath(word)).FileName().value)
    ensures var full := dir.Join(names.WordPath(word));
            var entry, pattern := full.Parent().Join(Path(false, [name])), full.FileName().value;
            && (entry in names.ExpandAt(dir, word) ==>
                  name in names.listing(full.Parent()) && Glob.Matches(Utf8(pattern), Utf8(name)))
            && ('*' !in name ==>
                  (entry in names.ExpandAt(dir, word) <==>
                     name in names.listing(full.Parent()) && Glob.Matches(Utf8(pattern), Utf8(name))))
  {
    var full := dir.Join(names.WordPath(word));
    var pattern := full.FileName().value;
    ListedNames(full.Parent(), pattern, names.listing(full.Parent()), name);
    Glob.AcceptsIsSound(Utf8(pattern), Utf8(name));
    StarsOfUtf8(name);
    if '*' !in name {
      Glob.AcceptsIsExact(Utf8(pattern), Utf8(name));
    }
  }

  /** A nameable path is named by its own text, wherever that is written. */
  lemma NamedByItsText(names: NameSpace, dir: Path, path: Path)
    requires Nameable(path)
    ensures names.ExpandAt(dir, PartsText(path.parts)) == [path] && names.Opened(path) == path
  {
    NameableParsesBack(path);
  }

  // ---- Home, absolute and relative words ----

  /** Components that a word can spell out: no slashes or bare dots, and a name at the end. */
  predicate Spelled(parts: seq<string>) {
    parts != [] && (forall i | 0 <= i < |parts| :: PlainPart(parts[i])) && parts[|parts| - 1] != ".."
  }

  /** The word for some components: "a/b". */
  function Word(parts: seq<string>): string
    requires parts != []
  {
    parts[0] + PartsText(parts[1..])
  }

  lemma WordParses(parts: seq<string>)
    requires Spelled(parts)
    ensures PartsText(parts) == "/" + Word(parts)
    ensures ParsePath(Word(parts)) == Path(false, parts)
    ensures ParsePath(PartsText(parts)) == Path(true, parts)
  {
    WordIsBehindSlash(parts);
    PiecesOfParts(parts);
    FirstIsSignificant(parts);
    FirstPieceIsEmpty(Word(parts));
    hide Pieces, PartsText, PlainPart, Word, Significant;
  }

  lemma WordIsBehindSlash(parts: seq<string>)
    requires Spelled(parts)
    ensures PartsText(parts) == "/" + Word(parts) && PartsText(parts)[1..] == Word(parts)
    ensures Word(parts) != "" && Word(parts)[0] != '/'
  {
    assert PlainPart(parts[0]) && parts[0][0] in parts[0];
    assert Word(parts)[0] == parts[0][0];
  }

  lemma FirstPieceIsEmpty(word: string)
    ensures Significant(Pieces("/" + word, ""), true) == Significant(Pieces(word, ""), false)
  {
    var text := "/" + word;
    assert text[1..] == word && text[0] == '/';
    assert ([""] + Pieces(word, ""))[1..] == Pieces(word, "");
    hide Significant;
    assert Pieces(text, "") == [""] + Pieces(word, "");
    SignificantSkips(Pieces(word, ""));
  }

  lemma SignificantSkips(pieces: seq<string>)
    ensures Significant([""] + pieces, true) == Significant(pieces, false)
  {
    assert ([""] + pieces)[1..] == pieces;
  }

  /** A word begins with a tilde of its own only if its first component is one. */
  lemma OwnTilde(parts: seq<string>)
    requires Spelled(parts)
    ensures "~/" <= Word(parts) || Word(parts) == "~" ==> parts[0] == "~"
    ensures |parts| == 1 ==> !("~/" <= Word(parts))
  {
    var word, first := Word(parts), parts[0];
    assert PlainPart(first) && word == first + PartsText(parts[1..]);
    assert forall k | 0 <= k < |first| :: word[k] == first[k] && first[k] in first;
    TildeBefore(word, |first|);
    assert |first| == 1 ==> first == [word[0]];
    hide PartsText, Word;
  }

  lemma TildeBefore(word: string, n: nat)
    requires 0 < n <= |word| && forall k | 0 <= k < n :: word[k] != '/'
    ensures "~/" <= word ==> 1 == n < |word| && word[0] == '~'
  {
    if "~/" <= word {
      TwoFirst(word);
    }
  }

  lemma TwoFirst(word: string)
    requires "~/" <= word
    ensures |word| > 1 && word[0] == '~' && word[1] == '/'
  {
  }

  lemma FirstIsSignificant(parts: seq<string>)
    requires Spelled(parts)
    ensures Significant(Pieces(Word(parts), ""), true) == Significant(Pieces(Word(parts), ""), false)
  {
    assert PlainPart(parts[0]);
    PiecesOfParts(parts[1..]);
    PiecesOf(parts[0], PartsText(parts[1..]), "");
    assert "" + parts[0] == parts[0];
    hide Pieces;
  }

  lemma AfterTilde(names: NameSpace, word: string)
    requires names.home.Some? && !("~/" <= word)
    ensures names.WordPath("~/" + word) == names.home.value.Join(ParsePath(word))
    ensures names.WordPath("~/" + ("~/" + word)) == names.home.value.Join(ParsePath(word))
  {
    assert ("~/" + word)[2..] == word && ("~/" + ("~/" + word))[2..] == "~/" + word;
    assert WithoutTildes("~/" + word) == word && WithoutTildes("~/" + ("~/" + word)) == word;
    hide ParsePath, WithoutTildes;
  }

  lemma TildeText(word: string)
    ensures "~" + ("/" + word) == "~/" + word && "~/~" + ("/" + word) == "~/" + ("~/" + word)
  {
  }

  lemma InHome(home: Path, parts: seq<string>)
    requires home.absolute && parts != [] && parts[0] != "."
    ensures home.Join(Path(false, parts)) == Path(true, home.parts + parts)
  {
  }

  /** After a tilde the word is resolved in the home directory, from wherever it is written; repeating the tilde changes nothing. */
  lemma TildeIsHome(names: NameSpace, parts: seq<string>)
    requires names.Valid() && names.home.Some? && Spelled(parts) && (parts[0] != "~" || |parts| == 1)
    ensures names.WordPath("~" + PartsText(parts)) == Path(true, names.home.value.parts + parts)
    ensures names.WordPath("~/~" + PartsText(parts)) == Path(true, names.home.value.parts + parts)
  {
    WordParses(parts);
    OwnTilde(parts);
    AfterTilde(names, Word(parts));
    TildeText(Word(parts));
    assert PlainPart(parts[0]);
    InHome(names.home.value, parts);
    hide *;
  }

  /** The same for the name under which a file is opened. */
  lemma OpenedInHome(names: NameSpace, parts: seq<string>)
    requires names.Valid() && names.home.Some? && Spelled(parts) && (parts[0] != "~" || |parts| == 1)
    ensures names.Opened(Path(false, ["~"] + parts)) == Path(true, names.home.value.parts + parts)
  {
    var all := ["~"] + parts;
    assert all[1..] == parts && PlainPart(parts[0]);
    assert WithoutTildeParts(all) == parts;
    InHome(names.home.value, parts);
  }

  /** Without a home directory a tilde is a name like any other. */
  lemma TildeWithoutHome(names: NameSpace, parts: seq<string>)
    requires names.home.None? && Spelled(parts)
    ensures names.WordPath("~" + PartsText(parts)) == Path(false, ["~"] + parts)
    ensures names.Opened(Path(false, ["~"] + parts)) == Path(false, ["~"] + parts)
  {
    var all := ["~"] + parts;
    assert forall i | 1 <= i < |all| :: all[i] == parts[i - 1];
    WordParses(all);
    assert all[1..] == parts;
  }

  /** A word that begins with neither a slash nor a tilde of its own is relative. */
  lemma RelativeWord(names: NameSpace, parts: seq<string>)
    requires Spelled(parts) && parts[0] != "~"
    ensures names.WordPath(Word(parts)) == Path(false, parts)
  {
    WordParses(parts);
    OwnTilde(parts);
  }

  /** What a word stands for, from a directory: the path itself, or the matching entries of its directory. */
  ghost predicate StandsFor(names: NameSpace, paths: seq<Path>, absolute: bool, parts: seq<string>)
    requires parts != []
  {
    var dir, last := Path(absolute, parts[..|parts| - 1]), parts[|parts| - 1];
    if !('*' in last || '?' in last) then paths == [Path(absolute, parts)]
    else
      && (forall p | p in paths :: exists name :: name in names.listing(dir) && p == Path(absolute, dir.parts + [name]))
      && (forall name | name in names.listing(dir) ::
            && (Path(absolute, dir.parts + [name]) in paths ==> Glob.Matches(Utf8(last), Utf8(name)))
            && ('*' !in name && Glob.Matches(Utf8(last), Utf8(name)) ==> Path(absolute, dir.parts + [name]) in paths))
  }

  lemma {:induction false} ListedAreEntries(dir: Path, pattern: string, names: seq<string>, p: Path)
    requires p in Listed(dir, pattern, names)
    ensures exists name :: name in names && p == dir.Join(Path(false, [name]))
  {
    if Glob.Accepts(Utf8(pattern), Utf8(names[0])) && p == dir.Join(Path(false, [names[0]])) {
      assert names[0] in names;
    } else {
      ListedAreEntries(dir, pattern, names[1..], p);
      var name :| name in names[1..] && p == dir.Join(Path(false, [name]));
      assert name in names;
    }
  }

  predicate EndsInName(parts: seq<string>) {
    parts != [] && PlainPart(parts[|parts| - 1]) && parts[|parts| - 1] != ".."
  }

  lemma SpelledBehind(before: seq<string>, parts: seq<string>)
    requires Spelled(parts)
    ensures EndsInName(before + parts)
  {
    assert (before + parts)[|before + parts| - 1] == parts[|parts| - 1];
  }

  lemma ExpandsTo(names: NameSpace, dir: Path, word: string, absolute: bool, parts: seq<string>)
    requires names.Valid() && EndsInName(parts)
    requires dir.Join(names.WordPath(word)) == Path(absolute, parts)
    ensures StandsFor(names, names.ExpandAt(dir, word), absolute, parts)
  {
    var full, last := Path(absolute, parts), parts[|parts| - 1];
    assert PlainPart(last) && full.FileName() == Some(last) && full.Parent() == Path(absolute, parts[..|parts| - 1]);
    if HasWildcard(last) {
      forall name | name in names.listing(full.Parent())
        ensures full.Parent().Join(Path(false, [name])) == Path(absolute, parts[..|parts| - 1] + [name])
        ensures Path(absolute, parts[..|parts| - 1] + [name]) in names.ExpandAt(dir, word) ==> Glob.Matches(Utf8(last), Utf8(name))
        ensures '*' !in name && Glob.Matches(Utf8(last), Utf8(name)) ==>
                  Path(absolute, parts[..|parts| - 1] + [name]) in names.ExpandAt(dir, word)
      {
        assert PlainName(name);
        WildcardMeansMatches(names, dir, word, name);
      }
      forall p | p in names.ExpandAt(dir, word)
        ensures exists name :: name in names.listing(full.Parent()) && p == Path(absolute, parts[..|parts| - 1] + [name])
      {
        ListedAreEntries(full.Parent(), last, names.listing(full.Parent()), p);
      }
    }
  }

  /**
   `Include ~/a/b` stands, in every file, for a/b in the home directory: for that path, or, with a wildcard in its last
   component, for the matching entries of the directory it is in.
   */
  lemma IncludeFromHome(names: NameSpace, dir: Path, parts: seq<string>)
    requires names.Valid() && names.home.Some? && Spelled(parts) && (parts[0] != "~" || |parts| == 1)
    ensures StandsFor(names, names.ExpandAt(dir, "~" + PartsText(parts)), true, names.home.value.parts + parts)
  {
    SpelledBehind(names.home.value.parts, parts);
    TildeIsHome(names, parts);
    hide *;
    var all := names.home.value.parts + parts;
    WithinAll(names, dir, "~" + PartsText(parts), all);
  }

  lemma WithinAll(names: NameSpace, dir: Path, word: string, parts: seq<string>)
    requires names.Valid() && EndsInName(parts)
    requires names.WordPath(word) == Path(true, parts)
    ensures StandsFor(names, names.ExpandAt(dir, word), true, parts)
  {
    ExpandsTo(names, dir, word, true, parts);
  }

  /** ... and without a home directory for what is in a directory of that name beside the file. */
  lemma IncludeWithoutHome(names: NameSpace, dir: Path, parts: seq<string>)
    requires names.Valid() && names.home.None? && Spelled(parts)
    ensures StandsFor(names, names.ExpandAt(dir, "~" + PartsText(parts)), dir.absolute, dir.parts + ["~"] + parts)
  {
    TildeWithoutHome(names, parts);
    assert dir.parts + (["~"] + parts) == dir.parts + ["~"] + parts;
    ExpandsTo(names, dir, "~" + PartsText(parts), dir.absolute, dir.parts + ["~"] + parts);
  }

  /** `Include a/b` stands for a/b beside the file it is written in, `Include /a/b` for that path. */
  lemma IncludeBesideFile(names: NameSpace, directory: seq<string>, file: string, parts: seq<string>)
    requires names.Valid() && Spelled(parts)
    ensures parts[0] != "~" ==>
              StandsFor(names, names.Expand(Path(true, directory + [file]), Word(parts)), true, directory + parts)
    ensures StandsFor(names, names.Expand(Path(true, directory + [file]), PartsText(parts)), true, parts)
  {
    var path, dir := Path(true, directory + [file]), Path(true, directory);
    assert names.Opened(path).Parent() == dir;
    WordParses(parts);
    assert PlainPart(parts[0]);
    ExpandsTo(names, dir, PartsText(parts), true, parts);
    if parts[0] != "~" {
      RelativeWord(names, parts);
      ExpandsTo(names, dir, Word(parts), true, directory + parts);
    }
  }

  /** The entry of a directory that a full pattern lies in. */
  function Entry(full: Path, name: string): Path {
    full.Parent().Join(Path(false, [name]))
  }

  /**
   The paths a pattern stands for: nothing without a file name, one path without a wildcard, and otherwise the
   matching entries of one directory.
   */
  method ExpandInclude(names: NameSpace, path: Path, word: string) returns (paths: seq<Path>)
    requires names.Valid()
    ensures paths == names.Expand(path, word)
    ensures var full := names.Opened(path).Parent().Join(names.WordPath(word));
            match full.FileName()
            case None => paths == []
            case Some(pattern) =>
              if !HasWildcard(pattern) then paths == [full]
              else
                forall name | PlainName(name) && '*' !in name ::
                  Entry(full, name) in paths <==>
                  name in names.listing(full.Parent()) && Glob.Matches(Utf8(pattern), Utf8(name))
  {
    var dir := names.Opened(path).Parent();
    var full := dir.Join(names.WordPath(word));
    var pattern := full.FileName();
    if pattern.None? {
      return [];
    }
    if !HasWildcard(pattern.value) {
      return [full];
    }
    paths := ListMatches(full.Parent(), pattern.value, names.listing(full.Parent()));
    forall name | PlainName(name) && '*' !in name
      ensures Entry(full, name) in paths <==>
              name in names.listing(full.Parent()) && Glob.Matches(Utf8(pattern.value), Utf8(name))
    {
      WildcardMeansMatches(names, dir, word, name);
    }
  }
}

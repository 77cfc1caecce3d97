/** Rendering a new host and appending it to an OpenSSH configuration file. */
module ConfigAppend {
  import opened Wrappers
  import Glob
  import opened ConfigPaths
  import opened ConfigText
  import opened IncludeSearch

  datatype NewSshHost = NewSshHost(alias: string, hostname: string, user: string, port: nat, identityFile: Option<string>)

  datatype SshError = UnsupportedCharacters | InvalidIdentityFile | AliasExists | Unreadable | NoParent | Io

  predicate SafeHostCharacter(c: char) {
    IsAsciiAlphanumeric(c) || c in {'.', ':', '_', '-'}
  }

  predicate SafeUserCharacter(c: char) {
    IsAsciiAlphanumeric(c) || c in {'.', '_', '-'}
  }

  predicate SafePathCharacter(c: char) {
    IsAsciiAlphanumeric(c) || c in {'/', '.', '_', '-', '~'}
  }

  function Decimal(n: nat): (s: string)
    ensures s != "" && forall i | 0 <= i < |s| :: '0' <= s[i] <= '9'
  {
    var digit := ['0' + (n % 10) as char];
    if n < 10 then digit else Decimal(n / 10) + digit
  }

  predicate ValidHost(host: NewSshHost) {
    && ConcreteAlias(host.alias) && host.hostname != "" && host.user != "" && host.port != 0
    && (forall i | 0 <= i < |host.hostname| :: SafeHostCharacter(host.hostname[i]))
    && (forall i | 0 <= i < |host.user| :: SafeUserCharacter(host.user[i]))
  }

  /** An identity file that is blank counts as none given. */
  predicate HasIdentity(host: NewSshHost) {
    host.identityFile.Some? && Trim(host.identityFile.value) != ""
  }

  predicate ValidIdentity(host: NewSshHost) {
    HasIdentity(host) ==> forall i | 0 <= i < |host.identityFile.value| :: SafePathCharacter(host.identityFile.value[i])
  }

  /** The lines of an entry, without their newlines. */
  function EntryLines(host: NewSshHost): seq<string> {
    [ "" + "Host" + " " + host.alias,
      "    " + "HostName" + " " + host.hostname,
      "    " + "User" + " " + host.user,
      "    " + "Port" + " " + Decimal(host.port) ]
    + if HasIdentity(host) then ["    " + "IdentityFile" + " " + Trim(host.identityFile.value)] else []
  }

  function Terminated(lines: seq<string>): string {
    if lines == [] then "" else lines[0] + "\n" + Terminated(lines[1..])
  }

  function RenderConfigEntry(host: NewSshHost): Result<string, SshError> {
    if !ValidHost(host) then Err(UnsupportedCharacters)
    else if !ValidIdentity(host) then Err(InvalidIdentityFile)
    else Ok(Terminated(EntryLines(host)))
  }

  /** What an entry has to say, in order. */
  function HostDirectives(host: NewSshHost): seq<Directive> {
    [Directive("Host", host.alias), Directive("HostName", host.hostname), Directive("User", host.user),
     Directive("Port", Decimal(host.port))]
    + match host.identityFile
      case Some(path) => if Trim(path) == "" then [] else [Directive("IdentityFile", Trim(path))]
      case None => []
  }

  /** The number that decimal digits stand for. */
  function ReadDecimal(digits: string): int {
    if digits == "" then 0 else 10 * ReadDecimal(digits[..|digits| - 1]) + (digits[|digits| - 1] as int - '0' as int)
  }

  lemma {:induction false} DecimalReadsBack(n: nat)
    ensures ReadDecimal(Decimal(n)) == n
    ensures Decimal(n)[0] == '0' ==> n == 0
  {
    var digit := '0' + (n % 10) as char;
    assert digit as int == '0' as int + n % 10;
    if n >= 10 {
      DecimalReadsBack(n / 10);
      assert Decimal(n) == Decimal(n / 10) + [digit] && Decimal(n)[..|Decimal(n)| - 1] == Decimal(n / 10);
    } else {
      assert Decimal(n) == [digit] && [digit][..0] == "" && ReadDecimal("") == 0;
    }
  }

  const MARKER := "# Added by The Ditch"

  /** The bytes of the file after appending `entry`. */
  function Appended(text: string, entry: string): string {
    text + (if text != "" && text[|text| - 1] != '\n' then "\n" else "") + "\n" + MARKER + "\n" + entry
  }

  // ---- Text is read line by line ----

  /** Text that ends in a newline is its first line and what follows it. */
  lemma FirstLine(text: string) returns (line: string, tail: string)
    requires text != "" && text[|text| - 1] == '\n'
    ensures text == line + "\n" + tail && '\n' !in line
    ensures tail == "" || tail[|tail| - 1] == '\n'
  {
    var at := FirstNewline(text);
    LastIsNewline(text);
    line, tail := text[..at], text[at + 1..];
  }

  lemma {:induction false} LinesConcat(text: string, rest: string)
    requires text == "" || text[|text| - 1] == '\n'
    ensures Lines(text + rest) == Lines(text) + Lines(rest)
    decreases |text|
  {
    if text == "" {
      assert text + rest == rest;
    } else {
      hide Lines;
      var line, tail := FirstLine(text);
      ConcatIsAssociative(line + "\n", tail, rest);
      LinesHead(line, tail);
      LinesHead(line, tail + rest);
      LinesConcat(tail, rest);
      ConcatIsAssociative([StripReturn(line)], Lines(tail), Lines(rest));
    }
  }

  lemma LastIsNewline(text: string)
    requires text != "" && text[|text| - 1] == '\n'
    ensures FirstNewline(text) < |text|
  {
    assert text[..|text|] == text && text[|text| - 1] in text;
  }

  /** Ending the last line does not change what any line means. */
  lemma {:induction false} EndingTheLastLine(text: string)
    requires text != "" && text[|text| - 1] != '\n'
    ensures OwnAliases(text + "\n") == OwnAliases(text)
    ensures OwnIncludes(text + "\n") == OwnIncludes(text)
    ensures Directives(text + "\n") == Directives(text)
    decreases |text|
  {
    hide LineAliases, LineIncludes, LineDirective;
    var at := FirstNewline(text);
    if at == |text| {
      assert text[..|text|] == text;
      FirstNewlineOf(text, "");
      assert text + "\n" + "" == text + "\n";
      assert (text + "\n")[..at] == text && (text + "\n")[at + 1..] == "";
      assert Lines(text + "\n") == [StripReturn(text)] + Lines("") == [StripReturn(text)];
      LineMeaning(text);
      OneLine(text);
      OneLine(StripReturn(text));
      DirectivesOfOne(text);
      DirectivesOfOne(StripReturn(text));
    } else {
      var line, tail := text[..at], text[at + 1..];
      assert tail != "" && tail[|tail| - 1] == text[|text| - 1];
      FirstNewlineOf(line, tail + "\n");
      assert text + "\n" == line + "\n" + (tail + "\n");
      assert (text + "\n")[..at] == line && (text + "\n")[at + 1..] == tail + "\n";
      EndingTheLastLine(tail);
      var first := [StripReturn(line)];
      assert Lines(text) == first + Lines(tail) && Lines(text + "\n") == first + Lines(tail + "\n");
      MeaningOfConcat(first, Lines(tail));
      MeaningOfConcat(first, Lines(tail + "\n"));
    }
  }

  lemma LineMeaning(line: string)
    requires line != "" && '\n' !in line
    ensures LineAliases(StripReturn(line)) == LineAliases(line)
    ensures LineIncludes(StripReturn(line)) == LineIncludes(line)
    ensures LineDirective(StripReturn(line)) == LineDirective(line)
  {
    TrimIgnoresReturn(line);
  }

  lemma {:induction false} TrimIgnoresReturn(line: string)
    ensures Trim(StripReturn(line)) == Trim(line)
    decreases |line|
  {
    if StripReturn(line) != line {
      var kept := StripReturn(line);
      assert line == kept + "\r";
      TrimStartOfReturn(kept);
    }
  }

  lemma {:induction false} TrimStartOfReturn(kept: string)
    ensures TrimEnd(TrimStart(kept + "\r")) == TrimEnd(TrimStart(kept))
  {
    if kept == "" {
      assert kept + "\r" == "\r";
      assert TrimStart("\r") == TrimStart("\r"[1..]);
      assert "\r"[1..] == "";
    } else if IsWhitespace(kept[0]) {
      TrimStartOfReturn(kept[1..]);
      assert (kept + "\r")[1..] == kept[1..] + "\r";
    } else {
      assert (kept + "\r")[..|kept|] == kept;
    }
  }

  lemma MeaningOfConcat(a: seq<string>, b: seq<string>)
    ensures AliasesOfLines(a + b) == AliasesOfLines(a) + AliasesOfLines(b)
    ensures IncludesOfLines(a + b) == IncludesOfLines(a) + IncludesOfLines(b)
    ensures DirectivesOf(a + b) == DirectivesOf(a) + DirectivesOf(b)
  {
    DirectivesOfConcat(a, b);
    AliasesOfLinesConcat(a, b);
    IncludesOfLinesConcat(a, b);
  }

  predicate Unbroken(line: string) {
    '\n' !in line && '\r' !in line
  }

  predicate AllUnbroken(lines: seq<string>) {
    forall i | 0 <= i < |lines| :: Unbroken(lines[i])
  }

  lemma {:induction false} LinesOfTerminated(lines: seq<string>)
    requires AllUnbroken(lines)
    ensures Lines(Terminated(lines)) == lines
  {
    if lines != [] {
      var line, rest := lines[0], Terminated(lines[1..]);
      LinesOfTerminated(lines[1..]);
      FirstNewlineOf(line, rest);
      assert (line + "\n" + rest)[..|line|] == line && (line + "\n" + rest)[|line| + 1..] == rest;
      assert line != "" ==> line[|line| - 1] in line;
    }
  }

  // ---- What an entry says ----

  predicate NoSpecials(s: string) {
    forall i | 0 <= i < |s| :: !Special(s[i])
  }

  /** A line whose key is neither Host nor Include says nothing about aliases. */
  lemma OtherLine(indent: string, key: string, value: string)
    requires forall i | 0 <= i < |indent| :: IsWhitespace(indent[i])
    requires PlainKey(key) && PlainValue(value)
    requires !SameIgnoringCase(key, "host") && !SameIgnoringCase(key, "include")
    ensures LineAliases(indent + key + " " + value) == {}
    ensures LineIncludes(indent + key + " " + value) == []
  {
    PlainLine(indent, key, value);
  }

  lemma TrimOfPath(path: string)
    requires path != "" && forall i | 0 <= i < |path| :: SafePathCharacter(path[i])
    ensures Trim(path) == path && PlainValue(path)
  {
    assert SafePathCharacter(path[0]) && SafePathCharacter(path[|path| - 1]);
  }

  lemma IdentityIsPlain(host: NewSshHost)
    requires ValidIdentity(host) && HasIdentity(host)
    ensures PlainValue(Trim(host.identityFile.value))
  {
    assert host.identityFile.value != "";
    TrimOfPath(host.identityFile.value);
  }

  lemma EntryLineMeans(host: NewSshHost, i: nat)
    requires ValidHost(host) && ValidIdentity(host) && 1 <= i < |EntryLines(host)|
    ensures LineAliases(EntryLines(host)[i]) == {} && LineIncludes(EntryLines(host)[i]) == []
  {
    hide LineAliases, LineIncludes;
    var line := EntryLines(host)[i];
    if i == 1 {
      assert forall k | 0 <= k < |host.hostname| :: SafeHostCharacter(host.hostname[k]);
      OtherLine("    ", "HostName", host.hostname);
    } else if i == 2 {
      OtherLine("    ", "User", host.user);
    } else if i == 3 {
      OtherLine("    ", "Port", Decimal(host.port));
    } else {
      IdentityIsPlain(host);
      OtherLine("    ", "IdentityFile", Trim(host.identityFile.value));
    }
  }

  lemma EntryMeans(host: NewSshHost)
    requires ValidHost(host) && ValidIdentity(host)
    ensures AliasesOfLines(EntryLines(host)) == {host.alias}
    ensures IncludesOfLines(EntryLines(host)) == []
  {
    hide LineAliases, LineIncludes;
    HostLine(host.alias);
    forall i | 1 <= i < |EntryLines(host)|
      ensures LineAliases(EntryLines(host)[i]) == {} && LineIncludes(EntryLines(host)[i]) == []
    {
      EntryLineMeans(host, i);
    }
    FirstLineOnly(EntryLines(host));
  }

  function FourDirectives(host: NewSshHost): seq<Directive> {
    [Directive("Host", host.alias), Directive("HostName", host.hostname), Directive("User", host.user),
     Directive("Port", Decimal(host.port))]
  }

  lemma HostLinesSay(host: NewSshHost)
    requires ValidHost(host)
    ensures LineDirective("" + "Host" + " " + host.alias) == Some(Directive("Host", host.alias))
    ensures LineDirective("    " + "HostName" + " " + host.hostname) == Some(Directive("HostName", host.hostname))
  {
    AliasIsPlain(host.alias);
    PlainLine("", "Host", host.alias);
    assert forall k | 0 <= k < |host.hostname| :: SafeHostCharacter(host.hostname[k]);
    hide LineDirective, ConcreteAlias, Words;
    PlainLine("    ", "HostName", host.hostname);
  }

  lemma UserLinesSay(host: NewSshHost)
    requires ValidHost(host)
    ensures LineDirective("    " + "User" + " " + host.user) == Some(Directive("User", host.user))
    ensures LineDirective("    " + "Port" + " " + Decimal(host.port)) == Some(Directive("Port", Decimal(host.port)))
  {
    assert forall k | 0 <= k < |host.user| :: SafeUserCharacter(host.user[k]);
    hide LineDirective, ConcreteAlias, Words;
    PlainLine("    ", "User", host.user);
    PlainLine("    ", "Port", Decimal(host.port));
  }

  lemma FirstFourSay(host: NewSshHost)
    requires ValidHost(host)
    ensures DirectivesOf(["" + "Host" + " " + host.alias, "    " + "HostName" + " " + host.hostname,
                          "    " + "User" + " " + host.user, "    " + "Port" + " " + Decimal(host.port)]) == FourDirectives(host)
  {
    HostLinesSay(host);
    UserLinesSay(host);
    hide LineDirective, DirectivesOf, Decimal, ValidHost;
    FourLines("" + "Host" + " " + host.alias, "    " + "HostName" + " " + host.hostname, "    " + "User" + " " + host.user,
              "    " + "Port" + " " + Decimal(host.port));
  }

  lemma IdentitySays(host: NewSshHost)
    requires ValidIdentity(host) && HasIdentity(host)
    ensures DirectivesOf(["    " + "IdentityFile" + " " + Trim(host.identityFile.value)])
         == [Directive("IdentityFile", Trim(host.identityFile.value))]
  {
    IdentityIsPlain(host);
    var path := Trim(host.identityFile.value);
    PlainLine("    ", "IdentityFile", path);
    DirectivesOfOne("    " + "IdentityFile" + " " + path);
  }

  /** Line by line the entry says what it has to. */
  lemma EntrySays(host: NewSshHost)
    requires ValidHost(host) && ValidIdentity(host)
    ensures DirectivesOf(EntryLines(host)) == HostDirectives(host)
  {
    FirstFourSay(host);
    var four := ["" + "Host" + " " + host.alias, "    " + "HostName" + " " + host.hostname,
                 "    " + "User" + " " + host.user, "    " + "Port" + " " + Decimal(host.port)];
    if HasIdentity(host) {
      IdentitySays(host);
      hide LineDirective, DirectivesOf, Trim;
      DirectivesOfConcat(four, ["    " + "IdentityFile" + " " + Trim(host.identityFile.value)]);
    } else {
      hide LineDirective, DirectivesOf, Trim;
      assert EntryLines(host) == four;
      assert HostDirectives(host) == FourDirectives(host);
    }
  }

  lemma FourLines(a: string, b: string, c: string, d: string)
    requires LineDirective(a).Some? && LineDirective(b).Some? && LineDirective(c).Some? && LineDirective(d).Some?
    ensures DirectivesOf([a, b, c, d]) == [LineDirective(a).value, LineDirective(b).value, LineDirective(c).value, LineDirective(d).value]
  {
    hide LineDirective, DirectivesOf;
    DirectivesOfOne(a);
    DirectivesOfOne(b);
    DirectivesOfOne(c);
    DirectivesOfOne(d);
    DirectivesOfConcat([a], [b]);
    DirectivesOfConcat([a] + [b], [c]);
    DirectivesOfConcat([a] + [b] + [c], [d]);
    assert [a] + [b] + [c] + [d] == [a, b, c, d];
  }

  lemma {:induction false} SilentLines(lines: seq<string>)
    requires forall i | 0 <= i < |lines| :: LineAliases(lines[i]) == {} && LineIncludes(lines[i]) == []
    ensures AliasesOfLines(lines) == {} && IncludesOfLines(lines) == []
  {
    hide LineAliases, LineIncludes;
    if lines != [] {
      SilentLines(lines[1..]);
      OneLine(lines[0]);
      MeaningOfConcat([lines[0]], lines[1..]);
      assert lines == [lines[0]] + lines[1..];
    }
  }

  lemma FirstLineOnly(lines: seq<string>)
    requires lines != [] && LineIncludes(lines[0]) == []
    requires forall i | 1 <= i < |lines| :: LineAliases(lines[i]) == {} && LineIncludes(lines[i]) == []
    ensures AliasesOfLines(lines) == LineAliases(lines[0]) && IncludesOfLines(lines) == []
  {
    hide LineAliases, LineIncludes;
    SilentLines(lines[1..]);
    OneLine(lines[0]);
    MeaningOfConcat([lines[0]], lines[1..]);
    assert lines == [lines[0]] + lines[1..];
  }

  lemma EntryLinesHaveNoNewline(host: NewSshHost)
    requires ValidHost(host) && ValidIdentity(host)
    ensures AllUnbroken(EntryLines(host))
  {
    AliasIsPlain(host.alias);
    PlainHasNoNewline(host.alias);
    PlainHasNoNewline(host.hostname);
    PlainHasNoNewline(host.user);
    PlainHasNoNewline(Decimal(host.port));
    if HasIdentity(host) {
      IdentityIsPlain(host);
      PlainHasNoNewline(Trim(host.identityFile.value));
    }
  }

  lemma PlainHasNoNewline(value: string)
    requires NoSpecials(value)
    ensures '\n' !in value && '\r' !in value
  {
  }

  lemma TerminatedTwo(first: string, second: string, rest: seq<string>)
    ensures Terminated([first, second] + rest) == first + "\n" + (second + "\n" + Terminated(rest))
  {
    var lines := [first, second] + rest;
    assert lines[1..] == [second] + rest && ([second] + rest)[1..] == rest;
  }

  lemma Regrouped(marker: string, rest: string)
    ensures "\n" + marker + "\n" + rest == "" + "\n" + (marker + "\n" + rest)
  {
    ConcatIsAssociative("\n" + marker, "\n", rest);
    ConcatIsAssociative("\n", marker, "\n" + rest);
    ConcatIsAssociative(marker, "\n", rest);
    assert "" + "\n" == "\n";
  }

  /** Everything after the old text: a blank line, the marker comment and the entry. */
  lemma AddedTextMeans(host: NewSshHost)
    requires ValidHost(host) && ValidIdentity(host)
    ensures OwnAliases("\n" + MARKER + "\n" + Terminated(EntryLines(host))) == {host.alias}
    ensures OwnIncludes("\n" + MARKER + "\n" + Terminated(EntryLines(host))) == []
    ensures Directives("\n" + MARKER + "\n" + Terminated(EntryLines(host))) == HostDirectives(host)
  {
    EntryLinesHaveNoNewline(host);
    EntrySays(host);
    EntryMeans(host);
    hide *;
    MarkedEntryMeans(EntryLines(host));
  }

  lemma MarkedEntryMeans(entry: seq<string>)
    requires AllUnbroken(entry)
    ensures var text := "\n" + MARKER + "\n" + Terminated(entry);
            && OwnAliases(text) == AliasesOfLines(entry) && OwnIncludes(text) == IncludesOfLines(entry)
            && Directives(text) == DirectivesOf(entry)
  {
    TerminatedTwo("", MARKER, entry);
    Regrouped(MARKER, Terminated(entry));
    MarkerIsPlain(entry);
    TextSays(["", MARKER] + entry);
    CommentLine();
    hide LineAliases, LineIncludes, LineDirective, Terminated, DirectivesOf, OwnAliases, OwnIncludes, Directives;
    SilentLines(["", MARKER]);
    MeaningOfConcat(["", MARKER], entry);
  }

  lemma TextSays(lines: seq<string>)
    requires AllUnbroken(lines)
    ensures OwnAliases(Terminated(lines)) == AliasesOfLines(lines)
    ensures OwnIncludes(Terminated(lines)) == IncludesOfLines(lines)
    ensures Directives(Terminated(lines)) == DirectivesOf(lines)
  {
    LinesOfTerminated(lines);
    hide Lines, Terminated;
  }

  lemma MarkerIsPlain(entry: seq<string>)
    requires AllUnbroken(entry)
    ensures AllUnbroken(["", MARKER] + entry)
  {
    assert Unbroken(MARKER);
    hide Unbroken;
    var lines := ["", MARKER] + entry;
    assert Unbroken("") by {
      BlankIsUnbroken();
    }
    forall i | 0 <= i < |lines| ensures Unbroken(lines[i]) {
      if i >= 2 {
        assert lines[i] == entry[i - 2];
      }
    }
  }

  lemma BlankIsUnbroken()
    ensures Unbroken("")
  {
  }

  lemma CommentLine()
    ensures LineAliases("") == {} && LineIncludes("") == []
    ensures LineAliases(MARKER) == {} && LineIncludes(MARKER) == []
    ensures DirectivesOf(["", MARKER]) == []
  {
    assert LineDirective("") == None;
    DirectivesOfOne("");
    DirectivesOfOne(MARKER);
    DirectivesOfConcat([""], [MARKER]);
    assert ["", MARKER] == [""] + [MARKER];
    assert Trim(MARKER)[0] == '#';
  }

  // ---- What can be rendered ----

  /** Only ASCII letters, digits and the given characters. */
  predicate MadeOf(text: string, others: set<char>) {
    forall c | c in text :: 'a' <= c <= 'z' || 'A' <= c <= 'Z' || '0' <= c <= '9' || c in others
  }

  /** Which hosts can be rendered. */
  predicate Renderable(host: NewSshHost) {
    && host.alias != "" && MadeOf(host.alias, {'.', '_', '-'})
    && host.hostname != "" && MadeOf(host.hostname, {'.', ':', '_', '-'})
    && host.user != "" && MadeOf(host.user, {'.', '_', '-'})
    && host.port != 0
    && (host.identityFile.Some? && !Spaces(host.identityFile.value) ==> MadeOf(host.identityFile.value, {'/', '.', '_', '-', '~'}))
  }

  lemma HostIsValidIff(host: NewSshHost)
    ensures ValidHost(host) && ValidIdentity(host) <==> Renderable(host)
  {
    ConcreteIff(host.alias);
    EveryCharacter(host.hostname, c => SafeHostCharacter(c));
    EveryCharacter(host.user, c => SafeUserCharacter(c));
    if host.identityFile.Some? {
      BlankIff(host.identityFile.value);
      EveryCharacter(host.identityFile.value, c => SafePathCharacter(c));
    }
  }

  lemma EveryCharacter(text: string, p: char -> bool)
    ensures (forall c | c in text :: p(c)) <==> (forall i | 0 <= i < |text| :: p(text[i]))
  {
    if forall i | 0 <= i < |text| :: p(text[i]) {
      forall c | c in text ensures p(c) {
        var i :| 0 <= i < |text| && text[i] == c;
      }
    }
  }

  /** What can be rendered is read back: the directives in order, and behind Port the number itself. */
  lemma RenderedEntry(host: NewSshHost)
    ensures RenderConfigEntry(host).Ok? <==> Renderable(host)
    ensures RenderConfigEntry(host).Ok? ==>
              && Directives(RenderConfigEntry(host).value) == HostDirectives(host)
              && ReadDecimal(Directives(RenderConfigEntry(host).value)[3].value) == host.port
  {
    HostIsValidIff(host);
    if Renderable(host) {
      EntrySays(host);
      EntryLinesHaveNoNewline(host);
      TextSays(EntryLines(host));
      DecimalReadsBack(host.port);
      hide Renderable, ValidHost, ValidIdentity, EntryLines, Terminated, Directives, DirectivesOf;
    }
  }

  /** The old text with its last line ended means what it meant. */
  lemma EndedText(text: string) returns (ended: string)
    ensures ended == text + (if text != "" && text[|text| - 1] != '\n' then "\n" else "")
    ensures ended == "" || ended[|ended| - 1] == '\n'
    ensures OwnAliases(ended) == OwnAliases(text) && OwnIncludes(ended) == OwnIncludes(text)
    ensures Directives(ended) == Directives(text)
  {
    hide OwnAliases, OwnIncludes, Directives;
    ended := text + "";
    assert ended == text;
    if text != "" && text[|text| - 1] != '\n' {
      EndingTheLastLine(text);
      ended := text + "\n";
    }
  }

  /** What follows ended text adds its own aliases and includes. */
  lemma AddedMeaning(ended: string, added: string)
    requires ended == "" || ended[|ended| - 1] == '\n'
    ensures OwnAliases(ended + added) == OwnAliases(ended) + OwnAliases(added)
    ensures OwnIncludes(ended + added) == OwnIncludes(ended) + OwnIncludes(added)
    ensures Directives(ended + added) == Directives(ended) + Directives(added)
  {
    hide LineAliases, LineIncludes, LineDirective, Lines;
    LinesConcat(ended, added);
    MeaningOfConcat(Lines(ended), Lines(added));
  }

  /**
   Appending keeps the old text as a prefix, adds exactly the new alias and no Include, and says behind everything that
   was said before what the entry has to say.
   */
  lemma AppendedText(text: string, host: NewSshHost)
    requires ValidHost(host) && ValidIdentity(host)
    ensures text <= Appended(text, Terminated(EntryLines(host)))
    ensures OwnAliases(Appended(text, Terminated(EntryLines(host)))) == OwnAliases(text) + {host.alias}
    ensures OwnIncludes(Appended(text, Terminated(EntryLines(host)))) == OwnIncludes(text)
    ensures Directives(Appended(text, Terminated(EntryLines(host)))) == Directives(text) + HostDirectives(host)
  {
    hide OwnAliases, OwnIncludes, Directives, HostDirectives, Terminated, EntryLines;
    var entry := Terminated(EntryLines(host));
    AddedTextMeans(host);
    var ended := EndedText(text);
    AddedMeaning(ended, "\n" + MARKER + "\n" + entry);
    AppendedIs(ended, MARKER, entry);
  }

  lemma AppendedIs(ended: string, marker: string, entry: string)
    ensures ended + "\n" + marker + "\n" + entry == ended + ("\n" + marker + "\n" + entry)
  {
    ConcatIsAssociative(ended + "\n" + marker, "\n", entry);
    ConcatIsAssociative(ended + "\n", marker, "\n" + entry);
    ConcatIsAssociative(ended, "\n", marker + ("\n" + entry));
    ConcatIsAssociative("\n", marker, "\n" + entry);
    ConcatIsAssociative("\n" + marker, "\n", entry);
  }

  // ---- The file and the search over it ----

  function TextOf(fs: FileSystem, config: Path): string {
    if fs.Exists(config) && fs.Canonical(config) in fs.content && fs.content[fs.Canonical(config)].Some? then
      fs.content[fs.Canonical(config)].value
    else ""
  }

  /** What is written behind the old text. */
  function Addition(text: string, entry: string): string {
    (if text != "" && text[|text| - 1] != '\n' then "\n" else "") + "\n" + MARKER + "\n" + entry
  }

  lemma AdditionAppends(text: string, entry: string)
    ensures text + Addition(text, entry) == Appended(text, entry)
  {
    var first := if text != "" && text[|text| - 1] != '\n' then "\n" else "";
    ConcatIsAssociative(text, first + "\n" + MARKER + "\n", entry);
    ConcatIsAssociative(text, first + "\n" + MARKER, "\n");
    ConcatIsAssociative(text, first + "\n", MARKER);
    ConcatIsAssociative(text, first, "\n");
  }

  /**
   The names once a new file is there: what led somewhere before leads there still, and what did not may lead to
   the new file; directories may list it.
   */
  ghost predicate AddsFile(before: NameSpace, after: NameSpace, path: Path, file: Path) {
    && after.Valid() && after.home == before.home
    && before.resolve(file).None? && file.absolute && after.resolve(path) == Some(file)
    && (forall p | before.resolve(p).Some? :: after.resolve(p) == before.resolve(p))
    && (forall p | before.resolve(p).None? :: after.resolve(p).None? || after.resolve(p) == Some(file))
    && (forall d, n | n in before.listing(d) :: n in after.listing(d))
    && (forall d, n | n in after.listing(d) && n !in before.listing(d) ::
          after.resolve(after.Opened(d.Join(Path(false, [n])))) == Some(file))
  }

  /** Where the disk fails: making the directory, after copying so much, opening, after writing so much, at the end. */
  datatype Fault = Fine | Directory | Backup(copied: nat) | Open | Write(written: nat) | Permissions

  function Prefix(text: string, n: nat): string {
    text[..if n <= |text| then n else |text|]
  }

  class ConfigDirectory {
    var fs: FileSystem

    constructor (fs: FileSystem)
      ensures this.fs == fs
    {
      this.fs := fs;
    }

    /**
     `created` is the file that does not exist yet, the backup of an existing configuration or else the configuration
     itself, and `names` are the names once it is there.
     */
    method AppendConfigEntry(config: Path, host: NewSshHost, backup: Path, created: Path, names: NameSpace, fault: Fault)
      returns (r: Result<(), SshError>)
      requires fs.Valid() && fs.names.Opened(config) == config
      requires AddsFile(fs.names, names, if fs.Exists(config) then backup else config, created)
      modifies this
      ensures fs.Valid() && forall file | file in old(fs).content && file != old(fs.Canonical(config)) ::
                file in fs.content && fs.content[file] == old(fs).content[file]
      ensures r.Ok? ==> ValidHost(host) && ValidIdentity(host)
                        && fs == WithEntry(old(fs), config, created, names, Terminated(EntryLines(host)))
      ensures r.Ok? ==> Directives(TextOf(fs, config)) == Directives(TextOf(old(fs), config)) + HostDirectives(host)
      ensures r == Err(UnsupportedCharacters) || r == Err(InvalidIdentityFile) <==> !Renderable(host)
      ensures r.Err? && r.error != Io ==> fs == old(fs)
      ensures r == Err(Io) ==> ValidHost(host) && ValidIdentity(host) && PartlyAppended(old(fs), fs, config, created, host)
      ensures NamesAgree(old(fs)) ==>
        (r.Ok? <==> ValidHost(host) && ValidIdentity(host) && !ReachesUnreadable(old(fs), config)
                    && !IsReachableAlias(old(fs), config, host.alias) && config.parts != []
                    && (fault.Fine? || (fault.Backup? && !old(fs.Exists(config)))))
    {
      HostIsValidIff(host);
      hide Terminated, EntryLines, ValidHost, ValidIdentity, Renderable, Directives, HostDirectives, NamesAgree, IsReachableAlias, ReachesUnreadable, AliasesOf,
        AllReached, OwnAliases, OwnIncludes, AddsFile, PartlyAppended, WithEntry;
      var rendered := RenderConfigEntry(host);
      if rendered.Err? {
        return Err(rendered.error);
      }
      var ok, found, visited, readAs := DiscoverHosts(fs, config);
      if !ok {
        return Err(Unreadable);
      }
      if host.alias in found {
        return Err(AliasExists);
      }
      if config.parts == [] {
        return Err(NoParent);
      }
      ConfigIsReadable(fs, config, visited, readAs);
      EntryIsAppended(fs, config, host, backup, created, names);
      hide Walk, FileSystem.Valid, FileSystem.Readable;
      r := WriteEntry(config, host, rendered.value, backup, created, names, fault);
    }

    /** The part that writes. */
    method WriteEntry(config: Path, host: NewSshHost, entry: string, backup: Path, created: Path, names: NameSpace, fault: Fault)
      returns (r: Result<(), SshError>)
      requires fs.Valid() && fs.names.Opened(config) == config && (fs.Exists(config) ==> fs.Readable(fs.Canonical(config)))
      requires AddsFile(fs.names, names, if fs.Exists(config) then backup else config, created)
      requires entry == Terminated(EntryLines(host))
      modifies this
      ensures fs.Valid() && forall file | file in old(fs).content && file != old(fs.Canonical(config)) ::
                file in fs.content && fs.content[file] == old(fs).content[file]
      ensures r.Ok? <==> fault.Fine? || (fault.Backup? && !old(fs.Exists(config)))
      ensures r.Ok? ==> fs == WithEntry(old(fs), config, created, names, Terminated(EntryLines(host)))
      ensures r.Err? ==> r.error == Io && PartlyAppended(old(fs), fs, config, created, host)
    {
      hide Terminated, EntryLines, Appended, Addition;
      ghost var before := fs;
      var text, existed := TextOf(fs, config), fs.Exists(config);
      AdditionAppends(text, entry);
      NewFileIsNew(fs, names, if existed then backup else config, created);
      if fault.Directory? {
        return Err(Io);
      }
      if existed {
        var copied := if fault.Backup? then Prefix(text, fault.copied) else text;
        fs := FileSystem(names, fs.content[created := Some(copied)]);
        AddedIsValid(before, fs, config, created, names);
        if fault.Backup? {
          return Err(Io);
        }
      }
      if fault.Open? {
        return Err(Io);
      }
      var added := Addition(text, entry);
      if fault.Write? {
        added := Prefix(added, fault.written);
      }
      var file := if existed then fs.Canonical(config) else created;
      fs := FileSystem(names, fs.content[file := Some(text + added)]);
      AddedIsValid(before, fs, config, created, names);
      if fault.Write? || fault.Permissions? {
        PrefixOfAddition(text, added, Addition(text, entry));
        return Err(Io);
      }
      return Ok(());
    }
  }

  /** The files after the append. */
  ghost function WithEntry(fs: FileSystem, config: Path, created: Path, names: NameSpace, entry: string): FileSystem {
    var text := TextOf(fs, config);
    if fs.Exists(config) then
      FileSystem(names, fs.content[created := Some(text)][fs.Canonical(config) := Some(Appended(text, entry))])
    else FileSystem(names, fs.content[created := Some(Appended(text, entry))])
  }

  /**
   However far a failing append got, the old text is still there and followed by a beginning of the addition; before
   anything is added to an existing file its backup holds all of the old text.
   */
  ghost predicate PartlyAppended(before: FileSystem, after: FileSystem, config: Path, created: Path, host: NewSshHost) {
    var text, now := TextOf(before, config), TextOf(after, config);
    && text <= now <= Appended(text, Terminated(EntryLines(host)))
    && (before.Exists(config) ==>
          && after.Canonical(config) == before.Canonical(config)
          && (created in after.content ==> after.content[created].Some? && after.content[created].value <= text)
          && (now != text ==> created in after.content && after.content[created] == Some(text)))
  }

  lemma EntryIsAppended(fs: FileSystem, config: Path, host: NewSshHost, backup: Path, created: Path, names: NameSpace)
    requires fs.Valid() && fs.names.Opened(config) == config && (fs.Exists(config) ==> fs.Readable(fs.Canonical(config)))
    requires AddsFile(fs.names, names, if fs.Exists(config) then backup else config, created)
    requires ValidHost(host) && ValidIdentity(host)
    ensures var after := WithEntry(fs, config, created, names, Terminated(EntryLines(host)));
            Directives(TextOf(after, config)) == Directives(TextOf(fs, config)) + HostDirectives(host)
  {
    hide Terminated, EntryLines, Directives, HostDirectives, Appended, ValidHost, ValidIdentity;
    AppendedText(TextOf(fs, config), host);
    NewFileIsNew(fs, names, if fs.Exists(config) then backup else config, created);
    var after := WithEntry(fs, config, created, names, Terminated(EntryLines(host)));
    AddedIsValid(fs, after, config, created, names);
    assert TextOf(after, config) == Appended(TextOf(fs, config), Terminated(EntryLines(host)));
  }

  lemma NewFileIsNew(fs: FileSystem, names: NameSpace, path: Path, created: Path)
    requires fs.Valid() && AddsFile(fs.names, names, path, created)
    ensures created !in fs.content
  {
  }

  lemma PrefixOfAddition(text: string, part: string, added: string)
    requires part <= added
    ensures text <= text + part <= text + added
    ensures text + part != text ==> part != ""
  {
    assert text + added == text + part + added[|part|..];
  }

  lemma ConfigIsReadable(fs: FileSystem, config: Path, visited: set<Path>, readAs: map<Path, Path>)
    requires fs.Valid() && Walk(fs, config, visited, readAs)
    ensures fs.Exists(config) ==> fs.Readable(fs.Canonical(config))
  {
    hide OwnIncludes, AllReached;
    assert fs.Canonical(config) in visited - {} - {};
  }

  lemma AddedIsValid(before: FileSystem, after: FileSystem, config: Path, created: Path, names: NameSpace)
    requires before.Valid() && after.names == names && before.names.Opened(config) == config
    requires exists path :: AddsFile(before.names, names, path, created)
    requires after.content.Keys == before.content.Keys + {created}
    ensures after.Valid() && names.Opened(config) == config
    ensures before.Exists(config) ==> after.Exists(config) && after.Canonical(config) == before.Canonical(config)
    ensures created !in before.content
  {
  }

  // ---- The search afterwards ----

  /** An append to an existing configuration whose backup lies beside it. */
  ghost predicate IsAppend(before: FileSystem, after: FileSystem, config: Path, backup: Path, created: Path, host: NewSshHost) {
    && before.Valid() && before.Exists(config) && before.Readable(before.Canonical(config))
    && before.names.Opened(config) == config && ValidHost(host) && ValidIdentity(host)
    && AddsFile(before.names, after.names, backup, created)
    && after == WithEntry(before, config, created, after.names, Terminated(EntryLines(host)))
    && (forall t, word | after.names.resolve(t) == Some(created) ::
          after.names.FilesAt(t.Parent(), word) == after.names.FilesAt(config.Parent(), word))
  }

  lemma AppendIsValid(before: FileSystem, after: FileSystem, config: Path, backup: Path, created: Path, host: NewSshHost)
    requires IsAppend(before, after, config, backup, created, host)
    ensures after.Valid() && created !in before.content && before.Canonical(config) in before.content
    ensures after.content.Keys == before.content.Keys + {created}
    ensures after.content[before.Canonical(config)] == Some(Appended(TextOf(before, config), Terminated(EntryLines(host))))
    ensures after.content[created] == Some(TextOf(before, config))
    ensures forall f | f in before.content && f != before.Canonical(config) :: after.content[f] == before.content[f]
  {
    hide Terminated, EntryLines, ValidHost, ValidIdentity, Appended;
    AddedIsValid(before, after, config, created, after.names);
  }

  /** A pattern lists what it listed, and what is new leads to the new file. */
  lemma {:induction false} ListedAtMost(dir: Path, pattern: string, names: seq<string>, more: seq<string>, t: Path)
    requires forall n | n in names :: n in more
    requires t in Listed(dir, pattern, names)
    ensures t in Listed(dir, pattern, more)
  {
    var n := ListedName(dir, pattern, names, t);
    NameIsListed(dir, pattern, more, n);
  }

  lemma {:induction false} ListedName(dir: Path, pattern: string, names: seq<string>, t: Path) returns (n: string)
    requires t in Listed(dir, pattern, names)
    ensures n in names && t == dir.Join(Path(false, [n])) && Glob.Accepts(Utf8(pattern), Utf8(n))
  {
    if t == dir.Join(Path(false, [names[0]])) && Glob.Accepts(Utf8(pattern), Utf8(names[0])) {
      n := names[0];
    } else {
      n := ListedName(dir, pattern, names[1..], t);
    }
  }

  lemma {:induction false} NameIsListed(dir: Path, pattern: string, names: seq<string>, n: string)
    requires n in names && Glob.Accepts(Utf8(pattern), Utf8(n))
    ensures dir.Join(Path(false, [n])) in Listed(dir, pattern, names)
  {
    if n != names[0] {
      NameIsListed(dir, pattern, names[1..], n);
    }
  }

  lemma ExpandedBefore(before: NameSpace, after: NameSpace, path: Path, file: Path, dir: Path, word: string, t: Path)
    requires AddsFile(before, after, path, file)
    ensures t in before.ExpandAt(dir, word) ==> t in after.ExpandAt(dir, word)
    ensures t in after.ExpandAt(dir, word) ==> t in before.ExpandAt(dir, word) || after.File(t) == Some(file)
  {
    var full := dir.Join(before.WordPath(word));
    if full.FileName().Some? && HasWildcard(full.FileName().value) {
      var parent, pattern := full.Parent(), full.FileName().value;
      hide Listed, Utf8, Glob.Accepts;
      if t in before.ExpandAt(dir, word) {
        ListedAtMost(parent, pattern, before.listing(parent), after.listing(parent), t);
      }
      if t in after.ExpandAt(dir, word) {
        var n := ListedName(parent, pattern, after.listing(parent), t);
        if n in before.listing(parent) {
          NameIsListed(parent, pattern, before.listing(parent), n);
        }
      }
    }
  }

  /** The files a pattern leads to are the same, but for the new one. */
  lemma FilesBefore(before: NameSpace, after: NameSpace, path: Path, file: Path, dir: Path, word: string, f: Path)
    requires AddsFile(before, after, path, file) && before.Valid()
    ensures f in before.FilesAt(dir, word) ==> f in after.FilesAt(dir, word)
    ensures f in after.FilesAt(dir, word) && f != file ==> f in before.FilesAt(dir, word)
  {
    if f in before.FilesAt(dir, word) {
      var t :| t in before.ExpandAt(dir, word) && before.File(t) == Some(f);
      ExpandedBefore(before, after, path, file, dir, word, t);
    }
    if f in after.FilesAt(dir, word) && f != file {
      var t :| t in after.ExpandAt(dir, word) && after.File(t) == Some(f);
      ExpandedBefore(before, after, path, file, dir, word, t);
      assert before.Opened(t) == after.Opened(t);
    }
  }

  /** If the directories agree afterwards, they agreed before. */
  lemma AgreedBefore(before: NameSpace, after: NameSpace, path: Path, file: Path)
    requires AddsFile(before, after, path, file) && before.Valid() && ParentsAgree(after)
    ensures ParentsAgree(before)
  {
    forall p, q, word | before.resolve(p).Some? && before.resolve(p) == before.resolve(q) && Writable(word)
      ensures before.FilesAt(p.Parent(), word) - {before.resolve(p).value}
           == before.FilesAt(q.Parent(), word) - {before.resolve(p).value}
    {
      var own := before.resolve(p).value;
      assert after.resolve(p) == after.resolve(q) == Some(own);
      var a, b := after.FilesAt(p.Parent(), word), after.FilesAt(q.Parent(), word);
      assert a - {own} == b - {own};
      forall f ensures f in before.FilesAt(p.Parent(), word) - {own} <==> f in before.FilesAt(q.Parent(), word) - {own} {
        FilesBefore(before, after, path, file, p.Parent(), word, f);
        FilesBefore(before, after, path, file, q.Parent(), word, f);
        assert f in a - {own} <==> f in b - {own};
        NewFileWasNot(before, file, p.Parent(), word);
        NewFileWasNot(before, file, q.Parent(), word);
      }
    }
  }

  lemma NewFileWasNot(before: NameSpace, file: Path, dir: Path, word: string)
    requires before.Valid() && before.resolve(file).None?
    ensures file !in before.FilesAt(dir, word)
  {
    hide NameSpace.ExpandAt;
  }

  /** Each file includes by the words it had, the backup by those of the configuration. */
  lemma WordsBefore(before: FileSystem, after: FileSystem, config: Path, backup: Path, created: Path, host: NewSshHost, file: Path)
    requires IsAppend(before, after, config, backup, created, host) && after.Readable(file)
    ensures var source := if file == created then before.Canonical(config) else file;
            before.Readable(source) && OwnIncludes(after.content[file].value) == OwnIncludes(before.content[source].value)
  {
    AppendIsValid(before, after, config, backup, created, host);
    AppendedText(TextOf(before, config), host);
    hide OwnIncludes, OwnAliases, Appended, WithEntry, Terminated, EntryLines, ValidHost, ValidIdentity, AddsFile;
  }

  lemma StepWord(before: FileSystem, after: FileSystem, config: Path, backup: Path, created: Path, host: NewSshHost, x: Path, y: Path)
    returns (word: string)
    requires IsAppend(before, after, config, backup, created, host) && y in after.Includes(x) && after.Exists(y)
    ensures after.Exists(x) && Writable(word)
    ensures after.Canonical(y) in after.names.FilesAt(after.names.Opened(x).Parent(), word)
    ensures var g := after.Canonical(x);
            var source := if g == created then before.Canonical(config) else g;
            before.Readable(source) && word in OwnIncludes(before.content[source].value)
  {
    var g := after.Canonical(x);
    WordsBefore(before, after, config, backup, created, host, g);
    hide IsAppend, OwnIncludes, NameSpace.ExpandAt;
    word := TargetOfSomeWord(after, x, OwnIncludes(after.content[g].value), y);
    IncludesAreWords(after.content[g].value, word);
    assert y in after.names.ExpandAt(after.names.Opened(x).Parent(), word);
  }

  lemma BackupStep(before: FileSystem, after: FileSystem, config: Path, backup: Path, created: Path, host: NewSshHost,
                   x: Path, word: string, f: Path)
    requires IsAppend(before, after, config, backup, created, host) && f != created
    requires after.names.File(x) == Some(created) && f in after.names.FilesAt(after.names.Opened(x).Parent(), word)
    requires word in OwnIncludes(before.content[before.Canonical(config)].value)
    ensures ReachedBefore(before, config, f)
  {
    hide OwnIncludes, NameSpace.FilesAt, WithEntry, Terminated, EntryLines, ValidHost, ValidIdentity;
    assert f in after.names.FilesAt(config.Parent(), word);
    FilesBefore(before.names, after.names, backup, created, config.Parent(), word, f);
    ReachesItself(before, config);
    hide AddsFile, ReachedBefore;
    ReachedByWord(before, config, config, word, f);
  }

  lemma OldNameStays(before: NameSpace, after: NameSpace, path: Path, file: Path, p: Path, g: Path)
    requires AddsFile(before, after, path, file) && before.File(p) == Some(g)
    ensures after.resolve(before.Opened(p)) == Some(g)
  {
  }

  lemma FileStep(before: FileSystem, after: FileSystem, config: Path, backup: Path, created: Path, host: NewSshHost,
                 x: Path, word: string, f: Path, x0: Path)
    requires IsAppend(before, after, config, backup, created, host) && ParentsAgree(after.names) && f != created
    requires after.Exists(x) && Reaches(before, config, x0) && before.names.File(x0) == Some(after.Canonical(x))
    requires f in after.names.FilesAt(after.names.Opened(x).Parent(), word) && Writable(word) && f != after.Canonical(x)
    requires before.Readable(after.Canonical(x)) && word in OwnIncludes(before.content[after.Canonical(x)].value)
    ensures ReachedBefore(before, config, f)
  {
    hide OwnIncludes, NameSpace.FilesAt, WithEntry, Terminated, EntryLines, ValidHost, ValidIdentity, NameSpace.Opened;
    var g := after.Canonical(x);
    var here, there := after.names.Opened(x), before.names.Opened(x0);
    OldNameStays(before.names, after.names, backup, created, x0, g);
    assert after.names.resolve(there) == after.names.resolve(here) == Some(g);
    assert f in after.names.FilesAt(here.Parent(), word) - {g};
    assert f in after.names.FilesAt(there.Parent(), word) - {g};
    FilesBefore(before.names, after.names, backup, created, there.Parent(), word, f);
    hide AddsFile, ReachedBefore, ParentsAgree;
    ReachedByWord(before, config, x0, word, f);
  }

  /** The words of a file's Includes lead to the same files whichever of its names is opened. */
  lemma StepBefore(before: FileSystem, after: FileSystem, config: Path, backup: Path, created: Path, host: NewSshHost,
                   x: Path, y: Path, f: Path)
    requires IsAppend(before, after, config, backup, created, host) && ParentsAgree(after.names)
    requires y in after.Includes(x) && after.names.File(y) == Some(f) && f != created
    requires var g := after.Canonical(x); g == created || ReachedBefore(before, config, g)
    ensures ReachedBefore(before, config, f)
  {
    hide IsAppend, ParentsAgree, OwnIncludes, NameSpace.FilesAt;
    var g := after.Canonical(x);
    var word := StepWord(before, after, config, backup, created, host, x, y);
    if g == created {
      BackupStep(before, after, config, backup, created, host, x, word, f);
    } else if f != g {
      var x0 :| Reaches(before, config, x0) && before.names.File(x0) == Some(g);
      FileStep(before, after, config, backup, created, host, x, word, f, x0);
    }
  }

  ghost predicate ReachedBefore(before: FileSystem, config: Path, file: Path) {
    exists p :: Reaches(before, config, p) && before.names.File(p) == Some(file)
  }

  lemma ReachedByWord(fs: FileSystem, config: Path, x: Path, word: string, f: Path)
    requires fs.Valid() && Reaches(fs, config, x) && fs.Exists(x) && fs.Readable(fs.Canonical(x))
    requires word in OwnIncludes(fs.content[fs.Canonical(x)].value) && f in fs.names.FilesAt(fs.names.Opened(x).Parent(), word)
    ensures ReachedBefore(fs, config, f)
  {
    hide OwnIncludes, NameSpace.ExpandAt, NameSpace.Opened;
    var t :| t in fs.names.ExpandAt(fs.names.Opened(x).Parent(), word) && fs.names.File(t) == Some(f);
    WordIsExpanded(fs, x, OwnIncludes(fs.content[fs.Canonical(x)].value), word);
    assert t in fs.names.Expand(x, word) && t in fs.Includes(x);
    ReachesFurther(fs, config, x, t);
  }

  lemma {:induction false} RouteBefore(before: FileSystem, after: FileSystem, config: Path, backup: Path, created: Path, host: NewSshHost,
                                       route: seq<Path>)
    requires IsAppend(before, after, config, backup, created, host) && ParentsAgree(after.names)
    requires IsRoute(after, route)
    requires var g := after.Canonical(route[0]); g == created || ReachedBefore(before, config, g)
    requires after.Exists(route[|route| - 1])
    ensures var g := after.Canonical(route[|route| - 1]); g == created || ReachedBefore(before, config, g)
    decreases |route|
  {
    hide OwnIncludes, OwnAliases, WithEntry, IsAppend, ParentsAgree, ReachedBefore;
    if |route| > 1 {
      assert route[0 + 1] in after.Includes(route[0]);
      assert |route| > 2 ==> route[1 + 1] in after.Includes(route[1]);
      if after.Canonical(route[1]) != created {
        StepBefore(before, after, config, backup, created, host, route[0], route[1], after.Canonical(route[1]));
      }
      RouteBefore(before, after, config, backup, created, host, route[1..]);
    }
  }

  lemma IncludesStay(before: FileSystem, after: FileSystem, config: Path, backup: Path, created: Path, host: NewSshHost, x: Path, y: Path)
    requires IsAppend(before, after, config, backup, created, host) && y in before.Includes(x)
    ensures y in after.Includes(x)
  {
    hide OwnIncludes, OwnAliases, Appended, WithEntry, NameSpace.ExpandAt, Terminated, EntryLines, ValidHost, ValidIdentity;
    AppendIsValid(before, after, config, backup, created, host);
    AppendedText(TextOf(before, config), host);
    var words := OwnIncludes(before.content[before.Canonical(x)].value);
    var word := TargetOfSomeWord(before, x, words, y);
    ExpandedBefore(before.names, after.names, backup, created, before.names.Opened(x).Parent(), word, y);
    assert after.names.Opened(x) == before.names.Opened(x);
    WordIsExpanded(after, x, words, word);
  }

  lemma {:induction false} RouteAfter(before: FileSystem, after: FileSystem, config: Path, backup: Path, created: Path, host: NewSshHost,
                                      route: seq<Path>)
    requires IsAppend(before, after, config, backup, created, host)
    requires IsRoute(before, route) && Reaches(after, config, route[0])
    ensures Reaches(after, config, route[|route| - 1])
    decreases |route|
  {
    hide FileSystem.Includes, WithEntry, IsAppend;
    if |route| > 1 {
      assert route[0 + 1] in before.Includes(route[0]);
      IncludesStay(before, after, config, backup, created, host, route[0], route[1]);
      ReachesFurther(after, config, route[0], route[1]);
      RouteAfter(before, after, config, backup, created, host, route[1..]);
    }
  }

  lemma AliasesAfter(before: FileSystem, after: FileSystem, config: Path, backup: Path, created: Path, host: NewSshHost, f: Path)
    requires IsAppend(before, after, config, backup, created, host) && f in after.content
    ensures after.Aliases(f) == before.Aliases(if f == created then before.Canonical(config) else f)
                                + if f == before.Canonical(config) then {host.alias} else {}
  {
    AppendIsValid(before, after, config, backup, created, host);
    AppendedText(TextOf(before, config), host);
    hide OwnIncludes, OwnAliases, Appended, WithEntry, Terminated, EntryLines, ValidHost, ValidIdentity, AddsFile;
  }

  lemma ReachableAfter(before: FileSystem, after: FileSystem, config: Path, backup: Path, created: Path, host: NewSshHost, alias: string)
    requires IsAppend(before, after, config, backup, created, host) && ParentsAgree(after.names)
    requires IsReachableAlias(after, config, alias)
    ensures IsReachableAlias(before, config, alias) || alias == host.alias
  {
    AppendIsValid(before, after, config, backup, created, host);
    ReachesItself(before, config);
    assert ReachedBefore(before, config, before.Canonical(config));
    var p :| Reaches(after, config, p) && alias in after.Aliases(after.Canonical(p));
    CanonicalExists(after, p);
    var route :| IsRoute(after, route) && route[0] == config && route[|route| - 1] == p;
    ConfigStays(before, after, config, backup, created, host);
    hide FileSystem.Includes, WithEntry, IsAppend, ParentsAgree, OwnAliases;
    RouteBefore(before, after, config, backup, created, host, route);
    AliasesAfter(before, after, config, backup, created, host, after.Canonical(p));
  }

  lemma ConfigStays(before: FileSystem, after: FileSystem, config: Path, backup: Path, created: Path, host: NewSshHost)
    requires IsAppend(before, after, config, backup, created, host)
    ensures after.names.File(config) == before.names.File(config) == Some(before.Canonical(config))
  {
    hide WithEntry, Terminated, EntryLines, ValidHost, ValidIdentity;
  }

  lemma ReachableBefore(before: FileSystem, after: FileSystem, config: Path, backup: Path, created: Path, host: NewSshHost, alias: string)
    requires IsAppend(before, after, config, backup, created, host)
    requires IsReachableAlias(before, config, alias) || alias == host.alias
    ensures IsReachableAlias(after, config, alias)
  {
    AppendIsValid(before, after, config, backup, created, host);
    ConfigStays(before, after, config, backup, created, host);
    ReachesItself(after, config);
    AliasesAfter(before, after, config, backup, created, host, before.Canonical(config));
    if alias != host.alias {
      var p :| Reaches(before, config, p) && alias in before.Aliases(before.Canonical(p));
      CanonicalExists(before, p);
      var route :| IsRoute(before, route) && route[0] == config && route[|route| - 1] == p;
      OldFileStays(before, after, config, backup, created, host, p);
      hide FileSystem.Includes, WithEntry, IsAppend, OwnAliases;
      RouteAfter(before, after, config, backup, created, host, route);
      AliasesAfter(before, after, config, backup, created, host, before.Canonical(p));
    }
  }

  lemma OldFileStays(before: FileSystem, after: FileSystem, config: Path, backup: Path, created: Path, host: NewSshHost, p: Path)
    requires IsAppend(before, after, config, backup, created, host) && before.Exists(p)
    ensures after.Canonical(p) == before.Canonical(p) && before.Canonical(p) != created && before.Canonical(p) in after.content
  {
    hide Terminated, EntryLines, ValidHost, ValidIdentity, Appended;
  }

  lemma StillReadable(before: FileSystem, after: FileSystem, config: Path, backup: Path, created: Path, host: NewSshHost)
    requires IsAppend(before, after, config, backup, created, host) && ParentsAgree(after.names)
    requires ReachesUnreadable(after, config)
    ensures ReachesUnreadable(before, config)
  {
    AppendIsValid(before, after, config, backup, created, host);
    ReachesItself(before, config);
    assert ReachedBefore(before, config, before.Canonical(config));
    var p :| Reaches(after, config, p) && after.Exists(p) && !after.Readable(after.Canonical(p));
    var route :| IsRoute(after, route) && route[0] == config && route[|route| - 1] == p;
    ConfigStays(before, after, config, backup, created, host);
    var f := after.Canonical(p);
    assert f in after.content;
    hide FileSystem.Includes, WithEntry, IsAppend, ParentsAgree;
    RouteBefore(before, after, config, backup, created, host, route);
    var x :| Reaches(before, config, x) && before.names.File(x) == Some(f);
    assert !before.Readable(before.Canonical(x));
  }

  /**
   After an append the search succeeds if it did before, and finds exactly one alias more, even when an Include with
   a wildcard now lists the backup.
   */
  lemma SearchAfterAppend(before: FileSystem, after: FileSystem, config: Path, backup: Path, created: Path, host: NewSshHost,
                          visited0: set<Path>, readAs0: map<Path, Path>, visited: set<Path>, readAs: map<Path, Path>)
    requires IsAppend(before, after, config, backup, created, host) && ParentsAgree(after.names)
    ensures NamesAgree(before) && NamesAgree(after)
    ensures !ReachesUnreadable(before, config) ==> !ReachesUnreadable(after, config)
    ensures Walk(before, config, visited0, readAs0) && Walk(after, config, visited, readAs) ==>
              AliasesOf(after, visited) == AliasesOf(before, visited0) + {host.alias}
  {
    AppendIsValid(before, after, config, backup, created, host);
    AgreedBefore(before.names, after.names, backup, created);
    AgreeingParentsAgree(before);
    AgreeingParentsAgree(after);
    if ReachesUnreadable(after, config) {
      StillReadable(before, after, config, backup, created, host);
    }
    hide IsAppend, ParentsAgree, NamesAgree, FileSystem.Valid, AliasesOf, Walk, IsReachableAlias, ReachesUnreadable;
    if Walk(before, config, visited0, readAs0) && Walk(after, config, visited, readAs) {
      WalkIsComplete(before, config, visited0, readAs0);
      WalkIsComplete(after, config, visited, readAs);
      forall alias ensures alias in AliasesOf(after, visited) <==> alias in AliasesOf(before, visited0) + {host.alias} {
        if IsReachableAlias(after, config, alias) {
          ReachableAfter(before, after, config, backup, created, host, alias);
        }
        if IsReachableAlias(before, config, alias) || alias == host.alias {
          ReachableBefore(before, after, config, backup, created, host, alias);
        }
      }
    }
  }

  lemma FirstStep(fs: FileSystem, route: seq<Path>)
    requires IsRoute(fs, route)
    ensures |route| == 1 || fs.Includes(route[0]) != []
  {
    if |route| > 1 {
      assert route[0 + 1] in fs.Includes(route[0]);
    }
  }

  /** A configuration that did not exist has exactly the new alias afterwards. */
  lemma SearchOfNewConfig(before: FileSystem, after: FileSystem, config: Path, created: Path, host: NewSshHost,
                          visited: set<Path>, readAs: map<Path, Path>)
    requires before.Valid() && !before.Exists(config) && before.names.Opened(config) == config
    requires ValidHost(host) && ValidIdentity(host) && AddsFile(before.names, after.names, config, created)
    requires after == WithEntry(before, config, created, after.names, Terminated(EntryLines(host)))
    ensures !ReachesUnreadable(after, config)
    ensures Walk(after, config, visited, readAs) ==> AliasesOf(after, visited) == {host.alias}
  {
    AddedIsValid(before, after, config, created, after.names);
    AppendedText("", host);
    assert Lines("") == [];
    FlattenEmpty<string>();
    assert OwnAliases("") == {} && OwnIncludes("") == [];
    hide OwnIncludes, OwnAliases, Appended, Terminated, EntryLines, ValidHost, ValidIdentity, Lines;
    assert after.Canonical(config) == created && after.Aliases(created) == {host.alias};
    assert after.Includes(config) == [];
    forall p | Reaches(after, config, p) ensures p == config {
      var route :| IsRoute(after, route) && route[0] == config && route[|route| - 1] == p;
      FirstStep(after, route);
    }
    if Walk(after, config, visited, readAs) {
      forall f | f in visited ensures f == created {
        assert f in visited - {};
        assert ReachesFile(after, readAs, config, f);
        var p :| ReachesAs(after, readAs, config, p) && after.Canonical(p) == f;
        ReachesAsMeansReaches(after, readAs, config, p);
      }
      assert visited == {created};
    }
  }
}

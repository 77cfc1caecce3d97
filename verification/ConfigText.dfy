/** Reading OpenSSH configuration text: lines, directives, quoted words and aliases. */
module ConfigText {
  import opened Wrappers

  /** Unicode White_Space. */
  predicate IsWhitespace(c: char) {
    || '\t' <= c <= '\r'
    || c in {' ', '\U{85}', '\U{A0}', '\U{1680}', '\U{2028}', '\U{2029}', '\U{202F}', '\U{205F}', '\U{3000}'}
    || '\U{2000}' <= c <= '\U{200A}'
  }

  predicate IsAsciiAlphanumeric(c: char) {
    'a' <= c <= 'z' || 'A' <= c <= 'Z' || '0' <= c <= '9'
  }

  function AsciiLower(c: char): char {
    if 'A' <= c <= 'Z' then (c as int - 'A' as int + 'a' as int) as char else c
  }

  predicate SameIgnoringCase(a: string, b: string) {
    |a| == |b| && forall i | 0 <= i < |a| :: AsciiLower(a[i]) == AsciiLower(b[i])
  }

  // ---- Trimming and lines ----

  function TrimStart(s: string): string {
    if s != "" && IsWhitespace(s[0]) then TrimStart(s[1..]) else s
  }

  function TrimEnd(s: string): string {
    if s != "" && IsWhitespace(s[|s| - 1]) then TrimEnd(s[..|s| - 1]) else s
  }

  function Trim(s: string): string {
    TrimEnd(TrimStart(s))
  }

  predicate Spaces(text: string) {
    forall i | 0 <= i < |text| :: IsWhitespace(text[i])
  }

  lemma {:induction false} TrimStartOfSpaces(text: string)
    ensures TrimStart(text) == "" <==> Spaces(text)
    ensures TrimStart(text) != "" ==> !IsWhitespace(TrimStart(text)[0])
  {
    if text != "" && IsWhitespace(text[0]) {
      TrimStartOfSpaces(text[1..]);
      assert Spaces(text[1..]) ==> Spaces(text) by {
        assert forall i | 1 <= i < |text| :: text[i] == text[1..][i - 1];
      }
    }
  }

  lemma {:induction false} TrimEndKeepsFirst(text: string)
    requires text != "" && !IsWhitespace(text[0])
    ensures TrimEnd(text) != ""
    decreases |text|
  {
    if IsWhitespace(text[|text| - 1]) {
      TrimEndKeepsFirst(text[..|text| - 1]);
    }
  }

  lemma BlankIff(text: string)
    ensures Trim(text) == "" <==> Spaces(text)
  {
    TrimStartOfSpaces(text);
    if TrimStart(text) != "" {
      TrimEndKeepsFirst(TrimStart(text));
    }
  }

  function FirstNewline(s: string): (at: nat)
    ensures at <= |s| && '\n' !in s[..at] && (at < |s| ==> s[at] == '\n')
  {
    if s == "" || s[0] == '\n' then 0
    else
      var at := 1 + FirstNewline(s[1..]);
      assert s[..at] == [s[0]] + s[1..][..at - 1];
      at
  }

  function StripReturn(line: string): string {
    if line != "" && line[|line| - 1] == '\r' then line[..|line| - 1] else line
  }

  /** Lines end at a newline, with one carriage return before it dropped; a final unended line is kept as it is. */
  function Lines(text: string): (lines: seq<string>) {
    if text == "" then []
    else
      var at := FirstNewline(text);
      if at == |text| then [text] else [StripReturn(text[..at])] + Lines(text[at + 1..])
  }

  // ---- Directives ----

  predicate EndsKey(c: char) {
    IsWhitespace(c) || c == '='
  }

  function KeyLength(line: string): (n: nat)
    ensures n <= |line|
  {
    if line == "" || EndsKey(line[0]) then 0 else 1 + KeyLength(line[1..])
  }

  function SkipSeparators(s: string): string {
    if s != "" && EndsKey(s[0]) then SkipSeparators(s[1..]) else s
  }

  datatype Directive = Directive(keyword: string, value: string)

  function SplitDirective(line: string): Option<Directive> {
    var n := KeyLength(line);
    var value := SkipSeparators(line[n..]);
    if n == |line| || n == 0 || value == "" then None else Some(Directive(line[..n], value))
  }

  // ---- Words ----

  const QUOTES := {'\'', '"'}

  /** The splitter's answer from the middle of a value, with the current word and flags. */
  function SplitFrom(rest: string, word: string, quote: Option<char>, escaped: bool): seq<string>
    decreases |rest|
  {
    if rest == "" then
      var last := if escaped then word + "\\" else word;
      if last == "" then [] else [last]
    else
      var c, tail := rest[0], rest[1..];
      if escaped then SplitFrom(tail, word + [c], quote, false)
      else if c == '\\' && quote != Some('\'') then SplitFrom(tail, word, quote, true)
      else if c in QUOTES then
        if quote == Some(c) then SplitFrom(tail, word, None, false)
        else if quote == None then SplitFrom(tail, word, Some(c), false)
        else SplitFrom(tail, word + [c], quote, false)
      else if IsWhitespace(c) && quote == None then
        (if word == "" then [] else [word]) + SplitFrom(tail, "", None, false)
      else SplitFrom(tail, word + [c], quote, false)
  }

  function Words(value: string): seq<string> {
    SplitFrom(value, "", None, false)
  }

  method SplitWords(value: string) returns (words: seq<string>)
    ensures words == Words(value)
    ensures forall i | 0 <= i < |words| :: words[i] != ""
  {
    words := [];
    var word := "";
    var quote: Option<char> := None;
    var escaped := false;
    for i := 0 to |value|
      invariant words + SplitFrom(value[i..], word, quote, escaped) == Words(value)
    {
      var character := value[i];
      assert value[i..][0] == character && value[i..][1..] == value[i + 1..];
      if escaped {
        word := word + [character];
        escaped := false;
      } else if character == '\\' && quote != Some('\'') {
        escaped := true;
      } else if character in QUOTES {
        if quote == Some(character) {
          quote := None;
        } else if quote == None {
          quote := Some(character);
        } else {
          word := word + [character];
        }
      } else if IsWhitespace(character) && quote == None {
        if word != "" {
          words := words + [word];
          word := "";
        }
      } else {
        word := word + [character];
      }
    }
    if escaped {
      word := word + "\\";
    }
    if word != "" {
      words := words + [word];
    }
    WordsAreNonEmpty(value, "", None, false);
  }

  lemma {:induction false} WordsAreNonEmpty(rest: string, word: string, quote: Option<char>, escaped: bool)
    ensures "" !in SplitFrom(rest, word, quote, escaped)
    decreases |rest|
  {
    if rest != "" {
      var c, tail := rest[0], rest[1..];
      if escaped { WordsAreNonEmpty(tail, word + [c], quote, false); }
      else if c == '\\' && quote != Some('\'') { WordsAreNonEmpty(tail, word, quote, true); }
      else if c in QUOTES {
        WordsAreNonEmpty(tail, word, None, false);
        WordsAreNonEmpty(tail, word, Some(c), false);
        WordsAreNonEmpty(tail, word + [c], quote, false);
      }
      else if IsWhitespace(c) && quote == None { WordsAreNonEmpty(tail, "", None, false); }
      else { WordsAreNonEmpty(tail, word + [c], quote, false); }
    }
  }

  /** Characters that mean something to the splitter outside quotes. */
  predicate Special(c: char) {
    c == '\\' || c in QUOTES || IsWhitespace(c)
  }

  function Escape(word: string): string {
    if word == "" then ""
    else (if Special(word[0]) then ['\\', word[0]] else [word[0]]) + Escape(word[1..])
  }

  /** Each word escaped, separated by single spaces. */
  function Spell(words: seq<string>): string {
    if words == [] then ""
    else if |words| == 1 then Escape(words[0])
    else Escape(words[0]) + " " + Spell(words[1..])
  }

  lemma {:induction false} EscapedWordIsCollected(word: string, tail: string, collected: string)
    ensures SplitFrom(Escape(word) + tail, collected, None, false) == SplitFrom(tail, collected + word, None, false)
    decreases |word|
  {
    if word == "" {
      assert Escape(word) + tail == tail && collected + word == collected;
    } else {
      var c := word[0];
      var next := Escape(word[1..]) + tail;
      EscapedWordIsCollected(word[1..], tail, collected + [c]);
      assert collected + [c] + word[1..] == collected + word;
      if Special(c) {
        assert Escape(word) + tail == ['\\', c] + next;
        assert (['\\', c] + next)[1..] == [c] + next;
        assert ([c] + next)[1..] == next;
      } else {
        assert Escape(word) + tail == [c] + next;
        assert ([c] + next)[1..] == next;
      }
    }
  }

  /** Reading back a spelled list gives the same list. */
  lemma {:induction false} WordsOfSpelling(words: seq<string>)
    requires "" !in words
    ensures Words(Spell(words)) == words
  {
    if words != [] {
      var first := words[0];
      assert "" + first == first;
      if |words| == 1 {
        EscapedWordIsCollected(first, "", "");
        assert Escape(first) + "" == Escape(first);
      } else {
        var rest := words[1..];
        EscapedWordIsCollected(first, " " + Spell(rest), "");
        assert Escape(first) + (" " + Spell(rest)) == Spell(words);
        assert (" " + Spell(rest))[1..] == Spell(rest);
        WordsOfSpelling(rest);
      }
    }
  }

  /** Splitting is idempotent up to spelling: every value has an equivalent escaped form. */
  lemma EveryValueHasASpelling(value: string)
    ensures Words(Spell(Words(value))) == Words(value)
  {
    WordsAreNonEmpty(value, "", None, false);
    WordsOfSpelling(Words(value));
  }

  lemma {:induction false} PlainWordIsItsOwnSpelling(word: string)
    requires forall i | 0 <= i < |word| :: !Special(word[i])
    ensures Escape(word) == word
  {
    if word != "" {
      PlainWordIsItsOwnSpelling(word[1..]);
    }
  }

  lemma PlainWord(word: string)
    requires word != "" && forall i | 0 <= i < |word| :: !Special(word[i])
    ensures Words(word) == [word]
  {
    PlainWordIsItsOwnSpelling(word);
    WordsOfSpelling([word]);
  }

  // ---- Aliases and includes of one file ----

  predicate AliasCharacter(c: char) {
    IsAsciiAlphanumeric(c) || c in {'.', '_', '-'}
  }

  predicate ConcreteAlias(alias: string) {
    alias != "" && alias[0] != '!'
    && (forall i | 0 <= i < |alias| :: alias[i] !in {'*', '?', '[', ']'})
    && (forall i | 0 <= i < |alias| :: AliasCharacter(alias[i]))
  }

  function LineDirective(raw: string): Option<Directive> {
    var line := Trim(raw);
    if line == "" || line[0] == '#' then None else SplitDirective(line)
  }

  function Said(line: string): seq<Directive> {
    match LineDirective(line)
    case Some(d) => [d]
    case None => []
  }

  function DirectivesOf(lines: seq<string>): seq<Directive> {
    if lines == [] then [] else Said(lines[0]) + DirectivesOf(lines[1..])
  }

  /** Everything a text says, in order: each line's keyword and the rest of the line. */
  function Directives(text: string): seq<Directive> {
    DirectivesOf(Lines(text))
  }

  lemma {:induction false} DirectivesOfConcat(a: seq<string>, b: seq<string>)
    ensures DirectivesOf(a + b) == DirectivesOf(a) + DirectivesOf(b)
  {
    hide Said;
    if a == [] {
      assert a + b == b && DirectivesOf([]) + DirectivesOf(b) == DirectivesOf(b);
    } else {
      DirectivesOfConcat(a[1..], b);
      assert (a + b)[0] == a[0] && (a + b)[1..] == a[1..] + b;
      ConcatIsAssociative(Said(a[0]), DirectivesOf(a[1..]), DirectivesOf(b));
    }
  }

  lemma DirectivesOfOne(line: string)
    ensures DirectivesOf([line]) == Said(line)
  {
    hide Said;
    assert [line][1..] == [];
  }

  function LineAliases(raw: string): set<string> {
    match LineDirective(raw)
    case Some(d) =>
      if SameIgnoringCase(d.keyword, "host") then set w | w in Words(d.value) && ConcreteAlias(w) else {}
    case None => {}
  }

  function LineIncludes(raw: string): seq<string> {
    match LineDirective(raw)
    case Some(d) =>
      if !SameIgnoringCase(d.keyword, "host") && SameIgnoringCase(d.keyword, "include") then Words(d.value) else []
    case None => []
  }

  function AliasesOfLines(lines: seq<string>): set<string> {
    if lines == [] then {} else LineAliases(lines[0]) + AliasesOfLines(lines[1..])
  }

  function Flatten<T>(parts: seq<seq<T>>): seq<T> {
    if parts == [] then [] else parts[0] + Flatten(parts[1..])
  }

  lemma ConcatIsAssociative<T>(a: seq<T>, b: seq<T>, c: seq<T>)
    ensures a + (b + c) == (a + b) + c
  {
  }

  lemma {:induction false} FlattenConcat<T>(a: seq<seq<T>>, b: seq<seq<T>>)
    ensures Flatten(a + b) == Flatten(a) + Flatten(b)
  {
    hide Flatten;
    if a == [] {
      FlattenEmpty<T>();
      assert a + b == b;
      assert Flatten(a) + Flatten(b) == Flatten(b);
    } else {
      FlattenConcat(a[1..], b);
      FlattenHead(a + b);
      FlattenHead(a);
      assert (a + b)[0] == a[0] && (a + b)[1..] == a[1..] + b;
      ConcatIsAssociative(a[0], Flatten(a[1..]), Flatten(b));
    }
  }

  lemma FlattenEmpty<T>()
    ensures Flatten<T>([]) == []
  {
  }

  lemma FlattenHead<T>(parts: seq<seq<T>>)
    requires parts != []
    ensures Flatten(parts) == parts[0] + Flatten(parts[1..])
  {
  }

  function IncludesOfLines(lines: seq<string>): seq<string> {
    Flatten(seq(|lines|, i requires 0 <= i < |lines| => LineIncludes(lines[i])))
  }

  function OwnAliases(text: string): set<string> {
    AliasesOfLines(Lines(text))
  }

  function OwnIncludes(text: string): seq<string> {
    IncludesOfLines(Lines(text))
  }

  lemma {:induction false} OwnAliasesAreConcrete(lines: seq<string>, alias: string)
    requires alias in AliasesOfLines(lines)
    ensures ConcreteAlias(alias)
  {
    if alias !in LineAliases(lines[0]) {
      OwnAliasesAreConcrete(lines[1..], alias);
    }
  }

  // ---- Lines of the form `key value` ----

  lemma {:induction false} KeyLengthOf(key: string, rest: string)
    requires forall i | 0 <= i < |key| :: !EndsKey(key[i])
    requires rest != "" && EndsKey(rest[0])
    ensures KeyLength(key + rest) == |key|
  {
    if key == "" {
      assert key + rest == rest;
    } else {
      KeyLengthOf(key[1..], rest);
      assert (key + rest)[1..] == key[1..] + rest;
    }
  }

  lemma {:induction false} TrimStartSkips(indent: string, rest: string)
    requires forall i | 0 <= i < |indent| :: IsWhitespace(indent[i])
    requires rest != "" && !IsWhitespace(rest[0])
    ensures TrimStart(indent + rest) == rest
  {
    if indent == "" {
      assert indent + rest == rest;
    } else {
      TrimStartSkips(indent[1..], rest);
      assert (indent + rest)[1..] == indent[1..] + rest;
    }
  }

  predicate PlainKey(key: string) {
    key != "" && key[0] != '#' && forall i | 0 <= i < |key| :: !EndsKey(key[i])
  }

  predicate PlainValue(value: string) {
    value != "" && value[0] != '=' && forall i | 0 <= i < |value| :: !Special(value[i])
  }

  predicate Separator(s: string) {
    s != "" && forall i | 0 <= i < |s| :: EndsKey(s[i])
  }

  lemma {:induction false} SeparatorsAreSkipped(separator: string, value: string)
    requires forall i | 0 <= i < |separator| :: EndsKey(separator[i])
    requires value != "" && !EndsKey(value[0])
    ensures SkipSeparators(separator + value) == value
  {
    if separator == "" {
      assert separator + value == value;
    } else {
      SeparatorsAreSkipped(separator[1..], value);
      assert (separator + value)[1..] == separator[1..] + value;
    }
  }

  lemma {:induction false} TrimEndDrops(text: string, trail: string)
    requires text != "" && !IsWhitespace(text[|text| - 1])
    requires forall i | 0 <= i < |trail| :: IsWhitespace(trail[i])
    ensures TrimEnd(text + trail) == text
    decreases |trail|
  {
    if trail == "" {
      assert text + trail == text;
    } else {
      TrimEndDrops(text, trail[..|trail| - 1]);
      assert (text + trail)[..|text + trail| - 1] == text + trail[..|trail| - 1];
    }
  }

  /**
   A keyword, whitespace or equals signs, and a value are read as what they are, whatever whitespace is around them;
   behind a number sign nothing is read.
   */
  lemma LineReads(indent: string, key: string, separator: string, value: string, trail: string)
    requires forall i | 0 <= i < |indent| :: IsWhitespace(indent[i])
    requires forall i | 0 <= i < |trail| :: IsWhitespace(trail[i])
    requires key != "" && (forall i | 0 <= i < |key| :: !EndsKey(key[i])) && Separator(separator)
    requires value != "" && !EndsKey(value[0]) && !IsWhitespace(value[|value| - 1])
    ensures LineDirective(indent + (key + separator + value + trail))
         == if key[0] == '#' then None else Some(Directive(key, value))
  {
    var line := key + separator + value;
    var raw := indent + (line + trail);
    TrimStartSkips(indent, line + trail);
    assert line[|line| - 1] == value[|value| - 1];
    TrimEndDrops(line, trail);
    assert Trim(raw) == line;
    assert line == key + (separator + value);
    KeyLengthOf(key, separator + value);
    assert line[|key|..] == separator + value && line[..|key|] == key;
    SeparatorsAreSkipped(separator, value);
  }

  lemma PlainLine(indent: string, key: string, value: string)
    requires forall i | 0 <= i < |indent| :: IsWhitespace(indent[i])
    requires PlainKey(key) && PlainValue(value)
    ensures LineDirective(indent + key + " " + value) == Some(Directive(key, value))
    ensures Words(value) == [value]
  {
    assert !Special(value[|value| - 1]) && !EndsKey(value[0]);
    LineReads(indent, key, " ", value, "");
    assert indent + (key + " " + value + "") == indent + key + " " + value;
    PlainWord(value);
  }

  lemma SingleLine(text: string)
    requires text != "" && '\n' !in text
    ensures Lines(text) == [text]
  {
    assert forall i | 0 <= i < |text| :: text[i] != '\n';
  }

  lemma {:induction false} FirstNewlineOf(line: string, rest: string)
    requires '\n' !in line
    ensures FirstNewline(line + "\n" + rest) == |line|
  {
    var text := line + "\n" + rest;
    if line != "" {
      FirstNewlineOf(line[1..], rest);
      assert text[1..] == line[1..] + "\n" + rest;
      assert line[0] in line;
    }
  }

  lemma LinesHead(line: string, rest: string)
    requires '\n' !in line
    ensures Lines(line + "\n" + rest) == [StripReturn(line)] + Lines(rest)
  {
    FirstNewlineOf(line, rest);
    var text := line + "\n" + rest;
    assert text[..|line|] == line && text[|line| + 1..] == rest;
  }

  lemma IncludesOfOneLine(line: string)
    ensures IncludesOfLines([line]) == LineIncludes(line)
  {
    var one := [LineIncludes(line)];
    assert seq(1, k requires 0 <= k < 1 => LineIncludes([line][k])) == one;
    assert Flatten(one) == one[0] + Flatten(one[1..]) && one[1..] == [];
  }

  lemma OneLine(line: string)
    ensures AliasesOfLines([line]) == LineAliases(line)
    ensures IncludesOfLines([line]) == LineIncludes(line)
  {
    hide LineAliases, LineIncludes;
    assert [line][1..] == [];
    assert AliasesOfLines([line]) == LineAliases(line) + AliasesOfLines([]);
    IncludesOfOneLine(line);
  }

  lemma AliasIsPlain(alias: string)
    requires ConcreteAlias(alias)
    ensures PlainValue(alias)
  {
    assert AliasCharacter(alias[0]);
    assert forall i | 0 <= i < |alias| :: AliasCharacter(alias[i]);
  }

  lemma HostLine(alias: string)
    requires ConcreteAlias(alias)
    ensures LineAliases("" + "Host" + " " + alias) == {alias}
    ensures LineIncludes("" + "Host" + " " + alias) == []
  {
    AliasIsPlain(alias);
    PlainLine("", "Host", alias);
  }

  // ---- Which words an Include can have ----

  /** Inside double quotes only these two need a backslash. */
  function InQuotes(word: string): string {
    if word == "" then ""
    else (if word[0] in {'\\', '"'} then ['\\', word[0]] else [word[0]]) + InQuotes(word[1..])
  }

  /** One character inside double quotes, behind a backslash if it needs one. */
  lemma QuotedCharacter(c: char, rest: string, word: string)
    ensures c !in {'\\', '"'} ==> SplitFrom([c] + rest, word, Some('"'), false) == SplitFrom(rest, word + [c], Some('"'), false)
    ensures SplitFrom(['\\', c] + rest, word, Some('"'), false) == SplitFrom(rest, word + [c], Some('"'), false)
  {
    assert ([c] + rest)[1..] == rest;
    assert (['\\', c] + rest)[1..] == [c] + rest;
  }

  lemma {:induction false} QuotedWordIsCollected(word: string, tail: string, collected: string)
    ensures SplitFrom(InQuotes(word) + tail, collected, Some('"'), false) == SplitFrom(tail, collected + word, Some('"'), false)
    decreases |word|
  {
    hide SplitFrom;
    if word == "" {
      assert InQuotes(word) + tail == tail && collected + word == collected;
    } else {
      var c := word[0];
      var next := InQuotes(word[1..]) + tail;
      QuotedWordIsCollected(word[1..], tail, collected + [c]);
      QuotedCharacter(c, next, collected);
      assert collected + [c] + word[1..] == collected + word;
      if c in {'\\', '"'} {
        assert InQuotes(word) + tail == ['\\', c] + next;
      } else {
        assert InQuotes(word) + tail == [c] + next;
      }
    }
  }

  function Quoted(word: string): string {
    "\"" + InQuotes(word) + "\""
  }

  lemma WordsOfQuoted(word: string)
    requires word != ""
    ensures Words(Quoted(word)) == [word]
  {
    var rest := InQuotes(word) + "\"";
    assert Quoted(word) == "\"" + rest && Quoted(word)[1..] == rest;
    QuotedWordIsCollected(word, "\"", "");
    assert "" + word == word && "\""[1..] == "";
  }

  function IncludeLine(word: string): string {
    "Include" + " " + Quoted(word)
  }

  lemma IncludeLineSplits(value: string)
    requires value != "" && value[0] == '"' && value[|value| - 1] == '"'
    ensures LineDirective("Include" + " " + value) == Some(Directive("Include", value))
  {
    var line := "Include" + " " + value;
    assert line[|line| - 1] == '"' && line[0] == 'I';
    assert Trim(line) == line;
    KeyLengthOf("Include", " " + value);
    assert line == "Include" + (" " + value) && line[7..] == " " + value && line[..7] == "Include";
    assert (" " + value)[1..] == value;
    assert SkipSeparators(" " + value) == SkipSeparators(value) == value;
  }

  /** Every word without a newline can be the one word of an Include. */
  lemma IncludeLineNames(word: string)
    requires word != "" && '\n' !in word
    ensures LineIncludes(IncludeLine(word)) == [word] && LineAliases(IncludeLine(word)) == {}
  {
    IncludeLineSplits(Quoted(word));
    WordsOfQuoted(word);
    hide LineDirective, Words, Quoted;
    assert SameIgnoringCase("Include", "include") && !SameIgnoringCase("Include", "host");
  }

  lemma IncludeLineIsOne(word: string)
    requires '\n' !in word
    ensures '\n' !in IncludeLine(word) && IncludeLine(word) != ""
    ensures IncludeLine(word)[|IncludeLine(word)| - 1] != '\r'
  {
    NoNewlineInQuotes(word);
    assert IncludeLine(word)[|IncludeLine(word)| - 1] == '"';
    hide InQuotes;
  }

  lemma {:induction false} NoNewlineInQuotes(word: string)
    requires '\n' !in word
    ensures '\n' !in InQuotes(word)
  {
    if word != "" {
      assert word[0] in word && forall c | c in word[1..] :: c in word;
      NoNewlineInQuotes(word[1..]);
    }
  }

  lemma {:induction false} SplitKeepsOut(rest: string, word: string, quote: Option<char>, escaped: bool, c: char)
    requires c !in rest && c !in word && c != '\\'
    ensures forall w | w in SplitFrom(rest, word, quote, escaped) :: c !in w
    decreases |rest|
  {
    if rest != "" {
      var d, tail := rest[0], rest[1..];
      assert d in rest && forall e | e in tail :: e in rest;
      if escaped { SplitKeepsOut(tail, word + [d], quote, false, c); }
      else if d == '\\' && quote != Some('\'') { SplitKeepsOut(tail, word, quote, true, c); }
      else if d in QUOTES {
        SplitKeepsOut(tail, word, None, false, c);
        SplitKeepsOut(tail, word, Some(d), false, c);
        SplitKeepsOut(tail, word + [d], quote, false, c);
      }
      else if IsWhitespace(d) && quote == None { SplitKeepsOut(tail, "", None, false, c); }
      else { SplitKeepsOut(tail, word + [d], quote, false, c); }
    }
  }

  lemma {:induction false} TrimStartKeeps(s: string, c: char)
    requires c !in s
    ensures c !in TrimStart(s) && c !in SkipSeparators(s)
  {
    if s != "" {
      assert forall d | d in s[1..] :: d in s;
      TrimStartKeeps(s[1..], c);
    }
  }

  lemma {:induction false} TrimEndKeeps(s: string, c: char)
    requires c !in s
    ensures c !in TrimEnd(s)
    decreases |s|
  {
    if s != "" {
      assert forall d | d in s[..|s| - 1] :: d in s;
      TrimEndKeeps(s[..|s| - 1], c);
    }
  }

  lemma {:induction false} NoNewlineInLines(text: string)
    ensures forall line | line in Lines(text) :: '\n' !in line
    decreases |text|
  {
    if text != "" {
      var at := FirstNewline(text);
      if at == |text| {
        assert text[..at] == text;
      } else {
        NoNewlineInLines(text[at + 1..]);
      }
    }
  }

  lemma LineIncludesAreWords(raw: string, word: string)
    requires '\n' !in raw && word in LineIncludes(raw)
    ensures word != "" && '\n' !in word
  {
    TrimStartKeeps(raw, '\n');
    TrimEndKeeps(TrimStart(raw), '\n');
    var line := Trim(raw);
    var n := KeyLength(line);
    assert forall d | d in line[n..] :: d in line;
    TrimStartKeeps(line[n..], '\n');
    var value := SkipSeparators(line[n..]);
    SplitKeepsOut(value, "", None, false, '\n');
    WordsAreNonEmpty(value, "", None, false);
  }

  lemma {:induction false} InSomePart<T>(parts: seq<seq<T>>, x: T) returns (i: nat)
    requires x in Flatten(parts)
    ensures i < |parts| && x in parts[i]
  {
    if x in parts[0] {
      i := 0;
    } else {
      i := InSomePart(parts[1..], x);
      i := i + 1;
    }
  }

  /** ... and those are the only words the Includes of a file have. */
  lemma IncludesAreWords(text: string, word: string)
    requires word in OwnIncludes(text)
    ensures word != "" && '\n' !in word
  {
    hide LineIncludes;
    var lines := Lines(text);
    var i := InSomePart(seq(|lines|, i requires 0 <= i < |lines| => LineIncludes(lines[i])), word);
    NoNewlineInLines(text);
    LineIncludesAreWords(lines[i], word);
  }

  // ---- Every way to write a word ----

  /** A word can be written with backslashes, in double quotes, or in single quotes if it has none itself. */
  ghost predicate Writes(text: string, word: string) {
    || text == Escape(word)
    || text == "\"" + InQuotes(word) + "\""
    || ('\'' !in word && text == "'" + word + "'")
  }

  lemma {:induction false} SingleQuotedIsCollected(word: string, tail: string, collected: string)
    requires '\'' !in word
    ensures SplitFrom(word + tail, collected, Some('\''), false) == SplitFrom(tail, collected + word, Some('\''), false)
    decreases |word|
  {
    if word == "" {
      assert word + tail == tail && collected + word == collected;
    } else {
      assert word[0] in word && forall c | c in word[1..] :: c in word;
      SingleQuotedIsCollected(word[1..], tail, collected + [word[0]]);
      assert collected + [word[0]] + word[1..] == collected + word;
      assert (word + tail)[1..] == word[1..] + tail;
    }
  }

  lemma QuotesOpenAndClose(q: char, rest: string, word: string)
    requires q in QUOTES
    ensures SplitFrom([q] + rest, word, None, false) == SplitFrom(rest, word, Some(q), false)
    ensures SplitFrom([q] + rest, word, Some(q), false) == SplitFrom(rest, word, None, false)
  {
    assert ([q] + rest)[1..] == rest;
  }

  /** However it is written, the splitter collects the word itself. */
  lemma WrittenWordIsCollected(text: string, word: string, tail: string, collected: string)
    requires Writes(text, word)
    ensures SplitFrom(text + tail, collected, None, false) == SplitFrom(tail, collected + word, None, false)
  {
    hide SplitFrom;
    if text == Escape(word) {
      EscapedWordIsCollected(word, tail, collected);
    } else if text == "\"" + InQuotes(word) + "\"" {
      InsideQuotes('"', InQuotes(word), tail, collected);
      QuotedWordIsCollected(word, "\"" + tail, collected);
      QuotesOpenAndClose('"', tail, collected + word);
    } else {
      InsideQuotes('\'', word, tail, collected);
      SingleQuotedIsCollected(word, "'" + tail, collected);
      QuotesOpenAndClose('\'', tail, collected + word);
    }
  }

  lemma InsideQuotes(q: char, inner: string, tail: string, collected: string)
    requires q in QUOTES
    ensures SplitFrom([q] + inner + [q] + tail, collected, None, false) == SplitFrom(inner + ([q] + tail), collected, Some(q), false)
  {
    hide SplitFrom;
    QuotesOpenAndClose(q, inner + ([q] + tail), collected);
    assert [q] + inner + [q] + tail == [q] + (inner + ([q] + tail));
  }

  predicate Gap(s: string) {
    s != "" && forall i | 0 <= i < |s| :: IsWhitespace(s[i])
  }

  lemma {:induction false} GapsSeparate(gap: string, tail: string, word: string)
    requires Gap(gap) && word != ""
    ensures SplitFrom(gap + tail, word, None, false) == [word] + SplitFrom(tail, "", None, false)
  {
    assert (gap + tail)[1..] == gap[1..] + tail && gap[0] !in QUOTES && gap[0] != '\\';
    GapsAreSkipped(gap[1..], tail);
  }

  lemma {:induction false} GapsAreSkipped(gap: string, tail: string)
    requires forall i | 0 <= i < |gap| :: IsWhitespace(gap[i])
    ensures SplitFrom(gap + tail, "", None, false) == SplitFrom(tail, "", None, false)
  {
    if gap == "" {
      assert gap + tail == tail;
    } else {
      assert (gap + tail)[1..] == gap[1..] + tail && gap[0] !in QUOTES && gap[0] != '\\';
      GapsAreSkipped(gap[1..], tail);
    }
  }

  /** Written words, each after its gap but the first. */
  function Spread(texts: seq<string>, gaps: seq<string>): string
    requires |gaps| == |texts|
  {
    if texts == [] then ""
    else if |texts| == 1 then texts[0]
    else texts[0] + (gaps[0] + Spread(texts[1..], gaps[1..]))
  }

  /** Words come back whichever way each of them is written and whatever whitespace is between them. */
  lemma {:induction false} WordsOfAnyWriting(texts: seq<string>, gaps: seq<string>, words: seq<string>)
    requires |texts| == |gaps| == |words| && "" !in words
    requires forall i | 0 <= i < |words| :: Writes(texts[i], words[i]) && Gap(gaps[i])
    ensures Words(Spread(texts, gaps)) == words
  {
    hide SplitFrom, Writes, Gap;
    if words != [] {
      var first := words[0];
      assert first in words && "" + first == first;
      if |words| == 1 {
        WrittenWordIsCollected(texts[0], first, "", "");
        assert texts[0] + "" == texts[0];
        EndOfSplit(first);
        assert words == [first];
      } else {
        var rest := Spread(texts[1..], gaps[1..]);
        WrittenWordIsCollected(texts[0], first, gaps[0] + rest, "");
        GapsSeparate(gaps[0], rest, first);
        forall i | 0 <= i < |words[1..]| ensures Writes(texts[1..][i], words[1..][i]) && Gap(gaps[1..][i]) {
          assert Writes(texts[i + 1], words[i + 1]) && Gap(gaps[i + 1]);
        }
        WordsOfAnyWriting(texts[1..], gaps[1..], words[1..]);
        assert words == [first] + words[1..];
      }
    } else {
      EndOfSplit("");
    }
  }

  lemma EndOfSplit(word: string)
    ensures SplitFrom("", word, None, false) == if word == "" then [] else [word]
  {
  }

  /** An alias is concrete exactly if it is made of letters, digits, dots, underscores and hyphens. */
  lemma ConcreteIff(alias: string)
    ensures ConcreteAlias(alias) <==>
              && alias != ""
              && forall c | c in alias :: 'a' <= c <= 'z' || 'A' <= c <= 'Z' || '0' <= c <= '9' || c == '.' || c == '_' || c == '-'
  {
    assert (forall c | c in alias :: AliasCharacter(c)) <==> (forall i | 0 <= i < |alias| :: AliasCharacter(alias[i]));
    assert alias != "" ==> alias[0] in alias;
    assert ConcreteAlias(alias) <==> alias != "" && forall i | 0 <= i < |alias| :: AliasCharacter(alias[i]);
  }
}

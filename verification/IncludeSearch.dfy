/**
 Host discovery: a depth-first walk over Include directives with one shared set
 of visited canonical paths.

 A file can have several names (symbolic links).  Each canonical file is read
 once, under the name by which it was first reached, and relative Include
 patterns are resolved against the directory of that name.
 */
module IncludeSearch {
  import opened Wrappers
  import opened ConfigText
  import opened ConfigPaths

  /** `content` holds the text of each canonical file, or None when reading it fails. */
  datatype FileSystem = FileSystem(names: NameSpace, content: map<Path, Option<string>>)
  {
    ghost predicate Valid() {
      && names.Valid()
      && (forall p | names.resolve(p).Some? :: names.resolve(p).value in content)
      && (forall file | file in content :: names.resolve(file) == Some(file) && file.absolute)
    }

    predicate Exists(path: Path) {
      names.File(path).Some?
    }

    function Canonical(path: Path): Path {
      if names.File(path).Some? then names.File(path).value else names.Opened(path)
    }

    ghost predicate Readable(file: Path) {
      file in content && content[file].Some?
    }

    ghost function Aliases(file: Path): set<string> {
      if Readable(file) then OwnAliases(content[file].value) else {}
    }

    function Targets(path: Path, patterns: seq<string>): seq<Path> {
      if patterns == [] then [] else names.Expand(path, patterns[0]) + Targets(path, patterns[1..])
    }

    /** Paths named by the Include directives of a file opened as `path`. */
    ghost function Includes(path: Path): seq<Path> {
      if Exists(path) && Readable(Canonical(path)) then Targets(path, OwnIncludes(content[Canonical(path)].value))
      else []
    }
  }

  ghost predicate IsRoute(fs: FileSystem, route: seq<Path>) {
    && route != []
    && forall i | 0 <= i < |route| - 1 :: route[i + 1] in fs.Includes(route[i])
  }

  ghost predicate Reaches(fs: FileSystem, root: Path, path: Path) {
    exists route :: IsRoute(fs, route) && route[0] == root && route[|route| - 1] == path
  }

  lemma ReachesItself(fs: FileSystem, root: Path)
    ensures Reaches(fs, root, root)
  {
    assert IsRoute(fs, [root]);
  }

  lemma ReachesFurther(fs: FileSystem, root: Path, path: Path, next: Path)
    requires Reaches(fs, root, path) && next in fs.Includes(path)
    ensures Reaches(fs, root, next)
  {
    hide FileSystem.Includes;
    var route :| IsRoute(fs, route) && route[0] == root && route[|route| - 1] == path;
    var longer := route + [next];
    assert IsRoute(fs, longer);
  }

  lemma {:induction false} ReachesThrough(fs: FileSystem, root: Path, middle: Path, route: seq<Path>)
    requires Reaches(fs, root, middle) && IsRoute(fs, route) && route[0] == middle
    ensures Reaches(fs, root, route[|route| - 1])
    decreases |route|
  {
    if |route| > 1 {
      ReachesFurther(fs, root, middle, route[1]);
      ReachesThrough(fs, root, route[1], route[1..]);
    }
  }

  lemma ReachesTransitively(fs: FileSystem, root: Path, middle: Path, path: Path)
    requires Reaches(fs, root, middle) && Reaches(fs, middle, path)
    ensures Reaches(fs, root, path)
  {
    var route :| IsRoute(fs, route) && route[0] == middle && route[|route| - 1] == path;
    ReachesThrough(fs, root, middle, route);
  }

  ghost predicate Extends(smaller: map<Path, Path>, larger: map<Path, Path>) {
    forall file | file in smaller :: file in larger && larger[file] == smaller[file]
  }

  /** A route on which every file that is read further was opened under the name the route has for it. */
  ghost predicate IsOpenedRoute(fs: FileSystem, readAs: map<Path, Path>, route: seq<Path>) {
    && IsRoute(fs, route)
    && forall i | 0 <= i < |route| - 1 :: fs.Canonical(route[i]) in readAs && readAs[fs.Canonical(route[i])] == route[i]
  }

  ghost predicate ReachesAs(fs: FileSystem, readAs: map<Path, Path>, root: Path, path: Path) {
    exists route :: IsOpenedRoute(fs, readAs, route) && route[0] == root && route[|route| - 1] == path
  }

  lemma ReachesAsMeansReaches(fs: FileSystem, readAs: map<Path, Path>, root: Path, path: Path)
    requires ReachesAs(fs, readAs, root, path)
    ensures Reaches(fs, root, path)
  {
  }

  lemma ReachesItselfAs(fs: FileSystem, readAs: map<Path, Path>, root: Path)
    ensures ReachesAs(fs, readAs, root, root)
  {
    assert IsOpenedRoute(fs, readAs, [root]);
  }

  /** One step before an opened route, from a file opened under that name. */
  lemma ReachesAsFurther(fs: FileSystem, readAs0: map<Path, Path>, readAs: map<Path, Path>, root: Path, target: Path, path: Path)
    requires root == target || (target in fs.Includes(root) && fs.Canonical(root) in readAs && readAs[fs.Canonical(root)] == root)
    requires ReachesAs(fs, readAs0, target, path) && Extends(readAs0, readAs)
    ensures ReachesAs(fs, readAs, root, path)
  {
    hide FileSystem.Includes;
    var route :| IsOpenedRoute(fs, readAs0, route) && route[0] == target && route[|route| - 1] == path;
    assert IsOpenedRoute(fs, readAs, route);
    if root != target {
      var longer := [root] + route;
      assert IsOpenedRoute(fs, readAs, longer);
      assert longer[|longer| - 1] == path;
    }
  }

  ghost function AliasesOf(fs: FileSystem, files: set<Path>): set<string> {
    set file, alias | file in files && alias in fs.Aliases(file) :: alias
  }

  ghost predicate Distinct<T>(s: seq<T>) {
    forall i, j | 0 <= i < j < |s| :: s[i] != s[j]
  }

  /** The include targets of `path` given as a list, all of them already visited. */
  ghost predicate AllVisited(fs: FileSystem, paths: seq<Path>, visited: set<Path>) {
    forall p | p in paths :: fs.Canonical(p) in visited
  }

  /** Everything visited since `before` other than `open` has been read, with all it includes visited. */
  ghost predicate Closed(fs: FileSystem, before: set<Path>, open: set<Path>, visited: set<Path>, readAs: map<Path, Path>) {
    forall file | file in visited - before - open && file in fs.content ::
      && file in readAs && fs.Exists(readAs[file]) && fs.Canonical(readAs[file]) == file
      && fs.Readable(file)
      && AllVisited(fs, fs.Includes(readAs[file]), visited)
  }

  ghost predicate ReachesFile(fs: FileSystem, readAs: map<Path, Path>, root: Path, file: Path) {
    exists p :: ReachesAs(fs, readAs, root, p) && fs.Canonical(p) == file
  }

  ghost predicate AllReached(fs: FileSystem, root: Path, before: set<Path>, visited: set<Path>, readAs: map<Path, Path>) {
    forall file | file in visited - before :: ReachesFile(fs, readAs, root, file)
  }

  ghost predicate ReachesUnreadable(fs: FileSystem, root: Path) {
    exists p :: Reaches(fs, root, p) && fs.Exists(p) && !fs.Readable(fs.Canonical(p))
  }

  lemma {:induction false} AliasesOfLinesConcat(a: seq<string>, b: seq<string>)
    ensures AliasesOfLines(a + b) == AliasesOfLines(a) + AliasesOfLines(b)
  {
    hide LineAliases;
    if a == [] {
      assert a + b == b;
    } else {
      AliasesOfLinesConcat(a[1..], b);
      assert (a + b)[1..] == a[1..] + b;
    }
  }

  lemma IncludesOfLinesConcat(a: seq<string>, b: seq<string>)
    ensures IncludesOfLines(a + b) == IncludesOfLines(a) + IncludesOfLines(b)
  {
    var c := a + b;
    var left := seq(|a|, i requires 0 <= i < |a| => LineIncludes(a[i]));
    var right := seq(|b|, i requires 0 <= i < |b| => LineIncludes(b[i]));
    assert seq(|c|, i requires 0 <= i < |c| => LineIncludes(c[i])) == left + right;
    FlattenConcat(left, right);
  }

  lemma LinesUpTo(lines: seq<string>, i: nat)
    requires i < |lines|
    ensures AliasesOfLines(lines[..i + 1]) == AliasesOfLines(lines[..i]) + LineAliases(lines[i])
    ensures IncludesOfLines(lines[..i + 1]) == IncludesOfLines(lines[..i]) + LineIncludes(lines[i])
  {
    assert lines[..i + 1] == lines[..i] + [lines[i]];
    AliasesOfLinesConcat(lines[..i], [lines[i]]);
    IncludesOfLinesConcat(lines[..i], [lines[i]]);
    assert [lines[i]][1..] == [];
    assert AliasesOfLines([lines[i]]) == LineAliases(lines[i]) + AliasesOfLines([]);
    IncludesOfOneLine(lines[i]);
  }

  lemma {:induction false} TargetsConcat(fs: FileSystem, path: Path, a: seq<string>, b: seq<string>)
    ensures fs.Targets(path, a + b) == fs.Targets(path, a) + fs.Targets(path, b)
  {
    hide NameSpace.Expand;
    if a == [] {
      assert a + b == b;
    } else {
      TargetsConcat(fs, path, a[1..], b);
      assert (a + b)[1..] == a[1..] + b;
    }
  }

  lemma TargetsFurther(fs: FileSystem, path: Path, words: seq<string>, k: nat)
    requires k < |words|
    ensures fs.Targets(path, words[..k + 1]) == fs.Targets(path, words[..k]) + fs.names.Expand(path, words[k])
    ensures forall t | t in fs.names.Expand(path, words[k]) :: t in fs.Targets(path, words)
  {
    TargetsOfOne(fs, path, words[k]);
    TargetsConcat(fs, path, words[..k], [words[k]]);
    assert words[..k + 1] == words[..k] + [words[k]];
    TargetsConcat(fs, path, words[..k + 1], words[k + 1..]);
    assert words == words[..k + 1] + words[k + 1..];
  }

  lemma TargetsOfOne(fs: FileSystem, path: Path, pattern: string)
    ensures fs.Targets(path, [pattern]) == fs.names.Expand(path, pattern)
  {
    assert [pattern][1..] == [];
    assert fs.Targets(path, [pattern]) == fs.names.Expand(path, pattern) + fs.Targets(path, []);
  }

  lemma TargetIsIncluded(fs: FileSystem, path: Path, i: nat, target: Path)
    requires fs.Valid() && fs.Exists(path) && fs.Readable(fs.Canonical(path))
    requires i < |Lines(fs.content[fs.Canonical(path)].value)|
    requires target in fs.Targets(path, LineIncludes(Lines(fs.content[fs.Canonical(path)].value)[i]))
    ensures target in fs.Includes(path)
  {
    var lines := Lines(fs.content[fs.Canonical(path)].value);
    assert lines == lines[..i + 1] + lines[i + 1..];
    IncludesOfLinesConcat(lines[..i + 1], lines[i + 1..]);
    LinesUpTo(lines, i);
    TargetsConcat(fs, path, IncludesOfLines(lines[..i + 1]), IncludesOfLines(lines[i + 1..]));
    TargetsConcat(fs, path, IncludesOfLines(lines[..i]), LineIncludes(lines[i]));
  }

  lemma AllTargetsIncluded(fs: FileSystem, path: Path, i: nat)
    requires fs.Valid() && fs.Exists(path) && fs.Readable(fs.Canonical(path))
    requires i < |Lines(fs.content[fs.Canonical(path)].value)|
    ensures forall target | target in fs.Targets(path, LineIncludes(Lines(fs.content[fs.Canonical(path)].value)[i])) ::
      target in fs.Includes(path)
  {
    forall target | target in fs.Targets(path, LineIncludes(Lines(fs.content[fs.Canonical(path)].value)[i]))
      ensures target in fs.Includes(path)
    {
      TargetIsIncluded(fs, path, i, target);
    }
  }

  lemma UnreadableFurther(fs: FileSystem, root: Path, target: Path)
    requires target in fs.Includes(root)
    requires ReachesUnreadable(fs, target)
    ensures ReachesUnreadable(fs, root)
  {
    var p :| Reaches(fs, target, p) && fs.Exists(p) && !fs.Readable(fs.Canonical(p));
    ReachesItself(fs, root);
    ReachesFurther(fs, root, root, target);
    ReachesTransitively(fs, root, target, p);
  }

  lemma ReachedFurther(fs: FileSystem, root: Path, target: Path, before: set<Path>, middle: set<Path>, readAs0: map<Path, Path>,
                       visited: set<Path>, readAs: map<Path, Path>)
    requires root == target || (target in fs.Includes(root) && fs.Canonical(root) in readAs && readAs[fs.Canonical(root)] == root)
    requires AllReached(fs, root, before, middle, readAs0) && AllReached(fs, target, middle, visited, readAs)
    requires Extends(readAs0, readAs)
    ensures AllReached(fs, root, before, visited, readAs)
  {
    hide OwnIncludes, OwnAliases;
    forall file | file in visited - before
      ensures ReachesFile(fs, readAs, root, file)
    {
      if file in middle {
        assert file in middle - before;
        var p :| ReachesAs(fs, readAs0, root, p) && fs.Canonical(p) == file;
        ReachesAsFurther(fs, readAs0, readAs, root, root, p);
      } else {
        assert file in visited - middle;
        var p :| ReachesAs(fs, readAs, target, p) && fs.Canonical(p) == file;
        ReachesAsFurther(fs, readAs, readAs, root, target, p);
      }
    }
  }

  lemma ClosedFurther(fs: FileSystem, before: set<Path>, open: set<Path>,
                      middle: set<Path>, readAs0: map<Path, Path>, visited: set<Path>, readAs: map<Path, Path>)
    requires before + open <= middle <= visited
    requires Closed(fs, before, open, middle, readAs0) && Closed(fs, middle, {}, visited, readAs)
    requires Extends(readAs0, readAs)
    ensures Closed(fs, before, open, visited, readAs)
  {
    forall file | file in visited - before - open && file in fs.content
      ensures file in readAs && fs.Exists(readAs[file]) && fs.Canonical(readAs[file]) == file
      ensures fs.Readable(file) && AllVisited(fs, fs.Includes(readAs[file]), visited)
    {
      if file in middle {
        assert file in middle - before - open;
      } else {
        assert file in visited - middle - {};
      }
    }
  }

  lemma AliasesSplit(fs: FileSystem, a: set<Path>, b: set<Path>)
    ensures AliasesOf(fs, a + b) == AliasesOf(fs, a) + AliasesOf(fs, b)
  {
  }

  lemma AliasesWithOwn(fs: FileSystem, before: set<Path>, file: Path, visited: set<Path>)
    requires file in visited - before && fs.Readable(file)
    ensures AliasesOf(fs, visited - before)
         == AliasesOf(fs, visited - before - {file}) + OwnAliases(fs.content[file].value)
  {
    AliasesSplit(fs, visited - before - {file}, {file});
    assert visited - before == (visited - before - {file}) + {file};
    assert AliasesOf(fs, {file}) == fs.Aliases(file);
  }

  lemma ClosedWithOwn(fs: FileSystem, before: set<Path>, file: Path, visited: set<Path>, readAs: map<Path, Path>)
    requires Closed(fs, before, {file}, visited, readAs)
    requires file in readAs && fs.Exists(readAs[file]) && fs.Canonical(readAs[file]) == file && fs.Readable(file)
    requires AllVisited(fs, fs.Includes(readAs[file]), visited)
    ensures Closed(fs, before, {}, visited, readAs)
  {
    forall other | other in visited - before - {} && other in fs.content && other != file
      ensures other in visited - before - {file}
    {
    }
  }

  /**
   What a stretch of the walk adds: the files visited since `before` are reached
   from `root`; all of them but `open` are closed and contribute their aliases.
   */
  ghost predicate Grown(fs: FileSystem, root: Path, before: set<Path>, open: set<Path>,
                        readAs0: map<Path, Path>, aliases0: set<string>,
                        visited: set<Path>, readAs: map<Path, Path>, aliases: set<string>) {
    && before + open <= visited
    && Extends(readAs0, readAs)
    && AllReached(fs, root, before, visited, readAs)
    && Closed(fs, before, open, visited, readAs)
    && aliases == aliases0 + AliasesOf(fs, visited - before - open)
  }

  lemma GrownNothing(fs: FileSystem, root: Path, visited: set<Path>, readAs: map<Path, Path>, aliases: set<string>)
    ensures Grown(fs, root, visited, {}, readAs, aliases, visited, readAs, aliases)
  {
    assert AliasesOf(fs, visited - visited - {}) == {};
  }

  lemma GrownOwn(fs: FileSystem, root: Path, visited: set<Path>, readAs: map<Path, Path>, aliases: set<string>)
    requires fs.Canonical(root) !in readAs
    ensures Grown(fs, root, visited, {fs.Canonical(root)}, readAs, aliases,
                  visited + {fs.Canonical(root)}, readAs[fs.Canonical(root) := root], aliases)
  {
    ReachesItselfAs(fs, readAs[fs.Canonical(root) := root], root);
    assert visited + {fs.Canonical(root)} - visited - {fs.Canonical(root)} == {};
    assert AliasesOf(fs, {}) == {};
  }

  lemma GrownFurther(fs: FileSystem, root: Path, target: Path, before: set<Path>, open: set<Path>,
                     readAs0: map<Path, Path>, aliases0: set<string>,
                     visited1: set<Path>, readAs1: map<Path, Path>, aliases1: set<string>,
                     visited: set<Path>, readAs: map<Path, Path>, aliases: set<string>)
    requires root == target || (target in fs.Includes(root) && fs.Canonical(root) in readAs && readAs[fs.Canonical(root)] == root)
    requires Grown(fs, root, before, open, readAs0, aliases0, visited1, readAs1, aliases1)
    requires Grown(fs, target, visited1, {}, readAs1, aliases1, visited, readAs, aliases)
    ensures Grown(fs, root, before, open, readAs0, aliases0, visited, readAs, aliases)
  {
    ReachedFurther(fs, root, target, before, visited1, readAs1, visited, readAs);
    ClosedFurther(fs, before, open, visited1, readAs1, visited, readAs);
    AliasesSplit(fs, visited1 - before - open, visited - visited1);
    assert visited - before - open == (visited1 - before - open) + (visited - visited1);
    assert visited - visited1 - {} == visited - visited1;
  }

  lemma GrownClose(fs: FileSystem, root: Path, before: set<Path>, readAs0: map<Path, Path>, aliases0: set<string>,
                   visited: set<Path>, readAs: map<Path, Path>, aliases: set<string>)
    requires fs.Valid() && fs.Exists(root) && fs.Readable(fs.Canonical(root))
    requires Grown(fs, root, before, {fs.Canonical(root)}, readAs0, aliases0 + fs.Aliases(fs.Canonical(root)), visited, readAs, aliases)
    requires fs.Canonical(root) in readAs && readAs[fs.Canonical(root)] == root
    requires fs.Canonical(root) !in before && AllVisited(fs, fs.Includes(root), visited)
    ensures Grown(fs, root, before, {}, readAs0, aliases0, visited, readAs, aliases)
  {
    ClosedWithOwn(fs, before, fs.Canonical(root), visited, readAs);
    AliasesWithOwn(fs, before, fs.Canonical(root), visited);
    assert visited - before - {} == visited - before;
  }

  lemma AllVisitedFurther(fs: FileSystem, paths: seq<Path>, j: nat, before: set<Path>, visited: set<Path>)
    requires j < |paths| && before <= visited
    requires AllVisited(fs, paths[..j], before) && fs.Canonical(paths[j]) in visited
    ensures AllVisited(fs, paths[..j + 1], visited)
  {
    assert paths[..j + 1] == paths[..j] + [paths[j]];
  }

  /** One more line of a file: its own aliases, then whatever its includes add. */
  lemma LineFurther(fs: FileSystem, path: Path, i: nat, before: set<Path>,
                    readAs0: map<Path, Path>, aliases0: set<string>,
                    visited1: set<Path>, readAs1: map<Path, Path>, aliases1: set<string>,
                    visited: set<Path>, readAs: map<Path, Path>, aliases: set<string>)
    requires fs.Valid() && fs.Exists(path) && fs.Readable(fs.Canonical(path))
    requires i < |Lines(fs.content[fs.Canonical(path)].value)|
    requires var lines := Lines(fs.content[fs.Canonical(path)].value);
      && Grown(fs, path, before, {fs.Canonical(path)}, readAs0, aliases0 + AliasesOfLines(lines[..i]), visited1, readAs1, aliases1)
      && AllVisited(fs, fs.Targets(path, IncludesOfLines(lines[..i])), visited1)
      && Grown(fs, path, visited1, {}, readAs1, aliases1 + LineAliases(lines[i]), visited, readAs, aliases)
      && AllVisited(fs, fs.Targets(path, LineIncludes(lines[i])), visited)
    ensures var lines := Lines(fs.content[fs.Canonical(path)].value);
      && Grown(fs, path, before, {fs.Canonical(path)}, readAs0, aliases0 + AliasesOfLines(lines[..i + 1]), visited, readAs, aliases)
      && AllVisited(fs, fs.Targets(path, IncludesOfLines(lines[..i + 1])), visited)
  {
    hide LineAliases, LineIncludes, Lines;
    var lines := Lines(fs.content[fs.Canonical(path)].value);
    var open, own := {fs.Canonical(path)}, aliases0 + AliasesOfLines(lines[..i]);
    LinesUpTo(lines, i);
    assert own + LineAliases(lines[i]) == aliases0 + AliasesOfLines(lines[..i + 1]);
    GrownExtra(fs, path, before, open, readAs0, own, visited1, readAs1, aliases1, LineAliases(lines[i]));
    GrownFurther(fs, path, path, before, open, readAs0, own + LineAliases(lines[i]),
                 visited1, readAs1, aliases1 + LineAliases(lines[i]), visited, readAs, aliases);
    TargetsConcat(fs, path, IncludesOfLines(lines[..i]), LineIncludes(lines[i]));
  }

  lemma GrownExtra(fs: FileSystem, root: Path, before: set<Path>, open: set<Path>, readAs0: map<Path, Path>, aliases0: set<string>,
                   visited: set<Path>, readAs: map<Path, Path>, aliases: set<string>, extra: set<string>)
    requires Grown(fs, root, before, open, readAs0, aliases0, visited, readAs, aliases)
    ensures Grown(fs, root, before, open, readAs0, aliases0 + extra, visited, readAs, aliases + extra)
  {
  }

  class Discovery {
    const fs: FileSystem
    var visited: set<Path>
    var aliases: set<string>
    /** Canonical files in the order they were opened. */
    var opens: seq<Path>
    /** The name each opened file was reached by. */
    ghost var readAs: map<Path, Path>

    constructor (fs: FileSystem)
      ensures this.fs == fs && visited == {} && aliases == {} && opens == [] && readAs == map[]
    {
      this.fs := fs;
      visited, aliases, opens, readAs := {}, {}, [], map[];
    }

    ghost predicate Valid()
      reads this
    {
      && fs.Valid()
      && Distinct(opens)
      && (forall file | file in opens :: file in visited && file in fs.content)
      && (forall file :: file in readAs <==> file in opens)
    }

    method DiscoverFile(path: Path) returns (ok: bool)
      requires Valid()
      modifies this
      ensures Valid() && old(visited) <= visited && fs.Canonical(path) in visited
      ensures ok ==> Grown(fs, path, old(visited), {}, old(readAs), old(aliases), visited, readAs, aliases)
      ensures ok && fs.Canonical(path) !in old(visited) && fs.Exists(path) ==> OpenedAs(path)
      ensures !ok ==> ReachesUnreadable(fs, path)
      decreases fs.content.Keys - visited, 2
    {
      var canonical := fs.Canonical(path);
      GrownNothing(fs, path, visited, readAs, aliases);
      if canonical in visited {
        return true;
      }
      GrownOwn(fs, path, visited, readAs, aliases);
      if !fs.Exists(path) {
        visited := visited + {canonical};
        MissingFile(path);
        return true;
      }
      ok := ReadFile(path);
    }

    lemma MissingFile(path: Path)
      requires fs.Valid() && !fs.Exists(path)
      ensures fs.Canonical(path) !in fs.content
      ensures forall before: set<Path>, known: map<Path, Path>, found: set<string> | fs.Canonical(path) !in before ::
        Grown(fs, path, before, {}, known, found, before + {fs.Canonical(path)}, known, found)
    {
      forall known: map<Path, Path> ensures ReachesAs(fs, known, path, path) {
        ReachesItselfAs(fs, known, path);
      }
      var missing := fs.Canonical(path);
      forall before: set<Path>, known: map<Path, Path>, found: set<string> | missing !in before
        ensures Grown(fs, path, before, {}, known, found, before + {missing}, known, found)
      {
        assert before + {missing} - before - {} == {missing};
        assert AliasesOf(fs, {missing}) == {};
      }
    }

    /** The rest of the walk from a file that has just been marked as visited. */
    method ReadFile(path: Path) returns (ok: bool)
      requires Valid() && fs.Exists(path) && fs.Canonical(path) !in visited
      modifies this
      ensures Valid() && old(visited) <= visited && fs.Canonical(path) in visited
      ensures ok ==> Grown(fs, path, old(visited), {}, old(readAs), old(aliases), visited, readAs, aliases) && OpenedAs(path)
      ensures !ok ==> ReachesUnreadable(fs, path)
      decreases fs.content.Keys - visited, 1
    {
      hide LineAliases, LineIncludes, Lines;
      ghost var before, readAs0, aliases0 := visited, readAs, aliases;
      var canonical := fs.Canonical(path);
      GrownOwn(fs, path, visited, readAs, aliases);
      visited, opens, readAs := visited + {canonical}, opens + [canonical], readAs[canonical := path];
      var text := fs.content[canonical];
      if text.None? {
        ReachesItself(fs, path);
        return false;
      }
      var lines := Lines(text.value);
      for i := 0 to |lines|
        invariant Valid() && OpenedAs(path)
        invariant Grown(fs, path, before, {canonical}, readAs0, aliases0 + AliasesOfLines(lines[..i]), visited, readAs, aliases)
        invariant AllVisited(fs, fs.Targets(path, IncludesOfLines(lines[..i])), visited)
      {
        ghost var visited1, readAs1, aliases1 := visited, readAs, aliases;
        var done := ReadLine(path, lines, i);
        if !done {
          return false;
        }
        LineFurther(fs, path, i, before, readAs0, aliases0, visited1, readAs1, aliases1, visited, readAs, aliases);
      }
      assert lines[..|lines|] == lines;
      GrownClose(fs, path, before, readAs0, aliases0, visited, readAs, aliases);
      return true;
    }

    /** The file of `path` was opened under this name. */
    ghost predicate OpenedAs(path: Path)
      reads this
    {
      fs.Exists(path) && fs.Canonical(path) in readAs && readAs[fs.Canonical(path)] == path
    }

    method ReadLine(path: Path, lines: seq<string>, i: nat) returns (ok: bool)
      requires Valid() && OpenedAs(path) && fs.Readable(fs.Canonical(path)) && fs.Canonical(path) in visited
      requires lines == Lines(fs.content[fs.Canonical(path)].value) && i < |lines|
      modifies this
      ensures Valid() && old(visited) <= visited
      ensures ok ==> AllVisited(fs, fs.Targets(path, LineIncludes(lines[i])), visited)
      ensures ok ==> Grown(fs, path, old(visited), {}, old(readAs), old(aliases) + LineAliases(lines[i]), visited, readAs, aliases)
      ensures !ok ==> ReachesUnreadable(fs, path)
      decreases fs.content.Keys - visited, 5
    {
      hide LineAliases, LineIncludes, Lines, NameSpace.Expand, Closed, AllReached, AliasesOf;
      AllTargetsIncluded(fs, path, i);
      aliases := aliases + LineAliases(lines[i]);
      var words := LineIncludes(lines[i]);
      ghost var before, readAs0, aliases0 := visited, readAs, aliases;
      GrownNothing(fs, path, visited, readAs, aliases);
      for k := 0 to |words|
        invariant Valid() && before <= visited && OpenedAs(path)
        invariant AllVisited(fs, fs.Targets(path, words[..k]), visited)
        invariant Grown(fs, path, before, {}, readAs0, aliases0, visited, readAs, aliases)
      {
        ghost var visited1, readAs1, aliases1 := visited, readAs, aliases;
        var targets := ExpandInclude(fs.names, path, words[k]);
        TargetsFurther(fs, path, words, k);
        var done := DiscoverTargets(path, targets);
        if !done {
          return false;
        }
        GrownFurther(fs, path, path, before, {}, readAs0, aliases0, visited1, readAs1, aliases1, visited, readAs, aliases);
      }
      assert words[..|words|] == words;
      return true;
    }

    method DiscoverTarget(path: Path, target: Path) returns (ok: bool)
      requires Valid() && OpenedAs(path) && target in fs.Includes(path)
      modifies this
      ensures Valid() && old(visited) <= visited && fs.Canonical(target) in visited
      ensures ok ==> Grown(fs, path, old(visited), {}, old(readAs), old(aliases), visited, readAs, aliases)
      ensures !ok ==> ReachesUnreadable(fs, path)
      decreases fs.content.Keys - visited, 3
    {
      hide LineAliases, LineIncludes, Lines;
      GrownNothing(fs, path, visited, readAs, aliases);
      ok := DiscoverFile(target);
      if !ok {
        UnreadableFurther(fs, path, target);
      } else {
        GrownFurther(fs, path, target, old(visited), {}, old(readAs), old(aliases), old(visited), old(readAs), old(aliases),
                     visited, readAs, aliases);
      }
    }

    /** The inner loop over the paths one pattern stands for. */
    method DiscoverTargets(path: Path, targets: seq<Path>) returns (ok: bool)
      requires Valid() && OpenedAs(path)
      requires forall target | target in targets :: target in fs.Includes(path)
      modifies this
      ensures Valid() && old(visited) <= visited
      ensures ok ==> AllVisited(fs, targets, visited)
      ensures ok ==> Grown(fs, path, old(visited), {}, old(readAs), old(aliases), visited, readAs, aliases)
      ensures !ok ==> ReachesUnreadable(fs, path)
      decreases fs.content.Keys - visited, 4
    {
      hide LineAliases, LineIncludes, Lines;
      ghost var before, readAs0, aliases0 := visited, readAs, aliases;
      GrownNothing(fs, path, visited, readAs, aliases);
      for j := 0 to |targets|
        invariant Valid() && before <= visited && OpenedAs(path)
        invariant AllVisited(fs, targets[..j], visited)
        invariant Grown(fs, path, before, {}, readAs0, aliases0, visited, readAs, aliases)
      {
        ghost var visited1, readAs1, aliases1 := visited, readAs, aliases;
        var done := DiscoverTarget(path, targets[j]);
        if !done {
          return false;
        }
        GrownFurther(fs, path, path, before, {}, readAs0, aliases0, visited1, readAs1, aliases1, visited, readAs, aliases);
        AllVisitedFurther(fs, targets, j, visited1, visited);
      }
      assert targets[..|targets|] == targets;
      return true;
    }
  }

  // ---- What a whole walk finds ----

  /**
   The outcome of a successful walk: the root was opened under its own name, every file visited was reached over names
   under which files were opened, and everything they include was visited.
   */
  ghost predicate Walk(fs: FileSystem, root: Path, visited: set<Path>, readAs: map<Path, Path>) {
    && fs.Canonical(root) in visited
    && (fs.Exists(root) ==> fs.Canonical(root) in readAs && readAs[fs.Canonical(root)] == root)
    && Closed(fs, {}, {}, visited, readAs)
    && AllReached(fs, root, {}, visited, readAs)
  }

  ghost predicate Complete(fs: FileSystem, root: Path, visited: set<Path>) {
    forall p | Reaches(fs, root, p) && fs.Exists(p) :: fs.Canonical(p) in visited
  }

  /** The other files that the Includes of a file lead to when it is opened as `path`. */
  ghost function IncludedFiles(fs: FileSystem, path: Path): set<Path> {
    set target | target in fs.Includes(path) && fs.Exists(target) && fs.Canonical(target) != fs.Canonical(path) ::
      fs.Canonical(target)
  }

  /** Opening a file under either of two names leads to the same other files. */
  ghost predicate NamesAgree(fs: FileSystem) {
    forall p, q | fs.Exists(p) && fs.Exists(q) && fs.Canonical(p) == fs.Canonical(q) ::
      IncludedFiles(fs, p) == IncludedFiles(fs, q)
  }

  ghost predicate IsReachableAlias(fs: FileSystem, root: Path, alias: string) {
    exists p :: Reaches(fs, root, p) && alias in fs.Aliases(fs.Canonical(p))
  }

  lemma {:induction false} RouteStaysVisited(fs: FileSystem, root: Path, visited: set<Path>, readAs: map<Path, Path>, route: seq<Path>)
    requires fs.Valid() && NamesAgree(fs) && Walk(fs, root, visited, readAs)
    requires IsRoute(fs, route) && fs.Canonical(route[0]) in visited && fs.Exists(route[|route| - 1])
    ensures fs.Canonical(route[|route| - 1]) in visited
    decreases |route|
  {
    hide OwnIncludes, OwnAliases;
    if |route| > 1 {
      assert route[0 + 1] in fs.Includes(route[0]);
      assert |route| > 2 ==> route[1 + 1] in fs.Includes(route[1]);
      IncludeStaysVisited(fs, root, visited, readAs, route[0], route[1]);
      RouteStaysVisited(fs, root, visited, readAs, route[1..]);
    }
  }

  lemma IncludeStaysVisited(fs: FileSystem, root: Path, visited: set<Path>, readAs: map<Path, Path>, path: Path, target: Path)
    requires fs.Valid() && NamesAgree(fs) && Walk(fs, root, visited, readAs)
    requires fs.Canonical(path) in visited && target in fs.Includes(path) && fs.Exists(target)
    ensures fs.Canonical(target) in visited
  {
    hide OwnIncludes, OwnAliases;
    var file := fs.Canonical(path);
    assert file in visited - {} - {} && file in fs.content;
    if fs.Canonical(target) != file {
      assert fs.Canonical(target) in IncludedFiles(fs, path);
      assert IncludedFiles(fs, path) == IncludedFiles(fs, readAs[file]);
    }
  }

  lemma WalkIsComplete(fs: FileSystem, root: Path, visited: set<Path>, readAs: map<Path, Path>)
    requires fs.Valid() && NamesAgree(fs) && Walk(fs, root, visited, readAs)
    ensures Complete(fs, root, visited)
    ensures !ReachesUnreadable(fs, root)
    ensures forall alias :: alias in AliasesOf(fs, visited) <==> IsReachableAlias(fs, root, alias)
  {
    hide OwnIncludes, OwnAliases;
    forall p | Reaches(fs, root, p) && fs.Exists(p) ensures fs.Canonical(p) in visited {
      var route :| IsRoute(fs, route) && route[0] == root && route[|route| - 1] == p;
      RouteStaysVisited(fs, root, visited, readAs, route);
    }
    forall p | Reaches(fs, root, p) && fs.Exists(p) ensures fs.Readable(fs.Canonical(p)) {
      assert fs.Canonical(p) in visited - {} - {};
    }
    forall alias | alias in AliasesOf(fs, visited) ensures IsReachableAlias(fs, root, alias) {
      var file :| file in visited && alias in fs.Aliases(file);
      assert file in visited - {};
      assert ReachesFile(fs, readAs, root, file);
      var p :| ReachesAs(fs, readAs, root, p) && fs.Canonical(p) == file;
      ReachesAsMeansReaches(fs, readAs, root, p);
    }
    forall alias | IsReachableAlias(fs, root, alias) ensures alias in AliasesOf(fs, visited) {
      var p :| Reaches(fs, root, p) && alias in fs.Aliases(fs.Canonical(p));
      CanonicalExists(fs, p);
    }
  }

  lemma CanonicalExists(fs: FileSystem, p: Path)
    requires fs.Valid() && fs.Readable(fs.Canonical(p))
    ensures fs.Exists(p)
  {
  }

  /** The whole search.  The last two clauses need that no second name of a file includes other files than its first. */
  method DiscoverHosts(fs: FileSystem, config: Path)
    returns (ok: bool, found: set<string>, ghost visited: set<Path>, ghost readAs: map<Path, Path>)
    requires fs.Valid()
    ensures ok ==> Walk(fs, config, visited, readAs) && found == AliasesOf(fs, visited)
    ensures !ok ==> ReachesUnreadable(fs, config) && found == {}
    ensures NamesAgree(fs) ==> (ok <==> !ReachesUnreadable(fs, config))
    ensures NamesAgree(fs) && ok ==> forall alias :: alias in found <==> IsReachableAlias(fs, config, alias)
  {
    hide OwnIncludes, OwnAliases;
    var discovery := new Discovery(fs);
    ok := discovery.DiscoverFile(config);
    visited, readAs := discovery.visited, discovery.readAs;
    found := if ok then discovery.aliases else {};
    if ok {
      assert visited - {} - {} == visited && visited - {} == visited;
      WalkOfGrown(fs, config, visited, readAs, discovery.aliases);
      if NamesAgree(fs) {
        WalkIsComplete(fs, config, visited, readAs);
      }
    }
  }

  lemma WalkOfGrown(fs: FileSystem, root: Path, visited: set<Path>, readAs: map<Path, Path>, aliases: set<string>)
    requires Grown(fs, root, {}, {}, map[], {}, visited, readAs, aliases) && fs.Canonical(root) in visited
    requires fs.Exists(root) ==> fs.Canonical(root) in readAs && readAs[fs.Canonical(root)] == root
    ensures Walk(fs, root, visited, readAs)
  {
  }

  // ---- When a second name of a file can hide other files ----

  /** The files there are, with any text at all. */
  ghost predicate IsFileSystem(names: NameSpace, files: set<Path>, fs: FileSystem) {
    fs.names == names && fs.content.Keys == files && fs.Valid()
  }

  /** Whatever the files say and wherever it starts, the search finds every file that is reachable. */
  ghost predicate AlwaysComplete(names: NameSpace, files: set<Path>) {
    forall content: map<Path, Option<string>>, root, visited, readAs |
      IsFileSystem(names, files, FileSystem(names, content)) && Walk(FileSystem(names, content), root, visited, readAs) ::
      Complete(FileSystem(names, content), root, visited)
  }

  /** Words an Include can have. */
  predicate Writable(word: string) {
    word != "" && '\n' !in word
  }

  /** The directories of two paths of one file list and resolve every pattern to the same other files. */
  ghost predicate ParentsAgree(names: NameSpace) {
    forall p, q, word | names.resolve(p).Some? && names.resolve(p) == names.resolve(q) && Writable(word) ::
      names.FilesAt(p.Parent(), word) - {names.resolve(p).value} == names.FilesAt(q.Parent(), word) - {names.resolve(p).value}
  }

  /** Every path that leads to a file can be written in a configuration file. */
  ghost predicate AllNameable(names: NameSpace) {
    forall p | names.resolve(p).Some? :: Nameable(p)
  }

  lemma {:induction false} TargetOfSomeWord(fs: FileSystem, path: Path, words: seq<string>, target: Path) returns (word: string)
    requires target in fs.Targets(path, words)
    ensures word in words && target in fs.names.Expand(path, word)
  {
    hide NameSpace.Expand;
    if target in fs.names.Expand(path, words[0]) {
      word := words[0];
    } else {
      word := TargetOfSomeWord(fs, path, words[1..], target);
    }
  }

  lemma {:induction false} WordIsExpanded(fs: FileSystem, path: Path, words: seq<string>, word: string)
    requires word in words
    ensures forall target | target in fs.names.Expand(path, word) :: target in fs.Targets(path, words)
  {
    hide NameSpace.Expand;
    if word != words[0] {
      WordIsExpanded(fs, path, words[1..], word);
    }
  }

  lemma IncludedFileIsListed(fs: FileSystem, p: Path, target: Path) returns (word: string)
    requires fs.Valid() && fs.Exists(p) && target in IncludedFiles(fs, p)
    ensures fs.Readable(fs.Canonical(p)) && word in OwnIncludes(fs.content[fs.Canonical(p)].value)
    ensures Writable(word) && target in fs.names.FilesAt(fs.names.Opened(p).Parent(), word)
  {
    var t :| t in fs.Includes(p) && fs.Exists(t) && fs.Canonical(t) == target;
    word := TargetOfSomeWord(fs, p, OwnIncludes(fs.content[fs.Canonical(p)].value), t);
    IncludesAreWords(fs.content[fs.Canonical(p)].value, word);
    hide OwnIncludes, NameSpace.ExpandAt, NameSpace.Opened;
    assert t in fs.names.ExpandAt(fs.names.Opened(p).Parent(), word);
  }

  lemma ListedFileIsIncluded(fs: FileSystem, q: Path, word: string, target: Path)
    requires fs.Valid() && fs.Exists(q) && fs.Readable(fs.Canonical(q)) && target != fs.Canonical(q)
    requires word in OwnIncludes(fs.content[fs.Canonical(q)].value)
    requires target in fs.names.FilesAt(fs.names.Opened(q).Parent(), word)
    ensures target in IncludedFiles(fs, q)
  {
    hide OwnIncludes, NameSpace.ExpandAt, NameSpace.Opened;
    var t :| t in fs.names.ExpandAt(fs.names.Opened(q).Parent(), word) && fs.names.File(t) == Some(target);
    WordIsExpanded(fs, q, OwnIncludes(fs.content[fs.Canonical(q)].value), word);
    assert t in fs.names.Expand(q, word);
  }

  lemma OtherNameIncludes(fs: FileSystem, p: Path, q: Path, target: Path)
    requires fs.Valid() && ParentsAgree(fs.names)
    requires fs.Exists(p) && fs.Exists(q) && fs.Canonical(p) == fs.Canonical(q) && target in IncludedFiles(fs, p)
    ensures target in IncludedFiles(fs, q)
  {
    var names, file := fs.names, fs.Canonical(p);
    var word := IncludedFileIsListed(fs, p, target);
    var there, here := names.Opened(p), names.Opened(q);
    assert names.resolve(there) == names.resolve(here) == Some(file) && target != file;
    hide OwnIncludes, NameSpace.FilesAt, NameSpace.Opened;
    assert names.FilesAt(there.Parent(), word) - {file} == names.FilesAt(here.Parent(), word) - {file};
    assert target in names.FilesAt(there.Parent(), word) - {file};
    ListedFileIsIncluded(fs, q, word, target);
  }

  /** Where the directories agree, names agree whatever the files say. */
  lemma AgreeingParentsAgree(fs: FileSystem)
    requires fs.Valid() && ParentsAgree(fs.names)
    ensures NamesAgree(fs)
  {
    forall p, q | fs.Exists(p) && fs.Exists(q) && fs.Canonical(p) == fs.Canonical(q)
      ensures IncludedFiles(fs, p) == IncludedFiles(fs, q)
    {
      forall target ensures target in IncludedFiles(fs, p) <==> target in IncludedFiles(fs, q) {
        if target in IncludedFiles(fs, p) { OtherNameIncludes(fs, p, q, target); }
        if target in IncludedFiles(fs, q) { OtherNameIncludes(fs, q, p, target); }
      }
    }
  }

  /** All names of a file in one directory, as for a link beside its file, are enough. */
  lemma OneDirectoryAgrees(names: NameSpace)
    requires forall p, q | names.resolve(p).Some? && names.resolve(p) == names.resolve(q) :: p.Parent() == q.Parent()
    ensures ParentsAgree(names)
  {
    hide NameSpace.FilesAt;
  }

  // ---- Text that hides a file ----

  function TwoIncludes(first: string, second: string): string {
    IncludeLine(first) + "\n" + IncludeLine(second)
  }

  lemma TwoIncludesMean(first: string, second: string)
    requires Writable(first) && Writable(second)
    ensures OwnIncludes(TwoIncludes(first, second)) == [first, second]
    ensures OwnAliases(TwoIncludes(first, second)) == {}
  {
    hide LineIncludes, IncludeLine;
    var a, b := IncludeLine(first), IncludeLine(second);
    IncludeLineNames(first);
    IncludeLineNames(second);
    IncludeLineIsOne(first);
    IncludeLineIsOne(second);
    LinesHead(a, b);
    SingleLine(b);
    assert StripReturn(a) == a;
    assert Lines(TwoIncludes(first, second)) == [a] + [b];
    IncludesOfLinesConcat([a], [b]);
    AliasesOfLinesConcat([a], [b]);
    OneLine(a);
    OneLine(b);
    assert [first] + [second] == [first, second];
  }

  const HIDDEN := "hidden"

  function HostText(alias: string): string {
    "" + "Host" + " " + alias
  }

  lemma HostTextMeans(alias: string)
    requires ConcreteAlias(alias)
    ensures OwnAliases(HostText(alias)) == {alias} && OwnIncludes(HostText(alias)) == []
  {
    HostLine(alias);
    AliasIsPlain(alias);
    assert forall c | c in alias :: c != '\n';
    SingleLine(HostText(alias));
    hide LineAliases, LineIncludes, Lines;
    OneLine(HostText(alias));
  }

  lemma EmptyTextMeans()
    ensures OwnAliases("") == {} && OwnIncludes("") == []
  {
    assert Lines("") == [];
    FlattenEmpty<string>();
  }

  /** One file includes its other name and a pattern, one file has a host, and the others are empty. */
  ghost function HidingContent(files: set<Path>, file: Path, q: Path, word: string, target: Path): map<Path, Option<string>> {
    map f | f in files ::
      Some(if f == file then TwoIncludes(PartsText(q.parts), word) else if f == target then HostText(HIDDEN) else "")
  }

  lemma TwoTargets(fs: FileSystem, path: Path, first: string, second: string)
    ensures fs.Targets(path, [first, second]) == fs.names.Expand(path, first) + fs.names.Expand(path, second)
  {
    hide NameSpace.Expand;
    TargetsOfOne(fs, path, second);
    assert [first, second][1..] == [second];
  }

  lemma HidingTextsMean(q: Path, word: string)
    requires Writable(word) && Nameable(q)
    ensures OwnIncludes(TwoIncludes(PartsText(q.parts), word)) == [PartsText(q.parts), word]
    ensures OwnAliases(TwoIncludes(PartsText(q.parts), word)) == {}
    ensures OwnAliases(HostText(HIDDEN)) == {HIDDEN} && OwnIncludes(HostText(HIDDEN)) == []
    ensures OwnAliases("") == {} && OwnIncludes("") == []
  {
    assert ConcreteAlias(HIDDEN);
    hide OwnIncludes, OwnAliases, TwoIncludes, HostText, ConcreteAlias;
    NameableParsesBack(q);
    TwoIncludesMean(PartsText(q.parts), word);
    HostTextMeans(HIDDEN);
    EmptyTextMeans();
  }

  /** What the hiding text includes, whatever `path` stands for. */
  lemma HidingIncludes(fs: FileSystem, file: Path, q: Path, word: string, target: Path, path: Path)
    requires fs.content == HidingContent(fs.content.Keys, file, q, word, target) && fs.Valid()
    requires Writable(word) && Nameable(q) && target != file
    ensures fs.Includes(path) == if fs.names.File(path) == Some(file) then [q] + fs.names.Expand(path, word) else []
  {
    hide OwnIncludes, OwnAliases, PartsText, TwoIncludes, HostText, NameSpace.ExpandAt, NameSpace.Opened, Nameable;
    HidingTextsMean(q, word);
    NamedByItsText(fs.names, fs.names.Opened(path).Parent(), q);
    assert fs.names.Expand(path, PartsText(q.parts)) == [q];
    TwoTargets(fs, path, PartsText(q.parts), word);
  }

  lemma HidingAliases(fs: FileSystem, file: Path, q: Path, word: string, target: Path, f: Path)
    requires fs.content == HidingContent(fs.content.Keys, file, q, word, target)
    requires Writable(word) && Nameable(q) && target != file && f in fs.content
    ensures fs.Aliases(f) == if f == target then {HIDDEN} else {}
  {
    hide OwnIncludes, OwnAliases, PartsText, TwoIncludes, HostText, Nameable;
    HidingTextsMean(q, word);
  }

  /** `q` is another name of the file of `p`, and from its directory `word` leads to one file more. */
  ghost predicate Hides(names: NameSpace, p: Path, q: Path, word: string, target: Path) {
    && names.resolve(p).Some? && names.resolve(p) == names.resolve(q) && Writable(word) && Nameable(p) && Nameable(q)
    && target != names.resolve(p).value
    && target in names.FilesAt(q.Parent(), word) && target !in names.FilesAt(p.Parent(), word)
  }

  /** For instance: a file beside the second name that is not beside the first as well. */
  lemma NeighbourOfSecondNameHides(names: NameSpace, p: Path, q: Path, name: string, target: Path)
    requires names.Valid() && Nameable(p) && Nameable(q) && names.resolve(p).Some? && names.resolve(p) == names.resolve(q)
    requires PlainPart(name) && PlainName(name) && !HasWildcard(name) && name[0] != '~' && target != names.resolve(p).value
    requires names.resolve(q.Parent().Join(Path(false, [name]))) == Some(target)
    requires names.resolve(p.Parent().Join(Path(false, [name]))) != Some(target)
    ensures Hides(names, p, q, name, target)
  {
    NameIsItsPath(names, name);
    var here, there := p.Parent().Join(Path(false, [name])), q.Parent().Join(Path(false, [name]));
    NameBeside(names, p.Parent(), name);
    NameBeside(names, q.Parent(), name);
    assert names.Opened(here) == here && names.Opened(there) == there;
    assert there in names.ExpandAt(q.Parent(), name) && names.File(there) == Some(target);
  }

  lemma NameIsItsPath(names: NameSpace, name: string)
    requires PlainPart(name) && name[0] != '~'
    ensures names.WordPath(name) == Path(false, [name])
  {
    PiecesOf(name, "", "");
    assert name + "" == name && "" + name == name;
    assert name[0] in name && [name][1..] == [];
    assert Significant([name], true) == [name] + Significant([], false);
  }

  lemma NameBeside(names: NameSpace, dir: Path, name: string)
    requires PlainPart(name) && PlainName(name) && !HasWildcard(name) && name[0] != '~'
    ensures names.ExpandAt(dir, name) == [dir.Join(Path(false, [name]))]
  {
    NameIsItsPath(names, name);
  }

  lemma NameableOpens(names: NameSpace, p: Path)
    requires Nameable(p)
    ensures names.Opened(p) == p
  {
  }

  /**
   Nothing but the file of `p` and what it includes under that name is ever visited, so `target` is not: the way to
   it leads over `q`, and that file is not read a second time.
   */
  lemma {:induction false} HidingRoute(fs: FileSystem, p: Path, q: Path, word: string, target: Path, readAs: map<Path, Path>, route: seq<Path>)
    requires fs.Valid() && Hides(fs.names, p, q, word, target)
    requires fs.content == HidingContent(fs.content.Keys, fs.names.resolve(p).value, q, word, target)
    requires IsOpenedRoute(fs, readAs, route) && route[0] == p && fs.Canonical(p) in readAs && readAs[fs.Canonical(p)] == p
    ensures fs.Canonical(route[|route| - 1]) != target
    decreases |route|
  {
    hide HidingContent, NameSpace.ExpandAt, Nameable, TwoIncludes;
    var names, file := fs.names, fs.names.resolve(p).value;
    NameableOpens(names, p);
    NameableOpens(names, q);
    if |route| > 1 {
      var next := route[1];
      assert route[0 + 1] in fs.Includes(route[0]);
      HidingIncludes(fs, file, q, word, target, p);
      if |route| > 2 {
        assert route[1 + 1] in fs.Includes(next);
        HidingIncludes(fs, file, q, word, target, next);
        assert next == p;
        assert IsOpenedRoute(fs, readAs, route[1..]);
        HidingRoute(fs, p, q, word, target, readAs, route[1..]);
      } else if next != q {
        assert next in names.ExpandAt(p.Parent(), word);
        if fs.Canonical(next) == target {
          HiddenExists(fs, p, q, word, target);
          TargetIsNoOther(fs, next, target);
        }
      }
    }
  }

  /** A path that leads to no file does not stand for one. */
  lemma TargetIsNoOther(fs: FileSystem, path: Path, target: Path)
    requires fs.Valid() && target in fs.content && fs.Canonical(path) == target
    ensures fs.names.File(path) == Some(target)
  {
  }

  lemma HiddenExists(fs: FileSystem, p: Path, q: Path, word: string, target: Path)
    requires fs.Valid() && Hides(fs.names, p, q, word, target)
    ensures target in fs.content
  {
    hide NameSpace.ExpandAt, Nameable;
  }

  lemma HiddenIsReached(fs: FileSystem, p: Path, q: Path, word: string, target: Path)
    requires fs.Valid() && Hides(fs.names, p, q, word, target)
    requires fs.content == HidingContent(fs.content.Keys, fs.names.resolve(p).value, q, word, target)
    ensures exists t :: Reaches(fs, p, t) && fs.names.File(t) == Some(target)
  {
    hide HidingContent, NameSpace.ExpandAt, Nameable, TwoIncludes;
    var file := fs.names.resolve(p).value;
    NameableOpens(fs.names, p);
    NameableOpens(fs.names, q);
    HidingIncludes(fs, file, q, word, target, p);
    HidingIncludes(fs, file, q, word, target, q);
    var t :| t in fs.names.ExpandAt(q.Parent(), word) && fs.names.File(t) == Some(target);
    ReachesItself(fs, p);
    ReachesFurther(fs, p, p, q);
    ReachesFurther(fs, p, q, t);
  }

  lemma HidingIsValid(fs: FileSystem, content: map<Path, Option<string>>)
    requires fs.Valid() && content.Keys == fs.content.Keys
    ensures FileSystem(fs.names, content).Valid()
  {
  }

  /** With that text every search from `p` misses the file. */
  lemma HidingIsIncomplete(fs: FileSystem, p: Path, q: Path, word: string, target: Path, visited: set<Path>, readAs: map<Path, Path>)
    requires fs.Valid() && Hides(fs.names, p, q, word, target)
    requires fs.content == HidingContent(fs.content.Keys, fs.names.resolve(p).value, q, word, target)
    requires Walk(fs, p, visited, readAs)
    ensures target !in visited && !Complete(fs, p, visited)
  {
    hide HidingContent, NameSpace.ExpandAt, Nameable, TwoIncludes, Closed;
    NameableOpens(fs.names, p);
    HiddenIsReached(fs, p, q, word, target);
    if target in visited {
      assert target in visited - {};
      assert ReachesFile(fs, readAs, p, target);
      var t :| ReachesAs(fs, readAs, p, t) && fs.Canonical(t) == target;
      var route :| IsOpenedRoute(fs, readAs, route) && route[0] == p && route[|route| - 1] == t;
      HidingRoute(fs, p, q, word, target, readAs, route);
    }
  }

  /**
   Text with which a second name of a file makes the search miss a host: whenever `q` is another name of the file of
   `p` and a pattern leads to one file more from its directory, the search from `p` does not find what it reaches.
   */
  method SecondNameHidesHost(names: NameSpace, files: set<Path>, p: Path, q: Path, word: string, target: Path)
    returns (fs: FileSystem, ok: bool, found: set<string>)
    requires FileSystem(names, map f | f in files :: Some("")).Valid()
    requires Hides(names, p, q, word, target)
    ensures fs.Valid() && fs.names == names && fs.content.Keys == files
    ensures ok && IsReachableAlias(fs, p, HIDDEN) && found == {}
  {
    hide OwnIncludes, OwnAliases, PartsText, TwoIncludes, HostText, Nameable, NameSpace.ExpandAt, Walk;
    var file := names.resolve(p).value;
    var content: map<Path, Option<string>> := map f | f in files ::
      Some(if f == file then TwoIncludes(PartsText(q.parts), word) else if f == target then HostText(HIDDEN) else "");
    fs := FileSystem(names, content);
    HidingIsValid(FileSystem(names, map f | f in files :: Some("")), content);
    assert fs.content == HidingContent(files, file, q, word, target);
    ghost var visited, readAs;
    ok, found, visited, readAs := DiscoverHosts(fs, p);
    HidingIsMissed(fs, p, q, word, target, ok, visited, readAs);
  }

  lemma HidingIsMissed(fs: FileSystem, p: Path, q: Path, word: string, target: Path,
                       ok: bool, visited: set<Path>, readAs: map<Path, Path>)
    requires fs.Valid() && Hides(fs.names, p, q, word, target)
    requires fs.content == HidingContent(fs.content.Keys, fs.names.resolve(p).value, q, word, target)
    requires if ok then Walk(fs, p, visited, readAs) else ReachesUnreadable(fs, p)
    ensures ok && IsReachableAlias(fs, p, HIDDEN) && AliasesOf(fs, visited) == {}
  {
    hide OwnIncludes, OwnAliases, PartsText, TwoIncludes, HostText, Nameable, NameSpace.ExpandAt, Walk;
    var file := fs.names.resolve(p).value;
    HiddenIsReached(fs, p, q, word, target);
    HiddenExists(fs, p, q, word, target);
    forall f | f in fs.content ensures fs.Aliases(f) == if f == target then {HIDDEN} else {} {
      HidingAliases(fs, file, q, word, target, f);
    }
    if ok {
      HidingIsIncomplete(fs, p, q, word, target, visited, readAs);
    } else {
      AllReadable(fs, file, q, word, target);
    }
  }

  lemma AllReadable(fs: FileSystem, file: Path, q: Path, word: string, target: Path)
    requires fs.Valid() && fs.content == HidingContent(fs.content.Keys, file, q, word, target)
    ensures forall path | fs.Exists(path) :: fs.Readable(fs.Canonical(path))
  {
  }

  /** Some path of the list that leads to the file. */
  ghost function NameIn(fs: FileSystem, targets: seq<Path>, file: Path): Path
    requires exists t :: t in targets && fs.Canonical(t) == file
  {
    var t :| t in targets && fs.Canonical(t) == file;
    t
  }

  /** The search from `p` does end: it visits the file of `p` and what that includes, and nothing includes more. */
  lemma HidingWalk(fs: FileSystem, p: Path, q: Path, word: string, target: Path) returns (visited: set<Path>, readAs: map<Path, Path>)
    requires fs.Valid() && Hides(fs.names, p, q, word, target)
    requires fs.content == HidingContent(fs.content.Keys, fs.names.resolve(p).value, q, word, target)
    ensures Walk(fs, p, visited, readAs)
  {
    hide OwnIncludes, OwnAliases, HidingContent, Nameable, NameSpace.ExpandAt, NameSpace.Expand, FileSystem.Includes, PartsText;
    var file := fs.names.resolve(p).value;
    NameableOpens(fs.names, p);
    AllReadable(fs, file, q, word, target);
    var targets := fs.Includes(p);
    var others := set t | t in targets :: fs.Canonical(t);
    visited := {file} + others;
    readAs := (map f | f in others :: NameIn(fs, targets, f))[file := p];
    forall f | f in visited - {} - {} && f in fs.content
      ensures f in readAs && fs.Exists(readAs[f]) && fs.Canonical(readAs[f]) == f && fs.Readable(f)
      ensures AllVisited(fs, fs.Includes(readAs[f]), visited)
    {
      HidingIncludes(fs, file, q, word, target, readAs[f]);
      CanonicalIsFile(fs, readAs[f], f);
    }
    forall f | f in visited - {} ensures ReachesFile(fs, readAs, p, f) {
      if f == file {
        ReachesItselfAs(fs, readAs, p);
      } else {
        var t :| t in targets && fs.Canonical(t) == f;
        ReachesItselfAs(fs, readAs, t);
        ReachesAsFurther(fs, readAs, readAs, p, t, t);
      }
    }
  }

  lemma CanonicalIsFile(fs: FileSystem, path: Path, file: Path)
    requires fs.Valid() && fs.Canonical(path) == file && file in fs.content
    ensures fs.names.File(path) == Some(file)
  {
  }

  lemma Disagreement(names: NameSpace) returns (p: Path, q: Path, word: string, target: Path)
    requires AllNameable(names) && !ParentsAgree(names)
    ensures Hides(names, p, q, word, target)
  {
    hide NameSpace.FilesAt, Nameable;
    p, q, word :| && names.resolve(p).Some? && names.resolve(p) == names.resolve(q) && Writable(word)
                  && names.FilesAt(p.Parent(), word) - {names.resolve(p).value}
                     != names.FilesAt(q.Parent(), word) - {names.resolve(p).value};
    var here, there := names.FilesAt(p.Parent(), word), names.FilesAt(q.Parent(), word);
    var file := names.resolve(p).value;
    target := OnlyInOne(here - {file}, there - {file});
    if target in here {
      p, q := q, p;
    }
  }

  lemma OnlyInOne<T>(a: set<T>, b: set<T>) returns (x: T)
    requires a != b
    ensures (x in a) != (x in b)
  {
    if a <= b {
      x :| x in b && x !in a;
    } else {
      x :| x in a && x !in b;
    }
  }

  /** The search can miss no file exactly if the directories of all names of a file resolve every pattern alike. */
  lemma SearchIsAlwaysCompleteIff(names: NameSpace, files: set<Path>)
    requires FileSystem(names, map f | f in files :: Some("")).Valid() && AllNameable(names)
    ensures AlwaysComplete(names, files) <==> ParentsAgree(names)
  {
    hide Walk, Complete, NameSpace.Valid;
    if ParentsAgree(names) {
      forall content: map<Path, Option<string>>, root, visited, readAs |
        IsFileSystem(names, files, FileSystem(names, content)) && Walk(FileSystem(names, content), root, visited, readAs)
        ensures Complete(FileSystem(names, content), root, visited)
      {
        AgreeingParentsAgree(FileSystem(names, content));
        WalkIsComplete(FileSystem(names, content), root, visited, readAs);
      }
    } else {
      hide ParentsAgree, AllNameable, Hides, HidingContent;
      var p, q, word, target := Disagreement(names);
      SomeSearchMisses(names, files, p, q, word, target);
    }
  }

  lemma SomeSearchMisses(names: NameSpace, files: set<Path>, p: Path, q: Path, word: string, target: Path)
    requires FileSystem(names, map f | f in files :: Some("")).Valid()
    requires Hides(names, p, q, word, target)
    ensures !AlwaysComplete(names, files)
  {
    hide AlwaysComplete, Walk, Complete;
    var content := HidingContent(files, names.resolve(p).value, q, word, target);
    var fs := FileSystem(names, content);
    HidingIsValid(FileSystem(names, map f | f in files :: Some("")), content);
    hide Hides, HidingContent;
    var visited, readAs := HidingWalk(fs, p, q, word, target);
    HidingIsIncomplete(fs, p, q, word, target, visited, readAs);
    MissingIsNotAlways(names, files, content, p, visited, readAs);
  }

  lemma MissingIsNotAlways(names: NameSpace, files: set<Path>, content: map<Path, Option<string>>,
                           root: Path, visited: set<Path>, readAs: map<Path, Path>)
    requires IsFileSystem(names, files, FileSystem(names, content))
    requires Walk(FileSystem(names, content), root, visited, readAs) && !Complete(FileSystem(names, content), root, visited)
    ensures !AlwaysComplete(names, files)
  {
    hide Walk, Complete, IsFileSystem;
  }
}

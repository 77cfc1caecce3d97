/**
 The byte stream behind a workspace fingerprint: every listed path, sorted and
 without duplicates, followed by what is found there.  The stream does not
 depend on how the paths were enumerated, and it can be read back in only one
 way, so equal streams mean equal trees.
 */
module Snapshot {
  import opened Wrappers

  /** What is found at a listed path.  A directory stands for a nested repository and contributes its own fingerprint. */
  datatype Entry =
    | Regular(mode: nat, content: Bytes)
    | Symlink(target: Bytes)
    | Directory(fingerprint: Bytes)
    | Missing

  datatype SnapshotError = TooManyFiles | PathOutsideProject | Unreadable | DeadlinePassed | ChangedMeanwhile

  const MAX_FILES: nat := 20000
  const MAX_NAME: nat := 1024
  const CHUNK: nat := 65536

  const MISSING_TAG: Bytes := [109, 105, 115, 115, 105, 110, 103]
  const SYMLINK_TAG: Bytes := [115, 121, 109, 108, 105, 110, 107]

  const SLASH: byte := 47
  const DOT: byte := 46

  predicate ParentAt(name: Bytes, i: int) {
    && 0 <= i < |name| - 1 && name[i] == DOT && name[i + 1] == DOT
    && (i == 0 || name[i - 1] == SLASH)
    && (i + 2 == |name| || name[i + 2] == SLASH)
  }

  predicate HasParentComponent(name: Bytes) {
    exists i | 0 <= i < |name| :: ParentAt(name, i)
  }

  /** A path that stays inside the project: bounded, relative, without `..` or unusual bytes. */
  predicate ContainedPath(name: Bytes) {
    && 1 <= |name| <= MAX_NAME && name[0] != SLASH
    && 92 !in name && 0 !in name && 10 !in name && 13 !in name
    && !HasParentComponent(name)
  }

  predicate HexDigit(b: byte) {
    48 <= b <= 57 || 97 <= b <= 102
  }

  /** What a file system can hold: regular-file modes, links without NUL, hexadecimal fingerprints, 64-bit sizes. */
  predicate WellFormed(e: Entry) {
    match e
    case Regular(mode, content) => 0x8000 <= mode < 0x9000 && |content| < 0x1_0000_0000_0000_0000
    case Symlink(target) => 0 !in target
    case Directory(fingerprint) => |fingerprint| == 64 && forall i | 0 <= i < 64 :: HexDigit(fingerprint[i])
    case Missing => true
  }

  // ---- The stream ----

  function LittleEndian(value: nat, width: nat): (bytes: Bytes)
    ensures |bytes| == width
  {
    if width == 0 then [] else [(value % 256) as byte] + LittleEndian(value / 256, width - 1)
  }

  function EncodeEntry(e: Entry): Bytes {
    match e
    case Regular(mode, content) => LittleEndian(mode, 4) + LittleEndian(|content|, 8) + content
    case Symlink(target) => SYMLINK_TAG + target
    case Directory(fingerprint) => fingerprint
    case Missing => MISSING_TAG
  }

  function EncodeName(name: Bytes): Bytes {
    LittleEndian(|name|, 8) + name
  }

  function Lookup(tree: map<Bytes, Entry>, name: Bytes): Entry {
    if name in tree then tree[name] else Missing
  }

  function Encode(names: seq<Bytes>, tree: map<Bytes, Entry>): Bytes {
    if names == [] then []
    else EncodeName(names[0]) + EncodeEntry(Lookup(tree, names[0])) + Encode(names[1..], tree)
  }

  // ---- The format, byte by byte ----

  function ReadLittleEndian(bytes: Bytes): nat {
    if bytes == [] then 0 else bytes[0] as nat + 256 * ReadLittleEndian(bytes[1..])
  }

  lemma {:induction false} LittleEndianReadsBack(value: nat, width: nat)
    requires value < Power256(width)
    ensures ReadLittleEndian(LittleEndian(value, width)) == value
  {
    if width > 0 {
      LittleEndianReadsBack(value / 256, width - 1);
      assert LittleEndian(value, width)[1..] == LittleEndian(value / 256, width - 1);
    }
  }

  function Ascii(text: string): (r: Bytes)
    requires forall i | 0 <= i < |text| :: text[i] < 128 as char
    ensures |r| == |text| && forall i | 0 <= i < |r| :: r[i] as int == text[i] as int
  {
    seq(|text|, i requires 0 <= i < |text| => text[i] as byte)
  }

  /**
   A name is its length in eight bytes, lowest first, and itself; behind it a file is its mode in four bytes, its size
   in eight, and its content, a link is "symlink" and its target, a directory is its own fingerprint, and what is not
   there is "missing".
   */
  lemma StreamFormat(name: Bytes, tree: map<Bytes, Entry>)
    requires StorableName(name) && WellFormed(Lookup(tree, name))
    ensures var s, n := Encode([name], tree), |name|;
            && |s| >= 8 + n && ReadLittleEndian(s[..8]) == n && s[8..8 + n] == name
            && match Lookup(tree, name)
               case Regular(mode, content) =>
                 && |s| == 8 + n + 12 + |content| && ReadLittleEndian(s[8 + n..8 + n + 4]) == mode
                 && ReadLittleEndian(s[8 + n + 4..8 + n + 12]) == |content| && s[8 + n + 12..] == content
               case Symlink(target) => s[8 + n..] == Ascii("symlink") + target
               case Directory(fingerprint) => s[8 + n..] == fingerprint
               case Missing => s[8 + n..] == Ascii("missing")
  {
    var s, n, e := Encode([name], tree), |name|, Lookup(tree, name);
    OneNameEncoded(name, tree);
    assert Power256(8) == 0x1_0000_0000_0000_0000 && Power256(4) == 0x1_0000_0000;
    LittleEndianReadsBack(n, 8);
    if e.Regular? {
      LittleEndianReadsBack(e.mode, 4);
      LittleEndianReadsBack(|e.content|, 8);
    }
    hide LittleEndian, ReadLittleEndian, Encode;
    assert s[..8] == LittleEndian(n, 8);
    assert s[8 + n..] == EncodeEntry(e);
    if e.Regular? {
      var body := EncodeEntry(e);
      assert body[..4] == LittleEndian(e.mode, 4) && s[8 + n..][..4] == s[8 + n..8 + n + 4];
      assert body[4..12] == LittleEndian(|e.content|, 8) && s[8 + n..][4..12] == s[8 + n + 4..8 + n + 12];
      assert body[12..] == e.content && s[8 + n..][12..] == s[8 + n + 12..];
    } else if e.Symlink? {
      assert SYMLINK_TAG == Ascii("symlink");
    } else if e.Missing? {
      assert MISSING_TAG == Ascii("missing");
    }
  }

  lemma OneNameEncoded(name: Bytes, tree: map<Bytes, Entry>)
    ensures Encode([name], tree) == EncodeName(name) + EncodeEntry(Lookup(tree, name))
  {
    hide EncodeName, EncodeEntry, Lookup;
    assert [name][1..] == [] && Encode([], tree) == [];
    var s := EncodeName(name) + EncodeEntry(Lookup(tree, name));
    assert s + [] == s;
  }

  function FirstSlash(name: Bytes): (at: nat)
    ensures at <= |name| && (forall i | 0 <= i < at :: name[i] != SLASH) && (at < |name| ==> name[at] == SLASH)
  {
    if name == [] || name[0] == SLASH then 0 else 1 + FirstSlash(name[1..])
  }

  /** What is between the slashes of a path. */
  function Components(name: Bytes): seq<Bytes> {
    var at := FirstSlash(name);
    if at == |name| then [name] else [name[..at]] + Components(name[at + 1..])
  }

  const PARENT: Bytes := [DOT, DOT]

  lemma ParentSplits(name: Bytes, at: nat)
    requires at == FirstSlash(name)
    ensures at == |name| ==> (HasParentComponent(name) <==> name == PARENT)
    ensures at < |name| ==> (HasParentComponent(name) <==> name[..at] == PARENT || HasParentComponent(name[at + 1..]))
  {
    hide FirstSlash;
    if HasParentComponent(name) {
      var i :| 0 <= i < |name| && ParentAt(name, i);
      if i == 0 {
        assert at == 2 && name[..at] == PARENT && name[..|name|] == name;
      } else {
        assert i > at;
        assert ParentAt(name[at + 1..], i - at - 1);
      }
    }
    if name[..at] == PARENT {
      assert name[..at][0] == DOT && name[..at][1] == DOT;
      assert ParentAt(name, 0) && name[..|name|] == name;
    } else if at < |name| && HasParentComponent(name[at + 1..]) {
      var j :| 0 <= j < |name[at + 1..]| && ParentAt(name[at + 1..], j);
      assert ParentAt(name, at + 1 + j);
    }
  }

  lemma {:induction false} ParentIsAComponent(name: Bytes)
    ensures HasParentComponent(name) <==> Ascii("..") in Components(name)
    decreases |name|
  {
    assert Ascii("..") == PARENT;
    var at := FirstSlash(name);
    ParentSplits(name, at);
    if at < |name| {
      ParentIsAComponent(name[at + 1..]);
    }
    hide HasParentComponent, Ascii, FirstSlash;
  }

  /** Paths inside the project: relative, of 1 to 1024 bytes, never up, and with no backslash, zero byte or line end. */
  lemma ContainedIff(name: Bytes)
    ensures ContainedPath(name) <==>
              && 1 <= |name| <= 1024 && Components(name)[0] != [] && Ascii("..") !in Components(name)
              && forall b | b in name :: b !in {92, 0, 10, 13}
  {
    ParentIsAComponent(name);
    if name != [] {
      FirstComponent(name);
    }
    hide HasParentComponent, Components, Ascii;
  }

  lemma FirstComponent(name: Bytes)
    requires name != []
    ensures Components(name)[0] == [] <==> name[0] == SLASH
  {
  }

  // ---- Sorted names ----

  /** Byte-wise lexicographic order. */
  predicate Less(a: Bytes, b: Bytes) {
    b != [] && (a == [] || a[0] < b[0] || (a[0] == b[0] && Less(a[1..], b[1..])))
  }

  predicate Sorted(names: seq<Bytes>) {
    forall i, j | 0 <= i < j < |names| :: Less(names[i], names[j])
  }

  lemma {:induction false} LessIsTotal(a: Bytes, b: Bytes)
    ensures Less(a, b) || Less(b, a) || a == b
  {
    if a != [] && b != [] && a[0] == b[0] {
      LessIsTotal(a[1..], b[1..]);
      assert a == [a[0]] + a[1..] && b == [b[0]] + b[1..];
    }
  }

  lemma {:induction false} LessIsTransitive(a: Bytes, b: Bytes, c: Bytes)
    requires Less(a, b) && Less(b, c)
    ensures Less(a, c)
  {
    if a != [] && a[0] == b[0] && b[0] == c[0] {
      LessIsTransitive(a[1..], b[1..], c[1..]);
    }
  }

  lemma {:induction false} LessIsIrreflexive(a: Bytes)
    ensures !Less(a, a)
  {
    if a != [] {
      LessIsIrreflexive(a[1..]);
    }
  }

  /** Insert unless already there. */
  function Insert(name: Bytes, names: seq<Bytes>): (r: seq<Bytes>)
  {
    if names == [] || Less(name, names[0]) then [name] + names
    else if name == names[0] then names
    else [names[0]] + Insert(name, names[1..])
  }

  function SortedUnique(names: seq<Bytes>): seq<Bytes> {
    if names == [] then [] else Insert(names[0], SortedUnique(names[1..]))
  }

  lemma {:induction false} InsertKeepsOrder(name: Bytes, names: seq<Bytes>)
    requires Sorted(names)
    ensures Sorted(Insert(name, names))
    ensures forall x :: x in Insert(name, names) <==> x == name || x in names
  {
    if names != [] && Less(name, names[0]) {
      forall j | 0 < j < |names| ensures Less(name, names[j]) {
        LessIsTransitive(name, names[0], names[j]);
      }
    } else if names != [] && name != names[0] {
      InsertKeepsOrder(name, names[1..]);
      LessIsTotal(name, names[0]);
      var rest := Insert(name, names[1..]);
      assert names == [names[0]] + names[1..];
      forall j | 0 <= j < |rest| ensures Less(names[0], rest[j]) {
        assert rest[j] in rest;
        if rest[j] != name {
          var k :| 0 <= k < |names[1..]| && names[1..][k] == rest[j];
          assert names[k + 1] == rest[j];
        }
      }
    }
  }

  lemma {:induction false} SortedUniqueIs(names: seq<Bytes>)
    ensures Sorted(SortedUnique(names))
    ensures forall x :: x in SortedUnique(names) <==> x in names
  {
    if names != [] {
      SortedUniqueIs(names[1..]);
      InsertKeepsOrder(names[0], SortedUnique(names[1..]));
      assert names == [names[0]] + names[1..];
    }
  }

  lemma SortedHeadIsLeast(names: seq<Bytes>, x: Bytes)
    requires Sorted(names) && x in names
    ensures x == names[0] || Less(names[0], x)
  {
  }

  lemma {:induction false} SortedIsUnique(a: seq<Bytes>, b: seq<Bytes>)
    requires Sorted(a) && Sorted(b)
    requires forall x :: x in a <==> x in b
    ensures a == b
  {
    assert |b| > 0 ==> b[0] in b;
    if a != [] {
      assert a[0] in b && b[0] in a;
      SortedHeadIsLeast(a, b[0]);
      SortedHeadIsLeast(b, a[0]);
      if a[0] != b[0] {
        LessIsTransitive(a[0], b[0], a[0]);
        LessIsIrreflexive(a[0]);
      }
      forall x ensures x in a[1..] <==> x in b[1..] {
        TailMembers(a, x);
        TailMembers(b, x);
      }
      SortedIsUnique(a[1..], b[1..]);
      assert a == [a[0]] + a[1..] && b == [b[0]] + b[1..];
    }
  }

  lemma TailMembers(a: seq<Bytes>, x: Bytes)
    requires Sorted(a) && a != []
    ensures x in a[1..] <==> x in a && x != a[0]
  {
    LessIsIrreflexive(a[0]);
    assert a == [a[0]] + a[1..];
    if x in a[1..] {
      var k :| 0 <= k < |a[1..]| && a[1..][k] == x;
      assert Less(a[0], a[k + 1]);
    }
  }

  // ---- Feeding the hash ----

  /** The bytes a running hash has been given. */
  class Hasher {
    var fed: Bytes

    constructor ()
      ensures fed == []
    {
      fed := [];
    }

    method Update(bytes: Bytes)
      modifies this
      ensures fed == old(fed) + bytes
    {
      fed := fed + bytes;
    }

    /** A file is read in pieces of any size up to the buffer. */
    method UpdateContent(content: Bytes)
      modifies this
      ensures fed == old(fed) + content
    {
      var read := 0;
      while read < |content|
        invariant 0 <= read <= |content|
        invariant fed == old(fed) + content[..read]
      {
        var count: nat :| 1 <= count <= CHUNK && count <= |content| - read;
        Update(content[read..read + count]);
        assert content[..read + count] == content[..read] + content[read..read + count];
        read := read + count;
      }
    }

    method UpdateEntry(e: Entry)
      modifies this
      ensures fed == old(fed) + EncodeEntry(e)
    {
      match e {
        case Missing =>
          Update(MISSING_TAG);
        case Symlink(target) =>
          Update(SYMLINK_TAG);
          Update(target);
        case Directory(fingerprint) =>
          Update(fingerprint);
        case Regular(mode, content) =>
          Update(LittleEndian(mode, 4));
          Update(LittleEndian(|content|, 8));
          UpdateContent(content);
      }
    }

    /** `trouble` says at which paths looking or reading fails, runs out of time, or finds the file changed meanwhile. */
    method HashFiles(names: seq<Bytes>, tree: map<Bytes, Entry>, trouble: map<Bytes, SnapshotError>)
      returns (r: Result<(), SnapshotError>)
      modifies this
      ensures r.Ok? <==>
                && |SortedUnique(names)| <= MAX_FILES
                && forall name | name in names :: ContainedPath(name) && name !in trouble
      ensures r.Ok? ==> fed == old(fed) + Encode(SortedUnique(names), tree)
      ensures |SortedUnique(names)| > MAX_FILES ==> r == Err(TooManyFiles) && fed == old(fed)
      ensures r.Err? && |SortedUnique(names)| <= MAX_FILES ==> FailsAtFirst(SortedUnique(names), trouble, r.error)
    {
      hide EncodeEntry, Encode, Sorted, SortedUnique, LittleEndian, ContainedPath;
      var sorted := SortedUnique(names);
      EncodeNothing(tree);
      SortedUniqueIs(names);
      if |sorted| > MAX_FILES {
        return Err(TooManyFiles);
      }
      for i := 0 to |sorted|
        invariant fed == old(fed) + Encode(sorted[..i], tree)
        invariant forall k | 0 <= k < i :: ContainedPath(sorted[k]) && sorted[k] !in trouble
      {
        var name := sorted[i];
        if !ContainedPath(name) {
          assert name in names;
          return Err(PathOutsideProject);
        }
        Update(LittleEndian(|name|, 8));
        Update(name);
        if name in trouble {
          assert name in names;
          return Err(trouble[name]);
        }
        UpdateEntry(Lookup(tree, name));
        EncodeOneMore(sorted, tree, i);
      }
      assert sorted[..|sorted|] == sorted;
      return Ok(());
    }
  }

  /** The error is that of the first path that fails. */
  ghost predicate FailsAtFirst(sorted: seq<Bytes>, trouble: map<Bytes, SnapshotError>, error: SnapshotError) {
    exists k :: 0 <= k < |sorted|
      && (forall j | 0 <= j < k :: ContainedPath(sorted[j]) && sorted[j] !in trouble)
      && (if !ContainedPath(sorted[k]) then error == PathOutsideProject else sorted[k] in trouble && error == trouble[sorted[k]])
  }

  lemma EncodeNothing(tree: map<Bytes, Entry>)
    ensures Encode([], tree) == []
  {
  }

  lemma {:induction false} EncodeOneMore(names: seq<Bytes>, tree: map<Bytes, Entry>, i: nat)
    requires i < |names|
    ensures Encode(names[..i + 1], tree) == Encode(names[..i], tree) + (EncodeName(names[i]) + EncodeEntry(Lookup(tree, names[i])))
  {
    hide EncodeName, EncodeEntry;
    if i == 0 {
      assert names[..1][1..] == [];
    } else {
      EncodeOneMore(names[1..], tree, i - 1);
      assert names[..i + 1][1..] == names[1..][..i] && names[..i][1..] == names[1..][..i - 1];
      var first, more := Encode(names[1..][..i - 1], tree), EncodeName(names[i]) + EncodeEntry(Lookup(tree, names[i]));
      var head := EncodeName(names[0]) + EncodeEntry(Lookup(tree, names[0]));
      assert head + (first + more) == (head + first) + more;
    }
  }

  /** The stream depends on the set of paths only. */
  lemma EnumerationOrderIsIrrelevant(a: seq<Bytes>, b: seq<Bytes>, tree: map<Bytes, Entry>)
    requires forall x :: x in a <==> x in b
    ensures Encode(SortedUnique(a), tree) == Encode(SortedUnique(b), tree)
  {
    SortedUniqueIs(a);
    SortedUniqueIs(b);
    SortedIsUnique(SortedUnique(a), SortedUnique(b));
  }

  // ---- Reading the stream back ----

  lemma {:induction false} LittleEndianIsInjective(a: nat, b: nat, width: nat)
    requires a < Power256(width) && b < Power256(width)
    requires LittleEndian(a, width) == LittleEndian(b, width)
    ensures a == b
  {
    if width > 0 {
      var x, y := LittleEndian(a, width), LittleEndian(b, width);
      assert x[0] == y[0] && x[1..] == y[1..];
      LittleEndianIsInjective(a / 256, b / 256, width - 1);
    }
  }

  function Power256(width: nat): nat {
    if width == 0 then 1 else 256 * Power256(width - 1)
  }

  /** A short length leaves the upper six of its eight bytes zero. */
  lemma ShortLength(n: nat)
    requires n < 65536
    ensures forall i | 2 <= i < 8 :: LittleEndian(n, 8)[i] == 0
  {
    var upper := LittleEndian(n / 256 / 256, 6);
    assert LittleEndian(n, 8) == [(n % 256) as byte] + LittleEndian(n / 256, 7);
    assert LittleEndian(n / 256, 7) == [(n / 256 % 256) as byte] + upper;
    ZeroBytes(6);
  }

  lemma {:induction false} ZeroBytes(width: nat)
    ensures forall i | 0 <= i < width :: LittleEndian(0, width)[i] == 0
  {
    if width > 0 {
      ZeroBytes(width - 1);
    }
  }

  predicate StorableName(name: Bytes) {
    1 <= |name| <= MAX_NAME && 0 !in name
  }

  /** What can follow an entry: the end, or the header of another name. */
  ghost predicate StartsWithHeader(rest: Bytes) {
    rest == [] || (|rest| >= 9 && (forall i | 2 <= i < 8 :: rest[i] == 0) && rest[8] != 0)
  }

  lemma EncodeStartsWithHeader(names: seq<Bytes>, tree: map<Bytes, Entry>)
    requires forall i | 0 <= i < |names| :: StorableName(names[i])
    ensures StartsWithHeader(Encode(names, tree))
  {
    hide EncodeEntry;
    if names != [] {
      ShortLength(|names[0]|);
      assert names[0][0] in names[0];
    }
  }

  /** A link target has no length field, yet it can end only where a header starts. */
  lemma TargetIsDelimited(a: Bytes, restA: Bytes, b: Bytes, restB: Bytes)
    requires 0 !in a && 0 !in b && StartsWithHeader(restA) && StartsWithHeader(restB)
    requires a + restA == b + restB
    ensures a == b
  {
    if |a| < |b| {
      TargetIsNotShorter(a, restA, b, restB);
    } else if |b| < |a| {
      TargetIsNotShorter(b, restB, a, restA);
    } else {
      assert a == (a + restA)[..|a|] && b == (b + restB)[..|b|];
    }
  }

  lemma TargetIsNotShorter(a: Bytes, restA: Bytes, b: Bytes, restB: Bytes)
    requires 0 !in b && StartsWithHeader(restA) && StartsWithHeader(restB)
    requires a + restA == b + restB
    ensures |a| >= |b|
  {
    var s := a + restA;
    assert forall i | 0 <= i < |b| :: s[i] == b[i] && b[i] in b;
    assert |s| > |a| + 8 ==> s[|a| + 2] == restA[2] && s[|a| + 8] == restA[8];
    assert forall i | |b| <= i < |s| :: s[i] == restB[i - |b|];
  }

  /** The first two bytes tell the four kinds of entry apart. */
  predicate LooksLike(e: Entry, first: byte, second: byte) {
    match e
    case Regular(_, _) => second >= 128
    case Missing => second < 128 && first == 109
    case Symlink(_) => second < 128 && first == 115
    case Directory(_) => second < 128 && first != 109 && first != 115
  }

  lemma EntryLooksLikeItself(e: Entry)
    requires WellFormed(e)
    ensures |EncodeEntry(e)| >= 2 && LooksLike(e, EncodeEntry(e)[0], EncodeEntry(e)[1])
  {
    match e
    case Regular(mode, content) =>
      var m := LittleEndian(mode, 4);
      assert m == [(mode % 256) as byte] + LittleEndian(mode / 256, 3);
      assert m[1] == LittleEndian(mode / 256, 3)[0] == (mode / 256 % 256) as byte;
      assert EncodeEntry(e)[1] == m[1];
    case Directory(fingerprint) =>
      assert HexDigit(fingerprint[0]) && HexDigit(fingerprint[1]);
    case _ =>
  }

  lemma RegularIsDelimited(a: Entry, restA: Bytes, b: Entry, restB: Bytes)
    requires a.Regular? && b.Regular? && WellFormed(a) && WellFormed(b)
    requires EncodeEntry(a) + restA == EncodeEntry(b) + restB
    ensures a == b
  {
    hide LittleEndian;
    var s := EncodeEntry(a) + restA;
    assert s[..4] == LittleEndian(a.mode, 4) && s[..4] == LittleEndian(b.mode, 4);
    assert s[4..12] == LittleEndian(|a.content|, 8) && s[4..12] == LittleEndian(|b.content|, 8);
    assert Power256(8) == 0x1_0000_0000_0000_0000;
    assert Power256(4) == 0x1_0000_0000;
    LittleEndianIsInjective(a.mode, b.mode, 4);
    LittleEndianIsInjective(|a.content|, |b.content|, 8);
    assert s[12..12 + |a.content|] == a.content && s[12..12 + |b.content|] == b.content;
  }

  lemma EntryIsDelimited(a: Entry, restA: Bytes, b: Entry, restB: Bytes)
    requires WellFormed(a) && WellFormed(b) && StartsWithHeader(restA) && StartsWithHeader(restB)
    requires EncodeEntry(a) + restA == EncodeEntry(b) + restB
    ensures a == b && restA == restB
  {
    hide LittleEndian, StartsWithHeader, EncodeEntry, WellFormed;
    SameKind(a, restA, b, restB);
    if a.Regular? {
      RegularIsDelimited(a, restA, b, restB);
    } else {
      UnsizedIsDelimited(a, restA, b, restB);
    }
    var s := EncodeEntry(a) + restA;
    assert s[|EncodeEntry(a)|..] == restA && s[|EncodeEntry(b)|..] == restB;
  }

  lemma SameKind(a: Entry, restA: Bytes, b: Entry, restB: Bytes)
    requires WellFormed(a) && WellFormed(b)
    requires EncodeEntry(a) + restA == EncodeEntry(b) + restB
    ensures a.Regular? == b.Regular? && a.Symlink? == b.Symlink? && a.Directory? == b.Directory?
  {
    hide EncodeEntry, WellFormed;
    EntryLooksLikeItself(a);
    EntryLooksLikeItself(b);
    var s := EncodeEntry(a) + restA;
    assert s[0] == EncodeEntry(a)[0] == EncodeEntry(b)[0];
    assert s[1] == EncodeEntry(a)[1] == EncodeEntry(b)[1];
  }

  lemma UnsizedIsDelimited(a: Entry, restA: Bytes, b: Entry, restB: Bytes)
    requires !a.Regular? && !b.Regular? && a.Symlink? == b.Symlink? && a.Directory? == b.Directory?
    requires WellFormed(a) && WellFormed(b) && StartsWithHeader(restA) && StartsWithHeader(restB)
    requires EncodeEntry(a) + restA == EncodeEntry(b) + restB
    ensures a == b
  {
    hide StartsWithHeader;
    var s := EncodeEntry(a) + restA;
    if a.Symlink? {
      assert s[7..] == a.target + restA && s[7..] == b.target + restB;
      TargetIsDelimited(a.target, restA, b.target, restB);
    } else if a.Directory? {
      assert s[..64] == a.fingerprint && s[..64] == b.fingerprint;
    }
  }

  lemma NameIsDelimited(a: Bytes, restA: Bytes, b: Bytes, restB: Bytes)
    requires StorableName(a) && StorableName(b)
    requires EncodeName(a) + restA == EncodeName(b) + restB
    ensures a == b && restA == restB
  {
    hide LittleEndian;
    var s := EncodeName(a) + restA;
    assert s[..8] == LittleEndian(|a|, 8) && s[..8] == LittleEndian(|b|, 8);
    assert Power256(8) == 0x1_0000_0000_0000_0000;
    LittleEndianIsInjective(|a|, |b|, 8);
    assert s[8..8 + |a|] == a && s[8..8 + |b|] == b;
    assert s[8 + |a|..] == restA && s[8 + |b|..] == restB;
  }

  ghost predicate Storable(names: seq<Bytes>, tree: map<Bytes, Entry>) {
    forall i | 0 <= i < |names| :: StorableName(names[i]) && WellFormed(Lookup(tree, names[i]))
  }

  lemma {:induction false} EncodeIsInjective(names1: seq<Bytes>, tree1: map<Bytes, Entry>, names2: seq<Bytes>, tree2: map<Bytes, Entry>)
    requires Storable(names1, tree1) && Storable(names2, tree2)
    requires Encode(names1, tree1) == Encode(names2, tree2)
    ensures names1 == names2
    ensures forall name | name in names1 :: Lookup(tree1, name) == Lookup(tree2, name)
  {
    hide EncodeEntry, StartsWithHeader, WellFormed, Lookup, LittleEndian;
    EncodedLength(names1, tree1);
    EncodedLength(names2, tree2);
    if names1 != [] && names2 != [] {
      var e1, e2 := Lookup(tree1, names1[0]), Lookup(tree2, names2[0]);
      var rest1, rest2 := Encode(names1[1..], tree1), Encode(names2[1..], tree2);
      var after1, after2 := EncodeEntry(e1) + rest1, EncodeEntry(e2) + rest2;
      assert Encode(names1, tree1) == EncodeName(names1[0]) + after1;
      assert Encode(names2, tree2) == EncodeName(names2[0]) + after2;
      NameIsDelimited(names1[0], after1, names2[0], after2);
      EncodeStartsWithHeader(names1[1..], tree1);
      EncodeStartsWithHeader(names2[1..], tree2);
      EntryIsDelimited(e1, rest1, e2, rest2);
      EncodeIsInjective(names1[1..], tree1, names2[1..], tree2);
      assert names1 == [names1[0]] + names1[1..] && names2 == [names2[0]] + names2[1..];
    }
  }

  lemma EncodedLength(names: seq<Bytes>, tree: map<Bytes, Entry>)
    ensures names == [] <==> Encode(names, tree) == []
  {
  }

  /** A listing of a tree: every path of it, in any order, repeated or not. */
  ghost predicate Lists(names: seq<Bytes>, tree: map<Bytes, Entry>) {
    forall name :: name in names <==> name in tree
  }

  ghost predicate StorableTree(tree: map<Bytes, Entry>) {
    forall name | name in tree :: StorableName(name) && WellFormed(tree[name])
  }

  /** However two trees were enumerated, their streams are equal exactly when the trees are. */
  lemma StreamDeterminesTree(names1: seq<Bytes>, tree1: map<Bytes, Entry>, names2: seq<Bytes>, tree2: map<Bytes, Entry>)
    requires Lists(names1, tree1) && Lists(names2, tree2)
    requires StorableTree(tree1) && StorableTree(tree2)
    ensures Encode(SortedUnique(names1), tree1) == Encode(SortedUnique(names2), tree2) <==> tree1 == tree2
  {
    hide EncodeEntry, WellFormed, StorableName, Encode;
    SortedUniqueIs(names1);
    SortedUniqueIs(names2);
    var sorted1, sorted2 := SortedUnique(names1), SortedUnique(names2);
    if tree1 == tree2 {
      EnumerationOrderIsIrrelevant(names1, names2, tree1);
    }
    if Encode(sorted1, tree1) == Encode(sorted2, tree2) {
      assert forall i | 0 <= i < |sorted1| :: sorted1[i] in sorted1;
      assert forall i | 0 <= i < |sorted2| :: sorted2[i] in sorted2;
      EncodeIsInjective(sorted1, tree1, sorted2, tree2);
      forall name ensures name in tree1 <==> name in tree2 {
        assert name in sorted1 <==> name in sorted2;
      }
      forall name | name in tree1 ensures tree1[name] == tree2[name] {
        assert name in sorted1;
      }
      assert tree1 == tree2;
    }
  }
}

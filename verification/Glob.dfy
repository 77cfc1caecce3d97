/**
 The file-name matcher used by Include patterns: a greedy scan over bytes that
 remembers only the most recent star and falls back to it.

 The reference relation `Matches` is the usual meaning of `*` and `?`.  The scan
 tries the literal branch before the star branch, so a `*` in the pattern that
 meets a `*` in the value is spent as a literal.  The lemmas say exactly what
 that costs: a positive answer is always right, and negative answers are right
 for every pattern iff the value has no star, and for every value iff the
 pattern has no star.
 */
module Glob {
  import opened Wrappers

  const STAR: byte := 42
  const QUESTION: byte := 63
  const FILLER: byte := 120

  /** `*` stands for any run of bytes, `?` for one byte, anything else for itself. */
  ghost predicate Matches(pattern: Bytes, value: Bytes)
    decreases |pattern| + |value|
  {
    if pattern == [] then value == []
    else if pattern[0] == STAR then
      Matches(pattern[1..], value) || (value != [] && Matches(pattern, value[1..]))
    else
      value != [] && Single(pattern[0], value[0]) && Matches(pattern[1..], value[1..])
  }

  predicate Single(p: byte, v: byte) {
    p == QUESTION || p == v
  }

  predicate OnlyStars(pattern: Bytes) {
    forall i | 0 <= i < |pattern| :: pattern[i] == STAR
  }

  /** What the scanning loop answers from a given position. */
  function Scan(pattern: Bytes, value: Bytes, pi: nat, vi: nat, star: Option<nat>, checkpoint: nat): bool
    requires pi <= |pattern| && checkpoint <= vi <= |value|
    requires star.Some? ==> star.value < pi
    decreases |value| - checkpoint, |value| - vi + |pattern| - pi
  {
    if vi == |value| then OnlyStars(pattern[pi..])
    else if pi < |pattern| && Single(pattern[pi], value[vi]) then
      Scan(pattern, value, pi + 1, vi + 1, star, checkpoint)
    else if pi < |pattern| && pattern[pi] == STAR then
      Scan(pattern, value, pi + 1, vi, Some(pi), vi)
    else if star.Some? then
      Scan(pattern, value, star.value + 1, checkpoint + 1, star, checkpoint + 1)
    else false
  }

  function Accepts(pattern: Bytes, value: Bytes): bool {
    Scan(pattern, value, 0, 0, None, 0)
  }

  method WildcardMatch(pattern: Bytes, value: Bytes) returns (matched: bool)
    ensures matched == Accepts(pattern, value)
    ensures matched ==> Matches(pattern, value)
    ensures STAR !in value || STAR !in pattern ==> (matched <==> Matches(pattern, value))
  {
    var pi: nat, vi: nat, checkpoint: nat := 0, 0, 0;
    var star: Option<nat> := None;
    AcceptsIsSound(pattern, value);
    if STAR !in value || STAR !in pattern {
      AcceptsIsExact(pattern, value);
    }
    while vi < |value|
      invariant pi <= |pattern| && checkpoint <= vi <= |value|
      invariant star.Some? ==> star.value < pi
      invariant Accepts(pattern, value) == Scan(pattern, value, pi, vi, star, checkpoint)
      decreases |value| - checkpoint, |value| - vi + |pattern| - pi
    {
      if pi < |pattern| && (pattern[pi] == QUESTION || pattern[pi] == value[vi]) {
        pi, vi := pi + 1, vi + 1;
      } else if pi < |pattern| && pattern[pi] == STAR {
        star, checkpoint, pi := Some(pi), vi, pi + 1;
      } else if star.Some? {
        pi, checkpoint := star.value + 1, checkpoint + 1;
        vi := checkpoint;
      } else {
        return false;
      }
    }
    while pi < |pattern| && pattern[pi] == STAR
      invariant pi <= |pattern|
      invariant Accepts(pattern, value) == OnlyStars(pattern[pi..])
    {
      assert pattern[pi..] == [STAR] + pattern[pi + 1..];
      pi := pi + 1;
    }
    assert pi < |pattern| ==> pattern[pi..][0] != STAR;
    matched := pi == |pattern|;
  }

  // ---- A positive answer is always right ----

  lemma {:induction false} StarsMatchNothing(pattern: Bytes)
    requires OnlyStars(pattern)
    ensures Matches(pattern, [])
  {
    if pattern != [] {
      StarsMatchNothing(pattern[1..]);
    }
  }

  /** The remembered fallback: the last star takes at least one more byte. */
  ghost predicate Fallback(pattern: Bytes, value: Bytes, star: Option<nat>, checkpoint: nat)
    requires star.Some? ==> star.value < |pattern|
  {
    star.Some? && checkpoint < |value| && Matches(pattern[star.value..], value[checkpoint + 1..])
  }

  lemma {:induction false} ScanIsSound(pattern: Bytes, value: Bytes, pi: nat, vi: nat, star: Option<nat>, checkpoint: nat)
    requires pi <= |pattern| && checkpoint <= vi <= |value|
    requires star.Some? ==> star.value < pi && pattern[star.value] == STAR
    requires Scan(pattern, value, pi, vi, star, checkpoint)
    ensures Matches(pattern[pi..], value[vi..]) || Fallback(pattern, value, star, checkpoint)
    decreases |value| - checkpoint, |value| - vi + |pattern| - pi
  {
    if vi == |value| {
      StarsMatchNothing(pattern[pi..]);
    } else if pi < |pattern| && Single(pattern[pi], value[vi]) {
      ScanIsSound(pattern, value, pi + 1, vi + 1, star, checkpoint);
      assert pattern[pi..][1..] == pattern[pi + 1..] && value[vi..][1..] == value[vi + 1..];
      if pattern[pi] == STAR && Matches(pattern[pi + 1..], value[vi + 1..]) {
        assert Matches(pattern[pi..], value[vi + 1..]);
      }
    } else if pi < |pattern| && pattern[pi] == STAR {
      ScanIsSound(pattern, value, pi + 1, vi, Some(pi), vi);
      assert pattern[pi..][1..] == pattern[pi + 1..] && value[vi..][1..] == value[vi + 1..];
    } else {
      var s := star.value;
      ScanIsSound(pattern, value, s + 1, checkpoint + 1, star, checkpoint + 1);
      assert pattern[s..][1..] == pattern[s + 1..];
      if Fallback(pattern, value, star, checkpoint + 1) {
        assert value[checkpoint + 1..][1..] == value[checkpoint + 2..];
      }
    }
  }

  lemma AcceptsIsSound(pattern: Bytes, value: Bytes)
    ensures Accepts(pattern, value) ==> Matches(pattern, value)
  {
    if Accepts(pattern, value) {
      ScanIsSound(pattern, value, 0, 0, None, 0);
      assert pattern[0..] == pattern && value[0..] == value;
    }
  }

  // ---- Forgetting earlier stars loses nothing while stars never meet ----

  /** A leading star leaves some suffix for the rest of the pattern. */
  lemma {:induction false} StarSplit(pattern: Bytes, value: Bytes) returns (taken: nat)
    requires pattern != [] && pattern[0] == STAR && Matches(pattern, value)
    ensures taken <= |value| && Matches(pattern[1..], value[taken..])
    decreases |value|
  {
    if Matches(pattern[1..], value) {
      taken := 0;
      assert value[0..] == value;
    } else {
      var rest := StarSplit(pattern, value[1..]);
      taken := rest + 1;
      assert value[1..][rest..] == value[taken..];
    }
  }

  /** A leading star can also take everything up to a later matching position. */
  lemma {:induction false} StarAbsorbs(pattern: Bytes, value: Bytes, start: nat, end: nat)
    requires pattern != [] && pattern[0] == STAR
    requires start <= end <= |value| && Matches(pattern, value[end..])
    ensures Matches(pattern, value[start..])
    decreases end - start
  {
    if start < end {
      StarAbsorbs(pattern, value, start + 1, end);
      assert value[start..][1..] == value[start + 1..];
    }
  }

  lemma {:induction false} SegmentConsumes(pattern: Bytes, value: Bytes, n: nat)
    requires n <= |pattern| && STAR !in pattern[..n] && Matches(pattern, value)
    ensures n <= |value| && Matches(pattern[n..], value[n..])
  {
    if n == 0 {
      assert pattern[0..] == pattern && value[0..] == value;
    } else {
      assert pattern[0] == pattern[..n][0];
      assert pattern[1..][..n - 1] == pattern[..n][1..];
      SegmentConsumes(pattern[1..], value[1..], n - 1);
      assert pattern[1..][n - 1..] == pattern[n..] && value[1..][n - 1..] == value[n..];
    }
  }

  /** The greedy step: once a later star is reached, the earlier one is not needed again. */
  lemma EarlierStarIsRedundant(pattern: Bytes, value: Bytes, star: nat, checkpoint: nat, pi: nat, vi: nat)
    requires star < pi < |pattern| && checkpoint < |value| && vi <= |value|
    requires pattern[star] == STAR && pattern[pi] == STAR && STAR !in pattern[star + 1..pi]
    requires vi - checkpoint == pi - star - 1
    requires Matches(pattern[star..], value[checkpoint + 1..])
    ensures Matches(pattern[pi..], value[vi..])
  {
    var n := pi - star - 1;
    var tail := value[checkpoint + 1..];
    var taken := StarSplit(pattern[star..], tail);
    assert pattern[star..][1..] == pattern[star + 1..];
    assert pattern[star + 1..][..n] == pattern[star + 1..pi];
    SegmentConsumes(pattern[star + 1..], tail[taken..], n);
    assert pattern[star + 1..][n..] == pattern[pi..];
    assert tail[taken..][n..] == value[vi + taken + 1..];
    StarAbsorbs(pattern[pi..], value, vi, vi + taken + 1);
  }

  lemma {:induction false} NothingIsOnlyStars(pattern: Bytes)
    requires Matches(pattern, [])
    ensures OnlyStars(pattern)
  {
    if pattern != [] {
      NothingIsOnlyStars(pattern[1..]);
      forall i | 0 <= i < |pattern| ensures pattern[i] == STAR {
        assert i > 0 ==> pattern[i] == pattern[1..][i - 1];
      }
    }
  }

  lemma {:induction false} ScanIsComplete(pattern: Bytes, value: Bytes, pi: nat, vi: nat, star: Option<nat>, checkpoint: nat)
    requires STAR !in value || STAR !in pattern
    requires pi <= |pattern| && checkpoint <= vi <= |value|
    requires star.Some? ==>
      && star.value < pi && pattern[star.value] == STAR
      && STAR !in pattern[star.value + 1..pi]
      && vi - checkpoint == pi - star.value - 1
    requires Matches(pattern[pi..], value[vi..]) || Fallback(pattern, value, star, checkpoint)
    ensures Scan(pattern, value, pi, vi, star, checkpoint)
    decreases |value| - checkpoint, |value| - vi + |pattern| - pi
  {
    if vi == |value| {
      if Matches(pattern[pi..], value[vi..]) {
        NothingIsOnlyStars(pattern[pi..]);
      } else {
        FallbackNeedsRoom(pattern, value, star.value, checkpoint, pi, vi);
      }
    } else if pi < |pattern| && Single(pattern[pi], value[vi]) {
      assert pattern[pi..][1..] == pattern[pi + 1..] && value[vi..][1..] == value[vi + 1..];
      assert pattern[pi] != STAR;
      assert star.Some? ==> pattern[star.value + 1..pi + 1] == pattern[star.value + 1..pi] + [pattern[pi]];
      ScanIsComplete(pattern, value, pi + 1, vi + 1, star, checkpoint);
    } else if pi < |pattern| && pattern[pi] == STAR {
      if Fallback(pattern, value, star, checkpoint) {
        EarlierStarIsRedundant(pattern, value, star.value, checkpoint, pi, vi);
      }
      assert pattern[pi..][1..] == pattern[pi + 1..] && value[vi..][1..] == value[vi + 1..];
      ScanIsComplete(pattern, value, pi + 1, vi, Some(pi), vi);
    } else {
      var s := star.value;
      assert pattern[s..][1..] == pattern[s + 1..];
      if checkpoint + 1 < |value| {
        assert value[checkpoint + 1..][1..] == value[checkpoint + 2..];
      }
      ScanIsComplete(pattern, value, s + 1, checkpoint + 1, star, checkpoint + 1);
    }
  }

  /** With the value used up, a fallback would need more bytes than are left. */
  lemma FallbackNeedsRoom(pattern: Bytes, value: Bytes, star: nat, checkpoint: nat, pi: nat, vi: nat)
    requires star < pi <= |pattern| && pattern[star] == STAR && STAR !in pattern[star + 1..pi]
    requires checkpoint < |value| == vi && vi - checkpoint == pi - star - 1
    ensures !Matches(pattern[star..], value[checkpoint + 1..])
  {
    if Matches(pattern[star..], value[checkpoint + 1..]) {
      var n := pi - star - 1;
      var tail := value[checkpoint + 1..];
      var taken := StarSplit(pattern[star..], tail);
      assert pattern[star..][1..] == pattern[star + 1..];
      assert pattern[star + 1..][..n] == pattern[star + 1..pi];
      SegmentConsumes(pattern[star + 1..], tail[taken..], n);
      assert false;
    }
  }

  lemma AcceptsIsExact(pattern: Bytes, value: Bytes)
    requires STAR !in value || STAR !in pattern
    ensures Accepts(pattern, value) <==> Matches(pattern, value)
  {
    AcceptsIsSound(pattern, value);
    assert pattern[0..] == pattern && value[0..] == value;
    if Matches(pattern, value) {
      ScanIsComplete(pattern, value, 0, 0, None, 0);
    }
  }

  // ---- Where a star meets a star, some answer is wrong ----

  lemma {:induction false} LiteralWalk(pattern: Bytes, value: Bytes, i: nat, end: nat)
    requires i <= end <= |pattern| && end <= |value|
    requires forall k | i <= k < end :: Single(pattern[k], value[k])
    ensures Scan(pattern, value, i, i, None, 0) == Scan(pattern, value, end, end, None, 0)
    decreases end - i
  {
    if i < end {
      LiteralWalk(pattern, value, i + 1, end);
    }
  }

  /** A value that spells the pattern out byte by byte. */
  function Fill(pattern: Bytes): (value: Bytes)
    ensures |value| == |pattern|
    ensures forall i | 0 <= i < |pattern| :: value[i] == if pattern[i] == QUESTION then FILLER else pattern[i]
  {
    seq(|pattern|, i requires 0 <= i < |pattern| => if pattern[i] == QUESTION then FILLER else pattern[i])
  }

  lemma {:induction false} FilledPrefixMatches(pattern: Bytes, rest: Bytes, tail: Bytes)
    requires Matches(rest, tail)
    ensures Matches(pattern + rest, Fill(pattern) + tail)
  {
    if pattern == [] {
      assert pattern + rest == rest && Fill(pattern) + tail == tail;
    } else {
      FilledPrefixMatches(pattern[1..], rest, tail);
      var p, v := pattern + rest, Fill(pattern) + tail;
      assert p[1..] == pattern[1..] + rest;
      assert Fill(pattern)[1..] == Fill(pattern[1..]);
      assert v[1..] == Fill(pattern[1..]) + tail;
      if p[0] == STAR {
        assert Matches(p, v[1..]);
      }
    }
  }

  lemma {:induction false} LastStar(pattern: Bytes) returns (at: nat)
    requires STAR in pattern
    ensures at < |pattern| && pattern[at] == STAR && STAR !in pattern[at + 1..]
  {
    if pattern[|pattern| - 1] == STAR {
      at := |pattern| - 1;
    } else {
      var init := pattern[..|pattern| - 1];
      assert pattern == init + [pattern[|pattern| - 1]];
      at := LastStar(init);
      assert pattern[at + 1..] == init[at + 1..] + [pattern[|pattern| - 1]];
    }
  }

  /** The last star can stand for everything up to the final repetition. */
  lemma StarCoversRepetition(after: Bytes)
    ensures Matches([STAR] + after, [STAR] + Fill(after) + [FILLER] + Fill(after))
  {
    var pattern, value := [STAR] + after, [STAR] + Fill(after) + [FILLER] + Fill(after);
    FilledPrefixMatches(after, [], []);
    assert after + [] == after && Fill(after) + [] == Fill(after);
    assert pattern[1..] == after;
    assert value[|after| + 2..] == Fill(after);
    StarAbsorbs(pattern, value, 0, |after| + 2);
    assert value[0..] == value;
  }

  lemma MissedValue(pattern: Bytes) returns (value: Bytes)
    requires STAR in pattern
    ensures Matches(pattern, value) && !Accepts(pattern, value)
  {
    var at := LastStar(pattern);
    var before, after := pattern[..at], pattern[at + 1..];
    var tail := [STAR] + Fill(after) + [FILLER] + Fill(after);
    value := Fill(before) + tail;
    assert Matches(pattern, value) by {
      StarCoversRepetition(after);
      FilledPrefixMatches(before, [STAR] + after, tail);
      assert pattern == before + ([STAR] + after);
    }
    LiteralWalk(pattern, value, 0, |pattern|);
  }

  /** The scan answers every value correctly exactly for patterns without a star. */
  lemma CorrectForAllValues(pattern: Bytes)
    ensures (forall value :: Accepts(pattern, value) == Matches(pattern, value)) <==> STAR !in pattern
  {
    if STAR in pattern {
      var value := MissedValue(pattern);
      assert Accepts(pattern, value) != Matches(pattern, value);
    } else {
      forall value ensures Accepts(pattern, value) == Matches(pattern, value) {
        AcceptsIsExact(pattern, value);
      }
    }
  }

  lemma {:induction false} FirstStar(value: Bytes) returns (at: nat)
    requires STAR in value
    ensures at < |value| && value[at] == STAR && STAR !in value[..at]
  {
    if value[0] == STAR {
      at := 0;
    } else {
      assert value == [value[0]] + value[1..];
      var rest := FirstStar(value[1..]);
      at := rest + 1;
      assert value[..at] == [value[0]] + value[1..][..rest];
    }
  }

  function Questions(n: nat): (pattern: Bytes)
    ensures |pattern| == n && forall i | 0 <= i < n :: pattern[i] == QUESTION
  {
    seq(n, _ => QUESTION)
  }

  lemma {:induction false} QuestionsMatch(value: Bytes)
    ensures Matches(Questions(|value|), value)
  {
    if value != [] {
      QuestionsMatch(value[1..]);
      assert Questions(|value|)[1..] == Questions(|value| - 1);
    }
  }

  lemma {:induction false} SamePrefixMatches(prefix: Bytes, rest: Bytes, tail: Bytes)
    requires STAR !in prefix && Matches(rest, tail)
    ensures Matches(prefix + rest, prefix + tail)
  {
    if prefix == [] {
      assert prefix + rest == rest && prefix + tail == tail;
    } else {
      SamePrefixMatches(prefix[1..], rest, tail);
      assert (prefix + rest)[1..] == prefix[1..] + rest;
      assert (prefix + tail)[1..] == prefix[1..] + tail;
    }
  }

  lemma MissedPattern(value: Bytes) returns (pattern: Bytes)
    requires STAR in value
    ensures Matches(pattern, value) && !Accepts(pattern, value)
  {
    var at := FirstStar(value);
    var n := |value| - at;
    var rest := [STAR] + Questions(n);
    pattern := value[..at] + rest;
    LiteralWalk(pattern, value, 0, |value|);
    assert pattern[|value|..][0] == QUESTION;

    QuestionsMatch(value[at..]);
    assert rest[1..] == Questions(|value[at..]|);
    SamePrefixMatches(value[..at], rest, value[at..]);
    assert value == value[..at] + value[at..];
  }

  /** The scan answers every pattern correctly exactly for values without a star. */
  lemma CorrectForAllPatterns(value: Bytes)
    ensures (forall pattern :: Accepts(pattern, value) == Matches(pattern, value)) <==> STAR !in value
  {
    if STAR in value {
      var pattern := MissedPattern(value);
      assert Accepts(pattern, value) != Matches(pattern, value);
    } else {
      forall pattern ensures Accepts(pattern, value) == Matches(pattern, value) {
        AcceptsIsExact(pattern, value);
      }
    }
  }
}

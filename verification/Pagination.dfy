/**
 The append-only transcript of one agent and the two ways of paging through it:
 backwards from the newest message, and forwards after a reconnect.
 */
module Pagination {
  import opened Wrappers

  const I64_MAX: int := 0x7FFF_FFFF_FFFF_FFFF
  const MAX_PAGE: nat := 200

  datatype Row = Row(sequence: nat, message: string)

  /** Backward page: messages oldest first, and where the next older page starts. */
  datatype MessagePage = MessagePage(messages: seq<Row>, next: Option<nat>, hasMore: bool)

  /** Forward page handed out on rejoin. */
  datatype RejoinPage = RejoinPage(messages: seq<Row>, next: nat, hasMore: bool)

  ghost predicate Ascending(rows: seq<Row>) {
    && (forall i, j | 0 <= i < j < |rows| :: rows[i].sequence < rows[j].sequence)
    && (forall i | 0 <= i < |rows| :: 1 <= rows[i].sequence <= I64_MAX)
  }

  /** Only appends, always numbered above what was there. */
  ghost predicate Grows(before: seq<Row>, after: seq<Row>) {
    before <= after && Ascending(after)
  }

  function LastSequence(rows: seq<Row>): nat {
    if rows == [] then 0 else rows[|rows| - 1].sequence
  }

  function Min(a: int, b: int): int {
    if a < b then a else b
  }

  function Clamp(limit: nat): nat {
    if limit < 1 then 1 else if limit > MAX_PAGE then MAX_PAGE else limit
  }

  /** An absent bound is the largest unsigned value; both saturate to the largest signed one. */
  function Cutoff(before: Option<nat>): nat {
    if before.Some? then Min(before.value, I64_MAX) else I64_MAX
  }

  /** How many leading rows are numbered below the cutoff. */
  function CountBelow(rows: seq<Row>, cutoff: nat): (n: nat)
    ensures n <= |rows|
    ensures forall i | 0 <= i < n :: rows[i].sequence < cutoff
    ensures n < |rows| ==> rows[n].sequence >= cutoff
  {
    if rows == [] || rows[0].sequence >= cutoff then 0 else 1 + CountBelow(rows[1..], cutoff)
  }

  function Below(rows: seq<Row>, cutoff: nat): seq<Row> {
    rows[..CountBelow(rows, cutoff)]
  }

  function Above(rows: seq<Row>, after: nat): seq<Row> {
    rows[CountBelow(rows, after + 1)..]
  }

  /** The newest `limit` rows below the bound. */
  function PageBefore(rows: seq<Row>, before: Option<nat>, limit: nat): MessagePage {
    var older := Below(rows, Cutoff(before));
    var size := Min(Clamp(limit), |older|);
    var messages := older[|older| - size..];
    var hasMore := |older| > Clamp(limit);
    MessagePage(messages, if hasMore then Some(messages[0].sequence) else None, hasMore)
  }

  function PageAfter(rows: seq<Row>, after: nat): RejoinPage {
    var newer := Above(rows, Min(after, I64_MAX));
    var messages := newer[..Min(MAX_PAGE, |newer|)];
    RejoinPage(messages, if messages == [] then after else LastSequence(messages), |newer| > MAX_PAGE)
  }

  /**
   The page before a bound: the newest rows numbered below it, oldest first, as many as asked for but at least one and
   at most 200, and a cursor exactly if older ones are left.
   */
  ghost predicate NewestBefore(rows: seq<Row>, before: Option<nat>, limit: nat, page: MessagePage) {
    var bound := if before.Some? && before.value < I64_MAX then before.value else I64_MAX;
    var size := if limit == 0 then 1 else if limit > 200 then 200 else limit;
    exists start: nat, end: nat | start <= end <= |rows| ::
      && page.messages == rows[start..end]
      && (forall i | 0 <= i < end :: rows[i].sequence < bound) && (forall i | end <= i < |rows| :: rows[i].sequence >= bound)
      && |page.messages| == (if end < size then end else size)
      && (page.hasMore <==> start > 0) && page.next == if start > 0 then Some(rows[start].sequence) else None
  }

  /** The page after a bound: the next rows numbered above it, at most 200, and the number of the last of them. */
  ghost predicate NextAfter(rows: seq<Row>, after: nat, page: RejoinPage) {
    exists start: nat, end: nat | start <= end <= |rows| ::
      && page.messages == rows[start..end]
      && (forall i | 0 <= i < start :: rows[i].sequence <= after) && (forall i | start <= i < |rows| :: rows[i].sequence > after)
      && |page.messages| == (if |rows| - start < 200 then |rows| - start else 200)
      && (page.hasMore <==> end < |rows|) && page.next == if start < end then rows[end - 1].sequence else after
  }

  lemma PageBeforeIsNewest(rows: seq<Row>, before: Option<nat>, limit: nat)
    requires Ascending(rows)
    ensures NewestBefore(rows, before, limit, PageBefore(rows, before, limit))
  {
    var n, page := CountBelow(rows, Cutoff(before)), PageBefore(rows, before, limit);
    var start: nat := n - |page.messages|;
    assert page.messages == rows[start..n];
    forall i | 0 <= i < |rows| ensures i < n <==> rows[i].sequence < Cutoff(before) {
      BelowIsPrefix(rows, Cutoff(before), i);
    }
    hide Ascending, CountBelow;
  }

  lemma PageAfterIsNext(rows: seq<Row>, after: nat)
    requires Ascending(rows)
    ensures NextAfter(rows, after, PageAfter(rows, after))
  {
    var bound := Min(after, I64_MAX);
    var start, page := CountBelow(rows, bound + 1), PageAfter(rows, after);
    var end: nat := start + |page.messages|;
    assert page.messages == rows[start..end];
    forall i | 0 <= i < |rows| ensures i < start <==> rows[i].sequence <= after {
      BelowIsPrefix(rows, bound + 1, i);
      assert rows[i].sequence <= I64_MAX;
    }
    assert page.messages != [] ==> page.messages[|page.messages| - 1] == rows[end - 1];
    hide Ascending, CountBelow;
  }

  method Reverse(rows: seq<Row>) returns (reversed: seq<Row>)
    ensures |reversed| == |rows|
    ensures forall k | 0 <= k < |rows| :: reversed[k] == rows[|rows| - 1 - k]
  {
    reversed := rows;
    for k := 0 to |rows| / 2
      invariant |reversed| == |rows|
      invariant forall j | 0 <= j < k || |rows| - k <= j < |rows| :: reversed[j] == rows[|rows| - 1 - j]
      invariant forall j | k <= j < |rows| - k :: reversed[j] == rows[j]
    {
      var other := |rows| - 1 - k;
      reversed := reversed[k := reversed[other]][other := reversed[k]];
    }
  }

  class Transcript {
    var rows: seq<Row>

    ghost predicate Valid()
      reads this
    {
      Ascending(rows)
    }

    constructor ()
      ensures Valid() && rows == []
    {
      rows := [];
    }

    /** Fails only when the next number would not fit. */
    method AppendMessage(message: string) returns (ok: bool)
      requires Valid()
      modifies this
      ensures Valid() && Grows(old(rows), rows)
      ensures ok <==> LastSequence(old(rows)) < I64_MAX
      ensures rows == if ok then old(rows) + [Row(LastSequence(old(rows)) + 1, message)] else old(rows)
    {
      var sequence := LastSequence(rows) + 1;
      if sequence > I64_MAX {
        return false;
      }
      rows := rows + [Row(sequence, message)];
      return true;
    }

    /**
     Both messages of a failed launch are stored together or not at all.  Where their numbers do not fit nothing is
     stored, as when the additions are checked for overflow.
     */
    method PersistFailedAgent(userMessage: string, systemMessage: string) returns (ok: bool)
      requires Valid()
      modifies this
      ensures Valid() && Grows(old(rows), rows)
      ensures ok <==> LastSequence(old(rows)) + 1 < I64_MAX
      ensures var last := LastSequence(old(rows));
        rows == if ok then old(rows) + [Row(last + 1, userMessage), Row(last + 2, systemMessage)] else old(rows)
    {
      var last := LastSequence(rows);
      if last + 2 > I64_MAX {
        return false;
      }
      rows := rows + [Row(last + 1, userMessage), Row(last + 2, systemMessage)];
      return true;
    }

    method ListAgentMessages(before: Option<nat>, limit: nat) returns (page: MessagePage)
      requires Valid()
      ensures page == PageBefore(rows, before, limit)
      ensures NewestBefore(rows, before, limit, page)
    {
      PageBeforeIsNewest(rows, before, limit);
      hide Ascending, PageBefore, CountBelow, Below, NewestBefore, FoundBack;
      var size, cutoff := Clamp(limit), Cutoff(before);
      ghost var n := CountBelow(rows, cutoff);
      var newestFirst: seq<Row> := [];
      NothingBack(rows, n);
      var i := |rows|;
      while i > 0 && |newestFirst| < size + 1
        invariant 0 <= i <= |rows| && |newestFirst| <= size + 1
        invariant |newestFirst| == if i >= n then 0 else n - i
        invariant FoundBack(rows, n, newestFirst)
      {
        i := i - 1;
        BelowIsPrefix(rows, cutoff, i);
        if rows[i].sequence < cutoff {
          OneMoreBack(rows, n, newestFirst);
          newestFirst := newestFirst + [rows[i]];
        }
      }
      var hasMore := |newestFirst| > size;
      if hasMore {
        ShorterBack(rows, n, newestFirst, size);
        newestFirst := newestFirst[..size];
      }
      var oldestFirst := Reverse(newestFirst);
      ReversedIsPage(rows, before, limit, newestFirst, oldestFirst, hasMore);
      var next := if hasMore then Some(oldestFirst[0].sequence) else None;
      page := MessagePage(oldestFirst, next, hasMore);
    }

    method AgentMessagesAfter(after: nat) returns (page: RejoinPage)
      requires Valid()
      ensures page == PageAfter(rows, after)
      ensures NextAfter(rows, after, page)
    {
      PageAfterIsNext(rows, after);
      hide Ascending, PageAfter, CountBelow, NextAfter, FoundFrom;
      var bound := Min(after, I64_MAX);
      ghost var start := CountBelow(rows, bound + 1);
      var found: seq<Row> := [];
      NothingFound(rows, start);
      var i := 0;
      while i < |rows| && |found| < MAX_PAGE + 1
        invariant 0 <= i <= |rows| && |found| <= MAX_PAGE + 1
        invariant |found| == if i <= start then 0 else i - start
        invariant FoundFrom(rows, start, found)
      {
        BelowIsPrefix(rows, bound + 1, i);
        if rows[i].sequence > bound {
          OneMoreFound(rows, start, found);
          found := found + [rows[i]];
        }
        i := i + 1;
      }
      FoundIsPage(rows, after, found, i);
      var hasMore := |found| > MAX_PAGE;
      found := found[..Min(MAX_PAGE, |found|)];
      page := RejoinPage(found, if found == [] then after else LastSequence(found), hasMore);
    }
  }

  lemma BelowIsPrefix(rows: seq<Row>, cutoff: nat, i: nat)
    requires Ascending(rows) && i < |rows|
    ensures rows[i].sequence < cutoff <==> i < CountBelow(rows, cutoff)
  {
  }

  /** What was found lies before `n` in the rows, newest first. */
  ghost predicate FoundBack(rows: seq<Row>, n: nat, found: seq<Row>) {
    |found| <= n <= |rows| && forall k | 0 <= k < |found| :: found[k] == rows[n - 1 - k]
  }

  lemma NothingBack(rows: seq<Row>, n: nat)
    requires n <= |rows|
    ensures FoundBack(rows, n, [])
  {
  }

  lemma OneMoreBack(rows: seq<Row>, n: nat, found: seq<Row>)
    requires FoundBack(rows, n, found) && |found| < n
    ensures FoundBack(rows, n, found + [rows[n - 1 - |found|]])
  {
  }

  lemma ShorterBack(rows: seq<Row>, n: nat, found: seq<Row>, size: nat)
    requires FoundBack(rows, n, found) && size <= |found|
    ensures FoundBack(rows, n, found[..size])
  {
  }

  lemma ReversedIsPage(rows: seq<Row>, before: Option<nat>, limit: nat, found: seq<Row>, messages: seq<Row>, hasMore: bool)
    requires var n := CountBelow(rows, Cutoff(before));
      && |found| == Min(n, Clamp(limit)) && (hasMore <==> n > Clamp(limit)) && FoundBack(rows, n, found)
    requires |messages| == |found| && forall k | 0 <= k < |found| :: messages[k] == found[|found| - 1 - k]
    ensures PageBefore(rows, before, limit) == MessagePage(messages, if hasMore then Some(messages[0].sequence) else None, hasMore)
  {
    hide Ascending, CountBelow;
    var n := CountBelow(rows, Cutoff(before));
    assert rows[..n][n - |messages|..] == messages;
  }

  lemma FoundIsPage(rows: seq<Row>, after: nat, found: seq<Row>, i: nat)
    requires i <= |rows| && (i == |rows| || |found| > MAX_PAGE) && |found| <= MAX_PAGE + 1
    requires var start := CountBelow(rows, Min(after, I64_MAX) + 1);
      |found| == (if i <= start then 0 else i - start) && FoundFrom(rows, start, found)
    ensures var messages := found[..Min(MAX_PAGE, |found|)];
      PageAfter(rows, after) == RejoinPage(messages, if messages == [] then after else LastSequence(messages), |found| > MAX_PAGE)
  {
    hide Ascending, CountBelow;
    var newer := Above(rows, Min(after, I64_MAX));
    assert found == newer[..|found|];
  }

  /** What was found lies at `start` in the rows. */
  ghost predicate FoundFrom(rows: seq<Row>, start: nat, found: seq<Row>) {
    start + |found| <= |rows| && forall k | 0 <= k < |found| :: found[k] == rows[start + k]
  }

  lemma NothingFound(rows: seq<Row>, start: nat)
    requires start <= |rows|
    ensures FoundFrom(rows, start, [])
  {
  }

  lemma OneMoreFound(rows: seq<Row>, start: nat, found: seq<Row>)
    requires FoundFrom(rows, start, found) && start + |found| < |rows|
    ensures FoundFrom(rows, start, found + [rows[start + |found|]])
  {
  }

  lemma CountUnique(rows: seq<Row>, cutoff: nat, n: nat)
    requires Ascending(rows) && n <= |rows|
    requires n > 0 ==> rows[n - 1].sequence < cutoff
    requires n < |rows| ==> rows[n].sequence >= cutoff
    ensures CountBelow(rows, cutoff) == n
  {
    if n > 0 { BelowIsPrefix(rows, cutoff, n - 1); }
    if n < |rows| { BelowIsPrefix(rows, cutoff, n); }
  }

  // ---- Backwards, while the log grows ----

  /** The log as seen by successive calls. */
  ghost predicate GrowingLog(log: nat -> seq<Row>) {
    Ascending(log(0)) && forall n: nat :: GrewFromFirst(log, n)
  }

  ghost predicate GrewFromFirst(log: nat -> seq<Row>, n: nat) {
    Grows(log(0), log(n))
  }

  /** The pages of call `n` onwards, joined oldest first, until one reports no more. */
  ghost function FollowBack(log: nat -> seq<Row>, n: nat, before: Option<nat>, limit: nat): seq<Row>
    requires GrowingLog(log)
    decreases Cutoff(before), if before.None? then 1 else 0
  {
    var page := PageBefore(log(n), before, limit);
    assert GrewFromFirst(log, n);
    if page.hasMore then FollowBack(log, n + 1, page.next, limit) + page.messages else page.messages
  }

  /** Rows appended later are numbered above every bound taken from the first call. */
  lemma BelowIgnoresAppends(first: seq<Row>, later: seq<Row>, cutoff: nat)
    requires Grows(first, later) && Ascending(first)
    requires cutoff <= LastSequence(first) || first == later
    ensures Below(later, cutoff) == Below(first, cutoff)
  {
    var n := CountBelow(first, cutoff);
    if first != [] {
      BelowIsPrefix(first, cutoff, |first| - 1);
    }
    if first != later {
      CountUnique(later, cutoff, n);
    }
  }

  lemma {:induction false} FollowBackFrom(log: nat -> seq<Row>, n: nat, before: Option<nat>, limit: nat)
    requires GrowingLog(log)
    requires n == 0 || Cutoff(before) <= LastSequence(log(0))
    ensures FollowBack(log, n, before, limit) == Below(log(0), Cutoff(before))
    decreases Cutoff(before), if before.None? then 1 else 0
  {
    hide Ascending, Below;
    assert GrewFromFirst(log, n);
    GrowsIsAscending(log(0), log(n));
    BelowIgnoresAppends(log(0), log(n), Cutoff(before));
    var page := PageBefore(log(n), before, limit);
    if page.hasMore {
      NextPageStartsWhereThisEnds(log(0), log(n), before, limit);
      FollowBackFrom(log, n + 1, page.next, limit);
    }
  }

  lemma GrowsIsAscending(before: seq<Row>, after: seq<Row>)
    requires Grows(before, after)
    ensures Ascending(after) && Ascending(before)
  {
  }

  lemma NextPageStartsWhereThisEnds(first: seq<Row>, later: seq<Row>, before: Option<nat>, limit: nat)
    requires Ascending(first) && Below(later, Cutoff(before)) == Below(first, Cutoff(before))
    requires PageBefore(later, before, limit).hasMore
    ensures var page := PageBefore(later, before, limit);
      && Cutoff(page.next) <= LastSequence(first)
      && Cutoff(page.next) < Cutoff(before)
      && Below(first, Cutoff(page.next)) + page.messages == Below(first, Cutoff(before))
  {
    var older := Below(first, Cutoff(before));
    var k := |older| - Clamp(limit);
    assert older[k] == first[k];
    CountUnique(first, older[k].sequence, k);
    assert older[..k] + older[k..] == older && first[..k] == older[..k];
  }

  /**
   Following the backward pages from the start gives the transcript of the first
   call, whole and in order, exactly when no row carries the largest number.
   */
  lemma FollowBackIsTranscript(log: nat -> seq<Row>, limit: nat)
    requires GrowingLog(log)
    ensures FollowBack(log, 0, None, limit) == log(0) <==> LastSequence(log(0)) < I64_MAX
  {
    FollowBackFrom(log, 0, None, limit);
    var rows := log(0);
    var n := CountBelow(rows, I64_MAX);
    if rows != [] {
      BelowIsPrefix(rows, I64_MAX, |rows| - 1);
    }
    assert n == |rows| ==> rows[..n] == rows;
    assert n < |rows| ==> |rows[..n]| < |rows|;
  }

  // ---- Forwards, while the log grows ----

  ghost predicate GrowingForever(log: nat -> seq<Row>) {
    Ascending(log(0)) && forall n: nat :: GrowsAt(log, n)
  }

  ghost predicate GrowsAt(log: nat -> seq<Row>, n: nat) {
    Grows(log(n), log(n + 1))
  }

  ghost function NextBound(log: nat -> seq<Row>, after: nat, calls: nat): nat {
    if calls == 0 then after else PageAfter(log(calls - 1), NextBound(log, after, calls - 1)).next
  }

  /** The first `calls` forward pages joined. */
  ghost function FollowForward(log: nat -> seq<Row>, after: nat, calls: nat): seq<Row> {
    if calls == 0 then []
    else FollowForward(log, after, calls - 1) + PageAfter(log(calls - 1), NextBound(log, after, calls - 1)).messages
  }

  lemma {:induction false} AscendingAlways(log: nat -> seq<Row>, n: nat)
    requires GrowingForever(log)
    ensures Ascending(log(n))
  {
    if n > 0 {
      AscendingAlways(log, n - 1);
      assert GrowsAt(log, n - 1);
    }
  }

  lemma AboveStaysAPrefix(before: seq<Row>, later: seq<Row>, after: nat, joined: seq<Row>)
    requires Grows(before, later) && joined <= Above(before, after)
    ensures joined <= Above(later, after)
  {
    var n := CountBelow(before, after + 1);
    if n < |before| {
      CountUnique(later, after + 1, n);
      assert later[n..] == before[n..] + later[|before|..];
    }
  }

  /** The log as of the latest call, or of the first one before any call. */
  ghost function Latest(log: nat -> seq<Row>, calls: nat): seq<Row> {
    log(if calls == 0 then 0 else calls - 1)
  }

  lemma LatestGrows(log: nat -> seq<Row>, n: nat)
    requires GrowingForever(log)
    ensures Grows(Latest(log, n), log(n)) && Ascending(log(n))
  {
    AscendingAlways(log, n);
    if n > 0 {
      assert GrowsAt(log, n - 1);
    }
  }

  /** What is left after the joined pages starts right behind the last one of them. */
  lemma {:induction false} FollowForwardJoined(log: nat -> seq<Row>, after: nat, calls: nat)
    requires GrowingForever(log) && after < I64_MAX
    ensures FollowForward(log, after, calls) <= Above(Latest(log, calls), after)
    ensures NextBound(log, after, calls) == BoundAfter(after, FollowForward(log, after, calls))
  {
    hide Ascending, Above, PageAfter;
    if calls > 0 {
      var n := calls - 1;
      FollowForwardJoined(log, after, n);
      LatestGrows(log, n);
      AboveStaysAPrefix(Latest(log, n), log(n), after, FollowForward(log, after, n));
      ContinueAfter(log(n), after, FollowForward(log, after, n));
    } else {
      NothingIsAPrefix(log(0), after);
    }
  }

  lemma NothingIsAPrefix(rows: seq<Row>, after: nat)
    ensures [] <= Above(rows, after)
  {
  }

  ghost function BoundAfter(after: nat, joined: seq<Row>): nat {
    if joined == [] then after else LastSequence(joined)
  }

  lemma AboveContinues(rows: seq<Row>, after: nat, joined: seq<Row>)
    requires Ascending(rows) && after < I64_MAX && joined <= Above(rows, after)
    ensures BoundAfter(after, joined) <= I64_MAX
    ensures Above(rows, BoundAfter(after, joined)) == Above(rows, after)[|joined|..]
  {
    var start, bound := CountBelow(rows, after + 1), BoundAfter(after, joined);
    if joined != [] {
      var last := start + |joined| - 1;
      assert rows[last] == joined[|joined| - 1];
      CountUnique(rows, bound + 1, last + 1);
    }
  }

  lemma TakeMore(all: seq<Row>, joined: seq<Row>, n: nat)
    requires joined <= all && n <= |all| - |joined|
    ensures joined + all[|joined|..][..n] == all[..|joined| + n]
    ensures all[..|all|] == all
  {
  }

  lemma ContinueAfter(rows: seq<Row>, after: nat, joined: seq<Row>)
    requires Ascending(rows) && after < I64_MAX && joined <= Above(rows, after)
    ensures var page := PageAfter(rows, BoundAfter(after, joined));
      && joined + page.messages <= Above(rows, after)
      && page.next == BoundAfter(after, joined + page.messages)
      && (!page.hasMore ==> joined + page.messages == Above(rows, after))
  {
    hide Above, Ascending, CountBelow;
    AboveContinues(rows, after, joined);
    var all := Above(rows, after);
    var n := Min(MAX_PAGE, |all| - |joined|);
    TakeMore(all, joined, n);
    var page := PageAfter(rows, BoundAfter(after, joined));
    assert page.messages == all[|joined|..][..n];
    LastOfJoined(joined, page.messages);
    hide PageAfter;
  }

  lemma LastOfJoined(joined: seq<Row>, more: seq<Row>)
    ensures more != [] ==> LastSequence(joined + more) == LastSequence(more)
    ensures more == [] ==> joined + more == joined
  {
  }

  /** Nothing is numbered above the greatest number. */
  lemma {:induction false} NothingFollowsTheGreatest(log: nat -> seq<Row>, after: nat, calls: nat)
    requires GrowingForever(log) && after >= I64_MAX
    ensures FollowForward(log, after, calls) == [] && NextBound(log, after, calls) == after
    ensures Above(log(calls), after) == []
  {
    AscendingAlways(log, calls);
    NothingAbove(log(calls), after);
    if calls > 0 {
      NothingFollowsTheGreatest(log, after, calls - 1);
      AscendingAlways(log, calls - 1);
      NothingAbove(log(calls - 1), I64_MAX);
    }
  }

  lemma NothingAbove(rows: seq<Row>, after: nat)
    requires Ascending(rows) && after >= I64_MAX
    ensures Above(rows, after) == []
  {
    if rows != [] {
      BelowIsPrefix(rows, after + 1, |rows| - 1);
    }
  }

  /**
   A forward page that reports no more completes everything after the starting point, whatever that is, including
   late appends.
   */
  lemma FollowForwardIsComplete(log: nat -> seq<Row>, after: nat, calls: nat)
    requires GrowingForever(log) && calls > 0
    requires !PageAfter(log(calls - 1), NextBound(log, after, calls - 1)).hasMore
    ensures FollowForward(log, after, calls) == Above(log(calls - 1), after)
  {
    hide Ascending, Above, PageAfter;
    var n := calls - 1;
    if after >= I64_MAX {
      NothingFollowsTheGreatest(log, after, calls);
      NothingFollowsTheGreatest(log, after, n);
    } else {
      FollowForwardJoined(log, after, n);
      LatestGrows(log, n);
      AboveStaysAPrefix(Latest(log, n), log(n), after, FollowForward(log, after, n));
      ContinueAfter(log(n), after, FollowForward(log, after, n));
    }
  }
}

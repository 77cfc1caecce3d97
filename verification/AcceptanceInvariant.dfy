/**
 What every step of the acceptance loop, and of everybody around it, keeps: the chain of
 attempts, the grounds of submissions, what the loop knows of its row, and the accepts in flight.
 */
module AcceptanceInvariant {
  import opened Wrappers
  import opened TaskWorkflow
  import opened AcceptanceLoop
  import TaskStore

  // ---- What every step keeps ----

  ghost predicate IdsSound(attempts: seq<Attempt>, submissions: seq<Submission>, cycles: map<Uuid, CycleInfo>, used: set<Uuid>) {
    && (forall k | 0 <= k < |attempts| :: attempts[k].id in used && attempts[k].cycle in used)
    && (forall j, k | 0 <= j < k < |attempts| :: attempts[j].id != attempts[k].id)
    && (forall k | 0 <= k < |submissions| :: submissions[k].id in used)
    && (forall j, k | 0 <= j < k < |submissions| :: submissions[j].id != submissions[k].id)
    && cycles.Keys <= used
  }

  /** An attempt that was retried failed, ended with the workspace the retry started from, and carried no approval the loop knew of. */
  ghost predicate RetriedBy(p: Attempt, a: Attempt, late: set<Uuid>) {
    && p.cycle == a.cycle && p.ordinal + 1 == a.ordinal && p.result.Failed?
    && p.workspace.Some? && p.workspace.value.fingerprint == a.base.fingerprint
    && (p.approvals == [] <==> p.id !in late)
  }

  /** One conclusive item of evidence for each criterion, in order, and none that forbids submission. */
  ghost predicate Evidenced(validators: seq<Evidence>, criteria: seq<Criterion>) {
    && |validators| <= |criteria|
    && forall k | 0 <= k < |validators| ::
      validators[k].criterion == criteria[k] && !validators[k].status.InfrastructureError? && !validators[k].status.Cancelled?
  }

  ghost predicate NoneFails(validators: seq<Evidence>) {
    forall k | 0 <= k < |validators| :: !FailsRequired(validators[k])
  }

  function FailureText(a: Attempt): string {
    Joined(FailureNotes(a.validators))
  }

  /**
   A failed attempt is retried only under a policy that retries, after all of its checks, with HEAD unchanged, with a
   change if one is required, and, unless a coordinator waits for a report, because a required check really failed.
  */
  ghost predicate WarrantsRetry(p: Attempt, info: CycleInfo) {
    && info.policy.enabled && !info.validationOnly
    && |p.validators| == |info.criteria| && Evidenced(p.validators, info.criteria)
    && p.workspace.Some? && p.base.head == p.workspace.value.head
    && (info.policy.requireChange ==> p.base.fingerprint != p.workspace.value.fingerprint)
    && (!info.coordinated ==> HasSummary(p) && !NoneFails(p.validators))
  }

  /** Two failures in a row differ where the policy stops on identical ones. */
  ghost predicate Differ(p: Attempt, q: Attempt, info: CycleInfo) {
    info.policy.stopOnIdenticalFailure && !info.coordinated ==> FailureText(p) != FailureText(q)
  }

  ghost predicate ChainAt(attempts: seq<Attempt>, cycles: map<Uuid, CycleInfo>, late: set<Uuid>, k: nat)
    requires k < |attempts|
  {
    var a := attempts[k];
    && a.cycle in cycles && 1 <= a.ordinal <= cycles[a.cycle].budget <= MAX_POLICY_ATTEMPTS
    && (if a.ordinal == 1 then forall j | 0 <= j < k :: attempts[j].cycle != a.cycle
        else
          && k > 0 && RetriedBy(attempts[k - 1], a, late) && WarrantsRetry(attempts[k - 1], cycles[a.cycle])
          && (a.ordinal > 2 ==> k > 1 && Differ(attempts[k - 2], attempts[k - 1], cycles[a.cycle])))
  }

  ghost predicate Chained(attempts: seq<Attempt>, cycles: map<Uuid, CycleInfo>, late: set<Uuid>) {
    forall k | 0 <= k < |attempts| :: ChainAt(attempts, cycles, late, k)
  }

  /** The attempt is a valid ground for the submission. */
  ghost predicate Grounds(a: Attempt, cycles: map<Uuid, CycleInfo>, s: Submission) {
    && a.id == s.attempt && a.result.Passed? && a.validators == s.criteria && a.summary == Some(s.summary) && !Blank(s.summary)
    && a.cycle in cycles && |s.criteria| == |cycles[a.cycle].criteria|
    && Evidenced(s.criteria, cycles[a.cycle].criteria) && NoneFails(s.criteria)
    && a.workspace.Some? && a.base.head == a.workspace.value.head && a.workspace.value.fingerprint == s.workspace.fingerprint
  }

  ghost predicate Grounded(attempts: seq<Attempt>, cycles: map<Uuid, CycleInfo>, s: Submission) {
    exists j | 0 <= j < |attempts| :: Grounds(attempts[j], cycles, s)
  }

  ghost predicate SubmissionsSound(attempts: seq<Attempt>, submissions: seq<Submission>, cycles: map<Uuid, CycleInfo>) {
    forall k | 0 <= k < |submissions| :: Grounded(attempts, cycles, submissions[k])
  }

  predicate Bounded(attempts: seq<Attempt>, submissions: seq<Submission>) {
    |attempts| <= HISTORY_LIMIT && |submissions| <= HISTORY_LIMIT
  }

  /** Does the loop have an attempt that may still be active? */
  predicate Holding(l: Loop) {
    l.pc.Launching? || l.pc.Waiting? || l.pc.Measuring? || l.pc.Checking? || l.pc.Blocking?
  }

  ghost predicate ActiveOnlyIn(attempts: seq<Attempt>, holding: bool) {
    forall k | 0 <= k < |attempts| && attempts[k].result.Active() :: holding && k == |attempts| - 1
  }

  predicate InCycle(l: Loop) {
    !l.pc.Entering? && !l.pc.Blocking? && !l.pc.Ended?
  }

  ghost predicate CycleKnown(l: Loop, cycles: map<Uuid, CycleInfo>, used: set<Uuid>) {
    && l.setup.cycle in cycles && l.setup.cycle in used
    && cycles[l.setup.cycle] == l.setup.Info()
    && l.setup.initial.config.Valid() && 1 <= l.ordinal <= l.setup.Budget() <= MAX_POLICY_ATTEMPTS
  }

  /** The loop remembers what the attempt before the one in hand failed with. */
  ghost predicate Remembers(l: Loop, p: Attempt) {
    !l.setup.initial.coordinated ==> l.previousFailure == Some(FailureText(p))
  }

  /** Between two attempts: nothing of this cycle yet, or the previous attempt failed and left its workspace expected. */
  ghost predicate Between(l: Loop, attempts: seq<Attempt>, late: set<Uuid>) {
    if l.ordinal == 1 then l.expected.None? && forall k | 0 <= k < |attempts| :: attempts[k].cycle != l.setup.cycle
    else
      && attempts != []
      && var last := attempts[|attempts| - 1];
      && last.cycle == l.setup.cycle && last.ordinal + 1 == l.ordinal && last.result.Failed? && last.workspace.Some?
      && l.expected == Some(last.workspace.value.fingerprint) && (last.approvals == [] <==> last.id !in late)
      && WarrantsRetry(last, l.setup.Info()) && Remembers(l, last)
      && (l.ordinal > 2 ==> |attempts| > 1 && Differ(attempts[|attempts| - 2], last, l.setup.Info()))
  }

  /** The last stored attempt is the loop's. */
  ghost predicate Holds(l: Loop, a: Attempt, attempts: seq<Attempt>) {
    && attempts != []
    && var last := attempts[|attempts| - 1];
    && last.id == a.id && last.cycle == a.cycle == l.setup.cycle && last.ordinal == a.ordinal == l.ordinal && last.base == a.base
    && (l.ordinal > 1 ==> |attempts| > 1 && Remembers(l, attempts[|attempts| - 2]))
  }

  /** ... and is stored as the loop knows it, but for approvals. */
  ghost predicate Stored(l: Loop, a: Attempt, attempts: seq<Attempt>) {
    Holds(l, a, attempts) && attempts[|attempts| - 1] == a.(approvals := attempts[|attempts| - 1].approvals)
  }

  /** The approvals stored are those the loop knows, unless one came late. */
  ghost predicate Known(a: Attempt, attempts: seq<Attempt>, late: set<Uuid>)
    requires attempts != []
  {
    if a.id in late then attempts[|attempts| - 1].approvals != [] else attempts[|attempts| - 1].approvals == a.approvals
  }

  ghost predicate LoopSound(l: Loop, attempts: seq<Attempt>, cycles: map<Uuid, CycleInfo>, late: set<Uuid>) {
    match l.pc
    case Capturing => Between(l, attempts, late)
    case Rotating(base) =>
      Between(l, attempts, late) && l.ordinal > 1 && |attempts| < HISTORY_LIMIT && (l.expected.Some? ==> l.expected.value == base.fingerprint)
    case Queueing(base) =>
      Between(l, attempts, late) && |attempts| < HISTORY_LIMIT && (l.expected.Some? ==> l.expected.value == base.fingerprint)
    case Launching(a) =>
      Stored(l, a, attempts) && a.result.Active() && a.workspace.None? && a.validators == [] && a.id !in late
    case Waiting(a) =>
      Stored(l, a, attempts) && a.result.Active() && a.workspace.None? && a.validators == [] && a.id !in late
    case Measuring(a) =>
      Holds(l, a, attempts) && attempts[|attempts| - 1].result.Active() && a.validators == [] && Known(a, attempts, late)
    case Checking(a) =>
      && Stored(l, a, attempts) && a.result.Active() && Known(a, attempts, late)
      && a.workspace.Some? && a.base.head == a.workspace.value.head && Evidenced(a.validators, l.setup.Criteria())
    case Submitting(a, current) =>
      && Stored(l, a, attempts) && a.result.Passed?
      && a.workspace.Some? && a.base.head == a.workspace.value.head && a.workspace.value.fingerprint == current.fingerprint
      && |a.validators| == |l.setup.Criteria()| && Evidenced(a.validators, l.setup.Criteria()) && NoneFails(a.validators)
      && HasSummary(a)
    case Concluding(a, failure, current) =>
      && Stored(l, a, attempts) && a.result.Failed? && Known(a, attempts, late)
      && a.workspace.Some? && a.base.head == a.workspace.value.head && a.workspace.value.fingerprint == current.fingerprint
      && |a.validators| == |l.setup.Criteria()| && Evidenced(a.validators, l.setup.Criteria())
      && (!l.setup.initial.coordinated ==>
            failure == FailureText(a) && (Automatic(a.validators) && HasSummary(a) ==> !NoneFails(a.validators)))
    case _ => true
  }

  ghost predicate LoopInvariant(m: Machine) {
    m.loop.Some? ==>
      && (InCycle(m.loop.value) ==> CycleKnown(m.loop.value, m.cycles, m.used) && |m.task.submissions| < HISTORY_LIMIT)
      && LoopSound(m.loop.value, m.task.attempts, m.cycles, m.late)
      && m.launch.None?
  }

  ghost predicate LateKnown(late: set<Uuid>, used: set<Uuid>) {
    late <= used
  }

  ghost predicate QuietWhenSaved(m: Machine) {
    !m.blockLost ==> ActiveOnlyIn(m.task.attempts, m.loop.Some? && Holding(m.loop.value))
  }

  /** While a loop runs or is about to, the row says so. */
  predicate RowLive(m: Machine) {
    && (m.launch.Some? ==> m.loop.None? && m.task.condition.Queued? && m.task.assignedAgent.Some?)
    && (m.loop.Some? ==> !m.task.WaitingInQueue())
    && (m.loop.Some? && !m.loop.value.pc.Ended? && !Parted(m.task, m.loop.value) ==>
          m.task.condition.Live() && m.task.assignedAgent == Some(m.loop.value.owner))
  }

  /** The loop has moved to a new agent id, could not save that, and is about to block the task of the old one. */
  predicate Parted(t: Task, l: Loop) {
    l.pc.Blocking? && t.assignedAgent != Some(l.owner)
  }

  /** When the loop parts from the row's agent, its own last attempt is not active, and no other unless one was lost. */
  predicate PartedQuiet(m: Machine) {
    m.loop.Some? && Parted(m.task, m.loop.value) ==>
      && (m.task.attempts != [] ==> !m.task.attempts[|m.task.attempts| - 1].result.Active())
      && (!m.blockLost ==> !SomeActive(m.task.attempts))
  }

  /** An accept in flight either still has the current task before it, outside any loop, or an older revision of it. */
  predicate ReviewSound(m: Machine, r: Review) {
    && r.snapshot.revision <= m.task.revision
    && (r.snapshot.revision == m.task.revision ==>
          && r.snapshot == m.task && m.loop.None? && m.launch.None?
          && !m.task.condition.Live() && m.task.CurrentColumn().InReview?)
    && (r.prepared.Some? ==>
          && Transition(r.snapshot, Accept, User, r.snapshot.revision, false).Ok?
          && r.prepared.value == Transition(r.snapshot, Accept, User, r.snapshot.revision, false).value.0)
  }

  predicate ReviewsSound(m: Machine) {
    forall key | key in m.reviews :: ReviewSound(m, m.reviews[key])
  }

  /** What concerns the stored history and the loop's knowledge of it. */
  ghost predicate Invariant(m: Machine) {
    && IdsSound(m.task.attempts, m.task.submissions, m.cycles, m.used)
    && Chained(m.task.attempts, m.cycles, m.late)
    && SubmissionsSound(m.task.attempts, m.task.submissions, m.cycles)
    && Bounded(m.task.attempts, m.task.submissions)
    && LoopInvariant(m) && LateKnown(m.late, m.used) && QuietWhenSaved(m)
  }

  // ---- How attempts evolve ----

  predicate SameIdentity(a: Attempt, b: Attempt) {
    a.id == b.id && a.cycle == b.cycle && a.ordinal == b.ordinal && a.base == b.base
  }

  /** Attempts keep their identity and their approvals, finished ones do not change at all, and new ones only follow. */
  ghost predicate Evolved(before: seq<Attempt>, after: seq<Attempt>) {
    && |before| <= |after|
    && forall k | 0 <= k < |before| ::
      && SameIdentity(before[k], after[k]) && (!before[k].result.Active() ==> after[k] == before[k])
      && forall x | x in before[k].approvals :: x in after[k].approvals
  }

  lemma EvolvedKeepsChain(before: seq<Attempt>, after: seq<Attempt>, cycles: map<Uuid, CycleInfo>, late: set<Uuid>)
    requires Chained(before, cycles, late) && Evolved(before, after) && |before| == |after|
    ensures Chained(after, cycles, late)
  {
    forall k | 0 <= k < |after| ensures ChainAt(after, cycles, late, k) {
      assert ChainAt(before, cycles, late, k);
      assert k > 0 ==> ChainAt(before, cycles, late, k - 1);
    }
  }

  lemma EvolvedKeepsIds(before: seq<Attempt>, after: seq<Attempt>, submissions: seq<Submission>,
                        cycles: map<Uuid, CycleInfo>, used: set<Uuid>)
    requires IdsSound(before, submissions, cycles, used) && Evolved(before, after) && |before| == |after|
    ensures IdsSound(after, submissions, cycles, used)
  {
    forall j, k | 0 <= j < k < |after| ensures after[j].id != after[k].id {
      assert SameIdentity(before[j], after[j]) && SameIdentity(before[k], after[k]);
    }
  }

  lemma EvolvedKeepsSubmissions(before: seq<Attempt>, after: seq<Attempt>, submissions: seq<Submission>, cycles: map<Uuid, CycleInfo>)
    requires SubmissionsSound(before, submissions, cycles) && Evolved(before, after)
    ensures SubmissionsSound(after, submissions, cycles)
  {
    forall k | 0 <= k < |submissions| ensures Grounded(after, cycles, submissions[k]) {
      var j :| 0 <= j < |before| && Grounds(before[j], cycles, submissions[k]);
      assert after[j] == before[j];
    }
  }

  /** An approval that arrives after the copy concerns the attempt in hand, which nothing has retried. */
  lemma LateKeepsChain(attempts: seq<Attempt>, cycles: map<Uuid, CycleInfo>, late: set<Uuid>, used: set<Uuid>,
                       submissions: seq<Submission>)
    requires Chained(attempts, cycles, late) && attempts != [] && IdsSound(attempts, submissions, cycles, used)
    ensures Chained(attempts, cycles, late + {attempts[|attempts| - 1].id})
  {
    var later := late + {attempts[|attempts| - 1].id};
    forall k | 0 <= k < |attempts| ensures ChainAt(attempts, cycles, later, k) {
      assert ChainAt(attempts, cycles, late, k);
      assert k > 0 ==> attempts[k - 1].id != attempts[|attempts| - 1].id;
    }
  }

  lemma {:induction false} MergingWhatIsKnown(known: seq<Uuid>, stored: seq<Uuid>)
    requires forall x | x in stored :: x in known
    ensures MergedApprovals(known, stored) == known
  {
    if stored != [] {
      MergingWhatIsKnown(known, stored[..|stored| - 1]);
    }
  }

  lemma {:induction false} MergingSomething(known: seq<Uuid>, stored: seq<Uuid>)
    ensures stored != [] ==> MergedApprovals(known, stored) != []
    ensures known != [] ==> MergedApprovals(known, stored) != []
  {
    if stored != [] {
      MergingSomething(known, stored[..|stored| - 1]);
    }
  }

  /** Storing the attempt in hand replaces the last row, which is never a finished one. */
  lemma UpdatedInPlace(t: Task, a: Attempt, submissions: seq<Submission>, cycles: map<Uuid, CycleInfo>, used: set<Uuid>)
    requires IdsSound(t.attempts, submissions, cycles, used) && t.attempts != []
    requires SameIdentity(t.attempts[|t.attempts| - 1], a) && t.attempts[|t.attempts| - 1].result.Active()
    ensures Updated(t, a).Some?
    ensures var n := |t.attempts| - 1;
            Updated(t, a).value.attempts ==
            t.attempts[n := a.(approvals := MergedApprovals(a.approvals, t.attempts[n].approvals))]
    ensures Evolved(t.attempts, Updated(t, a).value.attempts)
    ensures Updated(t, a).value.submissions == t.submissions && Updated(t, a).value.state == t.state
    ensures Updated(t, a).value.revision == t.revision + 1
  {
    var i := FindAttempt(t.attempts, a.id);
    assert i == |t.attempts| - 1;
  }

  lemma UpdatedByNew(t: Task, a: Attempt)
    requires forall k | 0 <= k < |t.attempts| :: t.attempts[k].id != a.id
    ensures Updated(t, a).Some? && Updated(t, a).value.attempts == t.attempts + [a]
    ensures Updated(t, a).value.submissions == t.submissions && Updated(t, a).value.state == t.state
    ensures Updated(t, a).value.revision == t.revision + 1
  {
  }

  // ---- The loop's steps keep the invariant ----

  /** A step that leaves the stored attempts and submissions alone keeps everything about them. */
  lemma SameHistory(m: Machine, n: Machine)
    requires Invariant(m) && n.task.attempts == m.task.attempts && n.task.submissions == m.task.submissions
    requires n.cycles == m.cycles && n.late == m.late && m.used <= n.used
    ensures IdsSound(n.task.attempts, n.task.submissions, n.cycles, n.used)
    ensures Chained(n.task.attempts, n.cycles, n.late)
    ensures SubmissionsSound(n.task.attempts, n.task.submissions, n.cycles)
    ensures Bounded(n.task.attempts, n.task.submissions) && LateKnown(n.late, n.used)
  {
  }

  /** A step that changes the last, active attempt in place keeps everything but the loop's own part. */
  lemma ChangedInPlace(m: Machine, n: Machine)
    requires Invariant(m) && Evolved(m.task.attempts, n.task.attempts) && |n.task.attempts| == |m.task.attempts|
    requires n.task.submissions == m.task.submissions && n.cycles == m.cycles && n.late == m.late && n.used == m.used
    ensures IdsSound(n.task.attempts, n.task.submissions, n.cycles, n.used)
    ensures Chained(n.task.attempts, n.cycles, n.late)
    ensures SubmissionsSound(n.task.attempts, n.task.submissions, n.cycles)
    ensures Bounded(n.task.attempts, n.task.submissions) && LateKnown(n.late, n.used)
  {
    EvolvedKeepsChain(m.task.attempts, n.task.attempts, m.cycles, m.late);
    EvolvedKeepsIds(m.task.attempts, n.task.attempts, m.task.submissions, m.cycles, m.used);
    EvolvedKeepsSubmissions(m.task.attempts, n.task.attempts, m.task.submissions, m.cycles);
  }

  ghost predicate Steps(m: Machine, step: Step) {
    Invariant(m) && Enabled(m, step)
  }

  lemma LoopNext(m: Machine, step: Step)
    requires Enabled(m, step) && IsLoopStep(step) && !step.Enter?
    ensures m.loop.Some? && LoopStepEnabled(m.loop.value, step, m.used)
    ensures var s := LoopStep(Session(m.task, m.loop.value), step, m.workspace, m.used);
            Next(m, step) == m.(task := s.task, loop := Some(s.loop), used := m.used + Given(step),
                                blockLost := m.blockLost || (step.Block? && !step.saved && SomeActive(m.task.attempts)))
  {
    hide LoopStep;
  }

  /** Giving up, with nothing saved, keeps everything: whatever is active is still in hand. */
  lemma StoppingKeeps(m: Machine, n: Machine)
    requires Invariant(m) && m.loop.Some? && !m.loop.value.pc.Ended?
    requires n.loop.Some? && n.loop.value.pc.Blocking?
    requires n == m.(loop := n.loop, used := n.used) && m.used <= n.used
    ensures Invariant(n)
  {
    hide Chained, SubmissionsSound, IdsSound, CycleKnown;
    SameHistory(m, n);
  }

  lemma EnterKeeps(m: Machine, step: Step)
    requires Steps(m, step) && step.Enter?
    ensures Invariant(Next(m, step))
  {
    hide Chained, SubmissionsSound;
    var n := Next(m, step);
    if n.loop.value.pc.Capturing? {
      NewCycleKeeps(m, n, step.cycle);
    } else {
      SameHistory(m, n);
    }
  }

  lemma NewCycleKeeps(m: Machine, n: Machine, cycle: Uuid)
    requires Invariant(m) && cycle !in m.used && n.cycles.Keys == m.cycles.Keys + {cycle} && n.used == m.used + {cycle}
    requires forall c | c in m.cycles :: n.cycles[c] == m.cycles[c]
    requires n.task == m.task && n.late == m.late
    ensures IdsSound(n.task.attempts, n.task.submissions, n.cycles, n.used)
    ensures Chained(n.task.attempts, n.cycles, n.late)
    ensures SubmissionsSound(n.task.attempts, n.task.submissions, n.cycles)
    ensures forall k | 0 <= k < |n.task.attempts| :: n.task.attempts[k].cycle != cycle
  {
    forall k | 0 <= k < |n.task.attempts| ensures ChainAt(n.task.attempts, n.cycles, n.late, k) {
      assert ChainAt(m.task.attempts, m.cycles, m.late, k);
    }
    forall k | 0 <= k < |n.task.submissions| ensures Grounded(n.task.attempts, n.cycles, n.task.submissions[k]) {
      assert Grounded(m.task.attempts, m.cycles, m.task.submissions[k]);
      var j :| 0 <= j < |m.task.attempts| && Grounds(m.task.attempts[j], m.cycles, m.task.submissions[k]);
      assert Grounds(n.task.attempts[j], n.cycles, n.task.submissions[k]);
    }
  }

  /** The loop goes on without saving anything. */
  lemma MovingKeeps(m: Machine, n: Machine)
    requires Invariant(m) && m.loop.Some? && InCycle(m.loop.value) && n.loop.Some?
    requires n == m.(loop := n.loop) && n.loop.value.setup == m.loop.value.setup
    requires InCycle(n.loop.value) && 1 <= n.loop.value.ordinal <= n.loop.value.setup.Budget()
    requires Holding(m.loop.value) ==> Holding(n.loop.value)
    requires LoopSound(n.loop.value, m.task.attempts, m.cycles, m.late)
    ensures Invariant(n)
  {
    hide Chained, SubmissionsSound, IdsSound, LoopSound;
    SameHistory(m, n);
  }

  lemma CapturedLoop(s: Session, allowed: bool, deadline: bool, captured: Option<Workspace>, cycles: map<Uuid, CycleInfo>,
                     late: set<Uuid>)
    requires s.loop.pc.Capturing? && LoopSound(s.loop, s.task.attempts, cycles, late)
    ensures LoopSound(OnCapture(s, allowed, deadline, captured).loop, s.task.attempts, cycles, late)
  {
    BetweenKept(s.loop, OnCapture(s, allowed, deadline, captured).loop, s.task.attempts, late);
    hide Between;
  }

  lemma CaptureKeeps(m: Machine, step: Step)
    requires Steps(m, step) && step.Capture?
    ensures Invariant(Next(m, step))
  {
    LoopNext(m, step);
    CapturedLoop(Session(m.task, m.loop.value), step.allowed, step.deadline, Seen(m.workspace, step.readable), m.cycles, m.late);
    hide Next, Enabled, Invariant, LoopSound;
    if Next(m, step).loop.value.pc.Blocking? {
      StoppingKeeps(m, Next(m, step));
    } else {
      MovingKeeps(m, Next(m, step));
    }
  }

  lemma RotatedLoop(s: Session, agent: AgentId, transferred: bool, saved: bool, cycles: map<Uuid, CycleInfo>, late: set<Uuid>)
    requires s.loop.pc.Rotating? && LoopSound(s.loop, s.task.attempts, cycles, late)
    ensures LoopSound(OnRotate(s, agent, transferred, saved).loop, s.task.attempts, cycles, late)
  {
    BetweenKept(s.loop, OnRotate(s, agent, transferred, saved).loop, s.task.attempts, late);
    hide Between;
  }

  lemma RotateKeeps(m: Machine, step: Step)
    requires Steps(m, step) && step.Rotate?
    ensures Invariant(Next(m, step))
  {
    LoopNext(m, step);
    RotatedLoop(Session(m.task, m.loop.value), step.agent, step.transferred, step.saved, m.cycles, m.late);
    hide Next, Enabled, Chained, SubmissionsSound, IdsSound, LoopSound;
    SameHistory(m, Next(m, step));
  }

  lemma BetweenKept(l: Loop, n: Loop, attempts: seq<Attempt>, late: set<Uuid>)
    requires Between(l, attempts, late)
    requires n.ordinal == l.ordinal && n.setup == l.setup && n.expected == l.expected && n.previousFailure == l.previousFailure
    ensures Between(n, attempts, late)
  {
  }

  lemma EndWorkerNext(m: Machine, step: Step)
    requires Enabled(m, step) && step.EndWorker?
    ensures m.loop.Some? && m.loop.value.pc.Waiting?
    ensures Next(m, step) == m.(loop := Some(OnWorkerEnd(Session(m.task, m.loop.value), step.outcome).loop))
  {
    hide FindAttempt;
  }

  lemma EndedMoves(s: Session, outcome: WorkerOutcome)
    requires s.loop.pc.Waiting?
    ensures var n := OnWorkerEnd(s, outcome).loop; (n.pc.Measuring? || n.pc.Blocking?) && n == s.loop.At(n.pc)
  {
    hide FindAttempt;
  }

  lemma EndedLoop(s: Session, outcome: WorkerOutcome, cycles: map<Uuid, CycleInfo>, late: set<Uuid>)
    requires s.loop.pc.Waiting? && LoopSound(s.loop, s.task.attempts, cycles, late)
    requires s.task.attempts != [] ==>
               FindAttempt(s.task.attempts, s.task.attempts[|s.task.attempts| - 1].id) == |s.task.attempts| - 1
    ensures LoopSound(OnWorkerEnd(s, outcome).loop, s.task.attempts, cycles, late)
  {
    hide FindAttempt;
  }

  lemma EndWorkerKeeps(m: Machine, step: Step)
    requires Steps(m, step) && step.EndWorker?
    ensures Invariant(Next(m, step))
  {
    EndWorkerNext(m, step);
    var s := Session(m.task, m.loop.value);
    if m.task.attempts != [] {
      LastIsFound(m.task.attempts, m.task.submissions, m.cycles, m.used);
    }
    EndedLoop(s, step.outcome, m.cycles, m.late);
    EndedMoves(s, step.outcome);
    hide Next, Enabled, FindAttempt, OnWorkerEnd;
    LoopMoves(m, Next(m, step));
  }

  /** The loop gives up or goes on, and nothing is saved. */
  lemma LoopMoves(m: Machine, n: Machine)
    requires Invariant(m) && m.loop.Some? && InCycle(m.loop.value) && n.loop.Some? && n == m.(loop := n.loop)
    requires LoopSound(n.loop.value, m.task.attempts, m.cycles, m.late)
    requires n.loop.value.pc.Blocking? || InCycle(n.loop.value)
    requires InCycle(n.loop.value) ==>
               && n.loop.value.setup == m.loop.value.setup && 1 <= n.loop.value.ordinal <= n.loop.value.setup.Budget()
               && (Holding(m.loop.value) ==> Holding(n.loop.value))
    ensures Invariant(n)
  {
    hide Invariant, LoopSound;
    if n.loop.value.pc.Blocking? {
      StoppingKeeps(m, n);
    } else {
      MovingKeeps(m, n);
    }
  }

  lemma ConcludedLoop(s: Session, cycles: map<Uuid, CycleInfo>, late: set<Uuid>)
    requires s.loop.pc.Concluding? && LoopSound(s.loop, s.task.attempts, cycles, late)
    requires 1 <= s.loop.ordinal <= s.loop.setup.Budget()
    ensures LoopSound(OnConclude(s).loop, s.task.attempts, cycles, late)
  {
    hide Automatic, Blank, FailureNotes, Joined, Evidenced, NoneFails, Setup.Criteria;
  }

  lemma ConcludeNext(m: Machine, step: Step)
    requires Enabled(m, step) && step.Conclude?
    ensures m.loop.Some? && m.loop.value.pc.Concluding? && m.loop.value.pc.attempt.workspace.Some?
    ensures Next(m, step) == m.(loop := Some(OnConclude(Session(m.task, m.loop.value)).loop))
  {
    hide Automatic, HasSummary;
  }

  lemma ConcludedMoves(s: Session)
    requires s.loop.pc.Concluding? && s.loop.pc.attempt.workspace.Some? && 1 <= s.loop.ordinal <= s.loop.setup.Budget()
    ensures var n := OnConclude(s).loop;
            || n.pc.Blocking?
            || (n.pc.Capturing? && n.setup == s.loop.setup && 1 <= n.ordinal <= n.setup.Budget())
  {
    hide Automatic, HasSummary;
  }

  lemma ConcludeKeeps(m: Machine, step: Step)
    requires Steps(m, step) && step.Conclude?
    ensures Invariant(Next(m, step))
  {
    ConcludeNext(m, step);
    ConcludedLoop(Session(m.task, m.loop.value), m.cycles, m.late);
    ConcludedMoves(Session(m.task, m.loop.value));
    hide Next, Enabled, OnConclude;
    LoopMoves(m, Next(m, step));
  }

  lemma LastIsFound(attempts: seq<Attempt>, submissions: seq<Submission>, cycles: map<Uuid, CycleInfo>, used: set<Uuid>)
    requires IdsSound(attempts, submissions, cycles, used) && attempts != []
    ensures FindAttempt(attempts, attempts[|attempts| - 1].id) == |attempts| - 1
  {
  }

  lemma QueueKeeps(m: Machine, step: Step)
    requires Steps(m, step) && step.Queue?
    ensures Invariant(Next(m, step))
  {
    LoopNext(m, step);
    var n, l := Next(m, step), m.loop.value;
    var a := NewAttempt(l, step.id, l.pc.base);
    assert forall k | 0 <= k < |m.task.attempts| :: m.task.attempts[k].id != a.id;
    UpdatedByNew(m.task, a);
    hide Next, Enabled, Updated, IdsSound, Chained, SubmissionsSound, CycleKnown, Evidenced, NoneFails;
    if step.promptFits && step.saved {
      AppendedKeeps(m, n, a);
      QueuedInvariant(m, n, a);
    } else {
      hide Invariant;
      StoppingKeeps(m, n);
    }
  }

  lemma QueuedInvariant(m: Machine, n: Machine, a: Attempt)
    requires Invariant(m) && m.loop.Some? && m.loop.value.pc.Queueing? && a.id !in m.late
    requires a == NewAttempt(m.loop.value, a.id, m.loop.value.pc.base)
    requires var pc := if a.validationOnly then Measuring(a.(summary := m.loop.value.setup.InheritedSummary())) else Launching(a);
             n == m.(task := n.task, loop := Some(m.loop.value.At(pc)), used := m.used + {a.id})
    requires n.task.attempts == m.task.attempts + [a] && n.task.submissions == m.task.submissions
    ensures LoopInvariant(n) && QuietWhenSaved(n)
  {
    hide Chained, SubmissionsSound, IdsSound, Evidenced, NoneFails, WarrantsRetry, Differ, FailureText;
    assert |m.task.attempts| > 0 ==> n.task.attempts[|n.task.attempts| - 2] == m.task.attempts[|m.task.attempts| - 1];
  }

  lemma AppendedKeeps(m: Machine, n: Machine, a: Attempt)
    requires Invariant(m) && m.loop.Some? && m.loop.value.pc.Queueing? && a.id !in m.used
    requires a == NewAttempt(m.loop.value, a.id, m.loop.value.pc.base)
    requires n.task.attempts == m.task.attempts + [a] && n.task.submissions == m.task.submissions
    requires n.cycles == m.cycles && n.late == m.late && n.used == m.used + {a.id}
    ensures IdsSound(n.task.attempts, n.task.submissions, n.cycles, n.used)
    ensures Chained(n.task.attempts, n.cycles, n.late)
    ensures SubmissionsSound(n.task.attempts, n.task.submissions, n.cycles)
    ensures Bounded(n.task.attempts, n.task.submissions) && LateKnown(n.late, n.used) && a.id !in n.late
  {
    var before, after := m.task.attempts, n.task.attempts;
    forall k | 0 <= k < |after| ensures ChainAt(after, n.cycles, n.late, k) {
      if k < |before| {
        assert ChainAt(before, m.cycles, m.late, k);
      } else {
        assert k == |before| && after[k] == a;
        assert forall j | 0 <= j < |before| :: after[j] == before[j];
        assert k > 0 ==> after[k - 1] == before[|before| - 1];
      }
    }
    EvolvedKeepsSubmissions(before, after, m.task.submissions, m.cycles);
  }

  /** The history once the attempt in hand is stored. */
  function WithStored(attempts: seq<Attempt>, a: Attempt): seq<Attempt>
    requires attempts != []
  {
    var last := |attempts| - 1;
    attempts[last := a.(approvals := MergedApprovals(a.approvals, attempts[last].approvals))]
  }

  predicate InHand(attempts: seq<Attempt>, a: Attempt) {
    attempts != [] && SameIdentity(attempts[|attempts| - 1], a) && attempts[|attempts| - 1].result.Active()
  }

  /** Storing the attempt in hand keeps the invariant, whether or not the save succeeds, if the loop then knows what it stored. */
  lemma StoringKeeps(m: Machine, n: Machine, a: Attempt, saved: bool, next: Pc)
    requires Invariant(m) && m.loop.Some? && InCycle(m.loop.value) && InHand(m.task.attempts, a)
    requires var s := Store(Session(m.task, m.loop.value), a, saved, next);
             n == m.(task := s.task, loop := Some(s.loop))
    requires !next.Entering? && (a.result.Active() ==> Holding(m.loop.value.At(next)))
    requires LoopSound(m.loop.value.At(next), WithStored(m.task.attempts, a), m.cycles, m.late)
    ensures Invariant(n)
  {
    UpdatedInPlace(m.task, a, m.task.submissions, m.cycles, m.used);
    if saved {
      hide Updated, MergedApprovals, LoopSound;
      ChangedInPlace(m, n);
      StoredInvariant(m, n, a, next);
    } else {
      hide Invariant, LoopSound, Updated;
      StoppingKeeps(m, n);
    }
  }

  lemma StoredInvariant(m: Machine, n: Machine, a: Attempt, next: Pc)
    requires Invariant(m) && m.loop.Some? && InCycle(m.loop.value) && InHand(m.task.attempts, a)
    requires n == m.(task := n.task, loop := Some(m.loop.value.At(next)))
    requires n.task.attempts == WithStored(m.task.attempts, a) && n.task.submissions == m.task.submissions
    requires !next.Entering? && (a.result.Active() ==> Holding(m.loop.value.At(next)))
    requires LoopSound(m.loop.value.At(next), n.task.attempts, m.cycles, m.late)
    ensures LoopInvariant(n) && QuietWhenSaved(n)
  {
    hide LoopSound, Chained, SubmissionsSound, IdsSound, MergedApprovals;
  }

  /** Merging leaves no approval behind and adds none that nobody gave. */
  lemma MergingKeepsKnown(a: Attempt, attempts: seq<Attempt>, late: set<Uuid>)
    requires attempts != [] && Known(a, attempts, late)
    ensures Known(a, WithStored(attempts, a), late)
  {
    var stored := attempts[|attempts| - 1].approvals;
    MergingSomething(a.approvals, stored);
    if a.id !in late {
      MergingWhatIsKnown(a.approvals, stored);
    }
  }

  lemma LaunchKeeps(m: Machine, step: Step)
    requires Steps(m, step) && step.LaunchWorker?
    ensures Invariant(Next(m, step))
  {
    LoopNext(m, step);
    var l := m.loop.value;
    var a := l.pc.attempt.(result := Working);
    LaunchedLoop(l, m.task.attempts, m.cycles, m.late);
    hide Next, Enabled, Invariant, Store, LoopSound, WithStored;
    if step.launched {
      StoringKeeps(m, Next(m, step), a, step.saved, Waiting(a));
    } else {
      StoppingKeeps(m, Next(m, step));
    }
  }

  lemma LaunchedLoop(l: Loop, attempts: seq<Attempt>, cycles: map<Uuid, CycleInfo>, late: set<Uuid>)
    requires l.pc.Launching? && LoopSound(l, attempts, cycles, late)
    ensures var a := l.pc.attempt.(result := Working);
            InHand(attempts, a) && LoopSound(l.At(Waiting(a)), WithStored(attempts, a), cycles, late)
  {
  }

  lemma MeasureKeeps(m: Machine, step: Step)
    requires Steps(m, step) && step.Measure?
    ensures Invariant(Next(m, step))
  {
    LoopNext(m, step);
    var l := m.loop.value;
    var a := l.pc.attempt.(result := Validating, workspace := Some(m.workspace));
    MeasuredLoop(l, m.workspace, m.task.attempts, m.cycles, m.late);
    hide Next, Enabled, Invariant, Store, LoopSound, WithStored;
    if step.readable {
      StoringKeeps(m, Next(m, step), a, step.saved,
                   if a.base.head != m.workspace.head then Blocking("workspace_changed") else Checking(a));
    } else {
      StoppingKeeps(m, Next(m, step));
    }
  }

  lemma MeasuredLoop(l: Loop, w: Workspace, attempts: seq<Attempt>, cycles: map<Uuid, CycleInfo>, late: set<Uuid>)
    requires l.pc.Measuring? && LoopSound(l, attempts, cycles, late)
    ensures var a := l.pc.attempt.(result := Validating, workspace := Some(w));
            && InHand(attempts, a) && LoopSound(l.Fail("workspace_changed"), WithStored(attempts, a), cycles, late)
            && (a.base.head == w.head ==> LoopSound(l.At(Checking(a)), WithStored(attempts, a), cycles, late))
  {
    MergingKeepsKnown(l.pc.attempt.(result := Validating, workspace := Some(w)), attempts, late);
  }

  lemma CheckKeeps(m: Machine, step: Step)
    requires Steps(m, step) && step.Check?
    ensures Invariant(Next(m, step))
  {
    LoopNext(m, step);
    var l := m.loop.value;
    var done := l.pc.attempt.validators;
    var a := l.pc.attempt.(validators := done + [Evidence(l.setup.Criteria()[|done|], step.status, step.note)]);
    CheckedLoop(l, step.status, step.note, m.task.attempts, m.cycles, m.late);
    hide Next, Enabled, Invariant, Store, LoopSound, WithStored;
    if l.cancelled {
      StoppingKeeps(m, Next(m, step));
    } else {
      StoringKeeps(m, Next(m, step), a, step.saved,
                   if step.status.InfrastructureError? then Blocking(INFRASTRUCTURE)
                   else if step.status.Cancelled? then Blocking("cancelled")
                   else Checking(a));
    }
  }

  lemma CheckedLoop(l: Loop, status: CheckStatus, note: string, attempts: seq<Attempt>, cycles: map<Uuid, CycleInfo>,
                    late: set<Uuid>)
    requires l.pc.Checking? && LoopSound(l, attempts, cycles, late)
    requires |l.pc.attempt.validators| < |l.setup.Criteria()|
    ensures var done := l.pc.attempt.validators;
            var a := l.pc.attempt.(validators := done + [Evidence(l.setup.Criteria()[|done|], status, note)]);
            && InHand(attempts, a)
            && LoopSound(l.Fail(INFRASTRUCTURE), WithStored(attempts, a), cycles, late)
            && LoopSound(l.Fail("cancelled"), WithStored(attempts, a), cycles, late)
            && (!status.InfrastructureError? && !status.Cancelled? ==>
                  LoopSound(l.At(Checking(a)), WithStored(attempts, a), cycles, late))
  {
    var done := l.pc.attempt.validators;
    var a := l.pc.attempt.(validators := done + [Evidence(l.setup.Criteria()[|done|], status, note)]);
    MergingKeepsKnown(a, attempts, late);
    CheckedEvidence(done, a.validators, l.setup.Criteria());
    hide Evidenced;
  }

  lemma CheckedEvidence(done: seq<Evidence>, more: seq<Evidence>, criteria: seq<Criterion>)
    requires Evidenced(done, criteria) && |done| < |criteria| && |more| == |done| + 1 && done == more[..|done|]
    requires more[|done|].criterion == criteria[|done|]
    ensures !more[|done|].status.InfrastructureError? && !more[|done|].status.Cancelled? ==> Evidenced(more, criteria)
  {
  }

  lemma {:induction false} NoNotesMeansNoneFails(validators: seq<Evidence>)
    ensures FailureNotes(validators) == [] <==> NoneFails(validators)
  {
    if validators != [] {
      NoNotesMeansNoneFails(validators[..|validators| - 1]);
      assert forall k | 0 <= k < |validators| - 1 :: validators[..|validators| - 1][k] == validators[k];
    }
  }

  /** The checks reached a verdict at all. */
  predicate Conclusive(l: Loop, j: Judgement)
    requires l.pc.Checking? && l.pc.attempt.workspace.Some?
  {
    var a := l.pc.attempt;
    && j.cleared && j.captured.Some? && j.captured.value.fingerprint == a.workspace.value.fingerprint && !j.deadline
    && !(l.setup.initial.config.policy.requireChange && !l.setup.validationOnly && a.base.fingerprint == a.workspace.value.fingerprint)
  }

  function JudgementOf(m: Machine, step: Step): Judgement
    requires step.Judge?
  {
    Judgement(step.cleared, Seen(m.workspace, step.readable), step.deadline, step.reportReady, step.editionReady)
  }

  lemma InconclusiveKeeps(m: Machine, step: Step)
    requires Steps(m, step) && step.Judge? && !Conclusive(m.loop.value, JudgementOf(m, step))
    ensures Invariant(Next(m, step))
  {
    LoopNext(m, step);
    hide Invariant, Next, Enabled, Store, Joined, Passes, Failures;
    StoppingKeeps(m, Next(m, step));
  }

  lemma PassKeeps(m: Machine, step: Step)
    requires Steps(m, step) && step.Judge? && Conclusive(m.loop.value, JudgementOf(m, step))
    requires Passes(m.loop.value.setup, m.loop.value.pc.attempt, step.reportReady, step.editionReady)
    ensures Invariant(Next(m, step))
  {
    LoopNext(m, step);
    var l := m.loop.value;
    var passed := l.pc.attempt.(result := AttemptResult.Passed);
    PassingIsSound(l.setup, l.pc.attempt, step.reportReady, step.editionReady);
    PassedLoop(l, m.workspace, m.task.attempts, m.cycles, m.late);
    hide Next, Enabled, Invariant, Store, LoopSound, WithStored, Passes;
    StoringKeeps(m, Next(m, step), passed, step.saved, Submitting(passed, m.workspace));
  }

  lemma PassedLoop(l: Loop, w: Workspace, attempts: seq<Attempt>, cycles: map<Uuid, CycleInfo>, late: set<Uuid>)
    requires l.pc.Checking? && LoopSound(l, attempts, cycles, late) && |l.pc.attempt.validators| >= |l.setup.Criteria()|
    requires NoneFails(l.pc.attempt.validators) && HasSummary(l.pc.attempt)
    requires l.pc.attempt.workspace.value.fingerprint == w.fingerprint
    ensures var a := l.pc.attempt.(result := AttemptResult.Passed);
            InHand(attempts, a) && LoopSound(l.At(Submitting(a, w)), WithStored(attempts, a), cycles, late)
  {
  }

  lemma FailKeeps(m: Machine, step: Step)
    requires Steps(m, step) && step.Judge? && Conclusive(m.loop.value, JudgementOf(m, step))
    requires !Passes(m.loop.value.setup, m.loop.value.pc.attempt, step.reportReady, step.editionReady)
    ensures Invariant(Next(m, step))
  {
    LoopNext(m, step);
    var l := m.loop.value;
    var failed := l.pc.attempt.(result := AttemptResult.Failed, failure := Some("validation_failed"));
    var failure := Joined(Failures(l.setup, l.pc.attempt, step.reportReady));
    FailingIsSound(l.setup, l.pc.attempt, step.reportReady, step.editionReady);
    FailedLoop(l, failure, m.workspace, m.task.attempts, m.cycles, m.late);
    hide Next, Enabled, Invariant, Store, LoopSound, WithStored, Passes, Joined, Failures;
    StoringKeeps(m, Next(m, step), failed, step.saved, Concluding(failed, failure, m.workspace));
  }

  lemma FailingIsSound(setup: Setup, a: Attempt, reportReady: bool, editionReady: bool)
    requires !Passes(setup, a, reportReady, editionReady)
    ensures !setup.initial.coordinated ==> Joined(Failures(setup, a, reportReady)) == FailureText(a)
    ensures !setup.initial.coordinated && Automatic(a.validators) && HasSummary(a) ==> !NoneFails(a.validators)
  {
    NoNotesMeansNoneFails(a.validators);
    assert FailureNotes(a.validators) + [] == FailureNotes(a.validators);
    hide NoneFails, FailureNotes, Automatic, Blank;
  }

  lemma FailedLoop(l: Loop, failure: string, w: Workspace, attempts: seq<Attempt>, cycles: map<Uuid, CycleInfo>,
                   late: set<Uuid>)
    requires l.pc.Checking? && LoopSound(l, attempts, cycles, late) && |l.pc.attempt.validators| >= |l.setup.Criteria()|
    requires l.pc.attempt.workspace.value.fingerprint == w.fingerprint
    requires !l.setup.initial.coordinated ==> failure == FailureText(l.pc.attempt)
    requires !l.setup.initial.coordinated && Automatic(l.pc.attempt.validators) && HasSummary(l.pc.attempt) ==>
               !NoneFails(l.pc.attempt.validators)
    ensures var a := l.pc.attempt.(result := AttemptResult.Failed, failure := Some("validation_failed"));
            InHand(attempts, a) && LoopSound(l.At(Concluding(a, failure, w)), WithStored(attempts, a), cycles, late)
  {
    var a := l.pc.attempt.(result := AttemptResult.Failed, failure := Some("validation_failed"));
    assert FailureText(a) == FailureText(l.pc.attempt);
    hide FailureText, Automatic, NoneFails, Blank;
    MergingKeepsKnown(a, attempts, late);
  }

  lemma JudgeKeeps(m: Machine, step: Step)
    requires Steps(m, step) && step.Judge?
    ensures Invariant(Next(m, step))
  {
    hide Invariant, Next, Passes;
    if !Conclusive(m.loop.value, JudgementOf(m, step)) {
      InconclusiveKeeps(m, step);
    } else if Passes(m.loop.value.setup, m.loop.value.pc.attempt, step.reportReady, step.editionReady) {
      PassKeeps(m, step);
    } else {
      FailKeeps(m, step);
    }
  }

  lemma PassingIsSound(setup: Setup, a: Attempt, reportReady: bool, editionReady: bool)
    requires Passes(setup, a, reportReady, editionReady)
    ensures NoneFails(a.validators) && HasSummary(a)
  {
    NoNotesMeansNoneFails(a.validators);
  }

  lemma SubmitKeeps(m: Machine, step: Step)
    requires Steps(m, step) && step.SubmitReview?
    ensures Invariant(Next(m, step))
  {
    hide Next, Enabled;
    LoopNext(m, step);
    var n := Next(m, step);
    if step.saved {
      SubmittedKeeps(m, n, NewSubmission(m.loop.value, step.id));
      SubmittedEnds(m, n);
    } else {
      hide Chained, Evidenced, NoneFails, Blank, IdsSound, SubmissionsSound;
      SameHistory(m, n);
    }
  }

  lemma SubmittedEnds(m: Machine, n: Machine)
    requires Invariant(m) && m.loop.Some? && m.loop.value.pc.Submitting?
    requires n.loop == Some(m.loop.value.At(Ended(true))) && n.task.attempts == m.task.attempts
    requires |n.task.submissions| == |m.task.submissions| + 1
    requires n.launch == m.launch && n.blockLost == m.blockLost && n.late == m.late && m.used <= n.used
    ensures Bounded(n.task.attempts, n.task.submissions) && LoopInvariant(n) && LateKnown(n.late, n.used) && QuietWhenSaved(n)
  {
    hide Chained, Evidenced, NoneFails, IdsSound, SubmissionsSound, CycleKnown;
  }

  lemma SubmittedKeeps(m: Machine, n: Machine, s: Submission)
    requires Invariant(m) && m.loop.Some? && m.loop.value.pc.Submitting? && s.id !in m.used
    requires s == NewSubmission(m.loop.value, s.id)
    requires n.task.attempts == m.task.attempts && n.task.submissions == m.task.submissions + [s]
    requires n.cycles == m.cycles && n.used == m.used + {s.id}
    ensures IdsSound(n.task.attempts, n.task.submissions, n.cycles, n.used)
    ensures SubmissionsSound(n.task.attempts, n.task.submissions, n.cycles)
  {
    hide Evidenced, NoneFails, Blank, Chained;
    assert Grounds(m.task.attempts[|m.task.attempts| - 1], m.cycles, s);
    assert Grounded(n.task.attempts, n.cycles, s);
    forall k | 0 <= k < |n.task.submissions| ensures Grounded(n.task.attempts, n.cycles, n.task.submissions[k]) {
      if k < |m.task.submissions| {
        assert Grounded(m.task.attempts, m.cycles, m.task.submissions[k]);
      }
    }
  }

  lemma EndingEvolves(attempts: seq<Attempt>, code: string, record: Option<Conversation>)
    ensures Evolved(attempts, EndAttempts(attempts, code, record))
    ensures forall holding :: ActiveOnlyIn(EndAttempts(attempts, code, record), holding)
  {
  }

  lemma BlockKeeps(m: Machine, step: Step)
    requires Steps(m, step) && step.Block?
    ensures Invariant(Next(m, step))
  {
    hide Chained, SubmissionsSound, IdsSound, Evidenced, NoneFails, Next, Enabled;
    LoopNext(m, step);
    var n := Next(m, step);
    if step.saved {
      EndingEvolves(m.task.attempts, m.loop.value.pc.code, step.record);
      ChangedInPlace(m, n);
    } else {
      SameHistory(m, n);
    }
  }

  lemma LoopStepKeeps(m: Machine, step: Step)
    requires Steps(m, step) && IsLoopStep(step)
    ensures Invariant(Next(m, step))
  {
    hide Invariant, Next, Enabled;
    match step {
      case Enter(_, _) => EnterKeeps(m, step);
      case Capture(_, _, _) => CaptureKeeps(m, step);
      case Rotate(_, _, _) => RotateKeeps(m, step);
      case Queue(_, _, _) => QueueKeeps(m, step);
      case LaunchWorker(_, _) => LaunchKeeps(m, step);
      case EndWorker(_) => EndWorkerKeeps(m, step);
      case Measure(_, _) => MeasureKeeps(m, step);
      case Check(_, _, _) => CheckKeeps(m, step);
      case Judge(_, _, _, _, _, _) => JudgeKeeps(m, step);
      case SubmitReview(_, _) => SubmitKeeps(m, step);
      case Conclude => ConcludeKeeps(m, step);
      case Block(_, _) => BlockKeeps(m, step);
    }
  }

  // ---- Everybody else's steps keep it too ----

  /** Requests never touch attempts or submissions. */
  predicate HistoryKept(t: Task, n: Task) {
    n.attempts == t.attempts && n.submissions == t.submissions
  }

  lemma RequestsKeepHistory(t: Task, request: Request)
    requires request.MoveTask? ==> !request.action.Accept? && !request.action.Submit? && !request.action.RequestChanges?
    ensures Answered(t, request).Some? ==> HistoryKept(t, Answered(t, request).value.0)
    ensures Answered(t, request).Some? ==> !Answered(t, request).value.0.CurrentColumn().Done? || t.CurrentColumn().Done?
    ensures Answered(t, request).Some? ==> Answered(t, request).value.0.revision == t.revision + 1
  {
    hide Blank, Moved;
    match request {
      case AskChanges(feedback, _) => MovesKeepHistory(t, RequestChanges(feedback));
      case StartTask(_) => MovesKeepHistory(t, Start);
      case MoveTask(action, _) => MovesKeepHistory(t, action);
      case _ =>
    }
  }

  lemma MovesKeepHistory(t: Task, action: Action)
    requires !action.Accept?
    ensures Moved(t, action, true).Some? ==>
              var n := Moved(t, action, true).value;
              HistoryKept(t, n) && n.revision == t.revision && (!n.CurrentColumn().Done? || t.CurrentColumn().Done?)
  {
    hide Blank;
  }

  lemma SyncKeepsHistory(t: Task, report: Report)
    ensures Synced(t, report).Some? ==> HistoryKept(t, Synced(t, report).value)
    ensures Synced(t, report).Some? ==> !Synced(t, report).value.CurrentColumn().Done?
    ensures Synced(t, report).Some? ==>
              Synced(t, report).value.revision == t.revision + 1 && Synced(t, report).value.assignedAgent == t.assignedAgent
  {
    hide Blank;
  }

  lemma ApprovalKeeps(m: Machine, step: Step)
    requires Invariant(m) && step.Approve?
    ensures Invariant(Next(m, step))
  {
    if step.saved && m.task.attempts != [] && m.task.attempts[|m.task.attempts| - 1].result.Active() {
      SavedApprovalKeeps(m, step);
    } else {
      assert m.loop.Some? ==> m.launch.None?;
      if m.loop.Some? && step.denied {
        hide Invariant;
        LeavingAloneKeeps(m, Next(m, step));
      } else {
        assert Next(m, step) == m;
      }
    }
  }

  lemma SavedApprovalKeeps(m: Machine, step: Step)
    requires Invariant(m) && step.Approve? && step.saved
    requires m.task.attempts != [] && m.task.attempts[|m.task.attempts| - 1].result.Active()
    ensures Invariant(Next(m, step))
  {
    hide Chained, SubmissionsSound, IdsSound, WithApproval, LoopSound, CycleKnown;
    var n := Next(m, step);
    ApprovedEvolves(m.task, step.approval);
    ApprovedHistory(m, m.(task := n.task), n.late);
    if m.loop.Some? {
      ApprovedLoop(m.loop.value, n.loop.value, m.task.attempts, n.task.attempts, m.cycles, m.late, Copied(m), step.approval);
    }
    assert LoopInvariant(n) && QuietWhenSaved(n);
  }

  lemma CancelledLoop(l: Loop, n: Loop, attempts: seq<Attempt>, cycles: map<Uuid, CycleInfo>, used: set<Uuid>, late: set<Uuid>)
    requires n == l.(cancelled := n.cancelled) && LoopSound(l, attempts, cycles, late)
    ensures LoopSound(n, attempts, cycles, late)
    ensures CycleKnown(l, cycles, used) ==> CycleKnown(n, cycles, used)
  {
  }

  lemma ApprovedLoop(l: Loop, n: Loop, before: seq<Attempt>, after: seq<Attempt>, cycles: map<Uuid, CycleInfo>,
                     late: set<Uuid>, copied: set<Uuid>, approval: Uuid)
    requires LoopSound(l, before, cycles, late) && n == l.(cancelled := n.cancelled)
    requires before != [] && before[|before| - 1].result.Active()
    requires var last := |before| - 1;
             after == before[last := before[last].(approvals := before[last].approvals + [approval])]
    requires copied == if l.pc.Measuring? || l.pc.Checking? then {l.pc.attempt.id} else {}
    ensures LoopSound(n, after, cycles, late + copied)
    ensures forall used :: CycleKnown(l, cycles, used) ==> CycleKnown(n, cycles, used)
  {
    hide Evidenced, NoneFails;
  }

  lemma ApprovedHistory(m: Machine, n: Machine, late: set<Uuid>)
    requires Invariant(m) && Evolved(m.task.attempts, n.task.attempts) && |n.task.attempts| == |m.task.attempts|
    requires n == m.(task := n.task) && n.task.submissions == m.task.submissions && late == m.late + Copied(m)
    ensures IdsSound(n.task.attempts, n.task.submissions, n.cycles, n.used)
    ensures Chained(n.task.attempts, n.cycles, late)
    ensures SubmissionsSound(n.task.attempts, n.task.submissions, n.cycles)
    ensures Bounded(n.task.attempts, n.task.submissions) && LateKnown(late, n.used)
  {
    hide Chained, SubmissionsSound, IdsSound, Evidenced, NoneFails;
    ChangedInPlace(m, n);
    if Copied(m) != {} {
      assert Copied(m) == {n.task.attempts[|n.task.attempts| - 1].id};
      LateKeepsChain(n.task.attempts, m.cycles, m.late, m.used, m.task.submissions);
      LastIsUsed(n.task.attempts, m.task.submissions, m.cycles, m.used);
    } else {
      assert late == m.late;
    }
  }

  lemma LastIsUsed(attempts: seq<Attempt>, submissions: seq<Submission>, cycles: map<Uuid, CycleInfo>, used: set<Uuid>)
    requires IdsSound(attempts, submissions, cycles, used) && attempts != []
    ensures attempts[|attempts| - 1].id in used
  {
  }

  lemma ApprovedEvolves(t: Task, approval: Uuid)
    requires t.attempts != [] && t.attempts[|t.attempts| - 1].result.Active()
    ensures var last := |t.attempts| - 1; var n := WithApproval(t, approval);
            && n.attempts == t.attempts[last := t.attempts[last].(approvals := t.attempts[last].approvals + [approval])]
            && n == t.(attempts := n.attempts, revision := t.revision + 1)
            && Evolved(t.attempts, n.attempts)
  {
  }

  lemma BeginKeeps(m: Machine, step: Step)
    requires Steps(m, step) && step.Begin?
    ensures Invariant(Next(m, step))
  {
    hide Chained, SubmissionsSound, IdsSound, Evidenced, NoneFails;
    var n := Next(m, step);
    if !Admitted(m.task, step.free) && step.saved {
      EndingEvolves(m.task.attempts, "workspace_busy", None);
      ChangedInPlace(m, n);
    } else {
      SameHistory(m, n);
    }
  }

  lemma CrashKeeps(m: Machine)
    requires Invariant(m) && RowLive(m) && PartedQuiet(m)
    ensures Invariant(Next(m, Crash))
  {
    hide Chained, SubmissionsSound, IdsSound, Evidenced, NoneFails;
    var n := Next(m, Crash);
    if TaskStore.Stale(m.task) {
      InterruptingEvolves(m.task.attempts);
      ChangedInPlace(m, n);
    } else {
      SameHistory(m, n);
    }
  }

  lemma InterruptingEvolves(attempts: seq<Attempt>)
    ensures Evolved(attempts, TaskStore.InterruptAll(attempts))
    ensures forall holding :: ActiveOnlyIn(TaskStore.InterruptAll(attempts), holding)
  {
  }

  /** The steps that neither the loop takes nor touch the stored attempts. */
  predicate Quiet(step: Step) {
    !IsLoopStep(step) && !step.Approve? && !step.Begin? && !step.Crash?
  }

  lemma QuietStepKeepsHistory(m: Machine, step: Step)
    requires Enabled(m, step) && Quiet(step) && ReviewsSound(m) && !step.UserRequest? && !step.Sync?
    ensures HistoryKept(m.task, Next(m, step).task)
  {
    hide LiveTask, Blank, Answered, Synced;
    assert step.CommitReview? ==> ReviewSound(m, m.reviews[step.key]);
  }

  /** Whatever leaves the history alone and the loop where it is, or removes an ended one, keeps the invariant. */
  lemma LeavingAloneKeeps(m: Machine, n: Machine)
    requires Invariant(m) && HistoryKept(m.task, n.task)
    requires n.cycles == m.cycles && n.late == m.late && n.used == m.used && n.blockLost == m.blockLost
    requires || n.loop == m.loop
             || (m.loop.Some? && n.loop == Some(m.loop.value.(cancelled := true)))
             || (n.loop.None? && m.loop.Some? && m.loop.value.pc.Ended?)
    requires n.loop.Some? ==> n.launch.None?
    ensures Invariant(n)
  {
    hide Chained, SubmissionsSound, IdsSound, LoopSound, CycleKnown;
    SameHistory(m, n);
    if n.loop.Some? {
      CancelledLoop(m.loop.value, n.loop.value, m.task.attempts, m.cycles, m.used, m.late);
    }
  }

  lemma RequestKeeps(m: Machine, step: Step)
    requires Steps(m, step) && (step.UserRequest? || step.Sync? || step.Claim?) && RowLive(m)
    ensures Invariant(Next(m, step))
  {
    var n := Next(m, step);
    assert n.loop == m.loop && (m.loop.Some? ==> n.launch.None?);
    if step.UserRequest? {
      RequestsKeepHistory(m.task, step.request);
    } else if step.Sync? {
      SyncKeepsHistory(m.task, step.report);
    }
    hide Invariant, Answered, Synced;
    LeavingAloneKeeps(m, n);
  }

  lemma CommitKeeps(m: Machine, step: Step)
    requires Steps(m, step) && step.CommitReview? && ReviewsSound(m)
    ensures Invariant(Next(m, step))
  {
    QuietStepKeepsHistory(m, step);
    assert m.loop.Some? ==> m.launch.None?;
    hide Invariant, Transition, LiveTask, ReviewsSound;
    LeavingAloneKeeps(m, Next(m, step));
  }

  lemma QuietStepKeeps(m: Machine, step: Step)
    requires Steps(m, step) && Quiet(step) && RowLive(m) && ReviewsSound(m)
    ensures Invariant(Next(m, step))
  {
    if step.UserRequest? || step.Sync? || step.Claim? {
      RequestKeeps(m, step);
    } else if step.CommitReview? {
      CommitKeeps(m, step);
    } else {
      assert m.loop.Some? ==> m.launch.None?;
      hide Invariant, Answered, Synced, Prepared, LiveTask, ReviewsSound, RowLive, TaskStore.Reconciled, AfterLoopStep;
      LeavingAloneKeeps(m, Next(m, step));
    }
  }

  // ---- The row stays honest and revisions only grow ----

  lemma UpdatedRow(t: Task, a: Attempt)
    requires t.condition.Live()
    ensures Updated(t, a).Some? ==>
              && Updated(t, a).value.condition.Live() && Updated(t, a).value.assignedAgent == t.assignedAgent
              && Updated(t, a).value.revision == t.revision + 1
              && Updated(t, a).value.state == t.state
  {
  }

  /** What a step of the loop does to the row. */
  ghost predicate LoopRowStep(t: Task, n: Session) {
    && (n.task == t || n.task.revision == t.revision + 1)
    && (n.task.state == t.state || n.loop.pc == Ended(true) || n.loop.pc == Ended(false))
    && (!n.loop.pc.Ended? && !Parted(n.task, n.loop) ==>
          n.task.condition.Live() && n.task.assignedAgent == Some(n.loop.owner))
    && !n.task.WaitingInQueue() && !n.loop.pc.Entering?
    && (n.task.CurrentColumn().Done? ==> t.CurrentColumn().Done?)
  }

  lemma StoringRow(s: Session, a: Attempt, saved: bool, next: Pc)
    requires s.task.condition.Live() && s.task.assignedAgent == Some(s.loop.owner) && !next.Ended? && !next.Entering?
    ensures LoopRowStep(s.task, Store(s, a, saved, next))
  {
    UpdatedRow(s.task, a);
    hide Updated;
  }

  lemma DispatchRow(s: Session, step: Step, workspace: Workspace, used: set<Uuid>)
    requires LoopStepEnabled(s.loop, step, used) && (step.Queue? || step.LaunchWorker? || step.Measure? || step.Check?)
    requires s.task.condition.Live() && s.task.assignedAgent == Some(s.loop.owner)
    ensures LoopRowStep(s.task, LoopStep(s, step, workspace, used))
  {
    hide Store, Setup.Criteria;
    var l := s.loop;
    match step {
      case Queue(id, _, saved) =>
        var a := NewAttempt(l, id, l.pc.base);
        StoringRow(s, a, saved,
                   if l.setup.validationOnly then Measuring(a.(summary := l.setup.InheritedSummary())) else Launching(a));
      case LaunchWorker(_, saved) =>
        var a := l.pc.attempt.(result := Working);
        StoringRow(s, a, saved, Waiting(a));
      case Measure(_, saved) =>
        var a := l.pc.attempt.(result := Validating, workspace := Some(workspace));
        StoringRow(s, a, saved, if a.base.head != workspace.head then Blocking("workspace_changed") else Checking(a));
      case Check(status, note, saved) =>
        var done := l.pc.attempt.validators;
        var a := l.pc.attempt.(validators := done + [Evidence(l.setup.Criteria()[|done|], status, note)]);
        StoringRow(s, a, saved, if status.InfrastructureError? then Blocking(INFRASTRUCTURE)
                                else if status.Cancelled? then Blocking("cancelled") else Checking(a));
    }
  }

  lemma JudgeRow(s: Session, j: Judgement, saved: bool)
    requires s.loop.pc.Checking? && s.loop.pc.attempt.workspace.Some?
    requires s.task.condition.Live() && s.task.assignedAgent == Some(s.loop.owner)
    ensures LoopRowStep(s.task, OnJudge(s, j, saved))
  {
    hide Store, Passes, Failures, Joined, LoopRowStep;
    var a := s.loop.pc.attempt;
    var failed := a.(result := AttemptResult.Failed, failure := Some("validation_failed"));
    GivingUpRow(s);
    if j.captured.Some? {
      StoringRow(s, a.(result := AttemptResult.Passed), saved, Submitting(a.(result := AttemptResult.Passed), j.captured.value));
      StoringRow(s, failed, saved, Concluding(failed, Joined(Failures(s.loop.setup, a, j.reportReady)), j.captured.value));
    }
  }

  lemma GivingUpRow(s: Session)
    requires s.task.condition.Live() && s.task.assignedAgent == Some(s.loop.owner)
    ensures forall code :: LoopRowStep(s.task, Session(s.task, s.loop.Fail(code)))
  {
  }

  lemma LoopStepRow(s: Session, step: Step, workspace: Workspace, used: set<Uuid>)
    requires LoopStepEnabled(s.loop, step, used) && IsLoopStep(step) && !s.task.WaitingInQueue()
    requires Parted(s.task, s.loop) || (s.task.condition.Live() && s.task.assignedAgent == Some(s.loop.owner))
    ensures LoopRowStep(s.task, LoopStep(s, step, workspace, used))
  {
    if step.Queue? || step.LaunchWorker? || step.Measure? || step.Check? {
      DispatchRow(s, step, workspace, used);
    } else if step.Judge? {
      hide OnJudge;
      JudgeRow(s, Judgement(step.cleared, Seen(workspace, step.readable), step.deadline, step.reportReady, step.editionReady),
               step.saved);
    } else {
      hide Store, OnJudge, Automatic, HasSummary, FindAttempt, EndAttempts, Setup.Criteria;
    }
  }

  lemma LoopStepKeepsRow(m: Machine, step: Step)
    requires Enabled(m, step) && IsLoopStep(step) && RowLive(m)
    ensures m.loop.Some? && LoopRowStep(m.task, Session(Next(m, step).task, Next(m, step).loop.value))
    ensures Next(m, step).launch == m.launch && Next(m, step).reviews == m.reviews
  {
    hide LoopStep;
    LoopStepRow(Session(m.task, m.loop.value), step, m.workspace, m.used);
    hide LoopRowStep;
  }

  lemma LaunchingRequests(t: Task, request: Request)
    requires request.MoveTask? ==> !request.action.Accept? && !request.action.Submit? && !request.action.RequestChanges?
    requires Answered(t, request).Some? && Answered(t, request).value.1.Some?
    ensures Answered(t, request).value.0.condition.Queued? && Answered(t, request).value.0.assignedAgent.Some?
  {
    hide Blank, Moved;
  }

  lemma RequestKeepsRow(m: Machine, step: Step)
    requires Enabled(m, step) && RowLive(m) && step.UserRequest?
    ensures RowLive(Next(m, step))
  {
    hide Answered;
    if Answered(m.task, step.request).value.1.Some? {
      LaunchingRequests(m.task, step.request);
    }
  }

  lemma RowStaysLive(m: Machine, step: Step)
    requires Enabled(m, step) && RowLive(m) && ReviewsSound(m)
    ensures RowLive(Next(m, step))
  {
    if IsLoopStep(step) {
      hide Next, Enabled;
      LoopStepKeepsRow(m, step);
    } else if step.UserRequest? {
      RequestKeepsRow(m, step);
    } else {
      hide EndAttempts, TaskStore.InterruptAll, Moved, Prepared, Transition, Answered, Synced;
      assert step.CommitReview? ==> ReviewSound(m, m.reviews[step.key]);
    }
  }

  lemma AcceptanceIs(t: Task)
    requires Transition(t, Accept, User, t.revision, false).Ok?
    ensures Transition(t, Accept, User, t.revision, false).value.0 == t.(state := Accepted, revision := t.revision + 1)
    ensures t.CurrentColumn().InReview? && t.reviewSummary.Some? && !Blank(t.reviewSummary.value)
  {
    hide Blank;
  }

  lemma GrowingCommit(m: Machine, step: Step)
    requires Enabled(m, step) && step.CommitReview? && ReviewsSound(m)
    ensures Next(m, step).task == m.task || Next(m, step).task.revision > m.task.revision
  {
    hide Transition, LiveTask;
    assert ReviewSound(m, m.reviews[step.key]);
    AcceptanceIs(m.reviews[step.key].snapshot);
  }

  /** Every change of the row counts its revision up. */
  lemma RevisionsGrow(m: Machine, step: Step)
    requires Enabled(m, step) && RowLive(m) && ReviewsSound(m)
    ensures Next(m, step).task == m.task || Next(m, step).task.revision > m.task.revision
  {
    if IsLoopStep(step) {
      hide Next, Enabled;
      GrowingLoopStep(m, step);
    } else if step.CommitReview? {
      hide Next, Enabled;
      GrowingCommit(m, step);
    } else {
      hide EndAttempts, TaskStore.InterruptAll, Prepared, Answered, Synced, AfterLoopStep, AfterCommit;
      if step.UserRequest? {
        RequestsKeepHistory(m.task, step.request);
      } else if step.Sync? {
        SyncKeepsHistory(m.task, step.report);
      }
    }
  }

  lemma GrowingLoopStep(m: Machine, step: Step)
    requires Enabled(m, step) && IsLoopStep(step) && RowLive(m)
    ensures Next(m, step).task == m.task || Next(m, step).task.revision > m.task.revision
  {
    hide Next, Enabled;
    LoopStepKeepsRow(m, step);
  }

  /** An accept in flight that still has the current revision keeps the whole task, outside any loop. */
  lemma ReviewKept(m: Machine, step: Step, key: nat)
    requires Enabled(m, step) && RowLive(m) && ReviewsSound(m) && key in m.reviews && key in Next(m, step).reviews
    requires Next(m, step).reviews[key] == m.reviews[key]
    ensures ReviewSound(Next(m, step), m.reviews[key])
  {
    RevisionsGrow(m, step);
    assert ReviewSound(m, m.reviews[key]);
    if step.UserRequest? {
      RequestsKeepHistory(m.task, step.request);
    }
    hide Answered, Synced, Prepared, Transition, LoopStep, RowLive;
    if Next(m, step).task == m.task && m.reviews[key].snapshot.revision == m.task.revision {
      assert m.loop.None? && m.launch.None?;
    }
  }

  lemma ReviewsStaySound(m: Machine, step: Step)
    requires Enabled(m, step) && RowLive(m) && ReviewsSound(m)
    ensures ReviewsSound(Next(m, step))
  {
    forall key | key in Next(m, step).reviews ensures ReviewSound(Next(m, step), Next(m, step).reviews[key]) {
      if key in m.reviews && Next(m, step).reviews[key] == m.reviews[key] {
        ReviewKept(m, step, key);
      } else {
        NewReviewSound(m, step, key);
      }
    }
  }

  lemma NewReviewSound(m: Machine, step: Step, key: nat)
    requires Enabled(m, step) && RowLive(m) && ReviewsSound(m) && key in Next(m, step).reviews
    requires !(key in m.reviews && Next(m, step).reviews[key] == m.reviews[key])
    ensures ReviewSound(Next(m, step), Next(m, step).reviews[key])
  {
    hide Answered, Synced, Transition, LoopStep, FindSubmission;
    assert (step.ReadReview? || step.CaptureReview?) && step.key == key;
    if step.CaptureReview? {
      assert ReviewSound(m, m.reviews[key]);
    }
  }

  // ---- A loop that could not save its new id ----

  lemma UpdatesKeepAgent(t: Task)
    ensures forall a: Attempt :: Updated(t, a).Some? ==> Updated(t, a).value.assignedAgent == t.assignedAgent
  {
  }

  lemma DispatchParts(s: Session, step: Step, workspace: Workspace, used: set<Uuid>)
    requires LoopStepEnabled(s.loop, step, used) && (step.Queue? || step.LaunchWorker? || step.Measure? || step.Check?)
    requires s.task.assignedAgent == Some(s.loop.owner)
    ensures !Parted(LoopStep(s, step, workspace, used).task, LoopStep(s, step, workspace, used).loop)
  {
    UpdatesKeepAgent(s.task);
    hide Updated, Setup.Criteria;
  }

  lemma JudgeParts(s: Session, j: Judgement, saved: bool)
    requires s.loop.pc.Checking? && s.loop.pc.attempt.workspace.Some? && s.task.assignedAgent == Some(s.loop.owner)
    ensures !Parted(OnJudge(s, j, saved).task, OnJudge(s, j, saved).loop)
  {
    UpdatesKeepAgent(s.task);
    hide Passes, Failures, Joined, Updated;
  }

  lemma OnlyRotationParts(s: Session, step: Step, workspace: Workspace, used: set<Uuid>)
    requires LoopStepEnabled(s.loop, step, used) && IsLoopStep(step)
    requires Parted(s.task, s.loop) || s.task.assignedAgent == Some(s.loop.owner)
    ensures var n := LoopStep(s, step, workspace, used); Parted(n.task, n.loop) ==> s.loop.pc.Rotating? && n.task == s.task
  {
    if step.Queue? || step.LaunchWorker? || step.Measure? || step.Check? {
      DispatchParts(s, step, workspace, used);
    } else if step.Judge? {
      hide OnJudge;
      JudgeParts(s, Judgement(step.cleared, Seen(workspace, step.readable), step.deadline, step.reportReady, step.editionReady),
                 step.saved);
    } else {
      hide Store, OnJudge, Automatic, HasSummary, FindAttempt, EndAttempts, Setup.Criteria;
    }
  }

  lemma LoopPartsQuietly(m: Machine, step: Step)
    requires Steps(m, step) && IsLoopStep(step) && RowLive(m)
    ensures PartedQuiet(Next(m, step))
  {
    hide LoopStep, Chained, SubmissionsSound, IdsSound;
    if !m.loop.value.pc.Ended? {
      OnlyRotationParts(Session(m.task, m.loop.value), step, m.workspace, m.used);
    }
  }

  lemma OthersPartQuietly(m: Machine, n: Machine)
    requires PartedQuiet(m) && n.task.attempts == m.task.attempts && n.task.assignedAgent == m.task.assignedAgent
    requires n.loop.Some? ==> m.loop.Some? && n.loop.value == m.loop.value.(cancelled := n.loop.value.cancelled)
    requires m.blockLost ==> n.blockLost
    ensures PartedQuiet(n)
  {
  }

  lemma ApprovalPartsQuietly(m: Machine, step: Step)
    requires Enabled(m, step) && step.Approve? && PartedQuiet(m)
    ensures PartedQuiet(Next(m, step))
  {
    if m.task.attempts != [] && m.task.attempts[|m.task.attempts| - 1].result.Active() {
      ApprovedEvolves(m.task, step.approval);
      hide WithApproval;
    }
  }

  lemma PartedStaysQuiet(m: Machine, step: Step)
    requires Steps(m, step) && RowLive(m) && ReviewsSound(m) && PartedQuiet(m)
    ensures PartedQuiet(Next(m, step))
  {
    if IsLoopStep(step) {
      LoopPartsQuietly(m, step);
    } else if step.Approve? {
      ApprovalPartsQuietly(m, step);
    } else if m.loop.Some? && Next(m, step).loop.Some? {
      if step.Sync? {
        SyncKeepsHistory(m.task, step.report);
      } else if step.CommitReview? {
        assert ReviewSound(m, m.reviews[step.key]);
      }
      hide Invariant, Answered, Synced, Prepared, AfterLoopStep, Transition;
      OthersPartQuietly(m, Next(m, step));
    } else {
      hide Invariant, Answered, Synced, Prepared, AfterLoopStep, AfterCommit, WithApproval;
    }
  }

  // ---- Whole runs ----

  lemma StepKeeps(m: Machine, step: Step)
    requires Enabled(m, step) && Invariant(m) && RowLive(m) && ReviewsSound(m) && PartedQuiet(m)
    ensures Invariant(Next(m, step)) && RowLive(Next(m, step)) && ReviewsSound(Next(m, step)) && PartedQuiet(Next(m, step))
  {
    RowStaysLive(m, step);
    ReviewsStaySound(m, step);
    PartedStaysQuiet(m, step);
    hide Next, Enabled, Invariant, RowLive, ReviewsSound, PartedQuiet;
    if IsLoopStep(step) {
      LoopStepKeeps(m, step);
    } else if step.Approve? {
      ApprovalKeeps(m, step);
    } else if step.Begin? {
      BeginKeeps(m, step);
    } else if step.Crash? {
      CrashKeeps(m);
    } else {
      QuietStepKeeps(m, step);
    }
  }

  lemma {:induction false} InvariantAlways(states: seq<Machine>, steps: seq<Step>, i: nat)
    requires IsRun(states, steps) && i < |states|
    ensures Invariant(states[i]) && RowLive(states[i]) && ReviewsSound(states[i]) && PartedQuiet(states[i])
    ensures |states| == |steps| + 1
    ensures i < |steps| ==> Enabled(states[i], steps[i]) && states[i + 1] == Next(states[i], steps[i])
  {
    hide Next, Enabled, Invariant, RowLive, ReviewsSound, PartedQuiet, Init;
    if i > 0 {
      InvariantAlways(states, steps, i - 1);
      StepKeeps(states[i - 1], steps[i - 1]);
    } else {
      InitIsSound(states[0]);
    }
  }

  lemma InitIsSound(m: Machine)
    requires Init(m)
    ensures Invariant(m) && RowLive(m) && ReviewsSound(m) && PartedQuiet(m)
  {
  }
}

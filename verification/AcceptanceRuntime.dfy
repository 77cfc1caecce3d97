/**
 The sections of the acceptance loop in place: the row is replaced as it is saved, and the
 loop's variables change step by step.  The loop runs inside a machine that its methods move
 by one step each; what every reachable state of that machine keeps is the invariant of the class.
 */
module AcceptanceRuntime {
  import opened Wrappers
  import opened TaskWorkflow
  import opened AcceptanceLoop
  import opened AcceptanceInvariant
  import opened AcceptanceVerdict

  /** What every state of a run satisfies. */
  ghost predicate Reached(m: Machine) {
    Invariant(m) && RowLive(m) && ReviewsSound(m) && PartedQuiet(m)
  }

  lemma ReachedNext(m: Machine, step: Step)
    requires Reached(m) && Enabled(m, step)
    ensures Reached(Next(m, step))
  {
    hide Invariant, RowLive, ReviewsSound, PartedQuiet, Next, Enabled;
    StepKeeps(m, step);
  }

  /** A step of the loop, as far as the loop itself sees it. */
  lemma LoopMakes(m: Machine, step: Step)
    requires Reached(m) && Enabled(m, step) && IsLoopStep(step)
    ensures Reached(Next(m, step))
    ensures m.loop.Some? && LoopStepEnabled(m.loop.value, step, m.used)
    ensures var s := LoopStep(Session(m.task, m.loop.value), step, m.workspace, m.used);
            Next(m, step).task == s.task && Next(m, step).loop == Some(s.loop)
  {
    ReachedNext(m, step);
    hide LoopStep, Reached;
  }

  /** One step of the machine. */
  ghost predicate Makes(m: Machine, step: Step, n: Machine) {
    Enabled(m, step) && n == Next(m, step)
  }

  predicate SameButLast(before: seq<Attempt>, after: seq<Attempt>) {
    |after| == |before| && before != [] && after[..|before| - 1] == before[..|before| - 1]
  }

  // ---- What the sections mean for the row ----

  lemma EnteredMeans(m: Machine, step: Step)
    requires Reached(m) && Enabled(m, step) && step.Enter?
    ensures var n := Next(m, step);
            && n.task == m.task && n.loop.Some? && (n.loop.value.pc.Blocking? || n.loop.value.pc.Capturing?)
            && (n.loop.value.pc.Capturing? ==>
                  && n.loop.value.setup.cycle == step.cycle && n.loop.value.ordinal == 1 <= n.loop.value.setup.Budget()
                  && |n.task.attempts| < HISTORY_LIMIT
                  && forall k | 0 <= k < |n.task.attempts| :: n.task.attempts[k].cycle != step.cycle)
  {
    ReachedNext(m, step);
    hide Chained, SubmissionsSound, RowLive, ReviewsSound, PartedQuiet;
  }

  /** The summary that a validation without a worker takes over: the one shown for review, or else the last attempt's. */
  function Inherited(t: Task): Option<string> {
    match t.reviewSummary
    case Some(summary) => Some(summary)
    case None => if |t.attempts| == 0 then None else t.attempts[|t.attempts| - 1].summary
  }

  /** Nothing but the last attempt, the condition and the revision of a row changed. */
  ghost predicate Restored(before: Task, after: Task) {
    && SameButLast(before.attempts, after.attempts)
    && after == before.(attempts := after.attempts, condition := after.condition, revision := before.revision + 1)
  }

  /** The row has the attempt as the loop has it, with every approval either of them knows of. */
  ghost predicate RowHas(t: Task, before: seq<Attempt>, a: Attempt) {
    && t.attempts != [] && before != []
    && var last, stored := t.attempts[|t.attempts| - 1], before[|before| - 1];
    && last == a.(approvals := last.approvals)
    && (forall x | x in last.approvals :: x in a.approvals || x in stored.approvals)
    && (forall x | x in a.approvals || x in stored.approvals :: x in last.approvals)
  }

  /** A retry of the last attempt begins where that one was validated. */
  predicate RetriesFrom(l: Loop, attempts: seq<Attempt>, base: Workspace) {
    l.ordinal > 1 ==>
      && attempts != []
      && var last := attempts[|attempts| - 1];
      && last.cycle == l.setup.cycle && last.ordinal + 1 == l.ordinal && last.result.Failed?
      && last.workspace.Some? && last.workspace.value.fingerprint == base.fingerprint
  }

  lemma DispatchMeans(m: Machine)
    requires Reached(m) && m.loop.Some? && (m.loop.value.pc.Rotating? || m.loop.value.pc.Queueing?)
    ensures |m.task.attempts| < HISTORY_LIMIT && RetriesFrom(m.loop.value, m.task.attempts, m.loop.value.pc.base)
  {
    hide Chained, SubmissionsSound, IdsSound, RowLive, ReviewsSound, PartedQuiet, CycleKnown, WarrantsRetry, Differ;
  }

  lemma CapturedMeans(m: Machine, step: Step)
    requires Reached(m) && Enabled(m, step) && step.Capture?
    ensures var n := Next(m, step);
            && n.task == m.task && n.workspace == m.workspace && n.loop.Some?
            && var l := n.loop.value;
            && (l.pc.Blocking? || l.pc.Rotating? || l.pc.Queueing?)
            && (l.pc.Rotating? || l.pc.Queueing? ==>
                  && !l.cancelled && l.pc.base == m.workspace && |n.task.attempts| < HISTORY_LIMIT
                  && RetriesFrom(l, n.task.attempts, l.pc.base))
  {
    ReachedNext(m, step);
    var n := Next(m, step);
    if n.loop.value.pc.Rotating? || n.loop.value.pc.Queueing? {
      DispatchMeans(n);
    }
    hide Reached;
  }

  /** Storing in hand: either nothing is saved and the loop gives up, or only the last attempt changes. */
  lemma StoredMeans(m: Machine, l: Loop, a: Attempt, saved: bool, next: Pc)
    requires Reached(m) && InHand(m.task.attempts, a)
    ensures var s := Store(Session(m.task, l), a, saved, next);
            && (!saved ==> s.task == m.task && s.loop == l.Fail(INFRASTRUCTURE))
            && (saved ==> s.loop == l.At(next) && SameButLast(m.task.attempts, s.task.attempts)
                          && s.task.submissions == m.task.submissions
                          && Restored(m.task, s.task) && RowHas(s.task, m.task.attempts, a)
                          && (a.result.Working? || a.result.Validating? ==> s.task.condition.Running?))
  {
    UpdatedInPlace(m.task, a, m.task.submissions, m.cycles, m.used);
    UpdatedFrame(m.task, a);
    hide Updated, Reached, MergedApprovals;
  }

  lemma UpdatedFrame(t: Task, a: Attempt)
    requires Updated(t, a).Some?
    ensures var n := Updated(t, a).value;
            && n == t.(attempts := n.attempts, condition := n.condition, revision := t.revision + 1)
            && (n.attempts != [] && (n.attempts[|n.attempts| - 1].result.Working? || n.attempts[|n.attempts| - 1].result.Validating?) ==>
                  n.condition.Running?)
            && (n.attempts != [] && n.attempts[|n.attempts| - 1].result.Queued? ==> n.condition.Queued?)
  {
    hide MergedApprovals, FindAttempt;
  }

  lemma QueuedMeans(m: Machine, step: Step)
    requires Reached(m) && Enabled(m, step) && step.Queue?
    ensures var n := Next(m, step);
            && n.loop.Some? && n.task.submissions == m.task.submissions
            && var l := n.loop.value;
            && (l.pc.Blocking? ==> n.task == m.task)
            && (!l.pc.Blocking? ==>
                  && (l.pc.Measuring? <==> l.setup.validationOnly) && (l.pc.Launching? <==> !l.setup.validationOnly)
                  && n.task.attempts == m.task.attempts + [NewAttempt(m.loop.value, step.id, m.loop.value.pc.base)]
                  && RetriesFrom(l, m.task.attempts, m.loop.value.pc.base)
                  && n.task == m.task.(attempts := n.task.attempts, condition := Condition.Queued, revision := m.task.revision + 1)
                  && l == m.loop.value.(pc := l.pc)
                  && var a := n.task.attempts[|m.task.attempts|];
                  l.pc == if l.setup.validationOnly then Measuring(a.(summary := Inherited(l.setup.initial))) else Launching(a))
  {
    DispatchMeans(m);
    LoopNext(m, step);
    assert forall k | 0 <= k < |m.task.attempts| :: m.task.attempts[k].id != step.id;
    QueuedIs(Session(m.task, m.loop.value), step.id, step.promptFits, step.saved);
    hide OnQueue, NewAttempt, Reached, Next, Enabled, RetriesFrom, Inherited;
  }

  lemma QueuedIs(s: Session, id: Uuid, promptFits: bool, saved: bool)
    requires s.loop.pc.Queueing? && forall k | 0 <= k < |s.task.attempts| :: s.task.attempts[k].id != id
    ensures var n, a := OnQueue(s, id, promptFits, saved), NewAttempt(s.loop, id, s.loop.pc.base);
            && n.loop == s.loop.(pc := n.loop.pc)
            && (if promptFits && saved then
                  && n.loop.pc == (if s.loop.setup.validationOnly then Measuring(a.(summary := Inherited(s.loop.setup.initial)))
                                   else Launching(a))
                  && n.task == s.task.(attempts := s.task.attempts + [a], condition := Condition.Queued, revision := s.task.revision + 1)
                else n.loop.pc.Blocking? && n.task == s.task)
  {
    var l, a := s.loop, NewAttempt(s.loop, id, s.loop.pc.base);
    StoredAsNew(s.task, l, a, saved,
                if l.setup.validationOnly then Measuring(a.(summary := l.setup.InheritedSummary())) else Launching(a));
    InheritedIs(l.setup);
    hide Store, Setup.InheritedSummary, Inherited;
  }

  lemma StoredAsNew(t: Task, l: Loop, a: Attempt, saved: bool, next: Pc)
    requires a.result.Queued? && forall k | 0 <= k < |t.attempts| :: t.attempts[k].id != a.id
    ensures var s := Store(Session(t, l), a, saved, next);
            if saved then
              && s.loop == l.At(next)
              && s.task == t.(attempts := t.attempts + [a], condition := Condition.Queued, revision := t.revision + 1)
            else s.task == t && s.loop == l.Fail(INFRASTRUCTURE)
  {
    UpdatedByNew(t, a);
    UpdatedFrame(t, a);
    hide Updated;
  }

  lemma InheritedIs(setup: Setup)
    ensures setup.InheritedSummary() == Inherited(setup.initial)
  {
  }

  lemma LaunchedMeans(m: Machine, step: Step)
    requires Reached(m) && Enabled(m, step) && step.LaunchWorker?
    ensures var n := Next(m, step);
            && n.loop.Some? && (n.loop.value.pc.Blocking? || n.loop.value.pc.Waiting?)
            && (n.loop.value.pc.Blocking? ==> n.task == m.task)
            && (n.loop.value.pc.Waiting? ==>
                  && step.launched && Restored(m.task, n.task) && n.task.condition.Running?
                  && n.loop.value.pc.attempt == m.loop.value.pc.attempt.(result := Working)
                  && RowHas(n.task, m.task.attempts, n.loop.value.pc.attempt))
  {
    LoopNext(m, step);
    var a := m.loop.value.pc.attempt.(result := Working);
    LaunchedLoop(m.loop.value, m.task.attempts, m.cycles, m.late);
    StoredMeans(m, m.loop.value, a, step.saved, Waiting(a));
    hide Store, Reached, Next, Enabled, LoopSound;
  }

  lemma EndedMeans(m: Machine, step: Step)
    requires Reached(m) && Enabled(m, step) && step.EndWorker?
    ensures var n := Next(m, step);
            && n.task == m.task && n.loop.Some? && (n.loop.value.pc.Blocking? || n.loop.value.pc.Measuring?)
            && (n.loop.value.pc.Measuring? ==>
                  && m.task.attempts != [] && step.outcome.Finished?
                  && n.loop.value.pc.attempt.id == m.task.attempts[|m.task.attempts| - 1].id
                  && n.loop.value.pc.attempt == m.loop.value.pc.attempt.(
                       thread := step.outcome.thread, summary := step.outcome.summary,
                       approvals := m.task.attempts[|m.task.attempts| - 1].approvals))
  {
    EndWorkerNext(m, step);
    if m.task.attempts != [] {
      LastIsFound(m.task.attempts, m.task.submissions, m.cycles, m.used);
    }
    hide FindAttempt, Chained, SubmissionsSound, IdsSound, RowLive, ReviewsSound, PartedQuiet, CycleKnown;
  }

  lemma MeasuredMeans(m: Machine, step: Step)
    requires Reached(m) && Enabled(m, step) && step.Measure?
    ensures var n := Next(m, step);
            && n.loop.Some? && (n.loop.value.pc.Blocking? || n.loop.value.pc.Checking?)
            && (n.task == m.task || SameButLast(m.task.attempts, n.task.attempts))
            && n.task.submissions == m.task.submissions
            && (n.loop.value.pc.Checking? ==>
                  && n.task.attempts != []
                  && var last := n.task.attempts[|n.task.attempts| - 1];
                  && last.result.Validating? && last.workspace == Some(m.workspace) && last.base.head == m.workspace.head
                  && n.loop.value.pc.attempt == m.loop.value.pc.attempt.(result := Validating, workspace := Some(m.workspace))
                  && Restored(m.task, n.task) && n.task.condition.Running?
                  && RowHas(n.task, m.task.attempts, n.loop.value.pc.attempt))
  {
    LoopNext(m, step);
    var l := m.loop.value;
    var a := l.pc.attempt.(result := Validating, workspace := Some(m.workspace));
    MeasuredLoop(l, m.workspace, m.task.attempts, m.cycles, m.late);
    StoredMeans(m, l, a, step.saved, if a.base.head != m.workspace.head then Blocking("workspace_changed") else Checking(a));
    hide Store, Reached, Next, Enabled, LoopSound, WithStored;
  }

  lemma CheckingValidators(m: Machine)
    requires Reached(m) && m.loop.Some? && m.loop.value.pc.Checking?
    ensures m.task.attempts != [] && m.task.attempts[|m.task.attempts| - 1].validators == m.loop.value.pc.attempt.validators
  {
    hide Chained, SubmissionsSound, IdsSound, RowLive, ReviewsSound, PartedQuiet, CycleKnown, Evidenced, Setup.Criteria;
  }

  lemma CheckedMeans(m: Machine, step: Step)
    requires Reached(m) && Enabled(m, step) && step.Check?
    ensures var n := Next(m, step);
            && n.loop.Some? && (n.loop.value.pc.Blocking? || n.loop.value.pc.Checking?)
            && (n.task == m.task || SameButLast(m.task.attempts, n.task.attempts))
            && n.task.submissions == m.task.submissions
            && (n.loop.value.pc.Checking? ==>
                  && !m.loop.value.cancelled && !step.status.InfrastructureError? && !step.status.Cancelled?
                  && m.task.attempts != [] && n.task.attempts != []
                  && var before, after := m.task.attempts[|m.task.attempts| - 1], n.task.attempts[|n.task.attempts| - 1];
                  && |before.validators| < |m.loop.value.setup.Criteria()|
                  && after.validators == before.validators
                                         + [Evidence(m.loop.value.setup.Criteria()[|before.validators|], step.status, step.note)]
                  && n.loop.value.pc.attempt == m.loop.value.pc.attempt.(validators := after.validators)
                  && Restored(m.task, n.task) && RowHas(n.task, m.task.attempts, n.loop.value.pc.attempt))
  {
    LoopNext(m, step);
    var l := m.loop.value;
    var done := l.pc.attempt.validators;
    var a := l.pc.attempt.(validators := done + [Evidence(l.setup.Criteria()[|done|], step.status, step.note)]);
    CheckedLoop(l, step.status, step.note, m.task.attempts, m.cycles, m.late);
    CheckingValidators(m);
    StoredMeans(m, l, a, step.saved,
                if step.status.InfrastructureError? then Blocking(INFRASTRUCTURE)
                else if step.status.Cancelled? then Blocking("cancelled") else Checking(a));
    hide Store, Next, Enabled, Reached, LoopSound, WithStored, Setup.Criteria;
  }

  lemma StoringShape(s: Session, a: Attempt, saved: bool, next: Pc)
    ensures var n := Store(s, a, saved, next);
            n.task.submissions == s.task.submissions && (n.loop.pc.Blocking? || n.loop.pc == next)
  {
    UpdatesKeepSubmissions(s.task);
    hide Updated;
  }

  lemma JudgedShape(s: Session, j: Judgement, saved: bool)
    requires s.loop.pc.Checking? && s.loop.pc.attempt.workspace.Some?
    ensures var n := OnJudge(s, j, saved);
            && n.task.submissions == s.task.submissions
            && (n.loop.pc.Blocking? || n.loop.pc.Submitting? || n.loop.pc.Concluding?)
  {
    hide Passes, Failures, Joined, Store;
    var a := s.loop.pc.attempt;
    var failed := a.(result := AttemptResult.Failed, failure := Some("validation_failed"));
    if j.captured.Some? {
      var passed := a.(result := AttemptResult.Passed);
      StoringShape(s, passed, saved, Submitting(passed, j.captured.value));
      StoringShape(s, failed, saved, Concluding(failed, Joined(Failures(s.loop.setup, a, j.reportReady)), j.captured.value));
    }
  }

  lemma JudgedMeans(m: Machine, step: Step)
    requires Reached(m) && Enabled(m, step) && step.Judge?
    ensures var n := Next(m, step);
            && n.loop.Some? && n.task.submissions == m.task.submissions
            && (n.loop.value.pc.Blocking? || n.loop.value.pc.Submitting? || n.loop.value.pc.Concluding?)
            && (n.loop.value.pc.Submitting? ==> Submittable(n))
  {
    LoopNext(m, step);
    ReachedNext(m, step);
    JudgedShape(Session(m.task, m.loop.value), JudgementOf(m, step), step.saved);
    if Next(m, step).loop.value.pc.Submitting? {
      SubmittingMeans(Next(m, step));
    }
    hide Reached, OnJudge, Submittable, Next, Enabled;
  }

  lemma VerdictMeans(m: Machine, step: Step)
    requires Reached(m) && Enabled(m, step) && step.Judge?
    ensures m.loop.Some? && m.loop.value.pc.Checking? && Next(m, step).loop.Some?
    ensures Next(m, step).loop.value.pc.Submitting? ==> Next(m, step).task.attempts != []
    ensures var l, n, j := m.loop.value, Next(m, step).loop.value, JudgementOf(m, step);
            && n == l.(pc := n.pc)
            && (n.pc.Submitting? <==> step.saved && Undisturbed(l.setup, l.pc.attempt, j) && DeservesReview(l.setup, l.pc.attempt, j))
            && (n.pc.Concluding? <==> step.saved && Undisturbed(l.setup, l.pc.attempt, j) && !DeservesReview(l.setup, l.pc.attempt, j))
            && (n.pc.Submitting? ==> HasGround(l.setup, Next(m, step).task.attempts[|Next(m, step).task.attempts| - 1].validators, j))
  {
    JudgedIff(m, step);
    ReachedNext(m, step);
    if Next(m, step).loop.value.pc.Submitting? {
      SubmittingMeans(Next(m, step));
    }
    hide Reached, Invariant, Next, Enabled, Undisturbed, HasGround;
  }

  lemma UpdatesKeepSubmissions(t: Task)
    ensures forall a: Attempt :: Updated(t, a).Some? ==> Updated(t, a).value.submissions == t.submissions
  {
  }

  /** The row's last attempt passed with everything that a submission has to rest on. */
  ghost predicate Submittable(m: Machine)
    requires m.loop.Some? && m.loop.value.pc.Submitting?
  {
    && m.task.attempts != []
    && var last, l := m.task.attempts[|m.task.attempts| - 1], m.loop.value;
    && last.result.Passed? && last.id == l.pc.attempt.id && last.validators == l.pc.attempt.validators && HasSummary(last)
    && |last.validators| == |l.setup.Criteria()| && Evidenced(last.validators, l.setup.Criteria()) && NoneFails(last.validators)
    && last.workspace.Some? && last.base.head == last.workspace.value.head
    && last.workspace.value.fingerprint == l.pc.current.fingerprint
  }

  lemma SubmittingMeans(m: Machine)
    requires Reached(m) && m.loop.Some? && m.loop.value.pc.Submitting?
    ensures Submittable(m)
  {
    hide Chained, SubmissionsSound, IdsSound, RowLive, ReviewsSound, PartedQuiet, CycleKnown, Evidenced, NoneFails, Setup.Criteria;
  }

  lemma SubmittedMeans(m: Machine, step: Step)
    requires Reached(m) && Enabled(m, step) && step.SubmitReview?
    ensures var n := Next(m, step);
            && n.loop.Some? && n.task.attempts == m.task.attempts
            && (if step.saved then
                  && n.loop.value.pc == Ended(true) && n.task.CurrentColumn().InReview? && n.task.condition.Idle?
                  && |n.task.submissions| == |m.task.submissions| + 1 && m.task.submissions <= n.task.submissions
                  && n.task.currentSubmission == Some(step.id)
                  && n.task.submissions[|m.task.submissions|].id == step.id
                  && Grounded(n.task.attempts, n.cycles, n.task.submissions[|m.task.submissions|])
                else n.loop.value.pc.Blocking? && n.task == m.task)
  {
    LoopNext(m, step);
    ReachedNext(m, step);
    hide Chained, IdsSound, LoopInvariant, RowLive, ReviewsSound, PartedQuiet, Grounded, Next, Enabled;
    assert step.saved ==> Grounded(Next(m, step).task.attempts, Next(m, step).cycles, Next(m, step).task.submissions[|m.task.submissions|]);
  }

  lemma ConcludedMeans(m: Machine, step: Step)
    requires Reached(m) && Enabled(m, step) && step.Conclude?
    ensures var n := Next(m, step);
            && n.task == m.task && n.loop.Some? && (n.loop.value.pc.Blocking? || n.loop.value.pc.Capturing?)
            && (n.loop.value.pc.Capturing? ==>
                  && m.task.attempts != [] && n.loop.value.ordinal == m.loop.value.ordinal + 1 <= n.loop.value.setup.Budget()
                  && var last := m.task.attempts[|m.task.attempts| - 1];
                  && last.cycle == n.loop.value.setup.cycle && last.result.Failed? && WarrantsRetry(last, n.loop.value.setup.Info())
                  && (last.approvals == [] <==> last.id !in n.late)
                  && last.workspace.Some? && n.loop.value.expected == Some(last.workspace.value.fingerprint))
  {
    ConcludeNext(m, step);
    ReachedNext(m, step);
    ConcludedMoves(Session(m.task, m.loop.value));
    ConcludedOrdinal(Session(m.task, m.loop.value));
    hide OnConclude, Chained, SubmissionsSound, IdsSound, RowLive, ReviewsSound, PartedQuiet, WarrantsRetry, Differ, Next, Enabled;
  }

  lemma ConcludedOrdinal(s: Session)
    requires s.loop.pc.Concluding? && s.loop.pc.attempt.workspace.Some?
    ensures OnConclude(s).loop.pc.Capturing? ==> OnConclude(s).loop.ordinal == s.loop.ordinal + 1
  {
    hide Automatic, HasSummary;
  }

  lemma BlockedMeans(m: Machine, step: Step)
    requires Reached(m) && Enabled(m, step) && step.Block?
    ensures var n := Next(m, step);
            && n.loop.Some? && n.loop.value.pc == Ended(false)
            && |n.task.attempts| == |m.task.attempts| && n.task.submissions == m.task.submissions
            && (forall k | 0 <= k < |m.task.attempts| && !m.task.attempts[k].result.Active() ::
                  n.task.attempts[k] == m.task.attempts[k])
            && (if step.saved then
                  && !SomeActive(n.task.attempts) && n.task.condition.Blocked? && n.task.CurrentColumn().InProgress?
                  && n.task.currentSubmission.None?
                else n.task == m.task)
  {
    LoopNext(m, step);
    hide Reached, Next, Enabled;
  }

  class LoopRuntime {
    var task: Task
    var pc: Pc
    var setup: Setup
    var owner: AgentId
    var cancelled: bool
    var ordinal: nat
    var previousFailure: Option<string>
    var resume: Option<string>
    var expected: Option<Fingerprint>
    /** Everybody who acts on the same row. */
    ghost var around: Machine

    function View(): Session
      reads this
    {
      Session(task, Loop(pc, setup, owner, cancelled, ordinal, previousFailure, resume, expected))
    }

    ghost predicate Valid()
      reads this
    {
      around.task == task && around.loop == Some(View().loop) && Reached(around)
    }

    /** The attempt in hand, as the row has it. */
    function Last(): Attempt
      requires task.attempts != []
      reads this
    {
      task.attempts[|task.attempts| - 1]
    }

    /** A loop that was admitted begins. */
    constructor (ghost m: Machine, task: Task, validationOnly: bool, owner: AgentId, resume: Option<string>)
      requires Reached(m) && Enabled(m, Begin(true, resume, true)) && Admitted(m.task, true)
      requires m.task == task && m.launch == Some(Launch(validationOnly)) && task.assignedAgent == Some(owner)
      ensures Valid() && Makes(m, Begin(true, resume, true), around)
      ensures View() == Session(task, Loop(Entering, Setup(task, 0, validationOnly), owner, false, 0, None, resume, None))
    {
      this.task, this.pc, this.setup, this.owner := task, Entering, Setup(task, 0, validationOnly), owner;
      this.cancelled, this.ordinal, this.previousFailure, this.resume, this.expected := false, 0, None, resume, None;
      this.around := Next(m, Begin(true, resume, true));
      new;
      ReachedNext(m, Begin(true, resume, true));
      hide Reached;
    }

    method Fail(code: string)
      modifies this`pc
      ensures View() == Session(old(task), old(View()).loop.Fail(code))
    {
      pc := Blocking(code);
    }

    method MergeApprovals(known: seq<Uuid>, stored: seq<Uuid>) returns (merged: seq<Uuid>)
      ensures merged == MergedApprovals(known, stored)
    {
      merged := known;
      for i := 0 to |stored|
        invariant merged == MergedApprovals(known, stored[..i])
      {
        if stored[i] !in merged {
          merged := merged + [stored[i]];
        }
        assert stored[..i + 1][..i] == stored[..i];
      }
      assert stored[..|stored|] == stored;
    }

    /** Saves an attempt into the row; an attempt that ended, or a save that fails, leaves the row as it is. */
    method AttemptUpdate(attempt: Attempt, saved: bool) returns (ok: bool)
      modifies this`task
      ensures ok == (saved && Updated(old(task), attempt).Some?)
      ensures task == if ok then Updated(old(task), attempt).value else old(task)
    {
      var i: nat := 0;
      while i < |task.attempts| && task.attempts[i].id != attempt.id
        invariant i <= |task.attempts| && forall k | 0 <= k < i :: task.attempts[k].id != attempt.id
      {
        i := i + 1;
      }
      assert i == FindAttempt(task.attempts, attempt.id);
      var attempts := task.attempts;
      if i < |attempts| {
        if !attempts[i].result.Active() {
          return false;
        }
        var approvals := MergeApprovals(attempt.approvals, attempts[i].approvals);
        attempts := attempts[i := attempt.(approvals := approvals)];
      } else {
        attempts := attempts + [attempt];
      }
      if saved {
        task := task.(attempts := attempts, condition := ConditionFor(attempts, task.condition)).Touched();
      }
      return saved;
    }

    method StoreAttempt(attempt: Attempt, saved: bool, next: Pc)
      modifies this`task, this`pc
      ensures View() == Store(old(View()), attempt, saved, next)
    {
      var ok := AttemptUpdate(attempt, saved);
      pc := if ok then next else Blocking(INFRASTRUCTURE);
    }

    /** A cycle that begins is new to the row and has room in it; the row is not touched. */
    method Enter(cycle: Uuid, presetsRead: bool)
      requires Valid() && pc.Entering? && cycle !in around.used
      modifies this
      ensures Valid() && Makes(old(around), Step.Enter(cycle, presetsRead), around) && task == old(task)
      ensures pc.Blocking? || pc.Capturing?
      ensures pc.Capturing? ==>
                && setup.cycle == cycle && ordinal == 1 <= setup.Budget() && |task.attempts| < HISTORY_LIMIT
                && forall k | 0 <= k < |task.attempts| :: task.attempts[k].cycle != cycle
      ensures pc.Capturing? ==> setup == Setup(task, cycle, old(setup.validationOnly)) && previousFailure.None? && expected.None?
      ensures owner == old(owner) && cancelled == old(cancelled) && resume == old(resume)
    {
      hide Reached;
      ghost var step := Step.Enter(cycle, presetsRead);
      LoopMakes(around, step);
      EnteredMeans(around, step);
      ghost var before := around;
      around := Next(around, step);
      assert Makes(before, step, around);
      hide Makes, Next, Enabled, Setup.Budget;
      if !task.config.Valid() {
        Fail(INFRASTRUCTURE);
      } else if |task.attempts| >= HISTORY_LIMIT || |task.submissions| >= HISTORY_LIMIT {
        Fail("history_limit");
      } else if !presetsRead {
        Fail(INFRASTRUCTURE);
      } else {
        pc, setup := Capturing, Setup(task, cycle, setup.validationOnly);
        ordinal, previousFailure, expected := 1, None, None;
      }
    }

    /** Going on means: not cancelled, room in the history, and a retry finds the workspace its predecessor was validated with. */
    method CaptureBase(allowed: bool, deadline: bool, captured: Option<Workspace>, ghost readable: bool)
      requires Valid() && pc.Capturing? && captured == Seen(around.workspace, readable)
      modifies this
      ensures Valid() && Makes(old(around), Capture(allowed, deadline, readable), around) && task == old(task)
      ensures pc.Blocking? || pc.Rotating? || pc.Queueing?
      ensures pc.Rotating? || pc.Queueing? ==>
                && !cancelled && captured == Some(pc.base) && |task.attempts| < HISTORY_LIMIT
                && RetriesFrom(View().loop, task.attempts, pc.base)
      ensures !pc.Blocking? ==> (pc.Queueing? <==> ordinal <= 1 || (setup.initial.inQueue && !setup.initial.coordinated))
      ensures View().loop == old(View()).loop.(pc := pc)
    {
      hide Reached;
      ghost var step := Capture(allowed, deadline, readable);
      LoopMakes(around, step);
      CapturedMeans(around, step);
      assert LoopStep(View(), step, around.workspace, around.used) == OnCapture(View(), allowed, deadline, captured);
      ghost var before := around;
      around := Next(around, step);
      assert Makes(before, step, around);
      hide Makes, Next, Enabled, LoopStep, RetriesFrom;
      if !allowed {
        Fail("capability_unavailable");
      } else if |task.attempts| >= HISTORY_LIMIT {
        Fail("history_limit");
      } else if cancelled {
        Fail("cancelled");
      } else if deadline {
        Fail("budget_exhausted");
      } else if captured.None? {
        Fail(INFRASTRUCTURE);
      } else if expected.Some? && expected.value != captured.value.fingerprint {
        Fail("workspace_changed");
      } else if ordinal > 1 && !setup.BoardQueue() {
        pc := Rotating(captured.value);
      } else {
        pc := Queueing(captured.value);
      }
    }

    /** The history is not touched; if the loop goes on, row and loop have the same new id. */
    method RotateOwner(agent: AgentId, transferred: bool, saved: bool)
      requires Valid() && pc.Rotating?
      modifies this
      ensures Valid() && Makes(old(around), Rotate(agent, transferred, saved), around)
      ensures task.attempts == old(task.attempts) && task.submissions == old(task.submissions)
      ensures pc.Blocking? || pc.Queueing?
      ensures pc.Queueing? <==> transferred && saved
      ensures pc.Queueing? ==>
                && task.assignedAgent == Some(agent) && owner == agent && task.condition.Queued?
                && RetriesFrom(View().loop, task.attempts, pc.base)
      ensures pc.Queueing? ==> pc.base == old(pc.base) && task == old(task).(assignedAgent := Some(agent), condition := Condition.Queued,
                                                                             revision := old(task.revision) + 1)
      ensures pc.Blocking? ==> task == old(task) && (owner == agent <==> transferred || old(owner) == agent)
      ensures View().loop == old(View()).loop.(pc := pc, owner := owner)
    {
      hide Reached;
      ghost var step := Rotate(agent, transferred, saved);
      LoopMakes(around, step);
      DispatchMeans(around);
      ghost var before := around;
      around := Next(around, step);
      assert Makes(before, step, around);
      hide Makes, Next, Enabled;
      if !transferred {
        Fail(INFRASTRUCTURE);
        return;
      }
      owner := agent;
      if !saved {
        Fail(INFRASTRUCTURE);
        return;
      }
      task := task.(assignedAgent := Some(owner), condition := Condition.Queued).Touched();
      pc := Queueing(pc.base);
    }

    /** Exactly one attempt is appended, active and with the workspace it was captured for, or nothing is saved. */
    method QueueAttempt(id: Uuid, promptFits: bool, saved: bool)
      requires Valid() && pc.Queueing? && id !in around.used
      modifies this
      ensures Valid() && Makes(old(around), Queue(id, promptFits, saved), around)
      ensures task.submissions == old(task.submissions) && setup == old(setup) && ordinal == old(ordinal)
      ensures pc.Blocking? || (if setup.validationOnly then pc.Measuring? else pc.Launching?)
      ensures pc.Blocking? ==> task == old(task)
      ensures !pc.Blocking? ==>
                && |task.attempts| == |old(task).attempts| + 1 && old(task).attempts <= task.attempts
                && Last() == Attempt(id, setup.cycle, owner, resume, ordinal, setup.validationOnly, AttemptResult.Queued, None,
                                     old(pc.base), None, [], None, [])
                && RetriesFrom(View().loop, old(task).attempts, Last().base)
                && task == old(task).(attempts := task.attempts, condition := Condition.Queued, revision := old(task.revision) + 1)
      ensures pc.Launching? ==> pc.attempt == Last()
      ensures pc.Measuring? ==> pc.attempt == Last().(summary := Inherited(setup.initial))
      ensures View().loop == old(View()).loop.(pc := pc)
    {
      hide Reached;
      ghost var step := Queue(id, promptFits, saved);
      LoopMakes(around, step);
      QueuedMeans(around, step);
      ghost var before := around;
      around := Next(around, step);
      assert Makes(before, step, around);
      hide Makes, Next, Enabled, Store, Setup.InheritedSummary, Inherited, RetriesFrom;
      var attempt := NewAttempt(View().loop, id, pc.base);
      if !promptFits {
        Fail("prompt_limit");
      } else if setup.validationOnly {
        StoreAttempt(attempt, saved, Measuring(attempt.(summary := setup.InheritedSummary())));
      } else {
        StoreAttempt(attempt, saved, Launching(attempt));
      }
    }

    /** A worker is waited for only if it was launched and the row shows its attempt as working; nothing else changes. */
    method LaunchWorker(launched: bool, saved: bool)
      requires Valid() && pc.Launching?
      modifies this
      ensures Valid() && Makes(old(around), Step.LaunchWorker(launched, saved), around)
      ensures pc.Blocking? || pc.Waiting?
      ensures pc.Blocking? ==> task == old(task)
      ensures pc.Waiting? ==>
                && launched && Restored(old(task), task) && task.condition.Running?
                && pc.attempt == old(pc.attempt).(result := Working) && RowHas(task, old(task.attempts), pc.attempt)
    {
      hide Reached;
      ghost var step := Step.LaunchWorker(launched, saved);
      LoopMakes(around, step);
      LaunchedMeans(around, step);
      ghost var before := around;
      around := Next(around, step);
      assert Makes(before, step, around);
      hide Makes, Next, Enabled, Store, SameButLast;
      var attempt := pc.attempt.(result := Working);
      if !launched {
        Fail("launch_failed");
      } else {
        StoreAttempt(attempt, saved, Waiting(attempt));
      }
    }

    /** The loop goes on with exactly the approvals that are stored for its attempt, and saves nothing. */
    method WorkerEnded(outcome: WorkerOutcome)
      requires Valid() && pc.Waiting?
      modifies this
      ensures Valid() && Makes(old(around), EndWorker(outcome), around) && task == old(task)
      ensures pc.Blocking? || pc.Measuring?
      ensures pc.Measuring? ==>
                && task.attempts != [] && outcome.Finished? && pc.attempt.id == Last().id
                && pc.attempt == old(pc.attempt).(thread := outcome.thread, summary := outcome.summary, approvals := Last().approvals)
    {
      hide Reached;
      ghost var step := EndWorker(outcome);
      ReachedNext(around, step);
      EndWorkerNext(around, step);
      EndedMeans(around, step);
      ghost var before := around;
      around := Next(around, step);
      assert Makes(before, step, around);
      hide Makes, Next, Enabled, LoopStep;
      match outcome {
        case Stopped => Fail(if cancelled then "cancelled" else "budget_exhausted");
        case StillExiting => Fail(INFRASTRUCTURE);
        case NotCompleted => Fail("worker_blocked");
        case Finished(thread, summary) =>
          var attempt := pc.attempt.(thread := thread, summary := summary);
          var i := FindAttempt(task.attempts, attempt.id);
          if i < |task.attempts| {
            attempt := attempt.(approvals := task.attempts[i].approvals);
          }
          pc := Measuring(attempt);
      }
    }

    /** Checks begin only on a stored workspace with the HEAD the attempt started from; nothing but that attempt changes. */
    method MeasureWorkspace(captured: Option<Workspace>, ghost readable: bool, saved: bool)
      requires Valid() && pc.Measuring? && captured == Seen(around.workspace, readable)
      modifies this
      ensures Valid() && Makes(old(around), Measure(readable, saved), around)
      ensures pc.Blocking? || pc.Checking?
      ensures (task == old(task) || SameButLast(old(task).attempts, task.attempts)) && task.submissions == old(task.submissions)
      ensures pc.Checking? ==>
                && task.attempts != [] && Last().result.Validating? && Last().workspace == captured && captured.Some?
                && Last().base.head == captured.value.head
                && pc.attempt == old(pc.attempt).(result := Validating, workspace := captured)
                && Restored(old(task), task) && task.condition.Running? && RowHas(task, old(task.attempts), pc.attempt)
    {
      hide Reached;
      ghost var step := Measure(readable, saved);
      LoopMakes(around, step);
      MeasuredMeans(around, step);
      ghost var before := around;
      around := Next(around, step);
      assert Makes(before, step, around);
      hide Makes, Next, Enabled, Store, SameButLast;
      if captured.None? {
        Fail(INFRASTRUCTURE);
        return;
      }
      var attempt := pc.attempt.(result := Validating, workspace := captured);
      StoreAttempt(attempt, saved,
                   if attempt.base.head != captured.value.head then Blocking("workspace_changed") else Checking(attempt));
    }

    /** The loop goes on only with a conclusive item stored behind the evidence there was, for the criterion whose turn it is. */
    method RunValidator(status: CheckStatus, note: string, saved: bool)
      requires Valid() && pc.Checking? && |pc.attempt.validators| < |setup.Criteria()|
      modifies this
      ensures Valid() && Makes(old(around), Check(status, note, saved), around)
      ensures pc.Blocking? || pc.Checking?
      ensures (task == old(task) || SameButLast(old(task).attempts, task.attempts)) && task.submissions == old(task.submissions)
      ensures pc.Checking? ==>
                && !cancelled && !status.InfrastructureError? && !status.Cancelled?
                && old(task).attempts != [] && task.attempts != []
                && var before := old(Last()).validators;
                && |before| < |setup.Criteria()|
                && Last().validators == before + [Evidence(setup.Criteria()[|before|], status, note)]
                && pc.attempt == old(pc.attempt).(validators := Last().validators)
                && Restored(old(task), task) && RowHas(task, old(task.attempts), pc.attempt)
    {
      hide Reached;
      ghost var step := Check(status, note, saved);
      LoopMakes(around, step);
      CheckedMeans(around, step);
      assert LoopStep(View(), step, around.workspace, around.used) == OnCheck(View(), status, note, saved);
      ghost var before := around;
      around := Next(around, step);
      assert Makes(before, step, around);
      hide Makes, Next, Enabled, LoopStep, OnCheck, SameButLast, Restored, RowHas, Setup.Criteria;
      CheckInPlace(status, note, saved);
    }

    method CheckInPlace(status: CheckStatus, note: string, saved: bool)
      requires pc.Checking? && |pc.attempt.validators| < |setup.Criteria()|
      modifies this`task, this`pc
      ensures View() == OnCheck(old(View()), status, note, saved)
    {
      hide Store, Setup.Criteria;
      if cancelled {
        Fail("cancelled");
        return;
      }
      var done := pc.attempt.validators;
      var attempt := pc.attempt.(validators := done + [Evidence(setup.Criteria()[|done|], status, note)]);
      StoreAttempt(attempt, saved,
                   if status.InfrastructureError? then Blocking(INFRASTRUCTURE)
                   else if status.Cancelled? then Blocking("cancelled")
                   else Checking(attempt));
    }

    /** Goes through the evidence once, collecting failures and whether any required check decided. */
    method Tally(validators: seq<Evidence>) returns (failures: seq<string>, automatic: bool)
      ensures failures == FailureNotes(validators) && automatic == Automatic(validators)
    {
      failures, automatic := [], false;
      for i := 0 to |validators|
        invariant failures == FailureNotes(validators[..i])
        invariant automatic == exists k :: 0 <= k < i && DecidesRequired(validators[k])
      {
        if FailsRequired(validators[i]) {
          failures := failures + [validators[i].note];
        }
        automatic := automatic || DecidesRequired(validators[i]);
        assert validators[..i + 1][..i] == validators[..i];
      }
      assert validators[..|validators|] == validators;
    }

    /**
     What goes on to submission is exactly what deserves review, undisturbed, and could be saved.  It has passed, with one
     conclusive item for each criterion and no required one failed, and some ground to be submitted without being asked for.
     */
    method JudgeAttempt(j: Judgement, ghost readable: bool, saved: bool)
      requires Valid() && pc.Checking? && pc.attempt.workspace.Some? && |pc.attempt.validators| >= |setup.Criteria()|
      requires j.captured == Seen(around.workspace, readable)
      modifies this
      ensures Valid()
      ensures Makes(old(around), Judge(j.cleared, readable, j.deadline, j.reportReady, j.editionReady, saved), around)
      ensures task.submissions == old(task.submissions) && (pc.Blocking? || pc.Submitting? || pc.Concluding?)
      ensures pc.Submitting? <==> saved && Undisturbed(setup, old(pc.attempt), j) && DeservesReview(setup, old(pc.attempt), j)
      ensures pc.Concluding? <==> saved && Undisturbed(setup, old(pc.attempt), j) && !DeservesReview(setup, old(pc.attempt), j)
      ensures pc.Submitting? ==> Submittable(around) && HasGround(setup, Last().validators, j)
    {
      hide Reached;
      ghost var step := Judge(j.cleared, readable, j.deadline, j.reportReady, j.editionReady, saved);
      LoopMakes(around, step);
      JudgedMeans(around, step);
      VerdictMeans(around, step);
      assert LoopStep(View(), step, around.workspace, around.used) == OnJudge(View(), j, saved);
      ghost var before := around;
      around := Next(around, step);
      assert Makes(before, step, around);
      hide Makes, Next, Enabled, LoopStep, OnJudge, Submittable, Undisturbed, DeservesReview, HasGround, Setup.Criteria;
      JudgeInPlace(j, saved);
    }

    method JudgeInPlace(j: Judgement, saved: bool)
      requires pc.Checking? && pc.attempt.workspace.Some?
      modifies this`task, this`pc
      ensures View() == OnJudge(old(View()), j, saved)
    {
      hide Joined, FailureNotes, Automatic, Blank, Store;
      var a := pc.attempt;
      if !j.cleared || j.captured.None? {
        Fail(INFRASTRUCTURE);
        return;
      }
      var current := j.captured.value;
      if current.fingerprint != a.workspace.value.fingerprint {
        Fail("workspace_changed");
        return;
      }
      if j.deadline {
        Fail("budget_exhausted");
        return;
      }
      if setup.initial.config.policy.requireChange && !setup.validationOnly && a.base.fingerprint == a.workspace.value.fingerprint {
        Fail("no_change");
        return;
      }
      var failures, automatic := Tally(a.validators);
      if setup.initial.coordinated && !j.reportReady {
        failures := failures + [REPORT_MISSING];
      }
      assert failures == Failures(setup, a, j.reportReady);
      var submittable := automatic || setup.validationOnly || setup.BoardQueue()
                         || (setup.initial.coordinated && j.reportReady) || j.editionReady;
      if failures == [] && submittable && HasSummary(a) {
        a := a.(result := AttemptResult.Passed);
        StoreAttempt(a, saved, Submitting(a, current));
      } else {
        a := a.(result := AttemptResult.Failed, failure := Some("validation_failed"));
        StoreAttempt(a, saved, Concluding(a, Joined(failures), current));
      }
    }

    /** One submission more, grounded in a passed attempt of the row, and the row in review; or nothing saved. */
    method SubmitForReview(id: Uuid, saved: bool)
      requires Valid() && pc.Submitting? && pc.attempt.summary.Some? && id !in around.used
      modifies this
      ensures Valid() && Makes(old(around), SubmitReview(id, saved), around) && task.attempts == old(task.attempts)
      ensures saved ==>
                && pc == Ended(true) && task.CurrentColumn().InReview? && task.condition.Idle?
                && |task.submissions| == |old(task).submissions| + 1 && old(task).submissions <= task.submissions
                && task.currentSubmission == Some(id) && task.submissions[|old(task).submissions|].id == id
                && Grounded(task.attempts, around.cycles, task.submissions[|old(task).submissions|])
                && var s, a := task.submissions[|old(task).submissions|], old(pc.attempt);
                && s.attempt == a.id && Some(s.summary) == a.summary && s.criteria == a.validators && s.approvals == a.approvals
                && s.workspace == old(pc.current)
                && (setup.validationOnly ==> s.agent == LastWorker(setup.initial.attempts) && task.assignedAgent == s.agent)
                && (!setup.validationOnly ==> s.agent == Some(owner) && task.assignedAgent == old(task.assignedAgent))
                && task.reviewSummary == a.summary && task.lastReason.None? && task.revision == old(task.revision) + 1
      ensures !saved ==> pc.Blocking? && task == old(task)
    {
      hide Reached;
      ghost var step := SubmitReview(id, saved);
      LoopMakes(around, step);
      SubmittedMeans(around, step);
      ghost var before := around;
      around := Next(around, step);
      assert Makes(before, step, around);
      hide Makes, Next, Enabled, Grounded, OnSubmit;
      SubmitInPlace(id, saved);
    }

    method SubmitInPlace(id: Uuid, saved: bool)
      requires pc.Submitting? && pc.attempt.summary.Some?
      modifies this`task, this`pc
      ensures View() == OnSubmit(old(View()), id, saved)
    {
      if !saved {
        Fail(INFRASTRUCTURE);
        return;
      }
      var submission := NewSubmission(View().loop, id);
      if setup.validationOnly {
        task := task.(assignedAgent := submission.agent);
      }
      task := task.(currentSubmission := Some(submission.id), reviewSummary := Some(submission.summary),
                    submissions := task.submissions + [submission]);
      task := task.(state := TaskState.InReview, condition := Idle, lastReason := None).Touched();
      pc := Ended(true);
    }

    /** A retry follows only an attempt that warrants one, within the budget; it expects that attempt's workspace. */
    method ConcludeFailure()
      requires Valid() && pc.Concluding? && pc.attempt.workspace.Some?
      modifies this
      ensures Valid() && Makes(old(around), Conclude, around) && task == old(task)
      ensures pc.Blocking? || pc.Capturing?
      ensures pc.Capturing? ==>
                && task.attempts != [] && ordinal == old(ordinal) + 1 <= setup.Budget()
                && Last().cycle == setup.cycle && Last().result.Failed? && WarrantsRetry(Last(), setup.Info())
                && (Last().approvals == [] <==> Last().id !in around.late)
                && Last().workspace.Some? && expected == Some(Last().workspace.value.fingerprint)
                && previousFailure == Some(old(pc.failure))
                && resume == if setup.initial.config.policy.resume || (setup.initial.inQueue && !setup.initial.coordinated)
                             then old(pc.attempt.thread) else None
      ensures setup == old(setup) && owner == old(owner) && cancelled == old(cancelled)
    {
      hide Reached;
      ReachedNext(around, Conclude);
      ConcludeNext(around, Conclude);
      ConcludedMeans(around, Conclude);
      ghost var before := around;
      around := Next(around, Conclude);
      assert Makes(before, Conclude, around);
      hide Makes, Next, Enabled, LoopStep, WarrantsRetry, Setup.Info, Setup.Budget, OnConclude;
      ConcludeInPlace();
    }

    method ConcludeInPlace()
      requires pc.Concluding? && pc.attempt.workspace.Some?
      modifies this`previousFailure, this`resume, this`expected, this`ordinal, this`pc
      ensures View() == OnConclude(old(View()))
    {
      hide FailureNotes, Automatic, Blank;
      var a, policy := pc.attempt, setup.initial.config.policy;
      var notes, automatic := Tally(a.validators);
      if !setup.initial.coordinated && (!automatic || !HasSummary(a)) {
        Fail("human_review_required");
      } else if policy.requireChange && a.base.fingerprint == a.workspace.value.fingerprint {
        Fail("no_change");
      } else if policy.stopOnIdenticalFailure && previousFailure == Some(pc.failure) {
        Fail("identical_failure");
      } else if ordinal == setup.Budget() {
        Fail("budget_exhausted");
      } else if a.approvals != [] {
        Fail("approval_boundary");
      } else if (setup.BoardQueue() || policy.resume) && a.thread.None? {
        Fail("thread_unavailable");
      } else {
        previousFailure := Some(pc.failure);
        resume := if setup.BoardQueue() || policy.resume then a.thread else None;
        expected := Some(pc.current.fingerprint);
        ordinal := ordinal + 1;
        pc := Capturing;
      }
    }

    /** Ends every active attempt and blocks the task, all in one save; finished attempts and submissions stay. */
    method AcceptanceBlock(record: Option<Conversation>, saved: bool)
      requires Valid() && pc.Blocking?
      modifies this
      ensures Valid() && Makes(old(around), Block(record, saved), around) && pc == Ended(false)
      ensures |task.attempts| == |old(task).attempts| && task.submissions == old(task.submissions)
      ensures forall k | 0 <= k < |old(task).attempts| && !old(task).attempts[k].result.Active() ::
                task.attempts[k] == old(task).attempts[k]
      ensures saved ==>
                && !SomeActive(task.attempts) && task.condition.Blocked? && task.CurrentColumn().InProgress?
                && task.currentSubmission.None? && task.lastReason == Some(old(pc.code))
                && task.assignedAgent == (if task.inQueue && record.None? then None else old(task.assignedAgent))
      ensures saved ==> forall k | 0 <= k < |task.attempts| && old(task).attempts[k].result.Active() ::
                var a, b := old(task).attempts[k], task.attempts[k];
                && (if old(pc.code) == "cancelled" then b.result.Cancelled? else b.result.Blocked?) && b.failure == Some(old(pc.code))
                && b.thread == (if record.Some? then record.value.thread else a.thread)
                && b.summary == (if a.summary.Some? || record.None? then a.summary else record.value.summary)
                && b == a.(result := b.result, failure := b.failure, thread := b.thread, summary := b.summary)
      ensures !saved ==> task == old(task)
    {
      hide Reached;
      ghost var step := Block(record, saved);
      LoopMakes(around, step);
      BlockedMeans(around, step);
      ghost var before := around;
      around := Next(around, step);
      assert Makes(before, step, around);
      hide Makes, Next, Enabled, SomeActive;
      var attempts := task.attempts;
      for i := 0 to |attempts|
        invariant |attempts| == |task.attempts|
        invariant forall k | 0 <= k < i :: attempts[k] == EndAttempt(task.attempts[k], pc.code, record)
        invariant forall k | i <= k < |attempts| :: attempts[k] == task.attempts[k]
      {
        if attempts[i].result.Active() {
          attempts := attempts[i := EndAttempt(attempts[i], pc.code, record)];
        }
      }
      assert attempts == EndAttempts(task.attempts, pc.code, record);
      if saved {
        var agent := if task.inQueue && record.None? then None else task.assignedAgent;
        task := task.(condition := Condition.Blocked, state := TaskState.Running, currentSubmission := None,
                      lastReason := Some(pc.code));
        task := task.(assignedAgent := agent, attempts := attempts).Touched();
      }
      pc := Ended(false);
    }
  }
}

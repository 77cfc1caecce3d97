/** Whole runs of the acceptance loop: what their histories, submissions and acceptances have in common. */
module AcceptanceHistory {
  import opened Wrappers
  import opened TaskWorkflow
  import opened AcceptanceLoop
  import opened AcceptanceInvariant
  import opened AcceptanceVerdict
  import TaskStore

  // ---- The chain of attempts ----

  /** The attempt `back` places before `k` is the one of its cycle that its ordinal says, and was rightly retried. */
  ghost predicate PredecessorAt(attempts: seq<Attempt>, late: set<Uuid>, info: CycleInfo, k: nat, back: nat)
    requires back <= k < |attempts|
  {
    var a, b := attempts[k], attempts[k - back];
    && b.cycle == a.cycle && b.ordinal + back == a.ordinal
    && (back > 0 ==> RetriedBy(b, attempts[k - back + 1], late) && WarrantsRetry(b, info))
    && (back > 1 ==> Differ(b, attempts[k - back + 1], info))
  }

  lemma {:induction false} ChainGoesBack(attempts: seq<Attempt>, cycles: map<Uuid, CycleInfo>, late: set<Uuid>, k: nat, back: nat)
    requires Chained(attempts, cycles, late) && k < |attempts| && back < attempts[k].ordinal && attempts[k].cycle in cycles
    ensures back <= k && PredecessorAt(attempts, late, cycles[attempts[k].cycle], k, back)
  {
    hide WarrantsRetry, Differ;
    assert ChainAt(attempts, cycles, late, k);
    if back > 0 {
      ChainGoesBack(attempts, cycles, late, k, back - 1);
      assert ChainAt(attempts, cycles, late, k - (back - 1));
      if back > 1 {
        ChainGoesBack(attempts, cycles, late, k, back - 2);
        assert ChainAt(attempts, cycles, late, k - (back - 2));
      }
    }
  }

  /**
   In every run the attempts of a cycle are stored one after the other with ordinals 1, 2, ... up to at most
   the cycle's budget.  All but the last failed in a way that warranted a retry, two in a row differently where that
   matters, and each started from the workspace its predecessor was validated with.  None but the last carries
   an approval, except one given after its worker was gone.
   */
  lemma AttemptChain(states: seq<Machine>, steps: seq<Step>, i: nat, k: nat)
    requires IsRun(states, steps) && i < |states| && k < |states[i].task.attempts|
    ensures var attempts, m := states[i].task.attempts, states[i];
            && attempts[k].cycle in m.cycles && attempts[k].ordinal <= m.cycles[attempts[k].cycle].budget <= MAX_POLICY_ATTEMPTS
            && 1 <= attempts[k].ordinal <= k + 1
            && (forall back: nat | back < attempts[k].ordinal ::
                  PredecessorAt(attempts, m.late, m.cycles[attempts[k].cycle], k, back))
            && (forall j | 0 <= j <= k - attempts[k].ordinal :: attempts[j].cycle != attempts[k].cycle)
  {
    InvariantAlways(states, steps, i);
    hide Next, Enabled, RetriedBy, WarrantsRetry, Differ, LoopInvariant, SubmissionsSound;
    var attempts, m := states[i].task.attempts, states[i];
    assert ChainAt(attempts, m.cycles, m.late, k);
    forall back: nat | back < attempts[k].ordinal
      ensures back <= k && PredecessorAt(attempts, m.late, m.cycles[attempts[k].cycle], k, back)
    {
      ChainGoesBack(attempts, m.cycles, m.late, k, back);
    }
    ChainGoesBack(attempts, m.cycles, m.late, k, attempts[k].ordinal - 1);
    assert ChainAt(attempts, m.cycles, m.late, k - (attempts[k].ordinal - 1));
  }

  /** An approval is late exactly if it was saved after the loop had copied the approvals of that attempt. */
  predicate ApprovesLate(m: Machine, step: Step, id: Uuid) {
    && step.Approve? && step.saved && Copied(m) == {id}
    && m.task.attempts != [] && m.task.attempts[|m.task.attempts| - 1].result.Active()
  }

  lemma LateGrows(m: Machine, step: Step, id: Uuid)
    requires Enabled(m, step)
    ensures id in Next(m, step).late <==> id in m.late || ApprovesLate(m, step, id)
  {
    hide LoopStep, Answered, Synced, Prepared;
  }

  lemma {:induction false} LateIff(states: seq<Machine>, steps: seq<Step>, i: nat, id: Uuid)
    requires IsRun(states, steps) && i < |states|
    ensures id in states[i].late <==> exists j | 0 <= j < i :: ApprovesLate(states[j], steps[j], id)
  {
    hide Next, Enabled, ApprovesLate;
    if i > 0 {
      LateIff(states, steps, i - 1, id);
      InvariantAlways(states, steps, i - 1);
      LateGrows(states[i - 1], steps[i - 1], id);
    } else {
      assert Init(states[0]);
    }
  }

  // ---- Submissions ----

  lemma SubmissionsAreGrounded(states: seq<Machine>, steps: seq<Step>, i: nat, k: nat) returns (j: nat)
    requires IsRun(states, steps) && i < |states| && k < |states[i].task.submissions|
    ensures j < |states[i].task.attempts| && Grounds(states[i].task.attempts[j], states[i].cycles, states[i].task.submissions[k])
  {
    InvariantAlways(states, steps, i);
    assert Grounded(states[i].task.attempts, states[i].cycles, states[i].task.submissions[k]);
    j :| 0 <= j < |states[i].task.attempts| && Grounds(states[i].task.attempts[j], states[i].cycles, states[i].task.submissions[k]);
  }

  /** The loop ends well exactly when it appends one submission and moves the task into review. */
  predicate EndsWell(m: Machine, n: Machine) {
    n.loop.Some? && n.loop.value.pc == Ended(true) && !(m.loop.Some? && m.loop.value.pc.Ended?)
  }

  ghost predicate Submits(m: Machine, n: Machine) {
    && |n.task.submissions| == |m.task.submissions| + 1 && m.task.submissions <= n.task.submissions
    && n.task.CurrentColumn().InReview? && n.task.condition.Idle?
    && n.task.currentSubmission == Some(n.task.submissions[|m.task.submissions|].id)
    && m.loop.Some? && m.loop.value.pc.Submitting? && m.loop.value.pc.attempt.summary.Some?
    && n.task.submissions[|m.task.submissions|] == NewSubmission(m.loop.value, n.task.submissions[|m.task.submissions|].id)
  }

  lemma LoopSubmits(m: Machine, step: Step)
    requires Enabled(m, step) && IsLoopStep(step)
    ensures EndsWell(m, Next(m, step)) <==> Submits(m, Next(m, step))
    ensures !EndsWell(m, Next(m, step)) ==> Next(m, step).task.submissions == m.task.submissions
    ensures m.task.submissions <= Next(m, step).task.submissions
  {
    hide Updated, Passes, Failures, Joined, Automatic, FindAttempt, EndAttempts, Setup.Criteria, HasSummary;
    UpdatesDoNotSubmit(m.task);
    if !step.Enter? {
      LoopNext(m, step);
      hide Next, Enabled;
    }
  }

  lemma UpdatesDoNotSubmit(t: Task)
    ensures forall a: Attempt :: Updated(t, a).Some? ==> Updated(t, a).value.submissions == t.submissions
  {
  }

  lemma SuccessIsSubmission(states: seq<Machine>, steps: seq<Step>, i: nat)
    requires IsRun(states, steps) && i < |steps|
    ensures EndsWell(states[i], states[i + 1]) <==> Submits(states[i], states[i + 1])
    ensures !EndsWell(states[i], states[i + 1]) ==> states[i + 1].task.submissions == states[i].task.submissions
  {
    InvariantAlways(states, steps, i);
    hide Invariant;
    if IsLoopStep(steps[i]) {
      hide Next, Enabled;
      LoopSubmits(states[i], steps[i]);
    } else {
      OthersDoNotSubmit(states[i], steps[i]);
    }
  }

  lemma OthersDoNotSubmit(m: Machine, step: Step)
    requires Enabled(m, step) && !IsLoopStep(step) && RowLive(m) && ReviewsSound(m)
    ensures !EndsWell(m, Next(m, step)) && Next(m, step).task.submissions == m.task.submissions
  {
    hide Answered, Synced, Prepared, EndAttempts, TaskStore.InterruptAll, Transition, LiveTask;
    if step.UserRequest? {
      RequestsKeepHistory(m.task, step.request);
    } else if step.Sync? {
      SyncKeepsHistory(m.task, step.report);
    } else if step.CommitReview? {
      assert ReviewSound(m, m.reviews[step.key]);
      AcceptanceIs(m.reviews[step.key].snapshot);
    }
  }

  /** The attempt that the loop is validating, once it has measured the workspace. */
  function Measured(m: Machine): Option<Attempt> {
    if m.loop.None? then None
    else
      match m.loop.value.pc
      case Checking(a) => Some(a)
      case Submitting(a, _) => Some(a)
      case _ => None
  }

  /** How a state comes to have measured, or judged, an attempt. */
  ghost predicate MeasuredFrom(m: Machine, step: Step, n: Machine) {
    && (Measured(n).Some? ==>
          || (step.Measure? && Measured(n).value.workspace == Some(m.workspace))
          || (Measured(m).Some? && Measured(m).value.workspace == Measured(n).value.workspace))
    && (n.loop.Some? && n.loop.value.pc.Submitting? ==>
          || (m.loop.Some? && n.loop.value == m.loop.value.(cancelled := n.loop.value.cancelled))
          || (step.Judge? && m.loop.Some? && m.loop.value.pc.Checking? && n.loop.value == m.loop.value.(pc := n.loop.value.pc)
              && n.loop.value.pc.current == m.workspace))
  }

  lemma MeasuredByLoop(m: Machine, step: Step)
    requires Enabled(m, step) && IsLoopStep(step)
    ensures MeasuredFrom(m, step, Next(m, step))
  {
    hide Updated, Passes, Failures, Joined, Automatic, FindAttempt, EndAttempts, Setup.Criteria, HasSummary;
    if !step.Enter? {
      LoopNext(m, step);
      hide Next, Enabled;
    }
  }

  lemma MeasuredByOthers(m: Machine, step: Step)
    requires Enabled(m, step) && !IsLoopStep(step)
    ensures MeasuredFrom(m, step, Next(m, step))
  {
    hide Answered, Synced, Prepared, LiveTask, WithApproval;
  }

  lemma MeasuredBy(m: Machine, step: Step)
    requires Enabled(m, step)
    ensures MeasuredFrom(m, step, Next(m, step))
  {
    hide Next, Enabled, MeasuredFrom;
    if IsLoopStep(step) {
      MeasuredByLoop(m, step);
    } else {
      MeasuredByOthers(m, step);
    }
  }

  lemma {:induction false} WasMeasured(states: seq<Machine>, steps: seq<Step>, i: nat) returns (j: nat)
    requires IsRun(states, steps) && i < |states| && Measured(states[i]).Some?
    ensures j < i && steps[j].Measure? && Measured(states[i]).value.workspace == Some(states[j].workspace)
  {
    hide Next, Enabled, Measured;
    assert i > 0 by {
      assert Init(states[0]);
      NothingMeasured(states[0]);
    }
    InvariantAlways(states, steps, i - 1);
    MeasuredBy(states[i - 1], steps[i - 1]);
    if steps[i - 1].Measure? && Measured(states[i]).value.workspace == Some(states[i - 1].workspace) {
      j := i - 1;
    } else {
      j := WasMeasured(states, steps, i - 1);
    }
  }

  lemma NothingMeasured(m: Machine)
    requires Init(m)
    ensures Measured(m).None?
  {
  }

  lemma {:induction false} WasJudged(states: seq<Machine>, steps: seq<Step>, i: nat) returns (j: nat)
    requires IsRun(states, steps) && i < |states| && states[i].loop.Some? && states[i].loop.value.pc.Submitting?
    ensures j < i && steps[j].Judge? && states[i].loop.value.pc.current == states[j].workspace
    ensures Measured(states[j]).Some? && Measured(states[j]).value.workspace == states[i].loop.value.pc.attempt.workspace
    ensures states[j + 1].loop.Some? && states[i].loop.value == states[j + 1].loop.value.(cancelled := states[i].loop.value.cancelled)
  {
    hide Next, Enabled;
    assert Init(states[0]);
    InvariantAlways(states, steps, i - 1);
    MeasuredBy(states[i - 1], steps[i - 1]);
    if states[i - 1].loop.Some? && states[i - 1].loop.value.pc.Submitting? {
      j := WasJudged(states, steps, i - 1);
    } else {
      j := i - 1;
    }
  }

  /**
   A submission's fingerprint was that of the workspace at two moments of its cycle: when the attempt was
   measured, before validation, and when it was judged, after it.
   */
  lemma SubmissionWasCurrentTwice(states: seq<Machine>, steps: seq<Step>, i: nat) returns (before: nat, after: nat)
    requires IsRun(states, steps) && i < |steps| && EndsWell(states[i], states[i + 1])
    ensures before < after < i && steps[before].Measure? && steps[after].Judge?
    ensures |states[i + 1].task.submissions| == |states[i].task.submissions| + 1
    ensures var s := states[i + 1].task.submissions[|states[i].task.submissions|];
            s.workspace == states[after].workspace && s.workspace.fingerprint == states[before].workspace.fingerprint
  {
    SuccessIsSubmission(states, steps, i);
    InvariantAlways(states, steps, i);
    SubmittingMatches(states[i]);
    hide Next, Enabled, Invariant, RowLive, ReviewsSound, EndsWell;
    after := WasJudged(states, steps, i);
    before := WasMeasured(states, steps, after);
  }

  /** In every run exactly what is undisturbed and deserves review, when it is judged, goes on to be submitted. */
  lemma VerdictIff(states: seq<Machine>, steps: seq<Step>, i: nat)
    requires IsRun(states, steps) && i < |steps| && steps[i].Judge?
    ensures states[i].loop.Some? && states[i].loop.value.pc.Checking? && Judged(states[i], steps[i], states[i + 1])
  {
    InvariantAlways(states, steps, i);
    JudgedIff(states[i], steps[i]);
  }

  lemma {:induction false} SubmissionWasAppended(states: seq<Machine>, steps: seq<Step>, i: nat, k: nat) returns (p: nat)
    requires IsRun(states, steps) && i < |states| && k < |states[i].task.submissions|
    ensures p < i && |states[p].task.submissions| == k && Submits(states[p], states[p + 1])
    ensures states[p + 1].task.submissions[k] == states[i].task.submissions[k]
  {
    hide Next, Enabled, EndsWell, Invariant, RowLive, ReviewsSound, PartedQuiet;
    assert Init(states[0]);
    SuccessIsSubmission(states, steps, i - 1);
    if k < |states[i - 1].task.submissions| {
      HistoryOnlyGrows(states, steps, i - 1, i);
      p := SubmissionWasAppended(states, steps, i - 1, k);
    } else {
      p := i - 1;
    }
  }

  /** The submission says what the attempt in hand did, under the worker's agent, and with the workspace seen last. */
  ghost predicate Reports(s: Submission, l: Loop, workspace: Workspace)
    requires l.pc.Checking?
  {
    var a := l.pc.attempt;
    && s.attempt == a.id && s.criteria == a.validators && a.summary == Some(s.summary) && s.approvals == a.approvals
    && s.workspace == workspace
    && (!l.setup.validationOnly ==> s.agent == Some(l.owner))
    && (l.setup.validationOnly ==> s.agent == LastWorker(l.setup.initial.attempts))
  }

  /**
   Every submission of every run was judged at some moment `j`: nothing had moved since its workspace was measured, it
   deserved review, and it reports exactly the attempt that was judged.
   */
  lemma SubmissionsHadGround(states: seq<Machine>, steps: seq<Step>, i: nat, k: nat) returns (j: nat)
    requires IsRun(states, steps) && i < |states| && k < |states[i].task.submissions|
    ensures j < i && steps[j].Judge? && states[j].loop.Some? && states[j].loop.value.pc.Checking?
    ensures var l, verdict := states[j].loop.value, JudgementOf(states[j], steps[j]);
            && Undisturbed(l.setup, l.pc.attempt, verdict) && DeservesReview(l.setup, l.pc.attempt, verdict)
            && Reports(states[i].task.submissions[k], l, states[j].workspace)
  {
    hide Next, Enabled, Invariant, RowLive, ReviewsSound, PartedQuiet, DeservesReview, Undisturbed;
    var p := SubmissionWasAppended(states, steps, i, k);
    j := WasJudged(states, steps, p);
    VerdictIff(states, steps, j);
    assert states[j + 1].loop.value.pc == states[p].loop.value.pc;
  }

  lemma SubmittingMatches(m: Machine)
    requires Invariant(m) && m.loop.Some? && m.loop.value.pc.Submitting?
    ensures var pc := m.loop.value.pc;
            pc.attempt.workspace.Some? && pc.attempt.workspace.value.fingerprint == pc.current.fingerprint
  {
    hide Chained, SubmissionsSound, IdsSound, Evidenced, NoneFails;
  }

  // ---- Why loops give up, and what cycles go by ----

  /** Throughout every run a loop gives up exactly if it has a reason to, and for one that holds. */
  lemma GivesUpAlways(states: seq<Machine>, steps: seq<Step>, i: nat)
    requires IsRun(states, steps) && i < |steps| && IsLoopStep(steps[i]) && !steps[i].Block?
    ensures states[i].loop.Some? && states[i + 1].loop.Some?
    ensures GivesUpRightly(states[i].loop.value, states[i].task, states[i].workspace, steps[i], states[i + 1].loop.value)
  {
    InvariantAlways(states, steps, i);
    GivesUpIff(states[i], steps[i]);
  }

  lemma BlockingComesFrom(m: Machine, step: Step)
    requires Enabled(m, step) && Next(m, step).loop.Some? && Next(m, step).loop.value.pc.Blocking?
    ensures m.loop.Some?
    ensures Next(m, step).loop.value.pc == m.loop.value.pc || (IsLoopStep(step) && !step.Block?)
  {
    hide Answered, Synced, Prepared, LiveTask, WithApproval, EndAttempts;
    if step.Block? {
      LoopNext(m, step);
      hide Next, Enabled;
    } else if IsLoopStep(step) {
      hide LoopStep;
    }
  }

  lemma {:induction false} WasGivenUp(states: seq<Machine>, steps: seq<Step>, i: nat) returns (j: nat)
    requires IsRun(states, steps) && i < |states| && states[i].loop.Some? && states[i].loop.value.pc.Blocking?
    ensures j < i && states[j].loop.Some?
    ensures Reason(states[j].loop.value, states[j].task, states[j].workspace, steps[j], states[i].loop.value.pc.code)
  {
    hide Next, Enabled, Invariant, RowLive, ReviewsSound, PartedQuiet, Reason;
    assert Init(states[0]);
    InvariantAlways(states, steps, i - 1);
    BlockingComesFrom(states[i - 1], steps[i - 1]);
    if states[i - 1].loop.value.pc == states[i].loop.value.pc {
      j := WasGivenUp(states, steps, i - 1);
    } else {
      j := i - 1;
      GivesUpAlways(states, steps, j);
    }
  }

  /** The reason that a loop leaves in its blocked task was a true one when the loop gave up. */
  lemma BlockedForAReason(states: seq<Machine>, steps: seq<Step>, i: nat) returns (j: nat)
    requires IsRun(states, steps) && i < |steps| && steps[i].Block? && steps[i].saved
    ensures j < i && states[j].loop.Some? && states[i + 1].task.lastReason.Some?
    ensures Reason(states[j].loop.value, states[j].task, states[j].workspace, steps[j], states[i + 1].task.lastReason.value)
    ensures states[i + 1].task.condition.Blocked?
  {
    InvariantAlways(states, steps, i);
    BlockNext(states[i], steps[i]);
    hide Next, Enabled, Invariant, Reason;
    j := WasGivenUp(states, steps, i);
  }

  lemma BlockNext(m: Machine, step: Step)
    requires Enabled(m, step) && step.Block? && step.saved
    ensures m.loop.Some? && m.loop.value.pc.Blocking? && Next(m, step).task.lastReason == Some(m.loop.value.pc.code)
    ensures Next(m, step).task.condition.Blocked?
  {
    hide EndAttempts;
  }

  /** A cycle goes by the task as it was when the cycle began: its criteria, the human ones behind them, and its policy. */
  ghost predicate GoesBy(info: CycleInfo, t: Task, validationOnly: bool) {
    var policy, configured := t.config.policy, |t.config.criteria|;
    && info.policy == policy && info.validationOnly == validationOnly && info.coordinated == t.coordinated
    && info.budget == (if validationOnly || !policy.enabled then 1 else policy.maxAttempts)
    && |info.criteria| == configured + |t.humanCriteria| && t.config.criteria <= info.criteria
    && forall k | 0 <= k < |t.humanCriteria| ::
         var criterion := info.criteria[configured + k];
         criterion.name == t.humanCriteria[k] && criterion.required && criterion.human
  }

  lemma InfoGoesBy(setup: Setup)
    ensures GoesBy(setup.Info(), setup.initial, setup.validationOnly)
  {
  }

  lemma CycleComesFrom(m: Machine, step: Step, c: Uuid)
    requires Enabled(m, step) && c in Next(m, step).cycles
    ensures || (c in m.cycles && Next(m, step).cycles[c] == m.cycles[c])
            || (step == Enter(c, true) && m.loop.Some? && m.loop.value.pc.Entering?
                && GoesBy(Next(m, step).cycles[c], m.task, m.loop.value.setup.validationOnly))
  {
    hide Answered, Synced, Prepared, LiveTask, WithApproval, EndAttempts, Setup.Criteria, Setup.Info, GoesBy;
    if step.Enter? {
      InfoGoesBy(Setup(m.task, step.cycle, m.loop.value.setup.validationOnly));
    } else if IsLoopStep(step) {
      LoopNext(m, step);
      hide Next, Enabled;
    }
  }

  lemma {:induction false} CyclesGoByTheirTask(states: seq<Machine>, steps: seq<Step>, i: nat, c: Uuid) returns (j: nat)
    requires IsRun(states, steps) && i < |states| && c in states[i].cycles
    ensures j < i && steps[j] == Enter(c, true) && states[j].loop.Some?
    ensures GoesBy(states[i].cycles[c], states[j].task, states[j].loop.value.setup.validationOnly)
  {
    hide Next, Enabled, GoesBy;
    assert Init(states[0]);
    InvariantAlways(states, steps, i - 1);
    CycleComesFrom(states[i - 1], steps[i - 1], c);
    if c in states[i - 1].cycles && states[i].cycles[c] == states[i - 1].cycles[c] {
      j := CyclesGoByTheirTask(states, steps, i - 1, c);
    } else {
      j := i - 1;
    }
  }

  // ---- What stays in the history ----

  lemma UpdatesEvolve(m: Machine, a: Attempt)
    requires Invariant(m) && Updated(m.task, a).Some?
    requires InHand(m.task.attempts, a) || a.id !in m.used
    ensures Evolved(m.task.attempts, Updated(m.task, a).value.attempts)
    ensures InHand(m.task.attempts, a) ==> |Updated(m.task, a).value.attempts| == |m.task.attempts|
  {
    if InHand(m.task.attempts, a) {
      UpdatedInPlace(m.task, a, m.task.submissions, m.cycles, m.used);
    } else {
      assert forall k | 0 <= k < |m.task.attempts| :: m.task.attempts[k].id != a.id;
      UpdatedByNew(m.task, a);
    }
  }

  lemma StoringEvolves(m: Machine, l: Loop, a: Attempt, saved: bool, next: Pc)
    requires Invariant(m) && (InHand(m.task.attempts, a) || a.id !in m.used)
    ensures Evolved(m.task.attempts, Store(Session(m.task, l), a, saved, next).task.attempts)
    ensures InHand(m.task.attempts, a) ==> |Store(Session(m.task, l), a, saved, next).task.attempts| == |m.task.attempts|
  {
    hide Updated;
    EvolvesIntoItself(m.task.attempts);
    if Updated(m.task, a).Some? {
      UpdatesEvolve(m, a);
    }
  }

  lemma JudgeStores(s: Session, j: Judgement, saved: bool)
    requires s.loop.pc.Checking? && s.loop.pc.attempt.workspace.Some?
    ensures var a, n := s.loop.pc.attempt, OnJudge(s, j, saved).task;
            || n == s.task
            || (j.captured.Some? && n == Store(s, a.(result := AttemptResult.Passed), saved,
                                               Submitting(a.(result := AttemptResult.Passed), j.captured.value)).task)
            || (j.captured.Some? && exists failure :: n == StoredFailure(s, j.captured.value, failure, saved))
  {
    hide Passes, Failures, Joined, Store;
    var failure := Joined(Failures(s.loop.setup, s.loop.pc.attempt, j.reportReady));
    assert j.captured.Some? ==> StoredFailure(s, j.captured.value, failure, saved) == StoredFailure(s, j.captured.value, failure, saved);
  }

  function StoredFailure(s: Session, w: Workspace, failure: string, saved: bool): Task
    requires s.loop.pc.Checking?
  {
    var failed := s.loop.pc.attempt.(result := AttemptResult.Failed, failure := Some("validation_failed"));
    Store(s, failed, saved, Concluding(failed, failure, w)).task
  }

  lemma JudgeEvolves(m: Machine, step: Step)
    requires Steps(m, step) && step.Judge?
    ensures Evolved(m.task.attempts, Next(m, step).task.attempts)
    ensures |Next(m, step).task.attempts| == |m.task.attempts|
  {
    LoopNext(m, step);
    var l, j := m.loop.value, JudgementOf(m, step);
    CheckingInHand(l, m.task.attempts, m.cycles, m.late);
    JudgeStores(Session(m.task, l), j, step.saved);
    hide Next, Enabled, OnJudge, Store, Evolved, Invariant;
    EvolvesIntoItself(m.task.attempts);
    var passed := l.pc.attempt.(result := AttemptResult.Passed);
    StoringEvolves(m, l, passed, step.saved, Submitting(passed, m.workspace));
    forall failure: string
      ensures Evolved(m.task.attempts, StoredFailure(Session(m.task, l), m.workspace, failure, step.saved).attempts)
      ensures |StoredFailure(Session(m.task, l), m.workspace, failure, step.saved).attempts| == |m.task.attempts|
    {
      var failed := l.pc.attempt.(result := AttemptResult.Failed, failure := Some("validation_failed"));
      StoringEvolves(m, l, failed, step.saved, Concluding(failed, failure, m.workspace));
    }
  }

  lemma DispatchEvolves(m: Machine, step: Step)
    requires Steps(m, step) && (step.Queue? || step.LaunchWorker?)
    ensures Evolved(m.task.attempts, Next(m, step).task.attempts)
    ensures !step.Queue? ==> |Next(m, step).task.attempts| == |m.task.attempts|
  {
    LoopNext(m, step);
    var l := m.loop.value;
    EvolvesIntoItself(m.task.attempts);
    if step.Queue? {
      hide Next, Enabled, Store, Evolved, Invariant;
      var a := NewAttempt(l, step.id, l.pc.base);
      StoringEvolves(m, l, a, step.saved,
                     if l.setup.validationOnly then Measuring(a.(summary := l.setup.InheritedSummary())) else Launching(a));
    } else {
      LaunchedLoop(l, m.task.attempts, m.cycles, m.late);
      hide Next, Enabled, Store, Evolved, Invariant, LoopSound;
      var a := l.pc.attempt.(result := Working);
      StoringEvolves(m, l, a, step.saved, Waiting(a));
    }
  }

  lemma ValidationEvolves(m: Machine, step: Step)
    requires Steps(m, step) && (step.Measure? || step.Check?)
    ensures Evolved(m.task.attempts, Next(m, step).task.attempts)
    ensures |Next(m, step).task.attempts| == |m.task.attempts|
  {
    LoopNext(m, step);
    var l := m.loop.value;
    EvolvesIntoItself(m.task.attempts);
    if step.Measure? {
      MeasuredLoop(l, m.workspace, m.task.attempts, m.cycles, m.late);
      hide Next, Enabled, Store, Evolved, Invariant, LoopSound;
      var a := l.pc.attempt.(result := Validating, workspace := Some(m.workspace));
      StoringEvolves(m, l, a, step.saved,
                     if a.base.head != m.workspace.head then Blocking("workspace_changed") else Checking(a));
    } else {
      CheckedLoop(l, step.status, step.note, m.task.attempts, m.cycles, m.late);
      hide Next, Enabled, Store, Evolved, Invariant, LoopSound;
      var done := l.pc.attempt.validators;
      var a := l.pc.attempt.(validators := done + [Evidence(l.setup.Criteria()[|done|], step.status, step.note)]);
      StoringEvolves(m, l, a, step.saved,
                     if step.status.InfrastructureError? then Blocking(INFRASTRUCTURE)
                     else if step.status.Cancelled? then Blocking("cancelled")
                     else Checking(a));
    }
  }

  lemma LoopStepEvolves(m: Machine, step: Step)
    requires Steps(m, step) && IsLoopStep(step)
    ensures Evolved(m.task.attempts, Next(m, step).task.attempts)
    ensures !step.Queue? ==> |Next(m, step).task.attempts| == |m.task.attempts|
  {
    EvolvesIntoItself(m.task.attempts);
    if step.Queue? || step.LaunchWorker? {
      DispatchEvolves(m, step);
    } else if step.Measure? || step.Check? {
      ValidationEvolves(m, step);
    } else if step.Judge? {
      JudgeEvolves(m, step);
    } else if step.Block? {
      EndingEvolves(m.task.attempts, m.loop.value.pc.code, step.record);
    } else {
      hide Evolved, Invariant, Automatic, HasSummary, FindAttempt;
    }
  }

  lemma CheckingInHand(l: Loop, attempts: seq<Attempt>, cycles: map<Uuid, CycleInfo>, late: set<Uuid>)
    requires l.pc.Checking? && LoopSound(l, attempts, cycles, late)
    ensures InHand(attempts, l.pc.attempt)
  {
  }

  lemma OtherStepEvolves(m: Machine, step: Step)
    requires Steps(m, step) && !IsLoopStep(step) && RowLive(m) && ReviewsSound(m)
    ensures Evolved(m.task.attempts, Next(m, step).task.attempts)
    ensures |Next(m, step).task.attempts| == |m.task.attempts|
  {
    EvolvesIntoItself(m.task.attempts);
    hide Evolved, Invariant, WithApproval, Answered, Synced;
    if step.UserRequest? {
      RequestsKeepHistory(m.task, step.request);
    } else if step.Sync? {
      SyncKeepsHistory(m.task, step.report);
    } else if step.Approve? {
      if m.task.attempts != [] && m.task.attempts[|m.task.attempts| - 1].result.Active() {
        ApprovedEvolves(m.task, step.approval);
      }
    } else if step.Begin? {
      EndingEvolves(m.task.attempts, "workspace_busy", None);
    } else if step.Crash? {
      InterruptingEvolves(m.task.attempts);
    } else {
      hide Next, Enabled;
      QuietStepKeepsHistory(m, step);
    }
  }

  lemma StepEvolves(m: Machine, step: Step)
    requires Steps(m, step) && RowLive(m) && ReviewsSound(m)
    ensures Evolved(m.task.attempts, Next(m, step).task.attempts)
    ensures !step.Queue? ==> |Next(m, step).task.attempts| == |m.task.attempts|
  {
    hide Next, Enabled, Evolved, Invariant;
    if IsLoopStep(step) {
      LoopStepEvolves(m, step);
    } else {
      OtherStepEvolves(m, step);
    }
  }

  lemma EvolvingTwice(a: seq<Attempt>, b: seq<Attempt>, c: seq<Attempt>)
    requires Evolved(a, b) && Evolved(b, c)
    ensures Evolved(a, c)
  {
    forall k | 0 <= k < |a|
      ensures SameIdentity(a[k], c[k]) && (!a[k].result.Active() ==> c[k] == a[k])
    {
      assert SameIdentity(a[k], b[k]) && SameIdentity(b[k], c[k]);
    }
  }

  /** Over any stretch of a run finished attempts never change, submissions are only appended, and both lists stay bounded. */
  lemma {:induction false} HistoryOnlyGrows(states: seq<Machine>, steps: seq<Step>, i: nat, j: nat)
    requires IsRun(states, steps) && i <= j < |states|
    ensures Evolved(states[i].task.attempts, states[j].task.attempts)
    ensures states[i].task.submissions <= states[j].task.submissions
    ensures Bounded(states[j].task.attempts, states[j].task.submissions)
    decreases j - i
  {
    hide Next, Enabled, Evolved, RowLive, ReviewsSound, EndsWell, Chained, SubmissionsSound, IdsSound, LoopInvariant;
    InvariantAlways(states, steps, j);
    if i < j {
      HistoryOnlyGrows(states, steps, i, j - 1);
      InvariantAlways(states, steps, j - 1);
      StepEvolves(states[j - 1], steps[j - 1]);
      EvolvingTwice(states[i].task.attempts, states[j - 1].task.attempts, states[j].task.attempts);
      SuccessIsSubmission(states, steps, j - 1);
    } else {
      EvolvesIntoItself(states[i].task.attempts);
    }
  }

  lemma EvolvesIntoItself(attempts: seq<Attempt>)
    ensures Evolved(attempts, attempts)
  {
  }

  // ---- Active attempts ----

  /** At most one attempt is active, the last one, and only while its loop is there to end it. */
  ghost predicate InHandOnly(m: Machine) {
    ActiveOnlyIn(m.task.attempts, m.loop.Some? && Holding(m.loop.value))
  }

  /** A loop ends without saving that the task is blocked, although an attempt is active. */
  predicate LosesActive(m: Machine, step: Step) {
    SomeActive(m.task.attempts)
    && ((step.Block? && !step.saved) || (step.Begin? && !step.saved && !Admitted(m.task, step.free)))
  }

  lemma LosingStep(m: Machine, step: Step)
    requires Enabled(m, step)
    ensures Next(m, step).blockLost <==> m.blockLost || LosesActive(m, step)
  {
    hide LoopStep, Answered, Synced, Prepared;
  }

  /** No step depends on what was lost before. */
  lemma ForgettingStep(m: Machine, step: Step)
    requires Enabled(m, step)
    ensures var f := m.(blockLost := false);
            Enabled(f, step) && Next(f, step).(blockLost := Next(m, step).blockLost) == Next(m, step)
  {
    hide LoopStep, LoopStepEnabled, AfterLoopStep, Answered, Synced, Prepared, Transition, LiveTask, Admitted;
    hide TaskStore.Reconciled, WithApproval, BlockedTask;
    if IsLoopStep(step) {
      ForgettingLoopStep(m, step);
    }
  }

  lemma ForgettingLoopStep(m: Machine, step: Step)
    requires Enabled(m, step) && IsLoopStep(step)
    ensures var f := m.(blockLost := false);
            Enabled(f, step) && Next(f, step).(blockLost := Next(m, step).blockLost) == Next(m, step)
  {
    hide LoopStep, LoopStepEnabled;
  }

  lemma ForgettingKeeps(m: Machine)
    requires Invariant(m) && RowLive(m) && ReviewsSound(m) && PartedQuiet(m) && InHandOnly(m)
    ensures var f := m.(blockLost := false); Invariant(f) && RowLive(f) && ReviewsSound(f) && PartedQuiet(f)
  {
    hide Chained, SubmissionsSound, IdsSound, LoopSound, CycleKnown;
    assert forall key | key in m.reviews :: ReviewSound(m, m.reviews[key]);
  }

  lemma LosingLetsGo(m: Machine, step: Step)
    requires Enabled(m, step) && LosesActive(m, step)
    ensures !InHandOnly(Next(m, step))
  {
    hide EndAttempts;
    var k :| 0 <= k < |m.task.attempts| && m.task.attempts[k].result.Active();
    assert Next(m, step).task.attempts[k].result.Active();
  }

  /** From any state of a run in which no active attempt is out of hand, exactly the losing steps lead to one in which one is. */
  lemma OutOfHandIff(states: seq<Machine>, steps: seq<Step>, i: nat)
    requires IsRun(states, steps) && i < |steps| && InHandOnly(states[i])
    ensures InHandOnly(states[i + 1]) <==> !LosesActive(states[i], steps[i])
  {
    var m, step := states[i], steps[i];
    var f := m.(blockLost := false);
    InvariantAlways(states, steps, i);
    ForgettingKeeps(m);
    ForgettingStep(m, step);
    if LosesActive(m, step) {
      LosingLetsGo(m, step);
    } else {
      LosingStep(f, step);
      StepKeeps(f, step);
      hide Next, Enabled, RowLive, ReviewsSound, PartedQuiet, Chained, SubmissionsSound, IdsSound, LoopInvariant, IsRun;
      assert !LosesActive(f, step);
      assert InHandOnly(Next(f, step));
    }
  }

  lemma InitialAttempts(m: Machine)
    requires Init(m)
    ensures InHandOnly(m)
  {
  }

  /**
   All along a run at most one attempt is active, the last one, and only while its loop is there to end it, if and
   only if no loop ended without saving that the task is blocked while an attempt was active.
   */
  lemma {:induction false} OneActiveAttemptIff(states: seq<Machine>, steps: seq<Step>, n: nat)
    requires IsRun(states, steps) && n < |states|
    ensures (forall i | 0 <= i <= n :: InHandOnly(states[i])) <==> (forall i | 0 <= i < n :: !LosesActive(states[i], steps[i]))
  {
    hide Next, Enabled, InHandOnly, LosesActive;
    if n == 0 {
      assert Init(states[0]);
      InitialAttempts(states[0]);
    } else {
      OneActiveAttemptIff(states, steps, n - 1);
      if forall i | 0 <= i <= n - 1 :: InHandOnly(states[i]) {
        OutOfHandIff(states, steps, n - 1);
      }
    }
  }

  /**
   A restart leaves no attempt active exactly if none was or the row was stale; when none was out of hand, that is
   always so.
   */
  lemma RestartEndsAttempts(states: seq<Machine>, steps: seq<Step>, i: nat)
    requires IsRun(states, steps) && i < |steps| && steps[i].Crash?
    ensures SomeActive(states[i + 1].task.attempts) <==> SomeActive(states[i].task.attempts) && !TaskStore.Stale(states[i].task)
    ensures InHandOnly(states[i]) ==> !SomeActive(states[i + 1].task.attempts)
  {
    InvariantAlways(states, steps, i);
    TaskStore.ReconcileEndsAttemptsIff(states[i].task);
    hide Invariant, TaskStore.Reconciled, IsRun;
  }

  // ---- Done is only ever a user's acceptance of current evidence ----

  lemma LoopNeverAccepts(m: Machine, step: Step)
    requires Enabled(m, step) && RowLive(m) && ReviewsSound(m) && !step.CommitReview?
    ensures Next(m, step).task.CurrentColumn().Done? ==> m.task.CurrentColumn().Done?
  {
    if IsLoopStep(step) {
      LoopStepKeepsRow(m, step);
      hide Next, Enabled;
    } else if step.UserRequest? {
      hide Answered;
      RequestsKeepHistory(m.task, step.request);
    } else if step.Sync? {
      hide Synced;
      SyncKeepsHistory(m.task, step.report);
    } else {
      hide EndAttempts, TaskStore.InterruptAll, Prepared, Answered, Synced, AfterLoopStep, AfterCommit;
    }
  }

  lemma {:induction false} SnapshotWasRead(states: seq<Machine>, steps: seq<Step>, i: nat, key: nat) returns (r: nat)
    requires IsRun(states, steps) && i < |states| && key in states[i].reviews
    ensures r < i && steps[r] == ReadReview(key) && states[r].task == states[i].reviews[key].snapshot
  {
    hide Next, Enabled;
    assert Init(states[0]);
    InvariantAlways(states, steps, i - 1);
    ReviewComesFrom(states[i - 1], steps[i - 1], key);
    if key in states[i - 1].reviews && states[i - 1].reviews[key].snapshot == states[i].reviews[key].snapshot {
      r := SnapshotWasRead(states, steps, i - 1, key);
    } else {
      r := i - 1;
    }
  }

  lemma {:induction false} AcceptanceWasCaptured(states: seq<Machine>, steps: seq<Step>, i: nat, key: nat) returns (c: nat)
    requires IsRun(states, steps) && i < |states| && key in states[i].reviews && states[i].reviews[key].prepared.Some?
    ensures c < i && steps[c].CaptureReview? && steps[c].key == key && key in states[c].reviews
    ensures states[c].reviews[key].snapshot == states[i].reviews[key].snapshot
    ensures Prepared(states[i].reviews[key].snapshot, states[c].workspace) == states[i].reviews[key].prepared
  {
    hide Next, Enabled, Prepared;
    assert Init(states[0]);
    InvariantAlways(states, steps, i - 1);
    ReviewComesFrom(states[i - 1], steps[i - 1], key);
    if key in states[i - 1].reviews && states[i - 1].reviews[key] == states[i].reviews[key] {
      c := AcceptanceWasCaptured(states, steps, i - 1, key);
    } else {
      c := i - 1;
    }
  }

  lemma ReviewComesFrom(m: Machine, step: Step, key: nat)
    requires Enabled(m, step) && key in Next(m, step).reviews
    ensures var n := Next(m, step).reviews[key];
            || (key in m.reviews && m.reviews[key] == n)
            || (step == ReadReview(key) && n == Review(m.task, None))
            || (step.CaptureReview? && step.key == key && key in m.reviews && m.reviews[key].snapshot == n.snapshot
                && n.prepared.Some? && n.prepared == Prepared(n.snapshot, m.workspace))
  {
    hide LoopStep, Answered, Synced, Prepared;
  }

  lemma {:induction false} RevisionsMonotone(states: seq<Machine>, steps: seq<Step>, i: nat, j: nat)
    requires IsRun(states, steps) && i <= j < |states|
    ensures states[i].task.revision <= states[j].task.revision
    ensures states[i].task.revision == states[j].task.revision ==> forall l | i <= l <= j :: states[l].task == states[i].task
    decreases j - i
  {
    hide Next, Enabled, Invariant, RowLive, ReviewsSound;
    if i < j {
      RevisionsMonotone(states, steps, i, j - 1);
      InvariantAlways(states, steps, j - 1);
      RevisionsGrow(states[j - 1], steps[j - 1]);
    }
  }

  /** What an acceptance rests on: the task's own current submission, whose fingerprint the workspace had. */
  ghost predicate Matches(t: Task, workspace: Workspace) {
    t.currentSubmission.Some?
    && exists k | 0 <= k < |t.submissions| ::
         t.submissions[k].id == t.currentSubmission.value && t.submissions[k].workspace.fingerprint == workspace.fingerprint
  }

  lemma PreparedMatches(t: Task, workspace: Workspace)
    requires Prepared(t, workspace).Some?
    ensures Matches(t, workspace) && t.CurrentColumn().InReview?
    ensures t.reviewSummary.Some? && !Blank(t.reviewSummary.value)
  {
    AcceptanceIs(t);
    var s := FindSubmission(t.submissions, t.currentSubmission.value).value;
    var k :| 0 <= k < |t.submissions| && t.submissions[k] == s;
  }

  /**
   Whenever a task becomes Done, it is by committing a user's acceptance: the task was read in review at
   moment `read`, the workspace captured at a later moment `captured` had the fingerprint of the task's own
   current submission, and from the reading to the commit the task did not change at all.
   */
  lemma DoneIsAccepted(states: seq<Machine>, steps: seq<Step>, i: nat) returns (read: nat, captured: nat)
    requires IsRun(states, steps) && i < |steps|
    requires !states[i].task.CurrentColumn().Done? && states[i + 1].task.CurrentColumn().Done?
    ensures steps[i].CommitReview? && read < captured < i
    ensures steps[read] == ReadReview(steps[i].key) && steps[captured].CaptureReview? && steps[captured].key == steps[i].key
    ensures Matches(states[i].task, states[captured].workspace)
    ensures states[i].task.CurrentColumn().InReview? && states[i].loop.None?
    ensures states[i].task.reviewSummary.Some? && !Blank(states[i].task.reviewSummary.value)
    ensures forall l | read <= l <= i :: states[l].task == states[i].task
    ensures states[i + 1].task.revision == states[i].task.revision + 1
  {
    InvariantAlways(states, steps, i);
    if !steps[i].CommitReview? {
      LoopNeverAccepts(states[i], steps[i]);
    }
    var key := steps[i].key;
    CommitNeedsCurrent(states[i], steps[i]);
    hide Next, Enabled, Invariant, RowLive, ReviewsSound, Prepared;
    captured := AcceptanceWasCaptured(states, steps, i, key);
    read := SnapshotWasRead(states, steps, captured, key);
    RevisionsMonotone(states, steps, read, i);
    PreparedMatches(states[i].task, states[captured].workspace);
  }

  lemma CommitNeedsCurrent(m: Machine, step: Step)
    requires Enabled(m, step) && step.CommitReview? && ReviewsSound(m) && Next(m, step).task != m.task
    ensures m.reviews[step.key].snapshot == m.task && m.reviews[step.key].prepared.Some? && m.loop.None?
    ensures Next(m, step).task.revision == m.task.revision + 1
  {
    hide Transition;
    assert ReviewSound(m, m.reviews[step.key]);
    AcceptanceIs(m.reviews[step.key].snapshot);
  }

  // ---- Cancellation, denial and revalidation ----

  /** A cancelled loop that has not already taken the workspace as the base of another attempt. */
  predicate CancelledBeforeDispatch(l: Loop) {
    l.cancelled && !l.pc.Rotating? && !l.pc.Queueing?
  }

  lemma CancelledLoopStep(m: Machine, step: Step)
    requires Enabled(m, step) && Invariant(m) && m.loop.Some? && CancelledBeforeDispatch(m.loop.value)
    requires Next(m, step).loop.Some?
    ensures CancelledBeforeDispatch(Next(m, step).loop.value) && !step.Queue?
  {
    hide Updated, Passes, Failures, Joined, Automatic, FindAttempt, EndAttempts, Setup.Criteria, HasSummary, Invariant;
    hide Answered, Synced, Prepared, LiveTask;
    if IsLoopStep(step) && !step.Enter? {
      LoopNext(m, step);
      hide Next, Enabled;
    }
  }

  /** Once a cancelled loop has passed the point of dispatch it never stores another attempt. */
  lemma {:induction false} CancelStopsRetries(states: seq<Machine>, steps: seq<Step>, i: nat, j: nat)
    requires IsRun(states, steps) && i <= j < |states|
    requires states[i].loop.Some? && CancelledBeforeDispatch(states[i].loop.value)
    requires forall l | i <= l <= j :: states[l].loop.Some?
    ensures CancelledBeforeDispatch(states[j].loop.value)
    ensures |states[j].task.attempts| == |states[i].task.attempts|
    decreases j - i
  {
    hide IsRun, Next, Enabled, Invariant, RowLive, ReviewsSound, CancelledBeforeDispatch, Evolved;
    if i < j {
      assert states[j - 1].loop.Some?;
      CancelStopsRetries(states, steps, i, j - 1);
      InvariantAlways(states, steps, j - 1);
      CancelledLoopStep(states[j - 1], steps[j - 1]);
      StepEvolves(states[j - 1], steps[j - 1]);
    }
  }

  lemma DenialCancels(m: Machine, approval: Uuid, saved: bool)
    requires m.loop.Some? && !m.loop.value.pc.Rotating? && !m.loop.value.pc.Queueing?
    ensures var n := Next(m, Approve(approval, true, saved));
            n.loop.Some? && CancelledBeforeDispatch(n.loop.value) && |n.task.attempts| == |m.task.attempts|
  {
    if m.task.attempts != [] && m.task.attempts[|m.task.attempts| - 1].result.Active() {
      ApprovedEvolves(m.task, approval);
    }
    hide WithApproval;
  }

  /**
   After a denied approval the loop never stores another attempt, whether or not the denial could be saved, unless
   it was already past the point of dispatch.
   */
  lemma DenialStopsRetries(states: seq<Machine>, steps: seq<Step>, i: nat, j: nat)
    requires IsRun(states, steps) && i < j < |states| && i < |steps| && steps[i].Approve? && steps[i].denied
    requires states[i].loop.Some? && !states[i].loop.value.pc.Rotating? && !states[i].loop.value.pc.Queueing?
    requires forall l | i < l <= j :: states[l].loop.Some?
    ensures states[j].loop.value.cancelled && |states[j].task.attempts| == |states[i].task.attempts|
  {
    InvariantAlways(states, steps, i);
    DenialCancels(states[i], steps[i].approval, steps[i].saved);
    hide Next, Enabled, Invariant, RowLive, ReviewsSound, PartedQuiet;
    assert steps[i] == Approve(steps[i].approval, true, steps[i].saved);
    CancelStopsRetries(states, steps, i + 1, j);
  }

  /**
   Revalidation is offered for tasks in progress and in review, but the launch that follows is admitted only for
   the former: one asked for in review always blocks the task and takes its submission out of review.
   */
  lemma RevalidationNeedsProgress(m: Machine, agent: AgentId, summary: Option<string>, free: bool, resume: Option<string>)
    requires Enabled(m, UserRequest(Revalidate(agent, summary))) && m.loop.None? && m.launch.None?
    ensures var asked := Next(m, UserRequest(Revalidate(agent, summary)));
            && asked.launch == Some(Launch(true)) && asked.loop.None?
            && var begun := Next(asked, Begin(free, resume, true));
            && (begun.loop.Some? <==> free && m.task.CurrentColumn().InProgress?)
            && (m.task.CurrentColumn().InReview? ==>
                  begun.task.condition.Blocked? && begun.task.CurrentColumn().InProgress? && begun.task.currentSubmission.None?)
  {
  }

  // ---- While a loop lives ----

  /** Of the row nothing but attempts, the reason shown and the revision may have changed. */
  predicate OnlyNoted(t: Task, n: Task) {
    n == t.(attempts := n.attempts, lastReason := n.lastReason, revision := n.revision)
  }

  /** The agent the row still names, which the loop has moved away from, reports; its loop has given up. */
  predicate OldAgentReports(m: Machine, step: Step) {
    && step.Sync? && m.loop.Some? && (m.loop.value.pc.Blocking? || m.loop.value.pc.Ended?)
    && m.task.assignedAgent.Some? && m.task.assignedAgent != Some(m.loop.value.owner)
  }

  lemma CommitsNothingInLoop(m: Machine, step: Step)
    requires Enabled(m, step) && step.CommitReview? && ReviewsSound(m) && m.loop.Some?
    ensures Next(m, step).task == m.task
  {
    hide Transition, LiveTask;
    assert ReviewSound(m, m.reviews[step.key]);
  }

  lemma OthersOnlyNote(m: Machine, step: Step)
    requires Enabled(m, step) && RowLive(m) && ReviewsSound(m)
    requires m.loop.Some? && m.launch.None? && !IsLoopStep(step) && !step.Crash?
    ensures OnlyNoted(m.task, Next(m, step).task) || OldAgentReports(m, step)
    ensures Next(m, step).task.attempts != m.task.attempts ==> step.Approve?
    ensures Next(m, step).loop.Some? ==> Next(m, step).loop.value == m.loop.value.(cancelled := Next(m, step).loop.value.cancelled)
  {
    if step.CommitReview? {
      CommitsNothingInLoop(m, step);
    } else if step.Approve? {
      hide WithApproval;
      if m.task.attempts != [] && m.task.attempts[|m.task.attempts| - 1].result.Active() {
        ApprovedEvolves(m.task, step.approval);
      }
    } else if step.Sync? {
      assert m.task.assignedAgent.Some?;
      SyncKeepsHistory(m.task, step.report);
      hide Synced;
    } else {
      hide Answered, Synced, Prepared, AfterLoopStep, AfterCommit, AfterApproval;
    }
  }

  /**
   While a loop lives, requests, launches, accepts and agents change neither its configuration nor anything else of
   its row or of its own variables: all they can do is note approvals and a cancellation.  The one exception is a
   report of the row's old agent once the loop has given up under a new id.
  */
  lemma LoopsRunUndisturbed(states: seq<Machine>, steps: seq<Step>, i: nat)
    requires IsRun(states, steps) && i < |steps| && states[i].loop.Some? && !IsLoopStep(steps[i]) && !steps[i].Crash?
    ensures OnlyNoted(states[i].task, states[i + 1].task) || OldAgentReports(states[i], steps[i])
    ensures states[i + 1].task.attempts != states[i].task.attempts ==> steps[i].Approve?
    ensures states[i + 1].loop.Some? ==>
              states[i + 1].loop.value == states[i].loop.value.(cancelled := states[i + 1].loop.value.cancelled)
  {
    InvariantAlways(states, steps, i);
    assert states[i].launch.None?;
    hide Next, Enabled, Invariant, RowLive, ReviewsSound;
    OthersOnlyNote(states[i], steps[i]);
  }

  lemma PartingStep(m: Machine, step: Step)
    requires Steps(m, step) && RowLive(m) && ReviewsSound(m)
    requires Next(m, step).loop.Some? && Parted(Next(m, step).task, Next(m, step).loop.value)
    ensures (m.loop.Some? && Parted(m.task, m.loop.value)) || (step.Rotate? && step.transferred && !step.saved)
  {
    hide Invariant;
    if IsLoopStep(step) {
      if !m.loop.value.pc.Ended? {
        OnlyRotationParts(Session(m.task, m.loop.value), step, m.workspace, m.used);
      }
      if step.Rotate? {
        RotationParts(Session(m.task, m.loop.value), step);
      }
      hide LoopStep;
    } else if step.CommitReview? {
      if m.loop.Some? { CommitsNothingInLoop(m, step); }
      hide Transition, LiveTask;
    } else {
      if step.Sync? {
        SyncKeepsHistory(m.task, step.report);
      } else if step.Approve? && m.task.attempts != [] && m.task.attempts[|m.task.attempts| - 1].result.Active() {
        ApprovedEvolves(m.task, step.approval);
      }
      hide Answered, Synced, Prepared, AfterLoopStep, AfterCommit, WithApproval;
    }
  }

  lemma RotationParts(s: Session, step: Step)
    requires step.Rotate? && s.loop.pc.Rotating? && s.task.assignedAgent == Some(s.loop.owner)
    ensures var n := OnRotate(s, step.agent, step.transferred, step.saved);
            Parted(n.task, n.loop) ==> step.transferred && !step.saved
  {
  }

  /** A loop that has given up under an id its row does not have moved there in a rotation whose save failed. */
  lemma {:induction false} PartedWasRotated(states: seq<Machine>, steps: seq<Step>, i: nat) returns (j: nat)
    requires IsRun(states, steps) && i < |states| && states[i].loop.Some? && Parted(states[i].task, states[i].loop.value)
    ensures j < i && steps[j].Rotate? && steps[j].transferred && !steps[j].saved
    ensures forall k | j < k <= i :: states[k].loop.Some? && Parted(states[k].task, states[k].loop.value)
  {
    hide Next, Enabled, Invariant, RowLive, ReviewsSound, Parted;
    assert Init(states[0]);
    InvariantAlways(states, steps, i - 1);
    PartingStep(states[i - 1], steps[i - 1]);
    if states[i - 1].loop.Some? && Parted(states[i - 1].task, states[i - 1].loop.value) {
      j := PartedWasRotated(states, steps, i - 1);
    } else {
      j := i - 1;
    }
  }

  lemma RotatedUnsaved(m: Machine, agent: AgentId)
    requires m.loop.Some? && m.loop.value.pc.Rotating?
    ensures Enabled(m, Rotate(agent, true, false))
    ensures Next(m, Rotate(agent, true, false)) == m.(loop := Some(m.loop.value.(owner := agent).Fail(INFRASTRUCTURE)))
  {
  }

  lemma SubmittedByAgent(t: Task, summary: string)
    requires t.assignedAgent.Some? && t.CurrentColumn().InProgress? && !t.archived && t.condition.Live()
    requires !Blank(summary) && |summary| <= MAX_REVIEW_TEXT
    ensures Synced(t, Completed(summary)) ==
            Some(t.(state := TaskState.InReview, condition := Idle, reviewSummary := Some(summary), revision := t.revision + 1))
  {
    hide Blank;
  }

  /**
   ... and then the old agent can indeed submit the row into review behind the back of the loop, which blocks it
   with its next save.
   */
  lemma OldAgentOvertakes(states: seq<Machine>, steps: seq<Step>, i: nat, agent: AgentId, summary: string,
                          record: Option<Conversation>)
    requires IsRun(states, steps) && i < |states| && states[i].loop.Some? && states[i].loop.value.pc.Rotating?
    requires agent != states[i].loop.value.owner && states[i].task.CurrentColumn().InProgress? && !states[i].task.archived
    requires !Blank(summary) && |summary| <= MAX_REVIEW_TEXT
    ensures var rotate, report := Rotate(agent, true, false), Sync(Completed(summary));
            && Enabled(states[i], rotate)
            && var parted := Next(states[i], rotate);
            && Enabled(parted, report)
            && var overtaken := Next(parted, report);
            && overtaken.task.CurrentColumn().InReview? && overtaken.task.reviewSummary == Some(summary)
            && overtaken.task.submissions == states[i].task.submissions && overtaken.loop == parted.loop
            && Enabled(overtaken, Block(record, true))
            && Next(overtaken, Block(record, true)).task.CurrentColumn().InProgress?
            && Next(overtaken, Block(record, true)).task.condition.Blocked?
  {
    InvariantAlways(states, steps, i);
    Overtaking(states[i], agent, summary, record);
  }

  lemma Overtaking(m: Machine, agent: AgentId, summary: string, record: Option<Conversation>)
    requires m.loop.Some? && m.loop.value.pc.Rotating? && RowLive(m) && m.launch.None?
    requires agent != m.loop.value.owner && m.task.CurrentColumn().InProgress? && !m.task.archived
    requires !Blank(summary) && |summary| <= MAX_REVIEW_TEXT
    ensures var rotate, report := Rotate(agent, true, false), Sync(Completed(summary));
            && Enabled(m, rotate)
            && var parted := Next(m, rotate);
            && Enabled(parted, report)
            && var overtaken := Next(parted, report);
            && overtaken.task.CurrentColumn().InReview? && overtaken.task.reviewSummary == Some(summary)
            && overtaken.task.submissions == m.task.submissions && overtaken.loop == parted.loop
            && Enabled(overtaken, Block(record, true))
            && Next(overtaken, Block(record, true)).task.CurrentColumn().InProgress?
            && Next(overtaken, Block(record, true)).task.condition.Blocked?
  {
    RotatedUnsaved(m, agent);
    SubmittedByAgent(m.task, summary);
    var parted := m.(loop := Some(m.loop.value.(owner := agent).Fail(INFRASTRUCTURE)));
    var overtaken := parted.(task := Synced(m.task, Completed(summary)).value);
    assert Enabled(parted, Sync(Completed(summary))) && Next(parted, Sync(Completed(summary))) == overtaken;
    BlockedAfter(overtaken, record);
    hide Next, Enabled, Blank, Synced, RowLive;
  }

  lemma BlockedAfter(m: Machine, record: Option<Conversation>)
    requires m.loop.Some? && m.loop.value.pc.Blocking?
    ensures Enabled(m, Block(record, true))
    ensures Next(m, Block(record, true)).task.CurrentColumn().InProgress? && Next(m, Block(record, true)).task.condition.Blocked?
  {
    hide EndAttempts;
  }
}

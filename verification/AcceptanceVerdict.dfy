/** The verdict on a fully checked attempt: what lets it go to review, and what sends it back. */
module AcceptanceVerdict {
  import opened Wrappers
  import opened TaskWorkflow
  import opened AcceptanceLoop
  import opened AcceptanceInvariant

  /**
   Work goes to review on a required check that decided, or because the user asked for no more than validation, the
   task comes from the board's queue, its coordinator has the final report, or the edition takes the report.
   */
  ghost predicate HasGround(setup: Setup, evidence: seq<Evidence>, j: Judgement) {
    || setup.validationOnly
    || (setup.initial.inQueue && !setup.initial.coordinated)
    || (setup.initial.coordinated && j.reportReady)
    || j.editionReady
    || exists k :: 0 <= k < |evidence| && evidence[k].criterion.required && (evidence[k].status.Passed? || evidence[k].status.Failed?)
  }

  /** ... with a summary, no required check failed, and the report that a coordinator waits for. */
  ghost predicate DeservesReview(setup: Setup, a: Attempt, j: Judgement) {
    && HasGround(setup, a.validators, j)
    && (forall k | 0 <= k < |a.validators| :: !(a.validators[k].criterion.required && a.validators[k].status.Failed?))
    && (setup.initial.coordinated ==> j.reportReady)
    && a.summary.Some? && !Blank(a.summary.value)
  }

  /** The worker's processes are gone, nothing moved since the workspace was measured, and there is time and a change. */
  ghost predicate Undisturbed(setup: Setup, a: Attempt, j: Judgement) {
    && j.cleared && j.captured.Some? && a.workspace.Some? && j.captured.value.fingerprint == a.workspace.value.fingerprint
    && !j.deadline
    && (setup.initial.config.policy.requireChange && !setup.validationOnly ==> a.base.fingerprint != a.workspace.value.fingerprint)
  }

  lemma PassesIff(setup: Setup, a: Attempt, j: Judgement)
    ensures Passes(setup, a, j.reportReady, j.editionReady) <==> DeservesReview(setup, a, j)
  {
    NoNotesMeansNoneFails(a.validators);
    assert Automatic(a.validators) ==>
             exists k :: 0 <= k < |a.validators| && a.validators[k].criterion.required
                         && (a.validators[k].status.Passed? || a.validators[k].status.Failed?);
    assert (exists k :: 0 <= k < |a.validators| && a.validators[k].criterion.required
                        && (a.validators[k].status.Passed? || a.validators[k].status.Failed?)) ==> Automatic(a.validators) by {
      if k :| 0 <= k < |a.validators| && a.validators[k].criterion.required
              && (a.validators[k].status.Passed? || a.validators[k].status.Failed?) {
        assert DecidesRequired(a.validators[k]);
      }
    }
    hide FailureNotes, Blank;
  }

  /** Exactly what is undisturbed, deserves review and can be saved is submitted; what does not deserve it is stored as failed. */
  ghost predicate Judged(m: Machine, step: Step, n: Machine)
    requires step.Judge? && m.loop.Some? && m.loop.value.pc.Checking?
  {
    var l, a, j := m.loop.value, m.loop.value.pc.attempt, JudgementOf(m, step);
    && n.loop.Some? && n.loop.value == l.(pc := n.loop.value.pc)
    && (n.loop.value.pc.Submitting? <==> Undisturbed(l.setup, a, j) && DeservesReview(l.setup, a, j) && step.saved)
    && (n.loop.value.pc.Concluding? <==> Undisturbed(l.setup, a, j) && !DeservesReview(l.setup, a, j) && step.saved)
    && (n.loop.value.pc.Submitting? || n.loop.value.pc.Concluding? || n.loop.value.pc.Blocking?)
    && (n.loop.value.pc.Submitting? ==> n.loop.value.pc == Submitting(a.(result := AttemptResult.Passed), m.workspace))
    && (n.loop.value.pc.Concluding? ==>
          && n.loop.value.pc.attempt == a.(result := AttemptResult.Failed, failure := Some("validation_failed"))
          && n.loop.value.pc.current == m.workspace
          && n.loop.value.pc.failure == FailureTold(l.setup, a, j))
    && (n.loop.value.pc.Blocking? ==> n.task == m.task)
  }

  lemma JudgedIff(m: Machine, step: Step)
    requires Steps(m, step) && step.Judge?
    ensures m.loop.Some? && m.loop.value.pc.Checking? && Judged(m, step, Next(m, step))
  {
    LoopNext(m, step);
    CheckingCanBeStored(m);
    JudgementIs(Session(m.task, m.loop.value), JudgementOf(m, step), step.saved);
    hide Next, Enabled, Invariant, Updated, OnJudge, DeservesReview, Undisturbed;
  }

  lemma JudgementIs(s: Session, j: Judgement, saved: bool)
    requires s.loop.pc.Checking? && s.loop.pc.attempt.workspace.Some?
    requires forall r, f :: Updated(s.task, s.loop.pc.attempt.(result := r, failure := f)).Some?
    ensures var l, a, n := s.loop, s.loop.pc.attempt, OnJudge(s, j, saved);
            && n.loop == l.(pc := n.loop.pc)
            && (if Undisturbed(l.setup, a, j) && saved then
                  if DeservesReview(l.setup, a, j) then
                    n.loop.pc == Submitting(a.(result := AttemptResult.Passed), j.captured.value)
                  else
                    && n.loop.pc.Concluding? && n.loop.pc.current == j.captured.value
                    && n.loop.pc.failure == FailureTold(l.setup, a, j)
                    && n.loop.pc.attempt == a.(result := AttemptResult.Failed, failure := Some("validation_failed"))
                else n.loop.pc.Blocking? && n.task == s.task)
  {
    var a := s.loop.pc.attempt;
    var passed := a.(result := AttemptResult.Passed, failure := a.failure);
    var failed := a.(result := AttemptResult.Failed, failure := Some("validation_failed"));
    PassesIff(s.loop.setup, a, j);
    FailureIsTold(s.loop.setup, a, j);
    hide Passes, Failures, Joined, FailureTold, DeservesReview;
    if Undisturbed(s.loop.setup, a, j) {
      StoreGoesOn(s, passed, saved, Submitting(passed, j.captured.value));
      StoreGoesOn(s, failed, saved, Concluding(failed, FailureTold(s.loop.setup, a, j), j.captured.value));
      hide Updated, Store;
      assert passed == a.(result := AttemptResult.Passed);
    }
    hide Updated, Store;
  }

  /** The notes of the failed required checks, and that the report is missing if a coordinator waits for it. */
  function FailureTold(setup: Setup, a: Attempt, j: Judgement): string {
    Joined(FailureNotes(a.validators) + if setup.initial.coordinated && !j.reportReady then [REPORT_MISSING] else [])
  }

  lemma FailureIsTold(setup: Setup, a: Attempt, j: Judgement)
    ensures FailureTold(setup, a, j) == Joined(Failures(setup, a, j.reportReady))
  {
  }

  lemma CheckingCanBeStored(m: Machine)
    requires Invariant(m) && m.loop.Some? && m.loop.value.pc.Checking?
    ensures m.loop.value.pc.attempt.workspace.Some?
    ensures forall r, f :: Updated(m.task, m.loop.value.pc.attempt.(result := r, failure := f)).Some?
  {
    var a := m.loop.value.pc.attempt;
    assert Stored(m.loop.value, a, m.task.attempts);
    forall r, f ensures Updated(m.task, a.(result := r, failure := f)).Some? {
      UpdatedInPlace(m.task, a.(result := r, failure := f), m.task.submissions, m.cycles, m.used);
    }
  }

  /** A failure tells the notes of the failed required checks, in their order, one to a line. */
  lemma {:induction false} FailureNotesAre(a: seq<Evidence>, b: seq<Evidence>, e: Evidence)
    ensures FailureNotes(a + b) == FailureNotes(a) + FailureNotes(b)
    ensures FailureNotes([e]) == if e.criterion.required && e.status.Failed? then [e.note] else []
    decreases |b|
  {
    assert [e][..0] == [];
    if b == [] {
      assert a + b == a && FailureNotes(a) + [] == FailureNotes(a);
    } else {
      var n := |b| - 1;
      FailureNotesAre(a, b[..n], e);
      assert (a + b)[..|a + b| - 1] == a + b[..n] && (a + b)[|a + b| - 1] == b[n];
    }
  }

  lemma {:induction false} LinesAreJoined(a: seq<string>, b: seq<string>, line: string)
    requires a != [] && b != []
    ensures Joined(a + b) == Joined(a) + "\n" + Joined(b)
    ensures Joined([line]) == line && Joined([]) == ""
  {
    if |a| == 1 {
      assert (a + b)[0] == a[0] && (a + b)[1..] == b;
    } else {
      LinesAreJoined(a[1..], b, line);
      assert (a + b)[0] == a[0] && (a + b)[1..] == a[1..] + b;
      assert a[0] + "\n" + (Joined(a[1..]) + "\n" + Joined(b)) == (a[0] + "\n" + Joined(a[1..])) + "\n" + Joined(b);
    }
  }

  // ---- Why a loop gives up ----

  /** The reasons a section has to give up, by the code that the row is blocked with. */
  ghost predicate Reason(l: Loop, t: Task, workspace: Workspace, step: Step, code: string) {
    var policy := l.setup.initial.config.policy;
    match step
    case Enter(_, presetsRead) =>
      || (code == "history_limit" && (|t.attempts| >= 50 || |t.submissions| >= 50))
      || (code == "validator_infrastructure" && (!t.config.Valid() || !presetsRead))
    case Capture(allowed, deadline, readable) =>
      || (code == "capability_unavailable" && !allowed)
      || (code == "history_limit" && |t.attempts| >= 50)
      || (code == "cancelled" && l.cancelled)
      || (code == "budget_exhausted" && deadline)
      || (code == "validator_infrastructure" && !readable)
      || (code == "workspace_changed" && l.expected.Some? && l.expected.value != workspace.fingerprint)
    case Rotate(_, transferred, saved) => code == "validator_infrastructure" && !(transferred && saved)
    case Queue(_, promptFits, saved) =>
      (code == "prompt_limit" && !promptFits) || (code == "validator_infrastructure" && !saved)
    case LaunchWorker(launched, saved) =>
      (code == "launch_failed" && !launched) || (code == "validator_infrastructure" && !saved)
    case EndWorker(outcome) =>
      || (code == "cancelled" && outcome.Stopped? && l.cancelled)
      || (code == "budget_exhausted" && outcome.Stopped? && !l.cancelled)
      || (code == "worker_blocked" && outcome.NotCompleted?)
      || (code == "validator_infrastructure" && outcome.StillExiting?)
    case Measure(readable, saved) =>
      || (code == "validator_infrastructure" && !(readable && saved))
      || (code == "workspace_changed" && l.pc.Measuring? && l.pc.attempt.base.head != workspace.head)
    case Check(status, _, saved) =>
      || (code == "cancelled" && (l.cancelled || status.Cancelled?))
      || (code == "validator_infrastructure" && (status.InfrastructureError? || !saved))
    case Judge(cleared, readable, deadline, _, _, saved) =>
      && l.pc.Checking? && l.pc.attempt.workspace.Some?
      && (|| (code == "validator_infrastructure" && !(cleared && readable && saved))
          || (code == "workspace_changed" && l.pc.attempt.workspace.value.fingerprint != workspace.fingerprint)
          || (code == "budget_exhausted" && deadline)
          || (code == "no_change" && policy.requireChange && !l.setup.validationOnly
              && l.pc.attempt.base.fingerprint == l.pc.attempt.workspace.value.fingerprint))
    case SubmitReview(_, saved) => code == "validator_infrastructure" && !saved
    case Conclude =>
      && l.pc.Concluding? && l.pc.attempt.workspace.Some?
      && (|| (code == "human_review_required" && !l.setup.initial.coordinated && (Undecided(l.pc.attempt) || !HasSummary(l.pc.attempt)))
          || (code == "no_change" && policy.requireChange
              && l.pc.attempt.base.fingerprint == l.pc.attempt.workspace.value.fingerprint)
          || (code == "identical_failure" && policy.stopOnIdenticalFailure && l.previousFailure == Some(l.pc.failure))
          || (code == "budget_exhausted" && l.ordinal == if policy.enabled && !l.setup.validationOnly then policy.maxAttempts else 1)
          || (code == "approval_boundary" && l.pc.attempt.approvals != [])
          || (code == "thread_unavailable" && l.pc.attempt.thread.None?
              && (policy.resume || (l.setup.initial.inQueue && !l.setup.initial.coordinated))))
    case _ => false
  }

  /** No required check passed or failed. */
  predicate Undecided(a: Attempt) {
    forall k | 0 <= k < |a.validators| ::
      a.validators[k].criterion.required ==> !a.validators[k].status.Passed? && !a.validators[k].status.Failed?
  }

  /** The loop gives up exactly if there is a reason, and then with a reason that holds. */
  ghost predicate GivesUpRightly(l: Loop, t: Task, workspace: Workspace, step: Step, n: Loop) {
    && (n.pc.Blocking? ==> Reason(l, t, workspace, step, n.pc.code))
    && ((exists code :: Reason(l, t, workspace, step, code)) ==> n.pc.Blocking?)
  }

  lemma StoreGoesOn(s: Session, a: Attempt, saved: bool, next: Pc)
    requires Updated(s.task, a).Some?
    ensures Store(s, a, saved, next).loop == s.loop.At(if saved then next else Blocking("validator_infrastructure"))
    ensures !saved ==> Store(s, a, saved, next).task == s.task
  {
    hide Updated;
  }

  lemma UnstoredGivesUp(s: Session, step: Step, workspace: Workspace, used: set<Uuid>)
    requires step.Enter? || step.Rotate? || step.EndWorker? || step.Capture? || step.SubmitReview?
    requires LoopStepEnabled(s.loop, step, used)
    ensures GivesUpRightly(s.loop, s.task, workspace, step, LoopStep(s, step, workspace, used).loop)
  {
    hide FindAttempt;
  }

  lemma QueueGivesUp(m: Machine, step: Step)
    requires Steps(m, step) && step.Queue?
    ensures m.loop.Some? && m.loop.value.pc.Queueing?
    ensures GivesUpRightly(m.loop.value, m.task, m.workspace, step,
                           OnQueue(Session(m.task, m.loop.value), step.id, step.promptFits, step.saved).loop)
  {
    var l := m.loop.value;
    var a := NewAttempt(l, step.id, l.pc.base);
    assert forall k | 0 <= k < |m.task.attempts| :: m.task.attempts[k].id != a.id;
    UpdatedByNew(m.task, a);
    StoreGoesOn(Session(m.task, l), a, step.saved,
                if l.setup.validationOnly then Measuring(a.(summary := l.setup.InheritedSummary())) else Launching(a));
    hide Store, Updated, Invariant;
  }

  lemma LaunchGivesUp(m: Machine, step: Step)
    requires Steps(m, step) && step.LaunchWorker?
    ensures m.loop.Some? && m.loop.value.pc.Launching?
    ensures GivesUpRightly(m.loop.value, m.task, m.workspace, step,
                           OnLaunch(Session(m.task, m.loop.value), step.launched, step.saved).loop)
  {
    var l := m.loop.value;
    var a := l.pc.attempt.(result := Working);
    LaunchedLoop(l, m.task.attempts, m.cycles, m.late);
    UpdatedInPlace(m.task, a, m.task.submissions, m.cycles, m.used);
    StoreGoesOn(Session(m.task, l), a, step.saved, Waiting(a));
    hide Store, Updated, Invariant, LoopSound;
  }

  lemma MeasureGivesUp(m: Machine, step: Step)
    requires Steps(m, step) && step.Measure?
    ensures m.loop.Some? && m.loop.value.pc.Measuring?
    ensures GivesUpRightly(m.loop.value, m.task, m.workspace, step,
                           OnMeasure(Session(m.task, m.loop.value), Seen(m.workspace, step.readable), step.saved).loop)
  {
    var l := m.loop.value;
    var a := l.pc.attempt.(result := Validating, workspace := Some(m.workspace));
    MeasuredLoop(l, m.workspace, m.task.attempts, m.cycles, m.late);
    UpdatedInPlace(m.task, a, m.task.submissions, m.cycles, m.used);
    StoreGoesOn(Session(m.task, l), a, step.saved,
                if a.base.head != m.workspace.head then Blocking("workspace_changed") else Checking(a));
    hide Store, Updated, Invariant, LoopSound;
  }

  lemma CheckGivesUp(m: Machine, step: Step)
    requires Steps(m, step) && step.Check?
    ensures m.loop.Some? && m.loop.value.pc.Checking? && |m.loop.value.pc.attempt.validators| < |m.loop.value.setup.Criteria()|
    ensures GivesUpRightly(m.loop.value, m.task, m.workspace, step,
                           OnCheck(Session(m.task, m.loop.value), step.status, step.note, step.saved).loop)
  {
    var l := m.loop.value;
    var done := l.pc.attempt.validators;
    var a := l.pc.attempt.(validators := done + [Evidence(l.setup.Criteria()[|done|], step.status, step.note)]);
    CheckedLoop(l, step.status, step.note, m.task.attempts, m.cycles, m.late);
    UpdatedInPlace(m.task, a, m.task.submissions, m.cycles, m.used);
    StoreGoesOn(Session(m.task, l), a, step.saved,
                if step.status.InfrastructureError? then Blocking(INFRASTRUCTURE)
                else if step.status.Cancelled? then Blocking("cancelled") else Checking(a));
    hide Store, Updated, Invariant, LoopSound, Setup.Criteria;
  }

  lemma JudgeNamesAReason(s: Session, workspace: Workspace, step: Step)
    requires step.Judge? && s.loop.pc.Checking? && s.loop.pc.attempt.workspace.Some?
    requires forall r, f :: Updated(s.task, s.loop.pc.attempt.(result := r, failure := f)).Some?
    ensures var j := Judgement(step.cleared, Seen(workspace, step.readable), step.deadline, step.reportReady, step.editionReady);
            var n := OnJudge(s, j, step.saved).loop;
            n.pc.Blocking? ==> Reason(s.loop, s.task, workspace, step, n.pc.code)
  {
    var a := s.loop.pc.attempt;
    var passed := a.(result := AttemptResult.Passed, failure := a.failure);
    var failed := a.(result := AttemptResult.Failed, failure := Some("validation_failed"));
    StoreGoesOn(s, passed, step.saved, Submitting(passed, workspace));
    StoreGoesOn(s, failed, step.saved, Concluding(failed, Joined(Failures(s.loop.setup, a, step.reportReady)), workspace));
    assert passed == a.(result := AttemptResult.Passed);
    hide Store, Updated, Passes, Failures, Joined;
  }

  lemma JudgeGivesUp(m: Machine, step: Step)
    requires Steps(m, step) && step.Judge?
    ensures m.loop.Some? && m.loop.value.pc.Checking? && m.loop.value.pc.attempt.workspace.Some?
    ensures GivesUpRightly(m.loop.value, m.task, m.workspace, step,
                           OnJudge(Session(m.task, m.loop.value), JudgementOf(m, step), step.saved).loop)
  {
    CheckingCanBeStored(m);
    JudgeNamesAReason(Session(m.task, m.loop.value), m.workspace, step);
    JudgementIs(Session(m.task, m.loop.value), JudgementOf(m, step), step.saved);
    hide OnJudge, Updated, Invariant, DeservesReview;
  }

  lemma ConcludeGivesUp(s: Session, workspace: Workspace)
    requires s.loop.pc.Concluding? && s.loop.pc.attempt.workspace.Some?
    ensures GivesUpRightly(s.loop, s.task, workspace, Conclude, OnConclude(s).loop)
  {
    var a := s.loop.pc.attempt;
    assert Undecided(a) <==> !Automatic(a.validators) by {
      if !Undecided(a) {
        var k :| 0 <= k < |a.validators| && a.validators[k].criterion.required
                 && (a.validators[k].status.Passed? || a.validators[k].status.Failed?);
        assert DecidesRequired(a.validators[k]);
      }
    }
    hide Automatic, Undecided, HasSummary;
  }

  /** Whatever the section, a loop gives up exactly if it has one of its reasons to, and then names one that holds. */
  lemma GivesUpIff(m: Machine, step: Step)
    requires Steps(m, step) && IsLoopStep(step) && !step.Block?
    ensures m.loop.Some? && Next(m, step).loop.Some?
    ensures GivesUpRightly(m.loop.value, m.task, m.workspace, step, Next(m, step).loop.value)
  {
    NextLoop(m, step);
    var s := Session(m.task, m.loop.value);
    hide Next, Enabled, GivesUpRightly, LoopStepEnabled, Invariant;
    match step {
      case Queue(_, _, _) => QueueGivesUp(m, step);
      case LaunchWorker(_, _) => LaunchGivesUp(m, step);
      case Measure(_, _) => MeasureGivesUp(m, step);
      case Check(_, _, _) => CheckGivesUp(m, step);
      case Judge(_, _, _, _, _, _) => JudgeGivesUp(m, step);
      case Conclude => ConcludeGivesUp(s, m.workspace);
      case _ => UnstoredGivesUp(s, step, m.workspace, m.used);
    }
    hide OnQueue, OnLaunch, OnMeasure, OnCheck, OnJudge, OnConclude;
  }

  lemma NextLoop(m: Machine, step: Step)
    requires Enabled(m, step) && IsLoopStep(step)
    ensures m.loop.Some? && LoopStepEnabled(m.loop.value, step, m.used)
    ensures Next(m, step).loop == Some(LoopStep(Session(m.task, m.loop.value), step, m.workspace, m.used).loop)
  {
    hide LoopStep;
  }
}

/** Two concrete runs that show where the documentation promises more than the acceptance loop keeps. */
module AcceptanceExamples {
  import opened Wrappers
  import opened TaskWorkflow
  import opened AcceptanceLoop
  import opened AcceptanceInvariant
  import ConfigText

  // ---- Two runs that show the limits ----

  const PLACE := Workspace("w", None)
  const CHECKED := Config(Policy(true, 2, false, false, false), [Criterion("tests", true, false)])
  const DRAFTED :=
    Task(1, 1, TaskState.Ready, Idle, 1, false, None, false, false, None, [], CHECKED, [], [], None, None, None)
  const UNSTARTED := Machine(DRAFTED, None, None, map[], PLACE, {}, map[], {}, false)
  const STARTED := DRAFTED.(state := TaskState.Running, condition := Condition.Queued, assignedAgent := Some(1), revision := 2)
  const BEGUN :=
    UNSTARTED.(task := STARTED, loop := Some(Loop(Entering, Setup(STARTED, 0, false), 1, false, 0, None, None, None)))
  const DISPATCHING :=
    BEGUN.(loop := Some(Loop(Queueing(PLACE), Setup(STARTED, 10, false), 1, false, 1, None, None, None)),
           used := {10}, cycles := map[10 := CycleInfo(2, [Criterion("tests", true, false)], false, CHECKED.policy, false)])
  const FIRST := Attempt(11, 10, 1, None, 1, false, AttemptResult.Queued, None, PLACE, None, [], None, [])

  const OPENING: seq<Step> := [UserRequest(StartTask(1)), Begin(true, None, true), Enter(10, true), Capture(true, false, true)]

  /** The steps of `steps` lead from `m` to the last of `states`. */
  ghost predicate Leads(m: Machine, states: seq<Machine>, steps: seq<Step>) {
    && |states| == |steps| + 1 && states[0] == m
    && forall i | 0 <= i < |steps| :: Enabled(states[i], steps[i]) && states[i + 1] == Next(states[i], steps[i])
  }

  lemma LeadsOn(m: Machine, first: seq<Machine>, steps: seq<Step>, rest: seq<Machine>, more: seq<Step>)
    requires Leads(m, first, steps) && Leads(first[|steps|], rest, more)
    ensures Leads(m, first + rest[1..], steps + more)
    ensures (first + rest[1..])[|steps + more|] == rest[|more|]
  {
    hide Next, Enabled;
    var states, all := first + rest[1..], steps + more;
    forall i | 0 <= i < |all| ensures Enabled(states[i], all[i]) && states[i + 1] == Next(states[i], all[i]) {
      if i >= |steps| {
        assert states[i] == rest[i - |steps|] && states[i + 1] == rest[i - |steps| + 1];
      }
    }
  }

  lemma TaskIsStarted()
    ensures var launched := UNSTARTED.(task := STARTED, launch := Some(Launch(false)));
            && Enabled(UNSTARTED, OPENING[0]) && Next(UNSTARTED, OPENING[0]) == launched
            && Enabled(launched, OPENING[1]) && Next(launched, OPENING[1]) == BEGUN
  {
    hide LoopStep, Synced;
  }

  lemma FirstCriteria()
    ensures Setup(STARTED, 10, false).Criteria() == [Criterion("tests", true, false)]
  {
  }

  lemma CycleIsEntered()
    ensures var entered := DISPATCHING.(loop := Some(DISPATCHING.loop.value.At(Capturing)));
            && Enabled(BEGUN, OPENING[2]) && Next(BEGUN, OPENING[2]) == entered
            && Enabled(entered, OPENING[3]) && Next(entered, OPENING[3]) == DISPATCHING
  {
    hide Setup.Criteria, Store, Answered, Synced, OnCheck, OnJudge;
    FirstCriteria();
  }

  lemma OpeningRun() returns (states: seq<Machine>)
    ensures Leads(UNSTARTED, states, OPENING) && states[4] == DISPATCHING
  {
    hide Next, Enabled;
    TaskIsStarted();
    CycleIsEntered();
    states := [
      UNSTARTED, UNSTARTED.(task := STARTED, launch := Some(Launch(false))), BEGUN,
      DISPATCHING.(loop := Some(DISPATCHING.loop.value.At(Capturing))), DISPATCHING];
  }

  /** The first cycle at `pc`, with the row `task`. */
  function During(task: Task, pc: Pc): Machine {
    DISPATCHING.(task := task, loop := Some(DISPATCHING.loop.value.At(pc)), used := {10, 11})
  }

  function Row(attempt: Attempt, condition: Condition, revision: nat): Task {
    STARTED.(attempts := [attempt], condition := condition, revision := revision)
  }

  lemma OnlyAttemptUpdated(t: Task, before: Attempt, a: Attempt, merged: seq<Uuid>)
    requires t.attempts == [before] && before.id == a.id && before.result.Active()
    requires MergedApprovals(a.approvals, before.approvals) == merged
    ensures Updated(t, a) ==
            Some(t.(attempts := [a.(approvals := merged)], revision := t.revision + 1,
                    condition := if a.result.Queued? then Condition.Queued
                                 else if a.result.Active() then Condition.Running else t.condition))
  {
    assert FindAttempt(t.attempts, a.id) == 0;
    var stored := a.(approvals := merged);
    assert t.attempts[0 := stored] == [stored];
    assert [stored][|[stored]| - 1] == stored;
    hide MergedApprovals, FindAttempt;
  }

  lemma FirstApprovalsMerged()
    ensures MergedApprovals([], []) == [] && MergedApprovals([], APPROVED) == APPROVED
  {
    var none: seq<Uuid> := [];
    assert APPROVED[..|APPROVED| - 1] == none;
    assert MergedApprovals(none, none) == none;
    assert MergedApprovals(none, APPROVED) == none + [5];
  }

  const WORKING_FIRST := FIRST.(result := Working)
  const MEASURED_FIRST := FIRST.(result := Validating, workspace := Some(PLACE), summary := Some("done"))

  const WORKING: seq<Step> :=
    [Queue(11, true, true), LaunchWorker(true, true), EndWorker(Finished(None, Some("done"))), Measure(true, true)]

  lemma FirstIsQueued()
    ensures Enabled(DISPATCHING, WORKING[0])
    ensures Next(DISPATCHING, WORKING[0]) == During(Row(FIRST, Condition.Queued, 3), Launching(FIRST))
  {
    assert NewAttempt(DISPATCHING.loop.value, 11, PLACE) == FIRST;
    UpdatedByNew(STARTED, FIRST);
  }

  lemma FirstIsLaunched()
    ensures Enabled(During(Row(FIRST, Condition.Queued, 3), Launching(FIRST)), WORKING[1])
    ensures Next(During(Row(FIRST, Condition.Queued, 3), Launching(FIRST)), WORKING[1])
            == During(Row(WORKING_FIRST, Condition.Running, 4), Waiting(WORKING_FIRST))
  {
    FirstApprovalsMerged();
    OnlyAttemptUpdated(Row(FIRST, Condition.Queued, 3), FIRST, WORKING_FIRST, []);
    hide Updated;
  }

  lemma FirstEnds()
    ensures var m := During(Row(WORKING_FIRST, Condition.Running, 4), Waiting(WORKING_FIRST));
            && Enabled(m, WORKING[2])
            && Next(m, WORKING[2]) == m.(loop := Some(m.loop.value.At(Measuring(WORKING_FIRST.(summary := Some("done"))))))
  {
    assert FindAttempt([WORKING_FIRST], 11) == 0;
  }

  lemma FirstIsMeasured()
    ensures var m := During(Row(WORKING_FIRST, Condition.Running, 4), Measuring(WORKING_FIRST.(summary := Some("done"))));
            && Enabled(m, WORKING[3])
            && Next(m, WORKING[3]) == During(Row(MEASURED_FIRST, Condition.Running, 5), Checking(MEASURED_FIRST))
  {
    FirstApprovalsMerged();
    OnlyAttemptUpdated(Row(WORKING_FIRST, Condition.Running, 4), WORKING_FIRST, MEASURED_FIRST, []);
    hide Updated;
  }

  lemma WorkingRun() returns (states: seq<Machine>)
    ensures Leads(DISPATCHING, states, WORKING)
    ensures states[4] == During(Row(MEASURED_FIRST, Condition.Running, 5), Checking(MEASURED_FIRST))
  {
    hide Next, Enabled;
    FirstIsQueued();
    FirstIsLaunched();
    FirstEnds();
    FirstIsMeasured();
    var m3 := During(Row(WORKING_FIRST, Condition.Running, 4), Measuring(WORKING_FIRST.(summary := Some("done"))));
    states := [
      DISPATCHING, During(Row(FIRST, Condition.Queued, 3), Launching(FIRST)),
      During(Row(WORKING_FIRST, Condition.Running, 4), Waiting(WORKING_FIRST)), m3, Next(m3, WORKING[3])];
  }

  const NO_PASS := Evidence(Criterion("tests", true, false), CheckStatus.Failed, "no")
  const CHECKED_FIRST := MEASURED_FIRST.(validators := [NO_PASS])
  const FAILED_FIRST := CHECKED_FIRST.(result := AttemptResult.Failed, failure := Some("validation_failed"))
  const APPROVED: seq<Uuid> := [5]

  const FAILING: seq<Step> :=
    [Approve(5, false, true), Check(CheckStatus.Failed, "no", true), Judge(true, true, false, false, false, true)]

  /** The states from the approval on; the row shows it, the loop does not know it. */
  function Approved(attempt: Attempt, revision: nat, pc: Pc): Machine {
    During(Row(attempt.(approvals := APPROVED), Condition.Running, revision), pc).(late := {11})
  }

  lemma ApprovalIsLate()
    ensures var m := During(Row(MEASURED_FIRST, Condition.Running, 5), Checking(MEASURED_FIRST));
            Enabled(m, FAILING[0]) && Next(m, FAILING[0]) == Approved(MEASURED_FIRST, 6, Checking(MEASURED_FIRST))
  {
    hide LoopStep;
    assert [] + [5] == APPROVED;
  }

  lemma FirstCheck(s: Session)
    requires s.task == Row(MEASURED_FIRST.(approvals := APPROVED), Condition.Running, 6)
    requires s.loop == DISPATCHING.loop.value.At(Checking(MEASURED_FIRST))
    ensures |s.loop.setup.Criteria()| == 1
    ensures OnCheck(s, CheckStatus.Failed, "no", true)
            == Session(Row(CHECKED_FIRST.(approvals := APPROVED), Condition.Running, 7), s.loop.At(Checking(CHECKED_FIRST)))
  {
    FirstCriteria();
    FirstApprovalsMerged();
    OnlyAttemptUpdated(s.task, MEASURED_FIRST.(approvals := APPROVED), CHECKED_FIRST, APPROVED);
    assert [] + [NO_PASS] == [NO_PASS];
    hide Updated, Setup.Criteria;
  }

  lemma FirstIsChecked()
    ensures var m := Approved(MEASURED_FIRST, 6, Checking(MEASURED_FIRST));
            Enabled(m, FAILING[1]) && Next(m, FAILING[1]) == Approved(CHECKED_FIRST, 7, Checking(CHECKED_FIRST))
  {
    hide OnCheck, OnJudge, OnMeasure, Store, Setup.Criteria, Answered, Synced, AfterApproval;
    var m := Approved(MEASURED_FIRST, 6, Checking(MEASURED_FIRST));
    FirstCheck(Session(m.task, m.loop.value));
  }

  lemma FirstHasFailed()
    ensures Failures(Setup(STARTED, 10, false), CHECKED_FIRST, false) == ["no"]
    ensures !Passes(Setup(STARTED, 10, false), CHECKED_FIRST, false, false)
  {
    assert [NO_PASS][..0] == [] && FailureNotes([]) == [];
    assert FailureNotes([NO_PASS]) == ["no"];
  }

  lemma FirstJudgement(s: Session)
    requires s.task == Row(CHECKED_FIRST.(approvals := APPROVED), Condition.Running, 7)
    requires s.loop == DISPATCHING.loop.value.At(Checking(CHECKED_FIRST))
    ensures OnJudge(s, Judgement(true, Some(PLACE), false, false, false), true)
            == Session(Row(FAILED_FIRST.(approvals := APPROVED), Condition.Running, 8),
                       s.loop.At(Concluding(FAILED_FIRST, "no", PLACE)))
  {
    FirstHasFailed();
    FirstApprovalsMerged();
    OnlyAttemptUpdated(s.task, CHECKED_FIRST.(approvals := APPROVED), FAILED_FIRST, APPROVED);
    hide Updated, Setup.Criteria, Passes, Failures, Automatic, HasSummary;
  }

  lemma FirstIsJudged()
    ensures var m := Approved(CHECKED_FIRST, 7, Checking(CHECKED_FIRST));
            Enabled(m, FAILING[2]) && Next(m, FAILING[2]) == Approved(FAILED_FIRST, 8, Concluding(FAILED_FIRST, "no", PLACE))
  {
    hide OnCheck, OnJudge, OnMeasure, Store, Setup.Criteria, Answered, Synced, AfterApproval, Passes, Failures;
    FirstCriteria();
    var m := Approved(CHECKED_FIRST, 7, Checking(CHECKED_FIRST));
    FirstJudgement(Session(m.task, m.loop.value));
  }

  lemma FailingRun() returns (states: seq<Machine>)
    ensures Leads(During(Row(MEASURED_FIRST, Condition.Running, 5), Checking(MEASURED_FIRST)), states, FAILING)
    ensures states[3] == Approved(FAILED_FIRST, 8, Concluding(FAILED_FIRST, "no", PLACE))
  {
    hide Next, Enabled;
    ApprovalIsLate();
    FirstIsChecked();
    FirstIsJudged();
    states := [
      During(Row(MEASURED_FIRST, Condition.Running, 5), Checking(MEASURED_FIRST)),
      Approved(MEASURED_FIRST, 6, Checking(MEASURED_FIRST)), Approved(CHECKED_FIRST, 7, Checking(CHECKED_FIRST)),
      Approved(FAILED_FIRST, 8, Concluding(FAILED_FIRST, "no", PLACE))];
  }

  const RETRYING: seq<Step> := [Conclude, Capture(true, false, true), Rotate(2, true, true), Queue(12, true, true)]
  const RETRIED := Loop(Capturing, Setup(STARTED, 10, false), 1, false, 2, Some("no"), None, Some("w"))

  lemma FirstIsRetried()
    ensures var m := Approved(FAILED_FIRST, 8, Concluding(FAILED_FIRST, "no", PLACE));
            Enabled(m, RETRYING[0]) && Next(m, RETRYING[0]) == m.(loop := Some(RETRIED))
  {
    assert DecidesRequired(CHECKED_FIRST.validators[0]);
    assert !ConfigText.IsWhitespace("done"[0]);
  }

  const RETRIED_ROW := Row(FAILED_FIRST.(approvals := APPROVED), Condition.Running, 8)
  const ROTATED_ROW := RETRIED_ROW.(assignedAgent := Some(2), condition := Condition.Queued, revision := 9)

  /** The states of the retry, at `loop` with the row `task`. */
  function Again(task: Task, loop: Loop): Machine {
    Approved(FAILED_FIRST, 8, Capturing).(task := task, loop := Some(loop))
  }

  lemma SecondIsRotated()
    ensures var m1, m2 := Again(RETRIED_ROW, RETRIED), Again(RETRIED_ROW, RETRIED.At(Rotating(PLACE)));
            && Enabled(m1, RETRYING[1]) && Next(m1, RETRYING[1]) == m2 && Enabled(m2, RETRYING[2])
            && Next(m2, RETRYING[2]) == Again(ROTATED_ROW, RETRIED.At(Queueing(PLACE)).(owner := 2))
  {
    hide Store, Setup.Criteria, Answered, Synced, AfterApproval, OnCheck, OnJudge;
  }

  lemma SecondIsQueued()
    ensures var m, a := Again(ROTATED_ROW, RETRIED.At(Queueing(PLACE)).(owner := 2)), NewAttempt(RETRIED.(owner := 2), 12, PLACE);
            Enabled(m, RETRYING[3]) && Next(m, RETRYING[3]).task.attempts == [FAILED_FIRST.(approvals := APPROVED), a]
  {
    hide Updated, Setup.Criteria, Answered, Synced, AfterApproval, OnCheck, OnJudge;
    UpdatedByNew(ROTATED_ROW, NewAttempt(RETRIED.(owner := 2), 12, PLACE));
  }

  lemma RetryingRun() returns (states: seq<Machine>)
    ensures Leads(Approved(FAILED_FIRST, 8, Concluding(FAILED_FIRST, "no", PLACE)), states, RETRYING)
    ensures |states[4].task.attempts| == 2 && states[4].task.attempts[0].approvals == APPROVED
    ensures states[4].task.attempts[0].cycle == states[4].task.attempts[1].cycle
  {
    FirstIsRetried();
    SecondIsRotated();
    SecondIsQueued();
    hide Next, Enabled;
    var m := Approved(FAILED_FIRST, 8, Concluding(FAILED_FIRST, "no", PLACE));
    assert m.(loop := Some(RETRIED)) == Again(RETRIED_ROW, RETRIED);
    var m3 := Again(ROTATED_ROW, RETRIED.At(Queueing(PLACE)).(owner := 2));
    states := [m, Again(RETRIED_ROW, RETRIED), Again(RETRIED_ROW, RETRIED.At(Rotating(PLACE))), m3, Next(m3, RETRYING[3])];
  }

  /**
   An interactive approval does not always stop the automatic retries (docs/ACCEPTANCE_ENGINE.md:80-81): here one is
   saved while the attempt is being validated, the attempt fails, and the cycle goes on to a second attempt.
  */
  lemma ApprovedAttemptIsRetried() returns (states: seq<Machine>, steps: seq<Step>)
    ensures IsRun(states, steps)
    ensures var attempts := states[|steps|].task.attempts;
            |attempts| == 2 && attempts[0].cycle == attempts[1].cycle && attempts[0].approvals != []
  {
    hide Next, Enabled;
    var opening := OpeningRun();
    var working := WorkingRun();
    var failing := FailingRun();
    var retrying := RetryingRun();
    LeadsOn(UNSTARTED, opening, OPENING, working, WORKING);
    LeadsOn(UNSTARTED, opening + working[1..], OPENING + WORKING, failing, FAILING);
    states, steps := opening + working[1..] + failing[1..], OPENING + WORKING + FAILING;
    LeadsOn(UNSTARTED, states, steps, retrying, RETRYING);
    states, steps := states + retrying[1..], steps + RETRYING;
  }

  const ABANDONING: seq<Step> :=
    [Queue(11, true, true), LaunchWorker(false, true), Block(None, false), Leave, Sync(NowIn(Condition.Failed, None)), Crash]

  lemma FirstIsLost()
    ensures var m1 := During(Row(FIRST, Condition.Queued, 3), Launching(FIRST));
            var m2 := During(m1.task, Blocking("launch_failed"));
            && Enabled(m1, ABANDONING[1]) && Next(m1, ABANDONING[1]) == m2
            && Enabled(m2, ABANDONING[2]) && Next(m2, ABANDONING[2]) == During(m1.task, Ended(false)).(blockLost := true)
  {
    assert FIRST.result.Active() && SomeActive([FIRST]) by {
      assert [FIRST][0].result.Active();
    }
  }

  lemma FirstIsForgotten()
    ensures var m3 := During(Row(FIRST, Condition.Queued, 3), Ended(false)).(blockLost := true);
            var m5 := m3.(loop := None, task := Row(FIRST, Condition.Failed, 4));
            && Enabled(m3, Leave) && Next(m3, Leave) == m3.(loop := None)
            && Enabled(m3.(loop := None), ABANDONING[4]) && Next(m3.(loop := None), ABANDONING[4]) == m5
            && Enabled(m5, Crash) && Next(m5, Crash) == m5
  {
    hide LoopStep;
  }

  lemma AbandoningRun() returns (states: seq<Machine>)
    ensures Leads(DISPATCHING, states, ABANDONING)
    ensures states[6].loop.None? && states[6].task.attempts == [FIRST]
  {
    hide Next, Enabled;
    FirstIsQueued();
    FirstIsLost();
    FirstIsForgotten();
    var row := Row(FIRST, Condition.Queued, 3);
    var m3 := During(row, Ended(false)).(blockLost := true);
    var m5 := m3.(loop := None, task := Row(FIRST, Condition.Failed, 4));
    states := [
      DISPATCHING, During(row, Launching(FIRST)), During(row, Blocking("launch_failed")), m3, m3.(loop := None), m5, m5];
  }

  /** When the save that blocks the task fails, an attempt can stay active for good, even across a restart. */
  lemma LostBlockLeavesAttemptActive() returns (states: seq<Machine>, steps: seq<Step>)
    ensures IsRun(states, steps) && |steps| > 0 && steps[|steps| - 1].Crash?
    ensures states[|steps|].loop.None? && exists k | 0 <= k < |states[|steps|].task.attempts| ::
              states[|steps|].task.attempts[k].result.Active()
  {
    hide Next, Enabled;
    var opening := OpeningRun();
    var abandoning := AbandoningRun();
    LeadsOn(UNSTARTED, opening, OPENING, abandoning, ABANDONING);
    states, steps := opening + abandoning[1..], OPENING + ABANDONING;
    assert states[|steps|].task.attempts[0] == FIRST;
  }
}

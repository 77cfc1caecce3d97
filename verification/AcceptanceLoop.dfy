/**
 The acceptance loop of one task: worker attempts, their validation, retries and
 submission for review, interleaved with user requests, approvals, outside edits of
 the workspace, failing saves and restarts.

 A task row is saved before it is published and under the same lock, so one copy
 stands for both.  The loop's own variables live beside it in `Loop`.
 */
module AcceptanceLoop {
  import opened Wrappers
  import opened TaskWorkflow
  import TaskStore

  const HISTORY_LIMIT: nat := 50

  // ---- The loop's variables ----

  /** What a cycle goes by from beginning to end. */
  datatype CycleInfo = CycleInfo(budget: nat, criteria: seq<Criterion>, validationOnly: bool, policy: Policy, coordinated: bool)

  /** What a cycle reads once: the task as it started, its new id, and whether it only validates. */
  datatype Setup = Setup(initial: Task, cycle: Uuid, validationOnly: bool)
  {
    predicate BoardQueue() {
      initial.inQueue && !initial.coordinated
    }

    function Budget(): nat {
      if initial.config.policy.enabled && !validationOnly then initial.config.policy.maxAttempts else 1
    }

    /** The configured criteria, then one human criterion for each plain one. */
    function Criteria(): seq<Criterion> {
      initial.config.criteria
      + seq(|initial.humanCriteria|, i requires 0 <= i < |initial.humanCriteria| => Criterion(initial.humanCriteria[i], true, true))
    }

    function Info(): CycleInfo {
      CycleInfo(Budget(), Criteria(), validationOnly, initial.config.policy, initial.coordinated)
    }

    function InheritedSummary(): Option<string> {
      if initial.reviewSummary.Some? then initial.reviewSummary
      else if initial.attempts == [] then None
      else initial.attempts[|initial.attempts| - 1].summary
    }

    function WorkerAgent(owner: AgentId): Option<AgentId> {
      if validationOnly then LastWorker(initial.attempts) else Some(owner)
    }
  }

  /** The agent of the last attempt that was not for validation only. */
  function LastWorker(attempts: seq<Attempt>): (r: Option<AgentId>)
    ensures r.None? <==> forall k | 0 <= k < |attempts| :: attempts[k].validationOnly
    ensures r.Some? ==> exists k :: 0 <= k < |attempts| && !attempts[k].validationOnly && attempts[k].agent == r.value
                                    && forall j | k < j < |attempts| :: attempts[j].validationOnly
  {
    if attempts == [] then None
    else if !attempts[|attempts| - 1].validationOnly then Some(attempts[|attempts| - 1].agent)
    else LastWorker(attempts[..|attempts| - 1])
  }

  /** Where the loop thread is between two of its critical sections, with what it carries along. */
  datatype Pc =
    | Entering
    | Capturing
    | Rotating(base: Workspace)
    | Queueing(base: Workspace)
    | Launching(attempt: Attempt)
    | Waiting(attempt: Attempt)
    | Measuring(attempt: Attempt)
    | Checking(attempt: Attempt)
    | Submitting(attempt: Attempt, current: Workspace)
    | Concluding(attempt: Attempt, failure: string, current: Workspace)
    | Blocking(code: string)
    | Ended(submitted: bool)

  datatype Loop = Loop(
    pc: Pc,
    setup: Setup,
    owner: AgentId,
    cancelled: bool,
    ordinal: nat,
    previousFailure: Option<string>,
    resume: Option<string>,
    expected: Option<Fingerprint>)
  {
    function At(pc: Pc): Loop {
      this.(pc := pc)
    }

    function Fail(code: string): Loop {
      At(Blocking(code))
    }
  }

  datatype Session = Session(task: Task, loop: Loop)

  // ---- Saving ----

  function FindAttempt(attempts: seq<Attempt>, id: Uuid): (r: nat)
    ensures r <= |attempts|
    ensures r < |attempts| ==> attempts[r].id == id
    ensures forall k | 0 <= k < r :: attempts[k].id != id
  {
    if attempts == [] || attempts[0].id == id then 0 else 1 + FindAttempt(attempts[1..], id)
  }

  /** The loop's approvals, then those already stored that it has not seen. */
  function MergedApprovals(known: seq<Uuid>, stored: seq<Uuid>): (r: seq<Uuid>)
    ensures known <= r && (forall x | x in stored :: x in r) && (forall x | x in r :: x in known || x in stored)
  {
    if stored == [] then known
    else
      var rest := MergedApprovals(known, stored[..|stored| - 1]);
      if stored[|stored| - 1] in rest then rest else rest + [stored[|stored| - 1]]
  }

  function ConditionFor(attempts: seq<Attempt>, otherwise: Condition): Condition {
    if attempts == [] then otherwise
    else
      match attempts[|attempts| - 1].result
      case Queued => Condition.Queued
      case Working => Condition.Running
      case Validating => Condition.Running
      case _ => otherwise
  }

  /** Stores an attempt: replaces the active one with its id, or appends a new one. */
  function Updated(t: Task, attempt: Attempt): Option<Task> {
    var i := FindAttempt(t.attempts, attempt.id);
    if i < |t.attempts| && !t.attempts[i].result.Active() then None
    else
      var attempts :=
        if i < |t.attempts| then
          t.attempts[i := attempt.(approvals := MergedApprovals(attempt.approvals, t.attempts[i].approvals))]
        else t.attempts + [attempt];
      Some(t.(attempts := attempts, condition := ConditionFor(attempts, t.condition)).Touched())
  }

  const INFRASTRUCTURE := "validator_infrastructure"

  /** Stores the attempt and goes on, or stops the loop when it cannot be stored. */
  function Store(s: Session, attempt: Attempt, saved: bool, next: Pc): Session {
    var updated := Updated(s.task, attempt);
    if updated.None? || !saved then Session(s.task, s.loop.Fail(INFRASTRUCTURE))
    else Session(updated.value, s.loop.At(next))
  }

  /** What the conversation of the task's agent shows, if there is one. */
  datatype Conversation = Conversation(thread: Option<string>, summary: Option<string>)

  function EndAttempt(a: Attempt, code: string, record: Option<Conversation>): Attempt {
    if !a.result.Active() then a
    else
      a.(result := if code == "cancelled" then AttemptResult.Cancelled else AttemptResult.Blocked, failure := Some(code),
         thread := if record.Some? then record.value.thread else a.thread,
         summary := if record.Some? && a.summary.None? then record.value.summary else a.summary)
  }

  function EndAttempts(attempts: seq<Attempt>, code: string, record: Option<Conversation>): (r: seq<Attempt>)
    ensures |r| == |attempts| && forall k | 0 <= k < |r| :: r[k] == EndAttempt(attempts[k], code, record)
  {
    seq(|attempts|, k requires 0 <= k < |attempts| => EndAttempt(attempts[k], code, record))
  }

  /** The task taken out of review or queue and blocked, with every active attempt ended. */
  function BlockedTask(t: Task, code: string, record: Option<Conversation>): Task {
    t.(condition := Condition.Blocked, state := TaskState.Running, currentSubmission := None, lastReason := Some(code),
       assignedAgent := if t.inQueue && record.None? then None else t.assignedAgent,
       attempts := EndAttempts(t.attempts, code, record)).Touched()
  }

  // ---- The sections of the loop ----

  function OnEnter(s: Session, cycle: Uuid, presetsRead: bool): Session {
    var setup := Setup(s.task, cycle, s.loop.setup.validationOnly);
    if !s.task.config.Valid() then Session(s.task, s.loop.Fail(INFRASTRUCTURE))
    else if |s.task.attempts| >= HISTORY_LIMIT || |s.task.submissions| >= HISTORY_LIMIT then
      Session(s.task, s.loop.Fail("history_limit"))
    else if !presetsRead then Session(s.task, s.loop.Fail(INFRASTRUCTURE))
    else
      Session(s.task, s.loop.(pc := Capturing, setup := setup, ordinal := 1, previousFailure := None, expected := None))
  }

  function OnCapture(s: Session, allowed: bool, deadline: bool, captured: Option<Workspace>): Session {
    var l := s.loop;
    var next :=
      if !allowed then l.Fail("capability_unavailable")
      else if |s.task.attempts| >= HISTORY_LIMIT then l.Fail("history_limit")
      else if l.cancelled then l.Fail("cancelled")
      else if deadline then l.Fail("budget_exhausted")
      else if captured.None? then l.Fail(INFRASTRUCTURE)
      else if l.expected.Some? && l.expected.value != captured.value.fingerprint then l.Fail("workspace_changed")
      else if l.ordinal > 1 && !l.setup.BoardQueue() then l.At(Rotating(captured.value))
      else l.At(Queueing(captured.value));
    Session(s.task, next)
  }

  /** A retry works under a new agent id; the lease moves before the task is saved. */
  function OnRotate(s: Session, agent: AgentId, transferred: bool, saved: bool): Session
    requires s.loop.pc.Rotating?
  {
    var moved := s.loop.(owner := agent);
    if !transferred then Session(s.task, s.loop.Fail(INFRASTRUCTURE))
    else if !saved then Session(s.task, moved.Fail(INFRASTRUCTURE))
    else
      Session(s.task.(assignedAgent := Some(agent), condition := Condition.Queued).Touched(), moved.At(Queueing(s.loop.pc.base)))
  }

  function NewAttempt(l: Loop, id: Uuid, base: Workspace): Attempt {
    Attempt(id, l.setup.cycle, l.owner, l.resume, l.ordinal, l.setup.validationOnly, AttemptResult.Queued, None, base,
            None, [], None, [])
  }

  function OnQueue(s: Session, id: Uuid, promptFits: bool, saved: bool): Session
    requires s.loop.pc.Queueing?
  {
    var l := s.loop;
    var attempt := NewAttempt(l, id, l.pc.base);
    if !promptFits then Session(s.task, l.Fail("prompt_limit"))
    else
      Store(s, attempt, saved,
            if l.setup.validationOnly then Measuring(attempt.(summary := l.setup.InheritedSummary())) else Launching(attempt))
  }

  function OnLaunch(s: Session, launched: bool, saved: bool): Session
    requires s.loop.pc.Launching?
  {
    var attempt := s.loop.pc.attempt.(result := Working);
    if !launched then Session(s.task, s.loop.Fail("launch_failed")) else Store(s, attempt, saved, Waiting(attempt))
  }

  datatype WorkerOutcome =
    | Stopped
    | StillExiting
    | NotCompleted
    | Finished(thread: Option<string>, summary: Option<string>)

  /** When the worker is gone the loop copies what was stored for the attempt meanwhile. */
  function OnWorkerEnd(s: Session, outcome: WorkerOutcome): Session
    requires s.loop.pc.Waiting?
  {
    var l := s.loop;
    var i := FindAttempt(s.task.attempts, l.pc.attempt.id);
    var approvals := if i < |s.task.attempts| then s.task.attempts[i].approvals else l.pc.attempt.approvals;
    match outcome
    case Stopped => Session(s.task, l.Fail(if l.cancelled then "cancelled" else "budget_exhausted"))
    case StillExiting => Session(s.task, l.Fail(INFRASTRUCTURE))
    case NotCompleted => Session(s.task, l.Fail("worker_blocked"))
    case Finished(thread, summary) =>
      Session(s.task, l.At(Measuring(l.pc.attempt.(thread := thread, summary := summary, approvals := approvals))))
  }

  function OnMeasure(s: Session, captured: Option<Workspace>, saved: bool): Session
    requires s.loop.pc.Measuring?
  {
    if captured.None? then Session(s.task, s.loop.Fail(INFRASTRUCTURE))
    else
      var attempt := s.loop.pc.attempt.(result := Validating, workspace := captured);
      Store(s, attempt, saved,
            if attempt.base.head != captured.value.head then Blocking("workspace_changed") else Checking(attempt))
  }

  function OnCheck(s: Session, status: CheckStatus, note: string, saved: bool): Session
    requires s.loop.pc.Checking? && |s.loop.pc.attempt.validators| < |s.loop.setup.Criteria()|
  {
    var l := s.loop;
    var done := l.pc.attempt.validators;
    var attempt := l.pc.attempt.(validators := done + [Evidence(l.setup.Criteria()[|done|], status, note)]);
    if l.cancelled then Session(s.task, l.Fail("cancelled"))
    else
      Store(s, attempt, saved,
            if status.InfrastructureError? then Blocking(INFRASTRUCTURE)
            else if status.Cancelled? then Blocking("cancelled")
            else Checking(attempt))
  }

  // ---- The verdict on a fully checked attempt ----

  predicate FailsRequired(e: Evidence) {
    e.criterion.required && e.status.Failed?
  }

  predicate DecidesRequired(e: Evidence) {
    e.criterion.required && (e.status.Passed? || e.status.Failed?)
  }

  function FailureNotes(validators: seq<Evidence>): seq<string> {
    if validators == [] then []
    else
      FailureNotes(validators[..|validators| - 1])
      + if FailsRequired(validators[|validators| - 1]) then [validators[|validators| - 1].note] else []
  }

  predicate Automatic(validators: seq<Evidence>) {
    exists k | 0 <= k < |validators| :: DecidesRequired(validators[k])
  }

  function Joined(lines: seq<string>): string {
    if lines == [] then ""
    else if |lines| == 1 then lines[0]
    else lines[0] + "\n" + Joined(lines[1..])
  }

  const REPORT_MISSING :=
    "The final execution report is missing, invalid, or lists unfinished work. Complete the approved scope and return the required JSON report; disclose real blockers rather than inventing success."

  predicate HasSummary(a: Attempt) {
    a.summary.Some? && !Blank(a.summary.value)
  }

  function Failures(setup: Setup, a: Attempt, reportReady: bool): seq<string> {
    FailureNotes(a.validators) + if setup.initial.coordinated && !reportReady then [REPORT_MISSING] else []
  }

  predicate Passes(setup: Setup, a: Attempt, reportReady: bool, editionReady: bool) {
    && Failures(setup, a, reportReady) == []
    && (Automatic(a.validators) || setup.validationOnly || setup.BoardQueue()
        || (setup.initial.coordinated && reportReady) || editionReady)
    && HasSummary(a)
  }

  /** `cleared` is whether the worker's processes are gone, `captured` the workspace after validation. */
  datatype Judgement = Judgement(cleared: bool, captured: Option<Workspace>, deadline: bool, reportReady: bool, editionReady: bool)

  function OnJudge(s: Session, j: Judgement, saved: bool): Session
    requires s.loop.pc.Checking? && s.loop.pc.attempt.workspace.Some?
  {
    var l := s.loop;
    var a := l.pc.attempt;
    if !j.cleared || j.captured.None? then Session(s.task, l.Fail(INFRASTRUCTURE))
    else if j.captured.value.fingerprint != a.workspace.value.fingerprint then Session(s.task, l.Fail("workspace_changed"))
    else if j.deadline then Session(s.task, l.Fail("budget_exhausted"))
    else if l.setup.initial.config.policy.requireChange && !l.setup.validationOnly
            && a.base.fingerprint == a.workspace.value.fingerprint then Session(s.task, l.Fail("no_change"))
    else if Passes(l.setup, a, j.reportReady, j.editionReady) then
      Store(s, a.(result := AttemptResult.Passed), saved, Submitting(a.(result := AttemptResult.Passed), j.captured.value))
    else
      var failed := a.(result := AttemptResult.Failed, failure := Some("validation_failed"));
      Store(s, failed, saved, Concluding(failed, Joined(Failures(l.setup, a, j.reportReady)), j.captured.value))
  }

  function NewSubmission(l: Loop, id: Uuid): Submission
    requires l.pc.Submitting? && l.pc.attempt.summary.Some?
  {
    var a := l.pc.attempt;
    Submission(id, a.id, l.setup.WorkerAgent(l.owner), a.summary.value, a.validators, l.pc.current, a.approvals)
  }

  function OnSubmit(s: Session, id: Uuid, saved: bool): Session
    requires s.loop.pc.Submitting? && s.loop.pc.attempt.summary.Some?
  {
    var l := s.loop;
    var submission := NewSubmission(l, id);
    if !saved then Session(s.task, l.Fail(INFRASTRUCTURE))
    else
      Session(
        s.task.(assignedAgent := if l.setup.validationOnly then submission.agent else s.task.assignedAgent,
                currentSubmission := Some(id), reviewSummary := Some(submission.summary),
                submissions := s.task.submissions + [submission], state := TaskState.InReview, condition := Idle,
                lastReason := None).Touched(),
        l.At(Ended(true)))
  }

  function OnConclude(s: Session): Session
    requires s.loop.pc.Concluding? && s.loop.pc.attempt.workspace.Some?
  {
    var l := s.loop;
    var a, policy := l.pc.attempt, l.setup.initial.config.policy;
    var next :=
      if !l.setup.initial.coordinated && (!Automatic(a.validators) || !HasSummary(a)) then l.Fail("human_review_required")
      else if policy.requireChange && a.base.fingerprint == a.workspace.value.fingerprint then l.Fail("no_change")
      else if policy.stopOnIdenticalFailure && l.previousFailure == Some(l.pc.failure) then l.Fail("identical_failure")
      else if l.ordinal == l.setup.Budget() then l.Fail("budget_exhausted")
      else if a.approvals != [] then l.Fail("approval_boundary")
      else if (l.setup.BoardQueue() || policy.resume) && a.thread.None? then l.Fail("thread_unavailable")
      else
        l.(pc := Capturing, ordinal := l.ordinal + 1, previousFailure := Some(l.pc.failure),
           resume := if l.setup.BoardQueue() || policy.resume then a.thread else None,
           expected := Some(l.pc.current.fingerprint));
    Session(s.task, next)
  }

  function OnBlock(s: Session, record: Option<Conversation>, saved: bool): Session
    requires s.loop.pc.Blocking?
  {
    Session(if saved then BlockedTask(s.task, s.loop.pc.code, record) else s.task, s.loop.At(Ended(false)))
  }

  // ---- Requests and events around the loop ----

  datatype Launch = Launch(validationOnly: bool)

  predicate LiveTask(t: Task, controlled: bool) {
    !t.WaitingInQueue() && (controlled || t.condition.Live())
  }

  function Configured(t: Task, config: Config): Option<Task> {
    if t.archived || t.CurrentColumn().Done? || t.CurrentColumn().InReview? || !config.Valid() then None
    else Some(t.(config := config).Touched())
  }

  /** Request Changes: a queued task waits for its turn again, any other is launched under `agent`. */
  function ChangesRequested(t: Task, feedback: string, agent: AgentId): Option<(Task, Option<Launch>)> {
    match Transition(t, RequestChanges(feedback), User, t.revision, false)
    case Err(_) => None
    case Ok((next, _)) =>
      var queued := next.(currentSubmission := None, condition := Condition.Queued);
      if t.inQueue then
        if t.coordinated then None else Some((queued.(assignedAgent := None), None))
      else Some((queued.(assignedAgent := Some(agent)), Some(Launch(false))))
  }

  /** Revalidation, or submission with a summary of the user's own; neither moves the task. */
  function RevalidationRequested(t: Task, agent: AgentId, summary: Option<string>): Option<(Task, Option<Launch>)> {
    if t.archived || !(t.CurrentColumn().InProgress? || t.CurrentColumn().InReview?) then None
    else if summary.Some? && (Blank(summary.value) || |summary.value| > MAX_REVIEW_TEXT) then None
    else
      Some((t.(assignedAgent := Some(agent), condition := Condition.Queued,
               reviewSummary := if summary.Some? then summary else t.reviewSummary).Touched(), Some(Launch(true))))
  }

  function Started(t: Task, agent: AgentId): Option<(Task, Option<Launch>)> {
    match Transition(t, Start, User, t.revision, false)
    case Err(_) => None
    case Ok((next, _)) => Some((next.(assignedAgent := Some(agent), condition := Condition.Queued), Some(Launch(false))))
  }

  function Enqueued(t: Task): Option<Task> {
    if t.archived || t.coordinated || t.WaitingInQueue() || !(t.CurrentColumn().Todo? || t.CurrentColumn().InProgress?) then None
    else
      Some(t.(inQueue := true, state := TaskState.Running, condition := Condition.Queued, assignedAgent := None,
              currentSubmission := None, lastReason := None).Touched())
  }

  /** Any other transition by the user; back in Todo, or out of a queue it waited in, the task leaves the queue. */
  function MovedByUser(t: Task, action: Action, selected: Option<AgentId>): Option<Task>
    requires !action.Accept? && !action.Submit? && !action.RequestChanges?
  {
    match Transition(t, action, User, t.revision, false)
    case Err(_) => None
    case Ok((next, _)) =>
      if t.inQueue && next.CurrentColumn().Todo? then
        Some(next.(assignedAgent := selected, inQueue := false, condition := Idle, lastReason := None))
      else if t.WaitingInQueue() && !next.CurrentColumn().InProgress? then
        Some(next.(inQueue := false, condition := Idle, lastReason := None))
      else Some(next)
  }

  /** What the agent of a task that owns no loop reports: a final summary or a new condition. */
  datatype Report = Completed(summary: string) | NowIn(condition: Condition, reason: Option<string>)

  function Synced(t: Task, report: Report): Option<Task> {
    if t.assignedAgent.None? || t.archived || !t.CurrentColumn().InProgress? then None
    else
      match report
      case Completed(summary) =>
        if !t.condition.Live() then None
        else
          (match Transition(t, Submit(summary), Agent, t.revision, false)
           case Ok((next, _)) => Some(next)
           case Err(_) => None)
      case NowIn(condition, reason) =>
        if condition.Cancelled? || condition.Queued? then None
        else Some(t.(condition := condition, lastReason := if reason.Some? then reason else t.lastReason).Touched())
  }

  /** A launch gets the workspace only for a task in progress; `free` is whether nobody else holds it. */
  predicate Admitted(t: Task, free: bool) {
    free && t.CurrentColumn().InProgress? && !t.archived
  }

  function WithApproval(t: Task, approval: Uuid): Task
    requires t.attempts != [] && t.attempts[|t.attempts| - 1].result.Active()
  {
    var last := t.attempts[|t.attempts| - 1];
    t.(attempts := t.attempts[|t.attempts| - 1 := last.(approvals := last.approvals + [approval])]).Touched()
  }

  /** An Accept between reading the task and committing: what was read, and the accepted task once evidence matched. */
  datatype Review = Review(snapshot: Task, prepared: Option<Task>)

  function FindSubmission(submissions: seq<Submission>, id: Uuid): (r: Option<Submission>)
    ensures r.Some? ==> r.value in submissions && r.value.id == id
  {
    if submissions == [] then None
    else if submissions[0].id == id then Some(submissions[0])
    else FindSubmission(submissions[1..], id)
  }

  /** Acceptance prepared from the evidence as it is in the workspace now. */
  function Prepared(t: Task, captured: Workspace): Option<Task> {
    if t.currentSubmission.None? then None
    else
      match FindSubmission(t.submissions, t.currentSubmission.value)
      case None => None
      case Some(submission) =>
        if captured.fingerprint != submission.workspace.fingerprint then None
        else
          match Transition(t, Accept, User, t.revision, false)
          case Ok((next, _)) => Some(next)
          case Err(_) => None
  }

  // ---- The whole machine ----


  /**
   `used` to `blockLost` are history: ids given out, the cycles that began, the attempts
   approved after the loop had copied their approvals, and whether a loop ever ended
   without being able to save that it was blocked while an attempt was active.
   */
  datatype Machine = Machine(
    task: Task,
    loop: Option<Loop>,
    launch: Option<Launch>,
    reviews: map<nat, Review>,
    workspace: Workspace,
    used: set<Uuid>,
    cycles: map<Uuid, CycleInfo>,
    late: set<Uuid>,
    blockLost: bool)
  {
    predicate Live() {
      LiveTask(task, loop.Some?)
    }
  }

  datatype Request =
    | Configure(config: Config)
    | AskChanges(feedback: string, agent: AgentId)
    | Revalidate(agent: AgentId, summary: Option<string>)
    | StartTask(agent: AgentId)
    | Enqueue
    | MoveTask(action: Action, selected: Option<AgentId>)

  datatype Step =
    // the loop thread
    | Enter(cycle: Uuid, presetsRead: bool)
    | Capture(allowed: bool, deadline: bool, readable: bool)
    | Rotate(agent: AgentId, transferred: bool, saved: bool)
    | Queue(id: Uuid, promptFits: bool, saved: bool)
    | LaunchWorker(launched: bool, saved: bool)
    | EndWorker(outcome: WorkerOutcome)
    | Measure(readable: bool, saved: bool)
    | Check(status: CheckStatus, note: string, saved: bool)
    | Judge(cleared: bool, readable: bool, deadline: bool, reportReady: bool, editionReady: bool, saved: bool)
    | SubmitReview(id: Uuid, saved: bool)
    | Conclude
    | Block(record: Option<Conversation>, saved: bool)
    | Leave
    // everybody else
    | Approve(approval: Uuid, denied: bool, saved: bool)
    | CancelLoop
    | UserRequest(request: Request)
    | Claim(agent: AgentId, resumable: bool)
    | Begin(free: bool, resume: Option<string>, saved: bool)
    | ReadReview(key: nat)
    | CaptureReview(key: nat, guarded: bool, readable: bool)
    | CommitReview(key: nat, batch: bool, release: Option<Uuid>, saved: bool)
    | Sync(report: Report)
    | Touch
    | Edit(workspace: Workspace)
    | Crash

  /** What a request makes of a task that is not live. */
  function Answered(t: Task, request: Request): Option<(Task, Option<Launch>)>
    requires request.MoveTask? ==> !request.action.Accept? && !request.action.Submit? && !request.action.RequestChanges?
  {
    match request
    case Configure(config) => Plain(Configured(t, config))
    case AskChanges(feedback, agent) => ChangesRequested(t, feedback, agent)
    case Revalidate(agent, summary) => RevalidationRequested(t, agent, summary)
    case StartTask(agent) => Started(t, agent)
    case Enqueue => Plain(Enqueued(t))
    case MoveTask(action, selected) => Plain(MovedByUser(t, action, selected))
  }

  function Plain(t: Option<Task>): Option<(Task, Option<Launch>)> {
    match t
    case None => None
    case Some(next) => Some((next, None))
  }

  predicate LoopStepEnabled(l: Loop, step: Step, used: set<Uuid>) {
    match step
    case Enter(cycle, _) => l.pc.Entering? && cycle !in used
    case Capture(_, _, _) => l.pc.Capturing?
    case Rotate(_, _, _) => l.pc.Rotating?
    case Queue(id, _, _) => l.pc.Queueing? && id !in used
    case LaunchWorker(_, _) => l.pc.Launching?
    case EndWorker(_) => l.pc.Waiting?
    case Measure(_, _) => l.pc.Measuring?
    case Check(_, _, _) => l.pc.Checking? && |l.pc.attempt.validators| < |l.setup.Criteria()|
    case Judge(_, _, _, _, _, _) =>
      l.pc.Checking? && l.pc.attempt.workspace.Some? && |l.pc.attempt.validators| >= |l.setup.Criteria()|
    case SubmitReview(id, _) => l.pc.Submitting? && l.pc.attempt.summary.Some? && id !in used
    case Conclude => l.pc.Concluding? && l.pc.attempt.workspace.Some?
    case Block(_, _) => l.pc.Blocking?
    case _ => false
  }

  function LoopStep(s: Session, step: Step, workspace: Workspace, used: set<Uuid>): Session
    requires LoopStepEnabled(s.loop, step, used)
  {
    match step
    case Enter(cycle, presetsRead) => OnEnter(s, cycle, presetsRead)
    case Capture(allowed, deadline, readable) => OnCapture(s, allowed, deadline, Seen(workspace, readable))
    case Rotate(agent, transferred, saved) => OnRotate(s, agent, transferred, saved)
    case Queue(id, promptFits, saved) => OnQueue(s, id, promptFits, saved)
    case LaunchWorker(launched, saved) => OnLaunch(s, launched, saved)
    case EndWorker(outcome) => OnWorkerEnd(s, outcome)
    case Measure(readable, saved) => OnMeasure(s, Seen(workspace, readable), saved)
    case Check(status, note, saved) => OnCheck(s, status, note, saved)
    case Judge(cleared, readable, deadline, reportReady, editionReady, saved) =>
      OnJudge(s, Judgement(cleared, Seen(workspace, readable), deadline, reportReady, editionReady), saved)
    case SubmitReview(id, saved) => OnSubmit(s, id, saved)
    case Conclude => OnConclude(s)
    case Block(record, saved) => OnBlock(s, record, saved)
  }

  function Seen(workspace: Workspace, readable: bool): Option<Workspace> {
    if readable then Some(workspace) else None
  }

  predicate IsLoopStep(step: Step) {
    step.Enter? || step.Capture? || step.Rotate? || step.Queue? || step.LaunchWorker? || step.EndWorker? || step.Measure?
    || step.Check? || step.Judge? || step.SubmitReview? || step.Conclude? || step.Block?
  }

  predicate Enabled(m: Machine, step: Step) {
    if IsLoopStep(step) then m.loop.Some? && LoopStepEnabled(m.loop.value, step, m.used)
    else
      match step
      case Leave => m.loop.Some? && m.loop.value.pc.Ended?
      case Approve(_, _, _) => true
      case CancelLoop => m.loop.Some?
      case UserRequest(request) =>
        && !m.Live()
        && (request.MoveTask? ==> !request.action.Accept? && !request.action.Submit? && !request.action.RequestChanges?)
        && Answered(m.task, request).Some?
      case Claim(_, _) => m.task.WaitingInQueue()
      case Begin(_, _, _) => m.launch.Some? && m.loop.None?
      case ReadReview(key) => !m.Live() && m.task.CurrentColumn().InReview? && !m.task.archived
      case CaptureReview(key, _, _) => key in m.reviews && m.reviews[key].prepared.None?
      case CommitReview(key, _, _, _) => key in m.reviews && m.reviews[key].prepared.Some?
      case Sync(report) =>
        && m.launch.None? && (m.loop.Some? ==> m.task.assignedAgent != Some(m.loop.value.owner))
        && Synced(m.task, report).Some?
      case _ => true
  }

  /** Ids a step gives out. */
  function Given(step: Step): set<Uuid> {
    match step
    case Enter(cycle, _) => {cycle}
    case Queue(id, _, _) => {id}
    case SubmitReview(id, _) => {id}
    case _ => {}
  }

  function AfterLoopStep(m: Machine, step: Step): Machine
    requires m.loop.Some? && LoopStepEnabled(m.loop.value, step, m.used)
  {
    var s := LoopStep(Session(m.task, m.loop.value), step, m.workspace, m.used);
    var cycles :=
      if step.Enter? && s.loop.pc.Capturing? then
        m.cycles[step.cycle := s.loop.setup.Info()]
      else m.cycles;
    m.(task := s.task, loop := Some(s.loop), used := m.used + Given(step), cycles := cycles,
       blockLost := m.blockLost || (step.Block? && !step.saved && SomeActive(m.task.attempts)))
  }

  predicate SomeActive(attempts: seq<Attempt>) {
    exists k | 0 <= k < |attempts| :: attempts[k].result.Active()
  }

  /** The attempt whose approvals the loop has already copied. */
  function Copied(m: Machine): set<Uuid> {
    if m.loop.Some? && (m.loop.value.pc.Measuring? || m.loop.value.pc.Checking?) then {m.loop.value.pc.attempt.id} else {}
  }

  function AfterApproval(m: Machine, approval: Uuid, denied: bool, saved: bool): Machine {
    var n := if denied && m.loop.Some? then m.(loop := Some(m.loop.value.(cancelled := true))) else m;
    if saved && m.task.attempts != [] && m.task.attempts[|m.task.attempts| - 1].result.Active() then
      n.(task := WithApproval(m.task, approval), late := m.late + Copied(m))
    else n
  }

  function AfterBegin(m: Machine, free: bool, resume: Option<string>, saved: bool): Machine
    requires m.launch.Some?
  {
    if Admitted(m.task, free) then
      var setup := Setup(m.task, 0, m.launch.value.validationOnly);
      m.(launch := None,
         loop := Some(Loop(Entering, setup, if m.task.assignedAgent.Some? then m.task.assignedAgent.value else 0, false, 0,
                           None, resume, None)))
    else
      m.(launch := None, task := if saved then BlockedTask(m.task, "workspace_busy", None) else m.task,
         blockLost := m.blockLost || (!saved && SomeActive(m.task.attempts)))
  }

  function AfterCommit(m: Machine, key: nat, batch: bool, release: Option<Uuid>, saved: bool): Machine
    requires key in m.reviews && m.reviews[key].prepared.Some?
  {
    var r := m.reviews[key];
    var done := m.(reviews := m.reviews - {key});
    if m.task.revision != r.snapshot.revision || (batch && m.Live()) || !saved then done
    else done.(task := if batch then r.prepared.value.(release := release) else r.prepared.value)
  }

  function Next(m: Machine, step: Step): Machine
    requires Enabled(m, step)
  {
    if IsLoopStep(step) then AfterLoopStep(m, step)
    else
      match step
      case Leave => m.(loop := None)
      case Approve(approval, denied, saved) => AfterApproval(m, approval, denied, saved)
      case CancelLoop =>
        m.(task := m.task.(lastReason := Some("Cancellation requested by user")).Touched(),
           loop := Some(m.loop.value.(cancelled := true)))
      case UserRequest(request) =>
        var (task, launch) := Answered(m.task, request).value;
        m.(task := task, launch := if launch.Some? then launch else m.launch)
      case Claim(agent, resumable) =>
        if resumable then m.(task := m.task.(assignedAgent := Some(agent)).Touched(), launch := Some(Launch(false)))
        else m.(task := m.task.(condition := Condition.Blocked).Touched())
      case Begin(free, resume, saved) => AfterBegin(m, free, resume, saved)
      case ReadReview(key) => m.(reviews := m.reviews[key := Review(m.task, None)])
      case CaptureReview(key, guarded, readable) =>
        var snapshot := m.reviews[key].snapshot;
        var prepared := if guarded && readable then Prepared(snapshot, m.workspace) else None;
        m.(reviews := if prepared.Some? then m.reviews[key := Review(snapshot, prepared)] else m.reviews - {key})
      case CommitReview(key, batch, release, saved) => AfterCommit(m, key, batch, release, saved)
      case Sync(report) => m.(task := Synced(m.task, report).value)
      case Touch => m.(task := m.task.Touched())
      case Edit(workspace) => m.(workspace := workspace)
      case Crash => m.(task := TaskStore.Reconciled(m.task), loop := None, launch := None, reviews := map[])
  }

  predicate Init(m: Machine) {
    && m.loop.None? && m.launch.None? && m.reviews == map[]
    && m.task.attempts == [] && m.task.submissions == [] && m.task.currentSubmission.None?
    && m.task.state in {TaskState.Backlog, TaskState.Ready} && m.task.condition == Idle && !m.task.archived && m.task.revision == 1
    && m.task.config.Valid()
    && m.used == {} && m.cycles == map[] && m.late == {} && !m.blockLost
  }

  ghost predicate IsRun(states: seq<Machine>, steps: seq<Step>) {
    && |states| == |steps| + 1 && Init(states[0])
    && forall i | 0 <= i < |steps| :: Enabled(states[i], steps[i]) && states[i + 1] == Next(states[i], steps[i])
  }
}

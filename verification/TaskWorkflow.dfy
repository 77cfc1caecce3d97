/**
 Board tasks and their workflow: where a task stands, who may move it, and what
 every history of attempted transitions keeps.
 */
module TaskWorkflow {
  import opened Wrappers
  import ConfigText

  type TaskId = nat
  type AgentId = nat
  type ProjectId = nat
  type Uuid = nat
  type Fingerprint = string

  // ---- Acceptance evidence ----

  datatype Workspace = Workspace(fingerprint: Fingerprint, head: Option<string>)

  datatype CheckStatus = Passed | Failed | HumanReview | Assertion | InfrastructureError | Cancelled

  datatype Criterion = Criterion(name: string, required: bool, human: bool)

  /** `note` is the line that a failure contributes to the next prompt. */
  datatype Evidence = Evidence(criterion: Criterion, status: CheckStatus, note: string)

  datatype AttemptResult = Queued | Working | Validating | Passed | Failed | Blocked | Cancelled | Interrupted
  {
    predicate Active() {
      Queued? || Working? || Validating?
    }
  }

  datatype Attempt = Attempt(
    id: Uuid,
    cycle: Uuid,
    agent: AgentId,
    thread: Option<string>,
    ordinal: nat,
    validationOnly: bool,
    result: AttemptResult,
    failure: Option<string>,
    base: Workspace,
    workspace: Option<Workspace>,
    validators: seq<Evidence>,
    summary: Option<string>,
    approvals: seq<Uuid>)

  datatype Submission = Submission(
    id: Uuid,
    attempt: Uuid,
    agent: Option<AgentId>,
    summary: string,
    criteria: seq<Evidence>,
    workspace: Workspace,
    approvals: seq<Uuid>)

  datatype Policy = Policy(
    enabled: bool,
    maxAttempts: nat,
    stopOnIdenticalFailure: bool,
    requireChange: bool,
    resume: bool)

  const MAX_POLICY_ATTEMPTS: nat := 10
  const MAX_CRITERIA: nat := 16

  datatype Config = Config(policy: Policy, criteria: seq<Criterion>)
  {
    predicate Valid() {
      1 <= policy.maxAttempts <= MAX_POLICY_ATTEMPTS && |criteria| <= MAX_CRITERIA
    }
  }

  // ---- Tasks ----

  datatype TaskState = Draft | Backlog | Ready | Running | Blocked | InReview | Accepted | Rejected | Cancelled

  datatype Condition = Idle | Queued | Running | AwaitingApproval | Blocked | Failed | Cancelled
  {
    predicate Live() {
      Queued? || Running? || AwaitingApproval?
    }
  }

  datatype Column = Backlog | Todo | InProgress | InReview | Done

  datatype Actor = User | Agent | Daemon | Ditchmaster

  datatype Task = Task(
    id: TaskId,
    project: ProjectId,
    state: TaskState,
    condition: Condition,
    revision: nat,
    archived: bool,
    assignedAgent: Option<AgentId>,
    inQueue: bool,
    coordinated: bool,
    release: Option<Uuid>,
    humanCriteria: seq<string>,
    config: Config,
    attempts: seq<Attempt>,
    submissions: seq<Submission>,
    currentSubmission: Option<Uuid>,
    reviewSummary: Option<string>,
    lastReason: Option<string>)
  {
    function CurrentColumn(): Column {
      match state
      case Backlog => Column.Backlog
      case Draft | Ready | Cancelled => Todo
      case Running | Blocked | Rejected => InProgress
      case InReview => Column.InReview
      case Accepted => Done
    }

    /** Neither archived nor cancelled. */
    predicate Active() {
      !archived && !condition.Cancelled?
    }

    predicate WaitingInQueue() {
      inQueue && CurrentColumn().InProgress? && condition.Queued? && assignedAgent.None? && !archived
    }

    function Touched(): Task {
      this.(revision := revision + 1)
    }
  }

  datatype Action =
    | Prioritize
    | ReturnToBacklog
    | Start
    | Submit(summary: string)
    | RequestChanges(feedback: string)
    | Accept
    | Cancel(reason: string)
    | Reopen
    | ReturnToTodo(reason: string)

  datatype TaskError = RevisionConflict | AgentBusy | IllegalTransition | InvalidInput | IdempotencyConflict | Storage

  datatype Audit = Audit(task: TaskId, actor: Actor, action: string, from: Option<Column>, to_: Column,
                         agent: Option<AgentId>, reason: Option<string>, summary: Option<string>)

  const MAX_REVIEW_TEXT: nat := 65536
  const MAX_REASON: nat := 4096

  predicate Blank(text: string) {
    forall i | 0 <= i < |text| :: ConfigText.IsWhitespace(text[i])
  }

  /** Blank is what trimming leaves nothing of. */
  lemma BlankIff(text: string)
    ensures Blank(text) <==> ConfigText.Trim(text) == ""
  {
    ConfigText.BlankIff(text);
  }

  function Shortened(text: string): string {
    if |text| <= MAX_REASON then text else text[..MAX_REASON]
  }

  /** The moves of the board, before the revision is counted up; `None` refuses. */
  function Moved(t: Task, action: Action, user: bool): Option<Task> {
    var column := t.CurrentColumn();
    match action
    case Prioritize =>
      if user && t.Active() && column.Backlog? then Some(t.(state := Ready)) else None
    case ReturnToBacklog =>
      if user && t.Active() && column.Todo? then Some(t.(state := TaskState.Backlog)) else None
    case Start =>
      if t.Active() && (column.Todo? || column.InProgress?) then
        Some(t.(state := TaskState.Running, condition := Idle)) else None
    case Submit(text) =>
      if t.Active() && column.InProgress? && !Blank(text) && |text| <= MAX_REVIEW_TEXT then
        Some(t.(state := TaskState.InReview, condition := Idle, reviewSummary := Some(text))) else None
    case RequestChanges(feedback) =>
      if user && t.Active() && column.InReview? && !Blank(feedback) && |feedback| <= MAX_REVIEW_TEXT then
        Some(t.(state := TaskState.Running, condition := Idle, lastReason := Some(feedback))) else None
    case Accept =>
      if user && t.Active() && column.InReview? && t.reviewSummary.Some? && !Blank(t.reviewSummary.value) then
        Some(t.(state := Accepted)) else None
    case Cancel(_) =>
      if user && t.Active() && !column.Done? then Some(t.(condition := Condition.Cancelled, archived := true)) else None
    case Reopen =>
      if user && (column.Done? || !t.Active()) then
        Some(t.(state := Ready, condition := Idle, archived := false, release := None)) else None
    case ReturnToTodo(reason) =>
      if user && t.Active() && column.InProgress? && !Blank(reason) then
        Some(t.(state := Ready, condition := Idle)) else None
  }

  function ActionName(action: Action): string {
    match action
    case Prioritize => "prioritize"
    case ReturnToBacklog => "return_to_backlog"
    case Start => "start"
    case Submit(_) => "submit"
    case RequestChanges(_) => "request_changes"
    case Accept => "accept"
    case Cancel(_) => "cancel"
    case Reopen => "reopen"
    case ReturnToTodo(_) => "return_to_todo"
  }

  function Transition(t: Task, action: Action, actor: Actor, expected: nat, liveChild: bool): Result<(Task, Audit), TaskError> {
    if t.revision != expected then Err(RevisionConflict)
    else if liveChild then Err(AgentBusy)
    else
      match Moved(t, action, actor.User?)
      case None => Err(IllegalTransition)
      case Some(moved) =>
        var next := moved.Touched();
        var reason :=
          match action
          case RequestChanges(feedback) => Some(feedback)
          case Cancel(text) => Some(Shortened(text))
          case ReturnToTodo(text) => Some(Shortened(text))
          case _ => None;
        var summary := if action.Submit? then Some(action.summary) else None;
        Ok((next, Audit(next.id, actor, ActionName(action), Some(t.CurrentColumn()), next.CurrentColumn(), next.assignedAgent, reason, summary)))
  }

  // ---- Histories of attempted transitions ----

  datatype Call = Call(action: Action, actor: Actor, expected: nat, liveChild: bool)

  predicate Succeeds(t: Task, c: Call) {
    Transition(t, c.action, c.actor, c.expected, c.liveChild).Ok?
  }

  function After(t: Task, c: Call): Task {
    match Transition(t, c.action, c.actor, c.expected, c.liveChild)
    case Ok(next) => next.0
    case Err(_) => t
  }

  /** The moves of an active task over the board: from a column, by an action, to a column. */
  const MOVES: set<(Column, string, Column)> := {
    (Column.Backlog, "prioritize", Todo), (Todo, "return_to_backlog", Column.Backlog),
    (Todo, "start", InProgress), (InProgress, "start", InProgress), (InProgress, "return_to_todo", Todo),
    (InProgress, "submit", Column.InReview), (Column.InReview, "request_changes", InProgress),
    (Column.InReview, "accept", Done), (Done, "reopen", Todo),
    (Column.Backlog, "cancel", Column.Backlog), (Todo, "cancel", Todo), (InProgress, "cancel", InProgress),
    (Column.InReview, "cancel", Column.InReview)
  }

  /** The words an action needs: a summary or feedback, a reason, or the summary under review. */
  predicate Worded(t: Task, action: Action) {
    match action
    case Submit(text) => !Blank(text) && |text| <= MAX_REVIEW_TEXT
    case RequestChanges(text) => !Blank(text) && |text| <= MAX_REVIEW_TEXT
    case ReturnToTodo(text) => !Blank(text)
    case Accept => t.reviewSummary.Some? && !Blank(t.reviewSummary.value)
    case _ => true
  }

  predicate CanMove(column: Column, name: string) {
    exists to_ :: (column, name, to_) in MOVES
  }

  lemma ActiveMoves(t: Task, action: Action)
    requires t.Active()
    ensures Moved(t, action, true).Some? ==>
              (t.CurrentColumn(), ActionName(action), Moved(t, action, true).value.CurrentColumn()) in MOVES && Worded(t, action)
    ensures Moved(t, action, true).None? ==> !Worded(t, action) || !CanMove(t.CurrentColumn(), ActionName(action))
  {
    hide Blank;
  }

  lemma InactiveMoves(t: Task, action: Action)
    requires !t.Active()
    ensures Moved(t, action, true).Some? <==> action == Reopen
    ensures action == Reopen ==> Moved(t, action, true).value.CurrentColumn().Todo?
  {
    hide Blank;
  }

  /** A user's call on the current revision succeeds exactly along the board's moves; a cancelled task can only be reopened. */
  lemma BoardMoves(t: Task, c: Call)
    requires c.actor.User?
    ensures Succeeds(t, c) <==>
              && c.expected == t.revision && !c.liveChild
              && (if t.Active() then Worded(t, c.action) && CanMove(t.CurrentColumn(), ActionName(c.action)) else c.action == Reopen)
    ensures Succeeds(t, c) && t.Active() ==> (t.CurrentColumn(), ActionName(c.action), After(t, c).CurrentColumn()) in MOVES
    ensures Succeeds(t, c) && !t.Active() ==> After(t, c).CurrentColumn().Todo? && After(t, c).Active()
  {
    hide Moved, Blank, Worded, ActionName;
    if t.Active() {
      ActiveMoves(t, c.action);
      if Moved(t, c.action, true).Some? {
        assert CanMove(t.CurrentColumn(), ActionName(c.action));
      }
    } else {
      InactiveMoves(t, c.action);
      ReopeningActivates(t, c.action);
    }
  }

  lemma ReopeningActivates(t: Task, action: Action)
    requires !t.Active()
    ensures Moved(t, action, true).Some? ==> Moved(t, action, true).value.Active()
  {
    hide Blank;
  }

  ghost predicate IsHistory(tasks: seq<Task>, calls: seq<Call>) {
    |tasks| == |calls| + 1 && forall i | 0 <= i < |calls| :: tasks[i + 1] == After(tasks[i], calls[i])
  }

  /** The calls among the first `i` that succeeded. */
  ghost function Successes(tasks: seq<Task>, calls: seq<Call>, i: nat): nat
    requires i <= |calls| && |calls| < |tasks|
  {
    if i == 0 then 0
    else Successes(tasks, calls, i - 1) + if Succeeds(tasks[i - 1], calls[i - 1]) then 1 else 0
  }

  /** The revision counts the changes, so of two calls made against one revision at most one succeeds. */
  lemma {:induction false} RevisionCountsChanges(tasks: seq<Task>, calls: seq<Call>, i: nat)
    requires IsHistory(tasks, calls) && i < |tasks|
    ensures tasks[i].revision == tasks[0].revision + Successes(tasks, calls, i)
    ensures forall j | 0 <= j <= i :: tasks[j].revision <= tasks[i].revision
    ensures forall j | 0 <= j < i && Succeeds(tasks[j], calls[j]) :: calls[j].expected < tasks[i].revision
  {
    if i > 0 {
      RevisionCountsChanges(tasks, calls, i - 1);
      assert tasks[i - 1 + 1] == After(tasks[i - 1], calls[i - 1]);
    }
  }

  lemma OneWinnerPerRevision(tasks: seq<Task>, calls: seq<Call>, i: nat, j: nat)
    requires IsHistory(tasks, calls) && i < j < |calls|
    requires Succeeds(tasks[i], calls[i]) && Succeeds(tasks[j], calls[j])
    ensures calls[i].expected < calls[j].expected
  {
    RevisionCountsChanges(tasks, calls, j);
  }

  lemma DoneStep(t: Task, c: Call)
    requires After(t, c).CurrentColumn().Done?
    ensures t.CurrentColumn().Done? ==> !Succeeds(t, c)
    ensures !t.CurrentColumn().Done? ==>
              && c.action == Accept && c.actor.User? && Succeeds(t, c)
              && t.CurrentColumn().InReview? && t.reviewSummary.Some? && !Blank(t.reviewSummary.value)
  {
    hide Blank;
  }

  lemma ArchiveStep(t: Task, c: Call)
    requires t.archived <==> t.condition.Cancelled?
    ensures After(t, c).archived <==> After(t, c).condition.Cancelled?
    ensures t.archived && Succeeds(t, c) ==>
              c.action == Reopen && c.actor.User? && After(t, c).Active() && After(t, c).CurrentColumn().Todo?
  {
    hide Blank, Moved;
    match c.action {
      case Cancel(_) => CancelMoves(t, c.action, c.actor.User?);
      case Reopen => CancelMoves(t, c.action, c.actor.User?);
      case _ => OtherMovesKeepArchive(t, c.action, c.actor.User?);
    }
  }

  lemma CancelMoves(t: Task, action: Action, user: bool)
    requires action.Cancel? || action.Reopen?
    ensures Moved(t, action, user).Some? && action.Cancel? ==>
              t.Active() && Moved(t, action, user).value.archived && Moved(t, action, user).value.condition.Cancelled?
    ensures Moved(t, action, user).Some? && action.Reopen? ==>
              user && Moved(t, action, user).value.Active() && Moved(t, action, user).value.CurrentColumn().Todo?
  {
  }

  lemma OtherMovesKeepArchive(t: Task, action: Action, user: bool)
    requires !action.Cancel? && !action.Reopen?
    ensures Moved(t, action, user).Some? ==> t.Active() && Moved(t, action, user).value.Active()
  {
    hide Blank;
  }

  /** A task reaches Done only through a user's acceptance of a summarised review, and stays until it is reopened. */
  lemma {:induction false} DoneIsUserAcceptance(tasks: seq<Task>, calls: seq<Call>, i: nat, j: nat) returns (k: nat)
    requires IsHistory(tasks, calls) && i < j < |tasks|
    requires !tasks[i].CurrentColumn().Done? && tasks[j].CurrentColumn().Done?
    ensures i <= k < j && calls[k].action == Accept && calls[k].actor.User? && Succeeds(tasks[k], calls[k])
    ensures tasks[k].CurrentColumn().InReview? && tasks[k].reviewSummary.Some? && !Blank(tasks[k].reviewSummary.value)
    ensures forall l | k < l <= j :: tasks[l].CurrentColumn().Done?
    ensures forall l | k < l < j :: !Succeeds(tasks[l], calls[l])
  {
    hide Blank, After, Succeeds;
    assert tasks[j - 1 + 1] == After(tasks[j - 1], calls[j - 1]);
    DoneStep(tasks[j - 1], calls[j - 1]);
    if tasks[j - 1].CurrentColumn().Done? {
      k := DoneIsUserAcceptance(tasks, calls, i, j - 1);
    } else {
      k := j - 1;
    }
  }

  /** What is in review was submitted with the summary that it still shows. */
  lemma {:induction false} ReviewShowsSubmittedSummary(tasks: seq<Task>, calls: seq<Call>, i: nat) returns (k: nat)
    requires IsHistory(tasks, calls) && i < |tasks|
    requires !tasks[0].CurrentColumn().InReview? && tasks[i].CurrentColumn().InReview?
    ensures k < i && calls[k].action.Submit? && Succeeds(tasks[k], calls[k])
    ensures tasks[i].reviewSummary == Some(calls[k].action.summary)
    ensures !Blank(calls[k].action.summary) && |calls[k].action.summary| <= MAX_REVIEW_TEXT
    ensures forall l | k < l <= i :: tasks[l].CurrentColumn().InReview?
  {
    hide Blank;
    assert tasks[i - 1 + 1] == After(tasks[i - 1], calls[i - 1]);
    if tasks[i - 1].CurrentColumn().InReview? {
      k := ReviewShowsSubmittedSummary(tasks, calls, i - 1);
    } else {
      k := i - 1;
    }
  }

  // ---- What a move leaves alone, and what its audit says ----

  /**
   A move changes the state and the revision, and beyond that only: a summary when it is submitted, the reason shown
   when changes are requested, the archive when it is cancelled or reopened, the release when it is reopened, and the
   condition unless it is prioritised, put back, or accepted.
   */
  lemma MovesTouch(t: Task, c: Call)
    requires Succeeds(t, c)
    ensures var n, a := After(t, c), c.action;
            && n == t.(state := n.state, condition := n.condition, archived := n.archived, release := n.release,
                       reviewSummary := n.reviewSummary, lastReason := n.lastReason, revision := t.revision + 1)
            && n.reviewSummary == (if a.Submit? then Some(a.summary) else t.reviewSummary)
            && n.lastReason == (if a.RequestChanges? then Some(a.feedback) else t.lastReason)
            && n.archived == (if a.Cancel? then true else if a.Reopen? then false else t.archived)
            && n.release == (if a.Reopen? then None else t.release)
            && n.condition == (if a.Cancel? then Condition.Cancelled
                               else if a in {Prioritize, ReturnToBacklog, Accept} then t.condition else Idle)
            && (a.Cancel? ==> n.state == t.state)
  {
    hide Blank;
  }

  /** The audit of a move says who moved which task from where to where, and with which words, shortened at most. */
  lemma AuditSays(t: Task, c: Call)
    requires Succeeds(t, c)
    ensures var audit := Transition(t, c.action, c.actor, c.expected, c.liveChild).value.1;
            && audit.task == t.id && audit.actor == c.actor && audit.agent == t.assignedAgent
            && audit.from == Some(t.CurrentColumn()) && audit.to_ == After(t, c).CurrentColumn()
            && audit.action == ActionName(c.action)
            && audit.summary == (if c.action.Submit? then Some(c.action.summary) else None)
            && (match c.action
                case RequestChanges(feedback) => audit.reason == Some(feedback)
                case Cancel(text) => audit.reason.Some? && ShortFormOf(audit.reason.value, text)
                case ReturnToTodo(text) => audit.reason.Some? && ShortFormOf(audit.reason.value, text)
                case _ => audit.reason.None?)
  {
    MovesTouch(t, c);
    hide Blank, Moved;
  }

  /** All of a text, or its first 4096 characters. */
  predicate ShortFormOf(short: string, text: string) {
    short <= text && |short| == if |text| < 4096 then |text| else 4096
  }

  /** The audits of the calls among the first `i` that succeeded. */
  ghost function Trail(tasks: seq<Task>, calls: seq<Call>, i: nat): seq<Audit>
    requires i <= |calls| && |calls| < |tasks|
  {
    if i == 0 then []
    else
      Trail(tasks, calls, i - 1)
      + match Transition(tasks[i - 1], calls[i - 1].action, calls[i - 1].actor, calls[i - 1].expected, calls[i - 1].liveChild)
        case Ok(next) => [next.1]
        case Err(_) => []
  }

  /** All of one task, each audit beginning in the column where the one before it ended. */
  ghost predicate Follows(trail: seq<Audit>, id: TaskId, first: Column, last: Column) {
    && (forall k | 0 <= k < |trail| :: trail[k].task == id)
    && (trail != [] ==> trail[0].from == Some(first))
    && (forall k | 0 < k < |trail| :: trail[k].from == Some(trail[k - 1].to_))
    && last == if trail == [] then first else trail[|trail| - 1].to_
  }

  lemma FollowsOn(trail: seq<Audit>, id: TaskId, first: Column, last: Column, audit: Audit)
    requires Follows(trail, id, first, last) && audit.task == id && audit.from == Some(last)
    ensures Follows(trail + [audit], id, first, audit.to_)
  {
    var more := trail + [audit];
    forall k | 0 < k < |more| ensures more[k].from == Some(more[k - 1].to_) {
      assert more[k - 1] == trail[k - 1];
      assert k < |trail| ==> trail[k].from == Some(trail[k - 1].to_);
    }
  }

  /** The audits of every history lead from where the task was to where it is, one for each revision. */
  lemma {:induction false} TrailLeadsHere(tasks: seq<Task>, calls: seq<Call>, i: nat)
    requires IsHistory(tasks, calls) && i < |tasks|
    ensures tasks[i].id == tasks[0].id && |Trail(tasks, calls, i)| == tasks[i].revision - tasks[0].revision
    ensures Follows(Trail(tasks, calls, i), tasks[0].id, tasks[0].CurrentColumn(), tasks[i].CurrentColumn())
  {
    hide Transition, After, Succeeds;
    if i > 0 {
      TrailLeadsHere(tasks, calls, i - 1);
      assert tasks[i - 1 + 1] == After(tasks[i - 1], calls[i - 1]);
      TrailStep(tasks[i - 1], calls[i - 1]);
      var t, c := tasks[i - 1], calls[i - 1];
      match Transition(t, c.action, c.actor, c.expected, c.liveChild)
      case Ok(next) => FollowsOn(Trail(tasks, calls, i - 1), t.id, tasks[0].CurrentColumn(), t.CurrentColumn(), next.1);
      case Err(_) => assert Trail(tasks, calls, i) == Trail(tasks, calls, i - 1);
    }
  }

  lemma TrailStep(t: Task, c: Call)
    ensures match Transition(t, c.action, c.actor, c.expected, c.liveChild)
            case Ok(next) =>
              && After(t, c) == next.0 && next.0.revision == t.revision + 1 && next.0.id == t.id
              && next.1.task == t.id && next.1.from == Some(t.CurrentColumn()) && next.1.to_ == next.0.CurrentColumn()
            case Err(_) => After(t, c) == t
  {
    if Succeeds(t, c) {
      MovesTouch(t, c);
      AuditSays(t, c);
      assert After(t, c).id == t.id;
    }
  }

  /** The reason shown is the feedback of the last changes requested, whatever happened since. */
  lemma {:induction false} LastFeedbackIsShown(tasks: seq<Task>, calls: seq<Call>, k: nat, i: nat)
    requires IsHistory(tasks, calls) && k < i < |tasks|
    requires calls[k].action.RequestChanges? && Succeeds(tasks[k], calls[k])
    requires forall l | k < l < i && Succeeds(tasks[l], calls[l]) :: !calls[l].action.RequestChanges?
    ensures tasks[i].lastReason == Some(calls[k].action.feedback)
    ensures tasks[k + 1].CurrentColumn().InProgress?
  {
    hide Blank, Moved, Transition;
    assert tasks[k + 1] == After(tasks[k], calls[k]);
    MovesTouch(tasks[k], calls[k]);
    RequestedChangesMove(tasks[k], calls[k]);
    if k + 1 < i {
      LastFeedbackIsShown(tasks, calls, k, i - 1);
      assert tasks[i - 1 + 1] == After(tasks[i - 1], calls[i - 1]);
      if Succeeds(tasks[i - 1], calls[i - 1]) {
        MovesTouch(tasks[i - 1], calls[i - 1]);
      }
    }
  }

  lemma RequestedChangesMove(t: Task, c: Call)
    requires c.action.RequestChanges? && Succeeds(t, c)
    ensures After(t, c).CurrentColumn().InProgress?
  {
    hide Blank;
  }

  function Rank(column: Column): nat {
    match column
    case Backlog => 0
    case Todo => 1
    case InProgress => 2
    case InReview => 3
    case Done => 4
  }

  /** Without the user nothing moves backwards, into Done, out of review, or in and out of the archive. */
  lemma {:induction false} OthersOnlyMoveForward(tasks: seq<Task>, calls: seq<Call>, i: nat, j: nat)
    requires IsHistory(tasks, calls) && i <= j < |tasks|
    requires forall k | i <= k < j :: !calls[k].actor.User?
    ensures Rank(tasks[i].CurrentColumn()) <= Rank(tasks[j].CurrentColumn())
    ensures tasks[i].CurrentColumn() in {Column.Backlog, Column.InReview, Done} ==> tasks[j].CurrentColumn() == tasks[i].CurrentColumn()
    ensures tasks[j].CurrentColumn().Done? ==> tasks[i].CurrentColumn().Done?
    ensures tasks[j].archived == tasks[i].archived
    ensures !tasks[i].Active() ==> tasks[j] == tasks[i]
    decreases j - i
  {
    hide Blank;
    if i < j {
      OthersOnlyMoveForward(tasks, calls, i, j - 1);
      assert tasks[j - 1 + 1] == After(tasks[j - 1], calls[j - 1]);
    }
  }

  /** A cancelled task is archived and can only be reopened, which puts it back where work begins. */
  lemma {:induction false} CancelledUntilReopened(tasks: seq<Task>, calls: seq<Call>, i: nat)
    requires IsHistory(tasks, calls) && i < |tasks| && (tasks[0].archived <==> tasks[0].condition.Cancelled?)
    ensures tasks[i].archived <==> tasks[i].condition.Cancelled?
    ensures i < |calls| && tasks[i].archived && Succeeds(tasks[i], calls[i]) ==>
              && calls[i].action == Reopen && calls[i].actor.User?
              && tasks[i + 1].Active() && tasks[i + 1].CurrentColumn().Todo?
  {
    hide After, Succeeds;
    if i > 0 {
      CancelledUntilReopened(tasks, calls, i - 1);
      assert tasks[i - 1 + 1] == After(tasks[i - 1], calls[i - 1]);
      ArchiveStep(tasks[i - 1], calls[i - 1]);
    }
    if i < |calls| {
      ArchiveStep(tasks[i], calls[i]);
    }
  }
}

/** What users, agents and the daemon can do to a task around its acceptance loop, request by request. */
module AcceptanceRequests {
  import opened Wrappers
  import opened TaskWorkflow
  import opened AcceptanceLoop

  predicate HasWords(text: string) {
    !Blank(text) && |text| <= 65536
  }

  predicate InProgressState(t: Task) {
    t.state in {TaskState.Running, TaskState.Blocked, Rejected}
  }

  predicate TodoState(t: Task) {
    t.state in {Draft, Ready, TaskState.Cancelled}
  }

  predicate Waiting(t: Task) {
    t.inQueue && InProgressState(t) && t.condition.Queued? && t.assignedAgent.None? && !t.archived
  }

  predicate NotCancelled(t: Task) {
    !t.archived && t.condition != Condition.Cancelled
  }

  /** When a request can be granted. */
  predicate Grantable(t: Task, request: Request)
    requires request.MoveTask? ==> !request.action.Accept? && !request.action.Submit? && !request.action.RequestChanges?
  {
    match request
    case Configure(config) =>
      !t.archived && t.state !in {TaskState.InReview, Accepted} && 1 <= config.policy.maxAttempts <= 10 && |config.criteria| <= 16
    case AskChanges(feedback, _) =>
      NotCancelled(t) && t.state == TaskState.InReview && HasWords(feedback) && !(t.inQueue && t.coordinated)
    case Revalidate(_, summary) =>
      && !t.archived && (InProgressState(t) || t.state == TaskState.InReview)
      && (summary.Some? ==> HasWords(summary.value))
    case StartTask(_) => NotCancelled(t) && (TodoState(t) || InProgressState(t))
    case Enqueue => !t.archived && !t.coordinated && !Waiting(t) && (TodoState(t) || InProgressState(t))
    case MoveTask(action, _) => Succeeds(t, Call(action, User, t.revision, false))
  }

  /** What a granted request makes of the task, and whether it launches a loop, for work or only for validation. */
  ghost predicate Grants(t: Task, request: Request, n: Task, launch: Option<Launch>)
    requires request.MoveTask? ==> !request.action.Accept? && !request.action.Submit? && !request.action.RequestChanges?
  {
    match request
    case Configure(config) => n == t.(config := config, revision := t.revision + 1) && launch.None?
    case AskChanges(feedback, agent) =>
      && n == t.(state := TaskState.Running, condition := Condition.Queued, currentSubmission := None, lastReason := Some(feedback),
                 assignedAgent := if t.inQueue then None else Some(agent), revision := t.revision + 1)
      && launch == if t.inQueue then None else Some(Launch(false))
    case Revalidate(agent, summary) =>
      && n == t.(condition := Condition.Queued, assignedAgent := Some(agent), revision := t.revision + 1,
                 reviewSummary := if summary.Some? then summary else t.reviewSummary)
      && launch == Some(Launch(true))
    case StartTask(agent) =>
      && n == t.(state := TaskState.Running, condition := Condition.Queued, assignedAgent := Some(agent), revision := t.revision + 1)
      && launch == Some(Launch(false))
    case Enqueue =>
      && Waiting(n) && launch.None?
      && n == t.(inQueue := true, state := TaskState.Running, condition := Condition.Queued, assignedAgent := None,
                 currentSubmission := None, lastReason := None, revision := t.revision + 1)
    case MoveTask(action, selected) =>
      var moved := After(t, Call(action, User, t.revision, false));
      && launch.None?
      && n == (if t.inQueue && TodoState(moved) then
                 moved.(inQueue := false, assignedAgent := selected, condition := Idle, lastReason := None)
               else if Waiting(t) && !InProgressState(moved) then moved.(inQueue := false, condition := Idle, lastReason := None)
               else moved)
  }

  lemma RequestsAreGrantedIff(t: Task, request: Request)
    requires request.MoveTask? ==> !request.action.Accept? && !request.action.Submit? && !request.action.RequestChanges?
    ensures Answered(t, request).Some? <==> Grantable(t, request)
    ensures Answered(t, request).Some? ==> Grants(t, request, Answered(t, request).value.0, Answered(t, request).value.1)
  {
    hide Blank;
    match request
    case AskChanges(feedback, _) => FeedbackMoves(t, feedback);
    case StartTask(_) => StartMoves(t);
    case MoveTask(_, _) => hide Moved;
    case _ =>
  }

  lemma FeedbackMoves(t: Task, feedback: string)
    ensures Transition(t, RequestChanges(feedback), User, t.revision, false).Ok? <==>
              NotCancelled(t) && t.state == TaskState.InReview && HasWords(feedback)
    ensures Transition(t, RequestChanges(feedback), User, t.revision, false).Ok? ==>
              Transition(t, RequestChanges(feedback), User, t.revision, false).value.0
              == t.(state := TaskState.Running, condition := Idle, lastReason := Some(feedback), revision := t.revision + 1)
  {
    hide Blank;
  }

  lemma StartMoves(t: Task)
    ensures Transition(t, Start, User, t.revision, false).Ok? <==> NotCancelled(t) && (TodoState(t) || InProgressState(t))
    ensures Transition(t, Start, User, t.revision, false).Ok? ==>
              Transition(t, Start, User, t.revision, false).value.0
              == t.(state := TaskState.Running, condition := Idle, revision := t.revision + 1)
  {
  }

  /**
   A launch begins its loop exactly if the workspace is free and the task in progress; otherwise the task is blocked as
   busy, if that can be saved, and every active attempt with it.
   */
  lemma LaunchesBeginIff(m: Machine, free: bool, resume: Option<string>, saved: bool)
    requires Enabled(m, Begin(free, resume, saved))
    ensures var n := Next(m, Begin(free, resume, saved));
            && m.launch.Some? && n.launch.None?
            && (n.loop.Some? <==> free && InProgressState(m.task) && !m.task.archived)
            && (n.loop.Some? ==>
                  && n.task == m.task && n.loop.value.pc.Entering? && !n.loop.value.cancelled && n.loop.value.resume == resume
                  && n.loop.value.setup.validationOnly == m.launch.value.validationOnly
                  && (m.task.assignedAgent.Some? ==> n.loop.value.owner == m.task.assignedAgent.value))
            && (n.loop.None? && !saved ==> n.task == m.task)
            && (n.loop.None? && saved ==>
                  && n.task.condition.Blocked? && n.task.state == TaskState.Running && n.task.currentSubmission.None?
                  && n.task.lastReason == Some("workspace_busy") && !SomeActive(n.task.attempts))
  {
  }

  /** Who holds the row of a task that waits in the queue: nobody, until a claim with something to resume. */
  lemma ClaimsMean(m: Machine, agent: AgentId, resumable: bool)
    ensures Enabled(m, Claim(agent, resumable)) <==> Waiting(m.task)
    ensures Enabled(m, Claim(agent, resumable)) ==>
              var n := Next(m, Claim(agent, resumable));
              if resumable then
                n.task == m.task.(assignedAgent := Some(agent), revision := m.task.revision + 1) && n.launch == Some(Launch(false))
              else
                n.task == m.task.(condition := Condition.Blocked, revision := m.task.revision + 1) && n.launch == m.launch
  {
  }

  /**
   The report of a task's agent submits a live task in progress with its summary, or shows a new condition other than
   queued and cancelled; anything else it reports is ignored.
   */
  lemma ReportsMean(t: Task, report: Report)
    ensures Synced(t, report).Some? <==>
              && t.assignedAgent.Some? && !t.archived && InProgressState(t)
              && match report
                 case Completed(summary) => t.condition in {Condition.Queued, Condition.Running, AwaitingApproval} && HasWords(summary)
                 case NowIn(condition, _) => condition !in {Condition.Queued, Condition.Cancelled}
    ensures Synced(t, report).Some? ==>
              Synced(t, report).value ==
              match report
              case Completed(summary) =>
                t.(state := TaskState.InReview, condition := Idle, reviewSummary := Some(summary), revision := t.revision + 1)
              case NowIn(condition, reason) =>
                t.(condition := condition, lastReason := if reason.Some? then reason else t.lastReason, revision := t.revision + 1)
  {
    hide Blank;
  }

  /**
   An approval is stored with the last attempt while that is active, if it can be saved; a denial cancels the loop
   either way.
   */
  lemma ApprovalsMean(m: Machine, approval: Uuid, denied: bool, saved: bool)
    ensures var n, k := Next(m, Approve(approval, denied, saved)), |m.task.attempts| - 1;
            && (n.task != m.task <==> saved && k >= 0 && m.task.attempts[k].result in {AttemptResult.Queued, Working, Validating})
            && (n.task != m.task ==>
                  n.task == m.task.(revision := m.task.revision + 1,
                                    attempts := m.task.attempts[k := m.task.attempts[k].(
                                                  approvals := m.task.attempts[k].approvals + [approval])]))
            && (m.loop.Some? ==> n.loop == Some(m.loop.value.(cancelled := m.loop.value.cancelled || denied)))
            && (m.loop.None? ==> n.loop.None?)
  {
    assert Next(m, Approve(approval, denied, saved)).task != m.task ==>
             Next(m, Approve(approval, denied, saved)).task.revision == m.task.revision + 1;
  }

  /**
   An acceptance can be prepared exactly for a task in review with a summary whose current submission has the fingerprint
   of the workspace as it is now; the task then becomes accepted and nothing else.
   */
  lemma PreparedIff(t: Task, workspace: Workspace)
    requires forall j, k | 0 <= j < k < |t.submissions| :: t.submissions[j].id != t.submissions[k].id
    ensures Prepared(t, workspace).Some? <==>
              && NotCancelled(t) && t.state == TaskState.InReview && t.reviewSummary.Some? && !Blank(t.reviewSummary.value)
              && t.currentSubmission.Some?
              && exists k :: 0 <= k < |t.submissions| && t.submissions[k].id == t.currentSubmission.value
                             && t.submissions[k].workspace.fingerprint == workspace.fingerprint
    ensures Prepared(t, workspace).Some? ==> Prepared(t, workspace).value == t.(state := Accepted, revision := t.revision + 1)
  {
    AcceptMoves(t);
    hide Transition, Blank;
    if t.currentSubmission.Some? {
      var found := FindSubmission(t.submissions, t.currentSubmission.value);
      SubmissionIsFound(t.submissions, t.currentSubmission.value);
      if found.Some? {
        var k :| 0 <= k < |t.submissions| && t.submissions[k] == found.value;
      }
    }
  }

  lemma AcceptMoves(t: Task)
    ensures Transition(t, Accept, User, t.revision, false).Ok? <==>
              NotCancelled(t) && t.state == TaskState.InReview && t.reviewSummary.Some? && !Blank(t.reviewSummary.value)
    ensures Transition(t, Accept, User, t.revision, false).Ok? ==>
              Transition(t, Accept, User, t.revision, false).value.0 == t.(state := Accepted, revision := t.revision + 1)
  {
    hide Blank;
  }

  lemma {:induction false} SubmissionIsFound(submissions: seq<Submission>, id: Uuid)
    ensures FindSubmission(submissions, id).Some? <==> exists k :: 0 <= k < |submissions| && submissions[k].id == id
  {
    if submissions != [] && submissions[0].id != id {
      SubmissionIsFound(submissions[1..], id);
      if k :| 0 <= k < |submissions| && submissions[k].id == id {
        assert submissions[1..][k - 1].id == id;
      }
    }
  }

  /**
   A prepared acceptance is committed exactly if the row is still the one that was read, in a batch only while no
   loop, launch or agent has it, and if it can be saved; in a batch the task gets the release.
   */
  lemma CommitsMean(m: Machine, key: nat, batch: bool, release: Option<Uuid>, saved: bool)
    requires Enabled(m, CommitReview(key, batch, release, saved)) && m.reviews[key].prepared.value.revision > m.task.revision
    ensures var n, prepared := Next(m, CommitReview(key, batch, release, saved)), m.reviews[key].prepared.value;
            && key !in n.reviews
            && (n.task != m.task <==>
                  m.task.revision == m.reviews[key].snapshot.revision && saved
                  && !(batch && !Waiting(m.task)
                       && (m.loop.Some? || m.task.condition in {Condition.Queued, Condition.Running, AwaitingApproval})))
            && (n.task != m.task ==> n.task == if batch then prepared.(release := release) else prepared)
  {
    assert Next(m, CommitReview(key, batch, release, saved)).task != m.task <==>
             Next(m, CommitReview(key, batch, release, saved)).task.revision != m.task.revision;
  }
}

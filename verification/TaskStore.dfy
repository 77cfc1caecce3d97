/**
 The durable task tables.  A transaction either commits all of its writes or
 none; a request commits together with its receipt, whose id is a primary key.
 */
module TaskStore {
  import opened Wrappers
  import opened TaskWorkflow
  import ConfigText

  /** A request as it is serialised: `input` is everything but the id. */
  datatype Request = Request(id: Uuid, input: string)

  datatype Release = Release(id: Uuid, project: ProjectId, name: string)

  datatype Response =
    | Changed(task: Task)
    | Deleted(id: TaskId)
    | ReleaseBatch(tasks: seq<Task>, releases: seq<Release>)
    | Presets(text: string)
    | Error(code: TaskError)

  datatype Receipt = Receipt(request: Request, response: Response)

  datatype Change = Change(task: Task, audit: Audit)

  datatype Database = Database(
    tasks: map<TaskId, Task>,
    audits: seq<Audit>,
    links: map<AgentId, Option<TaskId>>,
    receipts: map<Uuid, Receipt>,
    releases: map<Uuid, Release>,
    settings: map<string, string>)

  const EMPTY := Database(map[], [], map[], map[], map[], map[])

  // ---- What each statement of a transaction does; `None` rolls everything back ----

  function Write(db: Database, change: Change): Database {
    db.(tasks := db.tasks[change.task.id := change.task], audits := db.audits + [change.audit])
  }

  function WriteAll(db: Database, changes: seq<Change>): Database {
    if changes == [] then db else Write(WriteAll(db, changes[..|changes| - 1]), changes[|changes| - 1])
  }

  /** Linking updates the rows of agents that exist and inserts none. */
  function LinkAll(db: Database, agents: seq<(AgentId, Option<TaskId>)>): Database {
    if agents == [] then db
    else
      var rest := LinkAll(db, agents[..|agents| - 1]);
      var (agent, task) := agents[|agents| - 1];
      if agent in rest.links then rest.(links := rest.links[agent := task]) else rest
  }

  function InsertReceipt(db: Database, request: Request, response: Response): Option<Database> {
    if request.id in db.receipts then None
    else Some(db.(receipts := db.receipts[request.id := Receipt(request, response)]))
  }

  function Saved(db: Database, changes: seq<Change>, receipt: Option<Receipt>,
                 agents: seq<(AgentId, Option<TaskId>)>): Option<Database> {
    var written := LinkAll(WriteAll(db, changes), agents);
    match receipt
    case None => Some(written)
    case Some(r) => InsertReceipt(written, r.request, r.response)
  }

  const MAX_RELEASE_NAME: nat := 128

  predicate ValidName(name: string) {
    ConfigText.Trim(name) == name && 1 <= |name| <= MAX_RELEASE_NAME
  }

  predicate NameTaken(db: Database, release: Release) {
    release.id in db.releases
    || exists id | id in db.releases :: db.releases[id].project == release.project && db.releases[id].name == release.name
  }

  function InsertRelease(db: Database, release: Option<Release>): Option<Database> {
    if release.None? then Some(db)
    else if !ValidName(release.value.name) || NameTaken(db, release.value) then None
    else Some(db.(releases := db.releases[release.value.id := release.value]))
  }

  /** The row must be exactly one revision behind, and its release must belong to its project. */
  predicate Advances(db: Database, task: Task) {
    && task.id in db.tasks && db.tasks[task.id].project == task.project
    && db.tasks[task.id].revision + 1 == task.revision
    && (task.release.Some? ==> task.release.value in db.releases && db.releases[task.release.value].project == task.project)
  }

  function AdvanceAll(db: Database, changes: seq<Change>): Option<Database> {
    if changes == [] then Some(db)
    else
      match AdvanceAll(db, changes[..|changes| - 1])
      case None => None
      case Some(rest) =>
        if Advances(rest, changes[|changes| - 1].task) then Some(Write(rest, changes[|changes| - 1])) else None
  }

  function BatchSaved(db: Database, release: Option<Release>, changes: seq<Change>, request: Request,
                      response: Response): Option<Database> {
    match InsertRelease(db, release)
    case None => None
    case Some(released) =>
      match AdvanceAll(released, changes)
      case None => None
      case Some(written) => InsertReceipt(written, request, response)
  }

  function SettingSaved(db: Database, key: string, value: string, request: Request, response: Response): Option<Database> {
    InsertReceipt(db.(settings := db.settings[key := value]), request, response)
  }

  predicate Untouched(db: Database, task: Task) {
    && task.revision == 1 && task.assignedAgent.None?
    && (forall agent | agent in db.links :: db.links[agent] != Some(task.id))
    && (forall k | 0 <= k < |db.audits| && db.audits[k].task == task.id :: db.audits[k].action == "create")
  }

  function WithoutTask(audits: seq<Audit>, id: TaskId): seq<Audit> {
    if audits == [] then []
    else
      var last := audits[|audits| - 1];
      WithoutTask(audits[..|audits| - 1], id) + if last.task == id then [] else [last]
  }

  function DraftDeleted(db: Database, task: Task, request: Request): Option<Database> {
    if !Untouched(db, task) then None
    else
      InsertReceipt(db.(tasks := db.tasks - {task.id}, audits := WithoutTask(db.audits, task.id)), request, Deleted(task.id))
  }

  // ---- Replaying a request ----

  function Current(db: Database, id: TaskId): Response {
    if id in db.tasks then Changed(db.tasks[id]) else Deleted(id)
  }

  function CurrentTasks(db: Database, tasks: seq<Task>): seq<Task> {
    if tasks == [] then []
    else
      CurrentTasks(db, tasks[..|tasks| - 1])
      + if tasks[|tasks| - 1].id in db.tasks then [db.tasks[tasks[|tasks| - 1].id]] else []
  }

  function Replay(db: Database, request: Request): Option<Response> {
    if request.id !in db.receipts then None
    else if db.receipts[request.id].request != request then Some(Error(IdempotencyConflict))
    else
      match db.receipts[request.id].response
      case Changed(task) => Some(Current(db, task.id))
      case ReleaseBatch(tasks, releases) => Some(ReleaseBatch(CurrentTasks(db, tasks), releases))
      case other => Some(other)
  }

  // ---- Recovery after a restart ----

  const RESTARTED := "Runtime restarted. Prior child ownership is stale; inspect the agent and explicitly restart the task."

  function Interrupt(a: Attempt): Attempt {
    if a.result.Active() then a.(result := Interrupted, failure := Some("daemon_restart")) else a
  }

  function InterruptAll(attempts: seq<Attempt>): (r: seq<Attempt>)
    ensures |r| == |attempts| && forall k | 0 <= k < |r| :: r[k] == Interrupt(attempts[k])
  {
    seq(|attempts|, k requires 0 <= k < |attempts| => Interrupt(attempts[k]))
  }

  predicate Stale(t: Task) {
    !t.WaitingInQueue() && t.condition.Live()
  }

  function Recovered(t: Task): (r: Task)
    ensures r.id == t.id
  {
    t.(attempts := InterruptAll(t.attempts), condition := Condition.Blocked, state := TaskState.Running,
       currentSubmission := None, lastReason := Some(RESTARTED)).Touched()
  }

  function Reconciled(t: Task): Task {
    if Stale(t) then Recovered(t) else t
  }

  function RecoveryAudit(t: Task): Audit {
    Audit(t.id, Daemon, "restart_recovery", Some(t.CurrentColumn()), t.CurrentColumn(), t.assignedAgent, t.lastReason, None)
  }

  predicate NoneActive(t: Task) {
    forall k | 0 <= k < |t.attempts| :: !t.attempts[k].result.Active()
  }

  lemma ReconcileIsIdempotent(t: Task)
    ensures Reconciled(Reconciled(t)) == Reconciled(t)
    ensures !Stale(Reconciled(t))
  {
  }

  /** Exactly the tasks whose active attempts are not stale keep them. */
  lemma ReconcileEndsAttemptsIff(t: Task)
    ensures NoneActive(Reconciled(t)) <==> NoneActive(t) || Stale(t)
  {
    if !NoneActive(t) && Stale(t) {
      forall k | 0 <= k < |t.attempts| ensures !Reconciled(t).attempts[k].result.Active() {
        assert Reconciled(t).attempts[k] == Interrupt(t.attempts[k]);
      }
    }
  }

  /** Recovery keeps every finished attempt, all evidence of the others, and every submission; it never accepts. */
  lemma ReconcileKeepsEvidence(t: Task, k: nat)
    requires k < |t.attempts|
    ensures |Reconciled(t).attempts| == |t.attempts| && Reconciled(t).submissions == t.submissions
    ensures !t.attempts[k].result.Active() ==> Reconciled(t).attempts[k] == t.attempts[k]
    ensures Reconciled(t).attempts[k].(result := t.attempts[k].result, failure := t.attempts[k].failure) == t.attempts[k]
    ensures t.WaitingInQueue() ==> Reconciled(t) == t
    ensures Reconciled(t).CurrentColumn().Done? ==> Reconciled(t) == t
  {
  }

  /**
   Exactly what was queued with an agent, running, or awaiting an approval is recovered: blocked in progress, out of
   review, its active attempts interrupted, with an audit by the daemon that leaves it in its column.
   */
  lemma RecoveryMeans(t: Task)
    ensures var live := t.condition in {Condition.Queued, Condition.Running, AwaitingApproval};
            var waiting := t.inQueue && t.state in {TaskState.Running, TaskState.Blocked, Rejected} && t.condition.Queued?
                           && t.assignedAgent.None? && !t.archived;
            var n := Reconciled(t);
            if live && !waiting then
              && n == t.(state := TaskState.Running, condition := Condition.Blocked, currentSubmission := None,
                         lastReason := n.lastReason, attempts := n.attempts, revision := t.revision + 1)
              && n.lastReason.Some? && |n.attempts| == |t.attempts|
              && (forall k | 0 <= k < |t.attempts| ::
                    n.attempts[k] == if t.attempts[k].result in {AttemptResult.Queued, Working, Validating} then
                                       t.attempts[k].(result := Interrupted, failure := Some("daemon_restart"))
                                     else t.attempts[k])
              && RecoveryAudit(n) == Audit(t.id, Daemon, "restart_recovery", Some(InProgress), InProgress, t.assignedAgent,
                                           n.lastReason, None)
            else n == t
  {
  }

  /** The audits of recovering some rows. */
  function RecoveryAudits(rows: seq<Task>): seq<Audit> {
    if rows == [] then []
    else
      var last := rows[|rows| - 1];
      RecoveryAudits(rows[..|rows| - 1]) + if Stale(last) then [RecoveryAudit(Recovered(last))] else []
  }

  lemma {:induction false} RecoveryAuditsGrow(rows: seq<Task>, i: nat)
    requires i <= |rows|
    ensures RecoveryAudits(rows[..i]) <= RecoveryAudits(rows)
    decreases |rows|
  {
    hide Stale, RecoveryAudit, Recovered;
    if i < |rows| {
      RecoveryAuditsGrow(rows[..|rows| - 1], i);
      assert rows[..|rows| - 1][..i] == rows[..i];
    } else {
      assert rows[..i] == rows;
    }
  }

  predicate Lists(rows: seq<Task>, tasks: map<TaskId, Task>) {
    && (forall k | 0 <= k < |rows| :: rows[k].id in tasks && tasks[rows[k].id] == rows[k])
    && (forall j, k | 0 <= j < k < |rows| :: rows[j].id != rows[k].id)
    && (forall id | id in tasks :: exists k | 0 <= k < |rows| :: rows[k].id == id)
  }

  /** The first `i` rows are recovered and the others are as they were. */
  ghost predicate RecoveredUpTo(rows: seq<Task>, tasks: map<TaskId, Task>, i: nat) {
    && (forall k: nat | k < i && k < |rows| :: rows[k].id in tasks && tasks[rows[k].id] == Reconciled(rows[k]))
    && (forall k: nat | i <= k < |rows| :: rows[k].id in tasks && tasks[rows[k].id] == rows[k])
  }

  lemma RowByRow(before: map<TaskId, Task>, rows: seq<Task>, after: map<TaskId, Task>, i: nat)
    requires Lists(rows, before) && RecoveredUpTo(rows, after, i) && after.Keys == before.Keys
    ensures forall id | id in after :: after[id] == before[id] || after[id] == Reconciled(before[id])
    ensures i >= |rows| ==> forall id | id in after :: after[id] == Reconciled(before[id])
  {
    hide Reconciled;
    forall id | id in after
      ensures after[id] == before[id] || after[id] == Reconciled(before[id])
      ensures i >= |rows| ==> after[id] == Reconciled(before[id])
    {
      assert id in before;
      var k: nat :| k < |rows| && rows[k].id == id;
    }
  }

  lemma NextRow(rows: seq<Task>, tasks: map<TaskId, Task>, i: nat, before: map<TaskId, Task>)
    requires Lists(rows, before) && RecoveredUpTo(rows, tasks, i) && i < |rows|
    ensures rows[i].id in tasks
    ensures RecoveredUpTo(rows, if Stale(rows[i]) then tasks[rows[i].id := Recovered(rows[i])] else tasks, i + 1)
  {
  }

  lemma NothingRecovered(rows: seq<Task>, tasks: map<TaskId, Task>)
    requires Lists(rows, tasks)
    ensures RecoveredUpTo(rows, tasks, 0)
  {
  }

  lemma OneChange(db: Database, change: Change)
    ensures Saved(db, [change], None, []) == Some(Write(db, change))
  {
    assert [change][..0] == [];
    assert WriteAll(db, []) == db;
  }

  // ---- The store in place ----

  class Store {
    var tasks: map<TaskId, Task>
    var audits: seq<Audit>
    var links: map<AgentId, Option<TaskId>>
    var receipts: map<Uuid, Receipt>
    var releases: map<Uuid, Release>
    var settings: map<string, string>

    constructor ()
      ensures View() == EMPTY
    {
      tasks, audits, links, receipts, releases, settings := map[], [], map[], map[], map[], map[];
    }

    function View(): Database
      reads this
    {
      Database(tasks, audits, links, receipts, releases, settings)
    }

    method Commit(db: Database)
      modifies this
      ensures View() == db
    {
      tasks, audits, links := db.tasks, db.audits, db.links;
      receipts, releases, settings := db.receipts, db.releases, db.settings;
    }

    /** `sound` is whether the disk takes every statement and the commit. */
    method SaveTaskAgentChanges(changes: seq<Change>, receipt: Option<Receipt>,
                                agents: seq<(AgentId, Option<TaskId>)>, sound: bool) returns (ok: bool)
      modifies this
      ensures ok == (sound && Saved(old(View()), changes, receipt, agents).Some?)
      ensures View() == if ok then Saved(old(View()), changes, receipt, agents).value else old(View())
    {
      var tx := View();
      for i := 0 to |changes|
        invariant tx == WriteAll(old(View()), changes[..i])
        invariant View() == old(View())
      {
        tx := Write(tx, changes[i]);
        assert changes[..i + 1][..i] == changes[..i];
      }
      assert changes[..|changes|] == changes;
      ghost var written := tx;
      for i := 0 to |agents|
        invariant tx == LinkAll(written, agents[..i])
        invariant View() == old(View())
      {
        var (agent, task) := agents[i];
        if agent in tx.links {
          tx := tx.(links := tx.links[agent := task]);
        }
        assert agents[..i + 1][..i] == agents[..i];
      }
      assert agents[..|agents|] == agents;
      if receipt.Some? {
        if receipt.value.request.id in tx.receipts {
          return false;
        }
        tx := tx.(receipts := tx.receipts[receipt.value.request.id := receipt.value]);
      }
      if !sound {
        return false;
      }
      Commit(tx);
      return true;
    }

    method SaveReleaseBatch(release: Option<Release>, changes: seq<Change>, request: Request, response: Response,
                            sound: bool) returns (ok: bool)
      modifies this
      ensures ok == (sound && BatchSaved(old(View()), release, changes, request, response).Some?)
      ensures View() == if ok then BatchSaved(old(View()), release, changes, request, response).value else old(View())
    {
      var tx := View();
      if release.Some? {
        if !ValidName(release.value.name) || NameTaken(tx, release.value) {
          return false;
        }
        tx := tx.(releases := tx.releases[release.value.id := release.value]);
      }
      ghost var released := tx;
      for i := 0 to |changes|
        invariant AdvanceAll(released, changes[..i]) == Some(tx)
        invariant View() == old(View())
      {
        assert changes[..i + 1][..i] == changes[..i];
        if !Advances(tx, changes[i].task) {
          RefusedPrefix(released, changes, i + 1);
          return false;
        }
        tx := Write(tx, changes[i]);
      }
      assert changes[..|changes|] == changes;
      if !sound || request.id in tx.receipts {
        return false;
      }
      Commit(tx.(receipts := tx.receipts[request.id := Receipt(request, response)]));
      return true;
    }

    /**
     A setting is set at most once for a request: after success a retry is answered with the response and would set
     nothing, and other input under the id is a conflict.
     */
    method SetTaskSettingReceipt(key: string, value: string, request: Request, response: Response, sound: bool)
      returns (ok: bool)
      modifies this`settings, this`receipts
      ensures ok ==> key in settings && settings[key] == value && request.id !in old(receipts)
      ensures ok && !response.Changed? && !response.ReleaseBatch? ==> Replay(View(), request) == Some(response)
      ensures ok ==> forall other: Request | other.id == request.id ::
                && SettingSaved(View(), key, value, other, response).None?
                && (other != request ==> Replay(View(), other) == Some(Error(IdempotencyConflict)))
      ensures forall k | k in old(settings) && k != key :: k in settings && settings[k] == old(settings)[k]
      ensures forall id | id in old(receipts) :: id in receipts && receipts[id] == old(receipts)[id]
      ensures !ok ==> settings == old(settings) && receipts == old(receipts)
      ensures ok == (sound && SettingSaved(old(View()), key, value, request, response).Some?)
      ensures View() == if ok then SettingSaved(old(View()), key, value, request, response).value else old(View())
    {
      if !sound || request.id in receipts {
        return false;
      }
      settings := settings[key := value];
      receipts := receipts[request.id := Receipt(request, response)];
      return true;
    }

    method DeleteDraftTask(task: Task, request: Request, sound: bool) returns (ok: bool)
      modifies this
      ensures ok == (sound && DraftDeleted(old(View()), task, request).Some?)
      ensures View() == if ok then DraftDeleted(old(View()), task, request).value else old(View())
    {
      if !Untouched(View(), task) || !sound || request.id in receipts {
        return false;
      }
      var kept := [];
      for i := 0 to |audits|
        invariant kept == WithoutTask(audits[..i], task.id)
        invariant View() == old(View())
      {
        if audits[i].task != task.id {
          kept := kept + [audits[i]];
        }
        assert audits[..i + 1][..i] == audits[..i];
      }
      assert audits[..|audits|] == audits;
      audits := kept;
      tasks := tasks - {task.id};
      receipts := receipts[request.id := Receipt(request, Deleted(task.id))];
      return true;
    }

    method TaskReplay(request: Request) returns (response: Option<Response>)
      ensures response == Replay(View(), request)
    {
      if request.id !in receipts {
        return None;
      }
      if receipts[request.id].request != request {
        return Some(Error(IdempotencyConflict));
      }
      match receipts[request.id].response {
        case Changed(task) =>
          return Some(if task.id in tasks then Changed(tasks[task.id]) else Deleted(task.id));
        case ReleaseBatch(saved, releases) =>
          var current := [];
          for i := 0 to |saved|
            invariant current == CurrentTasks(View(), saved[..i])
          {
            if saved[i].id in tasks {
              current := current + [tasks[saved[i].id]];
            }
            assert saved[..i + 1][..i] == saved[..i];
          }
          assert saved[..|saved|] == saved;
          return Some(ReleaseBatch(current, releases));
        case other =>
          return Some(other);
      }
    }

    method RecoverRow(task: Task)
      modifies this
      ensures View() == Write(old(View()), Change(Recovered(task), RecoveryAudit(Recovered(task))))
    {
      var next := Recovered(task);
      OneChange(View(), Change(next, RecoveryAudit(next)));
      var saved := SaveTaskAgentChanges([Change(next, RecoveryAudit(next))], None, [], true);
    }

    /**
     Recovers the rows one transaction at a time.  `rows` is the table in its
     listing order; the disk may fail before row `faultAt`.
     */
    method ReconcileTasks(rows: seq<Task>, faultAt: nat) returns (ok: bool)
      requires Lists(rows, tasks)
      modifies this
      ensures PartlyReconciled(old(tasks), tasks) && receipts == old(receipts) && releases == old(releases)
      ensures ok ==> tasks == AllReconciled(old(tasks))
      ensures faultAt >= |rows| ==> ok
      ensures old(audits) <= audits <= old(audits) + RecoveryAudits(rows)
      ensures ok ==> audits == old(audits) + RecoveryAudits(rows)
      ensures links == old(links) && settings == old(settings)
    {
      hide Reconciled, Recovered, Stale, RecoveryAudit, RecoveredUpTo, Lists;
      assert audits == old(audits) + RecoveryAudits(rows[..0]);
      assert RecoveredUpTo(rows, tasks, 0) by {
        NothingRecovered(rows, tasks);
      }
      for i := 0 to |rows|
        invariant tasks.Keys == old(tasks).Keys && receipts == old(receipts) && releases == old(releases)
        invariant RecoveredUpTo(rows, tasks, i) && links == old(links) && settings == old(settings)
        invariant audits == old(audits) + RecoveryAudits(rows[..i])
      {
        var task := rows[i];
        assert rows[..i + 1][..i] == rows[..i];
        RecoveryAuditsGrow(rows, i);
        NextRow(rows, tasks, i, old(tasks));
        if Stale(task) {
          if i == faultAt {
            RowByRow(old(tasks), rows, tasks, i);
            return false;
          }
          RecoverRow(task);
        }
      }
      assert rows[..|rows|] == rows;
      RowByRow(old(tasks), rows, tasks, |rows|);
      return true;
    }
  }

  lemma {:induction false} RefusedPrefix(db: Database, changes: seq<Change>, i: nat)
    requires i <= |changes| && AdvanceAll(db, changes[..i]).None?
    ensures AdvanceAll(db, changes).None?
    decreases |changes| - i
  {
    if i < |changes| {
      assert changes[..i + 1][..i] == changes[..i];
      RefusedPrefix(db, changes, i + 1);
    } else {
      assert changes[..i] == changes;
    }
  }

  /** What a recovery leaves behind, whether it got through or not. */
  ghost predicate PartlyReconciled(before: map<TaskId, Task>, after: map<TaskId, Task>) {
    after.Keys == before.Keys && forall id | id in before :: after[id] == before[id] || after[id] == Reconciled(before[id])
  }

  lemma {:induction false} PartOfRecovery(tables: seq<map<TaskId, Task>>, i: nat)
    requires i < |tables| && forall k: nat | k < |tables| - 1 :: PartlyReconciled(tables[k], tables[k + 1])
    ensures PartlyReconciled(tables[0], tables[i])
  {
    hide Reconciled;
    if i > 0 {
      PartOfRecovery(tables, i - 1);
      var k: nat := i - 1;
      assert PartlyReconciled(tables[k], tables[k + 1]);
      forall id | id in tables[0] {
        ReconcileIsIdempotent(tables[0][id]);
      }
    }
  }

  /**
   However often recovery is interrupted half way, as soon as one gets through the table is as if the first one had:
   every row recovered at most once, one revision up.
   */
  lemma RecoveryResumes(tables: seq<map<TaskId, Task>>, final: map<TaskId, Task>)
    requires |tables| > 0 && forall k: nat | k < |tables| - 1 :: PartlyReconciled(tables[k], tables[k + 1])
    requires final == AllReconciled(tables[|tables| - 1])
    ensures final == AllReconciled(tables[0])
    ensures forall id | id in tables[0] :: id in final && final[id].revision <= tables[0][id].revision + 1
  {
    PartOfRecovery(tables, |tables| - 1);
    forall id | id in tables[0] {
      ReconcileIsIdempotent(tables[0][id]);
    }
  }

  // ---- Batches ----

  /** A request names every task at most once. */
  ghost predicate DistinctTasks(changes: seq<Change>) {
    forall j, k | 0 <= j < k < |changes| :: changes[j].task.id != changes[k].task.id
  }

  predicate Among(changes: seq<Change>, id: TaskId) {
    exists k | 0 <= k < |changes| :: changes[k].task.id == id
  }

  /** What one committed batch has written: each of its tasks, one revision up, and no other. */
  ghost predicate AdvancedExactly(db: Database, changes: seq<Change>, n: Database) {
    && n.tasks.Keys == db.tasks.Keys
    && (forall k | 0 <= k < |changes| :: AdvancedOne(db, changes[k].task, n))
    && (forall id | id in db.tasks && !Among(changes, id) :: n.tasks[id] == db.tasks[id])
  }

  ghost predicate AdvancedOne(db: Database, t: Task, n: Database) {
    && t.id in db.tasks && t.id in n.tasks && n.tasks[t.id] == t
    && t.revision == db.tasks[t.id].revision + 1 && t.project == db.tasks[t.id].project
    && (t.release.Some? ==> t.release.value in n.releases && n.releases[t.release.value].project == t.project)
  }

  lemma {:induction false} AdvanceAllAdvances(db: Database, changes: seq<Change>)
    requires AdvanceAll(db, changes).Some? && DistinctTasks(changes)
    ensures AdvancedExactly(db, changes, AdvanceAll(db, changes).value)
    ensures AdvanceAll(db, changes).value.releases == db.releases
    ensures AdvanceAll(db, changes).value.receipts == db.receipts
  {
    hide AdvancedExactly, Advances, DistinctTasks;
    if changes == [] {
      NothingAdvanced(db);
    } else {
      var front, last := changes[..|changes| - 1], changes[|changes| - 1];
      assert changes == front + [last];
      FrontIsDistinct(front, last);
      AdvanceAllAdvances(db, front);
      LastAdvances(db, front, AdvanceAll(db, front).value, last);
    }
  }

  lemma NothingAdvanced(db: Database)
    ensures AdvancedExactly(db, [], db)
  {
  }

  lemma FrontIsDistinct(front: seq<Change>, last: Change)
    requires DistinctTasks(front + [last])
    ensures DistinctTasks(front) && !Among(front, last.task.id)
  {
    var changes := front + [last];
    forall j, k | 0 <= j < k < |front| ensures front[j].task.id != front[k].task.id {
      assert changes[j] == front[j] && changes[k] == front[k];
    }
    forall k | 0 <= k < |front| ensures front[k].task.id != last.task.id {
      assert changes[k] == front[k] && changes[|front|] == last;
    }
  }

  lemma LastAdvances(db: Database, front: seq<Change>, rest: Database, last: Change)
    requires AdvancedExactly(db, front, rest) && Advances(rest, last.task) && rest.releases == db.releases
    requires !Among(front, last.task.id)
    ensures AdvancedExactly(db, front + [last], Write(rest, last))
  {
    var changes, n := front + [last], Write(rest, last);
    forall k | 0 <= k < |changes| ensures AdvancedOne(db, changes[k].task, n) {
      if k < |front| {
        assert changes[k] == front[k] && AdvancedOne(db, front[k].task, rest);
      }
    }
    forall id | id in db.tasks && !Among(changes, id) ensures n.tasks[id] == db.tasks[id] {
      assert changes[|front|].task.id != id;
      forall k | 0 <= k < |front| ensures front[k].task.id != id {
        assert changes[k] == front[k];
      }
    }
  }

  // ---- Runs of transactions, retries and restarts ----

  datatype Step =
    | Save(changes: seq<Change>, receipt: Option<Receipt>, agents: seq<(AgentId, Option<TaskId>)>, sound: bool)
    | SaveBatch(release: Option<Release>, changes: seq<Change>, request: Request, response: Response, sound: bool)
    | SaveSetting(key: string, value: string, request: Request, response: Response, sound: bool)
    | DeleteDraft(task: Task, request: Request, sound: bool)
    | Restart

  function RequestOf(step: Step): Option<Request> {
    match step
    case Save(_, receipt, _, _) => if receipt.Some? then Some(receipt.value.request) else None
    case SaveBatch(_, _, request, _, _) => Some(request)
    case SaveSetting(_, _, request, _, _) => Some(request)
    case DeleteDraft(_, request, _) => Some(request)
    case Restart => None
  }

  function AllReconciled(tasks: map<TaskId, Task>): map<TaskId, Task> {
    map id | id in tasks :: Reconciled(tasks[id])
  }

  function Attempted(db: Database, step: Step): Option<Database> {
    match step
    case Save(changes, receipt, agents, sound) => if sound then Saved(db, changes, receipt, agents) else None
    case SaveBatch(release, changes, request, response, sound) =>
      if sound then BatchSaved(db, release, changes, request, response) else None
    case SaveSetting(key, value, request, response, sound) =>
      if sound then SettingSaved(db, key, value, request, response) else None
    case DeleteDraft(task, request, sound) => if sound then DraftDeleted(db, task, request) else None
    case Restart => Some(db.(tasks := AllReconciled(db.tasks)))
  }

  predicate Commits(db: Database, step: Step) {
    Attempted(db, step).Some?
  }

  function Next(db: Database, step: Step): Database {
    match Attempted(db, step)
    case Some(n) => n
    case None => db
  }

  /** The tasks a response reports. */
  function Reported(response: Response): seq<Task> {
    match response
    case Changed(task) => [task]
    case ReleaseBatch(tasks, _) => tasks
    case _ => []
  }

  ghost predicate ReportsChanges(response: Response, changes: seq<Change>) {
    forall i | 0 <= i < |Reported(response)| :: exists k | 0 <= k < |changes| :: changes[k].task == Reported(response)[i]
  }

  /** Callers build their rows from the current ones under the lock, so no row goes back. */
  ghost predicate NeverBack(db: Database, changes: seq<Change>) {
    forall k | 0 <= k < |changes| ::
      var t := changes[k].task; t.revision >= 1 && (t.id in db.tasks ==> t.revision >= db.tasks[t.id].revision)
  }

  ghost predicate Enabled(db: Database, step: Step) {
    match step
    case Save(changes, receipt, _, _) =>
      && DistinctTasks(changes) && NeverBack(db, changes)
      && (receipt.Some? ==> ReportsChanges(receipt.value.response, changes))
    case SaveBatch(_, changes, _, response, _) => DistinctTasks(changes) && ReportsChanges(response, changes)
    case SaveSetting(_, _, _, response, _) => response.Presets?
    case DeleteDraft(task, _, _) => task.id in db.tasks && db.tasks[task.id] == task
    case Restart => true
  }

  ghost predicate IsRun(states: seq<Database>, steps: seq<Step>) {
    && |states| == |steps| + 1 && states[0] == EMPTY
    && forall i | 0 <= i < |steps| :: Enabled(states[i], steps[i]) && states[i + 1] == Next(states[i], steps[i])
  }

  // ---- Effects come with their receipt ----

  lemma {:induction false} WritesLeaveReceipts(db: Database, changes: seq<Change>, agents: seq<(AgentId, Option<TaskId>)>)
    ensures LinkAll(WriteAll(db, changes), agents).receipts == db.receipts
    decreases |changes| + |agents|
  {
    if agents != [] {
      WritesLeaveReceipts(db, changes, agents[..|agents| - 1]);
    } else if changes != [] {
      WritesLeaveReceipts(db, changes[..|changes| - 1], []);
    }
  }

  lemma {:induction false} AdvancingLeavesReceipts(db: Database, changes: seq<Change>)
    ensures AdvanceAll(db, changes).Some? ==> AdvanceAll(db, changes).value.receipts == db.receipts
  {
    if changes != [] {
      AdvancingLeavesReceipts(db, changes[..|changes| - 1]);
    }
  }

  /** A step either commits its receipt with everything else or changes nothing; a fault or a used id refuses it. */
  lemma EffectsComeWithReceipt(db: Database, step: Step)
    ensures !Commits(db, step) ==> Next(db, step) == db
    ensures Commits(db, step) && !step.Restart? ==> step.sound
    ensures Commits(db, step) && RequestOf(step).Some? ==>
              && RequestOf(step).value.id !in db.receipts
              && Next(db, step).receipts.Keys == db.receipts.Keys + {RequestOf(step).value.id}
              && Next(db, step).receipts[RequestOf(step).value.id].request == RequestOf(step).value
    ensures RequestOf(step).None? ==> Next(db, step).receipts == db.receipts
    ensures forall id | id in db.receipts :: id in Next(db, step).receipts && Next(db, step).receipts[id] == db.receipts[id]
  {
    hide WriteAll, LinkAll, AdvanceAll, InsertRelease, WithoutTask, Untouched, Advances, Reconciled;
    match step {
      case Save(changes, _, agents, _) => WritesLeaveReceipts(db, changes, agents);
      case SaveBatch(release, changes, _, _, _) =>
        ReleasesLeaveReceipts(db, release);
        if InsertRelease(db, release).Some? {
          AdvancingLeavesReceipts(InsertRelease(db, release).value, changes);
        }
      case _ =>
    }
  }

  lemma ReleasesLeaveReceipts(db: Database, release: Option<Release>)
    ensures InsertRelease(db, release).Some? ==> InsertRelease(db, release).value.(releases := db.releases) == db
  {
  }

  lemma {:induction false} ReceiptsStay(states: seq<Database>, steps: seq<Step>, i: nat, j: nat, id: Uuid)
    requires IsRun(states, steps) && i <= j < |states| && id in states[i].receipts
    ensures id in states[j].receipts && states[j].receipts[id] == states[i].receipts[id]
    decreases j - i
  {
    hide Next, Enabled, Commits;
    if i < j {
      ReceiptsStay(states, steps, i, j - 1, id);
      EffectsComeWithReceipt(states[j - 1], steps[j - 1]);
      assert states[j - 1 + 1] == Next(states[j - 1], steps[j - 1]);
    }
  }

  /** However requests are retried and the daemon restarts, the effects of one request id commit at most once. */
  lemma CommittedOnce(states: seq<Database>, steps: seq<Step>, i: nat, j: nat)
    requires IsRun(states, steps) && i < j < |steps|
    requires RequestOf(steps[i]).Some? && RequestOf(steps[j]).Some?
    requires RequestOf(steps[i]).value.id == RequestOf(steps[j]).value.id
    requires Commits(states[i], steps[i])
    ensures !Commits(states[j], steps[j]) && states[j + 1] == states[j]
  {
    hide Next, Enabled, Commits;
    EffectsComeWithReceipt(states[i], steps[i]);
    assert states[i + 1] == Next(states[i], steps[i]);
    ReceiptsStay(states, steps, i + 1, j, RequestOf(steps[i]).value.id);
    EffectsComeWithReceipt(states[j], steps[j]);
  }

  predicate CommitsId(db: Database, step: Step, id: Uuid) {
    Commits(db, step) && RequestOf(step).Some? && RequestOf(step).value.id == id
  }

  /** A request is answered from a receipt exactly if one with its id was committed before. */
  lemma {:induction false} RepliesIff(states: seq<Database>, steps: seq<Step>, j: nat, request: Request)
    requires IsRun(states, steps) && j < |states|
    ensures Replay(states[j], request).Some? <==> exists i | 0 <= i < j :: CommitsId(states[i], steps[i], request.id)
  {
    hide Next, Enabled, Commits, CurrentTasks;
    if j > 0 {
      RepliesIff(states, steps, j - 1, request);
      EffectsComeWithReceipt(states[j - 1], steps[j - 1]);
      assert states[j - 1 + 1] == Next(states[j - 1], steps[j - 1]);
      assert CommitsId(states[j - 1], steps[j - 1], request.id) ==> request.id in states[j].receipts;
    }
  }

  /** A batch commits all of its tasks at exactly one revision higher, or none of them. */
  lemma BatchIsAllOrNone(db: Database, step: Step)
    requires step.SaveBatch? && Enabled(db, step)
    ensures Commits(db, step) ==> AdvancedExactly(db, step.changes, Next(db, step))
    ensures !Commits(db, step) ==> Next(db, step) == db
  {
    hide AdvancedExactly, InsertRelease, AdvanceAll;
    if Commits(db, step) {
      ReleasesLeaveReceipts(db, step.release);
      var released := InsertRelease(db, step.release).value;
      AdvanceAllAdvances(released, step.changes);
      var written := AdvanceAll(released, step.changes).value;
      SameRows(db, released, step.changes, written, Next(db, step));
    }
  }

  lemma SameRows(db: Database, released: Database, changes: seq<Change>, written: Database, n: Database)
    requires AdvancedExactly(released, changes, written)
    requires released.tasks == db.tasks && n.tasks == written.tasks && n.releases == written.releases
    ensures AdvancedExactly(db, changes, n)
  {
    forall k | 0 <= k < |changes| ensures AdvancedOne(db, changes[k].task, n) {
      assert AdvancedOne(released, changes[k].task, written);
    }
  }

  // ---- What one transaction leaves behind ----

  /** The audits that come with some changes, in their order. */
  function AuditsOf(changes: seq<Change>): (r: seq<Audit>)
    ensures |r| == |changes| && forall k | 0 <= k < |r| :: r[k] == changes[k].audit
  {
    seq(|changes|, k requires 0 <= k < |changes| => changes[k].audit)
  }

  lemma AuditsOfMore(front: seq<Change>, last: Change)
    ensures AuditsOf(front + [last]) == AuditsOf(front) + [last.audit]
  {
  }

  lemma {:induction false} WritingAudits(db: Database, changes: seq<Change>)
    ensures var n := WriteAll(db, changes); n == db.(tasks := n.tasks, audits := db.audits + AuditsOf(changes))
  {
    if changes == [] {
      assert db.audits + AuditsOf([]) == db.audits;
    } else {
      var front, last := changes[..|changes| - 1], changes[|changes| - 1];
      WritingAudits(db, front);
      AuditsOfMore(front, last);
      assert changes == front + [last];
      assert db.audits + (AuditsOf(front) + [last.audit]) == db.audits + AuditsOf(front) + [last.audit];
    }
  }

  lemma {:induction false} AdvancingAudits(db: Database, changes: seq<Change>)
    requires AdvanceAll(db, changes).Some?
    ensures var n := AdvanceAll(db, changes).value; n == db.(tasks := n.tasks, audits := db.audits + AuditsOf(changes))
  {
    hide Advances;
    if changes == [] {
      assert db.audits + AuditsOf([]) == db.audits;
    } else {
      var front, last := changes[..|changes| - 1], changes[|changes| - 1];
      AdvancingAudits(db, front);
      AuditsOfMore(front, last);
      assert changes == front + [last];
      assert db.audits + (AuditsOf(front) + [last.audit]) == db.audits + AuditsOf(front) + [last.audit];
    }
  }

  /** The last word on an agent counts, and only agents that exist are linked. */
  ghost predicate LinkedBy(before: map<AgentId, Option<TaskId>>, agents: seq<(AgentId, Option<TaskId>)>,
                           after: map<AgentId, Option<TaskId>>) {
    && after.Keys == before.Keys
    && (forall k | 0 <= k < |agents| && agents[k].0 in after && (forall j | k < j < |agents| :: agents[j].0 != agents[k].0) ::
          after[agents[k].0] == agents[k].1)
    && (forall agent | agent in before && (forall k | 0 <= k < |agents| :: agents[k].0 != agent) :: after[agent] == before[agent])
  }

  lemma {:induction false} LinkingLinks(db: Database, agents: seq<(AgentId, Option<TaskId>)>)
    ensures var n := LinkAll(db, agents); n == db.(links := n.links) && LinkedBy(db.links, agents, n.links)
  {
    if agents != [] {
      var front, last := agents[..|agents| - 1], agents[|agents| - 1];
      LinkingLinks(db, front);
      LastLinks(db.links, front, LinkAll(db, front).links, last);
      assert agents == front + [last];
    }
  }

  lemma LastLinks(before: map<AgentId, Option<TaskId>>, front: seq<(AgentId, Option<TaskId>)>,
                  links: map<AgentId, Option<TaskId>>, last: (AgentId, Option<TaskId>))
    requires LinkedBy(before, front, links)
    ensures LinkedBy(before, front + [last], if last.0 in links then links[last.0 := last.1] else links)
  {
    var agents, after := front + [last], if last.0 in links then links[last.0 := last.1] else links;
    assert agents[|front|] == last;
    forall k | 0 <= k < |agents| && agents[k].0 in after && (forall j | k < j < |agents| :: agents[j].0 != agents[k].0)
      ensures after[agents[k].0] == agents[k].1
    {
      if k < |front| {
        assert agents[k] == front[k] && agents[|front|].0 != front[k].0;
        forall j | k < j < |front| ensures front[j].0 != front[k].0 {
          assert agents[j] == front[j];
        }
      }
    }
    forall agent | agent in before && (forall k | 0 <= k < |agents| :: agents[k].0 != agent)
      ensures after[agent] == before[agent]
    {
      assert agents[|front|].0 != agent;
      forall k | 0 <= k < |front| ensures front[k].0 != agent {
        assert agents[k] == front[k];
      }
    }
  }

  /**
   A save commits exactly if its request id is new.  It writes each of its rows and no other, appends their audits in
   order, links the agents that exist, and keeps its receipt.
   */
  lemma SaveMeans(db: Database, changes: seq<Change>, receipt: Option<Receipt>, agents: seq<(AgentId, Option<TaskId>)>)
    requires DistinctTasks(changes)
    ensures Saved(db, changes, receipt, agents).Some? <==> receipt.None? || receipt.value.request.id !in db.receipts
    ensures Saved(db, changes, receipt, agents).Some? ==>
              var n := Saved(db, changes, receipt, agents).value;
              && Written(db, changes, n) && n.audits == db.audits + AuditsOf(changes) && LinkedBy(db.links, agents, n.links)
              && n.receipts == (if receipt.Some? then db.receipts[receipt.value.request.id := receipt.value] else db.receipts)
              && n.releases == db.releases && n.settings == db.settings
  {
    var written := WriteAll(db, changes);
    WritingAudits(db, changes);
    LinkingLinks(written, agents);
    WriteAllWrites(db, changes);
    hide WriteAll, LinkAll, Written, LinkedBy;
    if Saved(db, changes, receipt, agents).Some? {
      SameTasks(db, changes, written, Saved(db, changes, receipt, agents).value);
    }
  }

  /** The name is trimmed and not too long, and neither the id nor, in its project, the name is used. */
  ghost predicate NewRelease(db: Database, release: Release) {
    && ConfigText.Trim(release.name) == release.name && 1 <= |release.name| <= 128
    && release.id !in db.releases
    && forall id | id in db.releases :: !(db.releases[id].project == release.project && db.releases[id].name == release.name)
  }

  /** Each row is one revision behind and in the project it was in, and its release, if any, belongs to that project. */
  ghost predicate AllOneBehind(db: Database, releases: map<Uuid, Release>, changes: seq<Change>) {
    forall k | 0 <= k < |changes| ::
      var t := changes[k].task;
      && t.id in db.tasks && db.tasks[t.id].project == t.project && db.tasks[t.id].revision + 1 == t.revision
      && (t.release.Some? ==> t.release.value in releases && releases[t.release.value].project == t.project)
  }

  lemma {:induction false} AdvancesIff(db: Database, changes: seq<Change>)
    requires DistinctTasks(changes)
    ensures AdvanceAll(db, changes).Some? <==> AllOneBehind(db, db.releases, changes)
  {
    hide DistinctTasks, Write;
    if changes != [] {
      var front, last := changes[..|changes| - 1], changes[|changes| - 1];
      assert changes == front + [last];
      FrontIsDistinct(front, last);
      AdvancesIff(db, front);
      OneMoreBehind(db, front, last);
      if AdvanceAll(db, front).Some? {
        AdvanceAllAdvances(db, front);
      }
    }
  }

  lemma OneMoreBehind(db: Database, front: seq<Change>, last: Change)
    ensures AllOneBehind(db, db.releases, front + [last]) <==>
              && AllOneBehind(db, db.releases, front)
              && var t := last.task;
              && t.id in db.tasks && db.tasks[t.id].project == t.project && db.tasks[t.id].revision + 1 == t.revision
              && (t.release.Some? ==> t.release.value in db.releases && db.releases[t.release.value].project == t.project)
  {
    var all := front + [last];
    assert all[|front|] == last && forall k | 0 <= k < |front| :: all[k] == front[k];
  }

  lemma InsertingMeans(db: Database, release: Option<Release>)
    ensures InsertRelease(db, release).Some? <==> release.None? || NewRelease(db, release.value)
    ensures InsertRelease(db, release).Some? ==>
              InsertRelease(db, release).value
              == db.(releases := if release.Some? then db.releases[release.value.id := release.value] else db.releases)
  {
    hide ConfigText.Trim;
  }

  /**
   A batch commits exactly if its release is new, every row is one revision behind with a release of its own project,
   and its request id is new; it appends the audits of its rows in order and keeps release and receipt.
   */
  lemma BatchMeans(db: Database, release: Option<Release>, changes: seq<Change>, request: Request, response: Response)
    requires DistinctTasks(changes)
    ensures var releases := if release.Some? then db.releases[release.value.id := release.value] else db.releases;
            && (BatchSaved(db, release, changes, request, response).Some? <==>
                  && (release.Some? ==> NewRelease(db, release.value)) && AllOneBehind(db, releases, changes)
                  && request.id !in db.receipts)
            && (BatchSaved(db, release, changes, request, response).Some? ==>
                  var n := BatchSaved(db, release, changes, request, response).value;
                  && AdvancedExactly(db, changes, n) && n.audits == db.audits + AuditsOf(changes) && n.links == db.links
                  && n.receipts == db.receipts[request.id := Receipt(request, response)] && n.releases == releases
                  && n.settings == db.settings)
  {
    InsertingMeans(db, release);
    hide InsertRelease, NewRelease, AdvanceAll, AllOneBehind, AdvancedExactly, DistinctTasks, AuditsOf;
    if InsertRelease(db, release).Some? {
      var released := InsertRelease(db, release).value;
      AdvancesIff(released, changes);
      BehindEither(db, released, changes);
      if AdvanceAll(released, changes).Some? {
        AdvancingAudits(released, changes);
        AdvanceAllAdvances(released, changes);
        if request.id !in db.receipts {
          SameRows(db, released, changes, AdvanceAll(released, changes).value,
                   BatchSaved(db, release, changes, request, response).value);
        }
      }
    }
  }

  lemma BehindEither(db: Database, released: Database, changes: seq<Change>)
    requires released.tasks == db.tasks
    ensures AllOneBehind(released, released.releases, changes) <==> AllOneBehind(db, released.releases, changes)
  {
  }

  lemma {:induction false} WithoutTaskOfConcat(a: seq<Audit>, b: seq<Audit>, id: TaskId)
    ensures WithoutTask(a + b, id) == WithoutTask(a, id) + WithoutTask(b, id)
    ensures forall audit | audit in WithoutTask(a, id) :: audit in a && audit.task != id
    ensures forall audit | audit in a && audit.task != id :: audit in WithoutTask(a, id)
    decreases |a| + |b|
  {
    if b != [] {
      var front, last := b[..|b| - 1], b[|b| - 1];
      WithoutTaskOfConcat(a, front, id);
      assert (a + b)[..|a + b| - 1] == a + front && (a + b)[|a + b| - 1] == last;
    } else {
      assert a + b == a && WithoutTask(a, id) + [] == WithoutTask(a, id);
      if a != [] {
        WithoutTaskOfConcat(a[..|a| - 1], [], id);
        assert a == a[..|a| - 1] + [a[|a| - 1]];
      }
    }
  }

  /**
   A draft is deleted exactly if nothing refers to it: its first revision, no agent, and no audit but its creation.
   Then nothing of it is left, and all else is as it was.
   */
  lemma DeletionMeans(db: Database, task: Task, request: Request)
    ensures DraftDeleted(db, task, request).Some? <==>
              && task.revision == 1 && task.assignedAgent.None? && (forall agent | agent in db.links :: db.links[agent] != Some(task.id))
              && (forall audit | audit in db.audits && audit.task == task.id :: audit.action == "create")
              && request.id !in db.receipts
    ensures DraftDeleted(db, task, request).Some? ==>
              var n := DraftDeleted(db, task, request).value;
              && n.tasks == db.tasks - {task.id} && (forall audit | audit in n.audits :: audit in db.audits && audit.task != task.id)
              && (forall audit | audit in db.audits && audit.task != task.id :: audit in n.audits)
              && n.links == db.links && n.receipts == db.receipts[request.id := Receipt(request, Deleted(task.id))]
              && n.releases == db.releases && n.settings == db.settings
  {
    WithoutTaskOfConcat(db.audits, [], task.id);
    assert (forall audit | audit in db.audits && audit.task == task.id :: audit.action == "create") <==>
           (forall k | 0 <= k < |db.audits| && db.audits[k].task == task.id :: db.audits[k].action == "create");
  }

  /** Audits are for good: all that can go are those of an untouched draft, together with it, and they only say that it was created. */
  lemma AuditStays(db: Database, step: Step, audit: Audit)
    requires Enabled(db, step) && audit in db.audits && audit !in Next(db, step).audits
    ensures step.DeleteDraft? && Commits(db, step) && step.task.id == audit.task && audit.action == "create"
  {
    hide WriteAll, LinkAll, AdvanceAll, InsertRelease, WithoutTask, DraftDeleted, AllReconciled, NeverBack;
    match step {
      case Save(changes, receipt, agents, _) =>
        WritingAudits(db, changes);
        LinkingLinks(WriteAll(db, changes), agents);
      case SaveBatch(release, changes, _, _, _) =>
        InsertingMeans(db, release);
        if InsertRelease(db, release).Some? && AdvanceAll(InsertRelease(db, release).value, changes).Some? {
          AdvancingAudits(InsertRelease(db, release).value, changes);
        }
      case DeleteDraft(task, request, _) => DeletionMeans(db, task, request);
      case _ =>
    }
  }

  lemma {:induction false} AuditsAreForGood(states: seq<Database>, steps: seq<Step>, i: nat, j: nat, audit: Audit) returns (l: nat)
    requires IsRun(states, steps) && i <= j < |states| && audit in states[i].audits && audit !in states[j].audits
    ensures i <= l < j && steps[l].DeleteDraft? && Commits(states[l], steps[l]) && steps[l].task.id == audit.task
    ensures audit.action == "create"
    decreases j - i
  {
    hide Next, Enabled, Commits;
    assert states[i + 1] == Next(states[i], steps[i]);
    if audit in states[i + 1].audits {
      l := AuditsAreForGood(states, steps, i + 1, j, audit);
    } else {
      l := i;
      AuditStays(states[i], steps[i], audit);
    }
  }

  // ---- What a replay reports is never older than the receipt ----

  /** The row of a task is as new as `t`, or is gone; only first revisions can be gone. */
  ghost predicate AsNewAs(db: Database, t: Task) {
    if t.id in db.tasks then db.tasks[t.id].revision >= t.revision else t.revision <= 1
  }

  ghost predicate RowsSound(db: Database) {
    forall id | id in db.tasks :: db.tasks[id].id == id && db.tasks[id].revision >= 1
  }

  ghost predicate ReceiptsSound(db: Database) {
    forall r, k | r in db.receipts && 0 <= k < |Reported(db.receipts[r].response)| ::
      AsNewAs(db, Reported(db.receipts[r].response)[k])
  }

  ghost predicate ReceiptIds(db: Database) {
    forall r | r in db.receipts :: db.receipts[r].request.id == r
  }

  /** Every row only moves on to later revisions, and only untouched drafts disappear. */
  ghost predicate MovesOn(db: Database, n: Database) {
    && (forall id | id in db.tasks && id in n.tasks :: n.tasks[id].revision >= db.tasks[id].revision)
    && (forall id | id in db.tasks && id !in n.tasks :: db.tasks[id].revision == 1)
  }

  /** What a successful write of `changes` leaves in the task table. */
  ghost predicate Written(db: Database, changes: seq<Change>, n: Database) {
    && (forall k | 0 <= k < |changes| :: changes[k].task.id in n.tasks && n.tasks[changes[k].task.id] == changes[k].task)
    && (forall id | id in n.tasks && !Among(changes, id) :: id in db.tasks && n.tasks[id] == db.tasks[id])
    && (forall id | id in db.tasks :: id in n.tasks)
  }

  lemma {:induction false} LinkingLeavesTasks(db: Database, agents: seq<(AgentId, Option<TaskId>)>)
    ensures LinkAll(db, agents).tasks == db.tasks
  {
    if agents != [] {
      LinkingLeavesTasks(db, agents[..|agents| - 1]);
    }
  }

  lemma {:induction false} WriteAllWrites(db: Database, changes: seq<Change>)
    requires DistinctTasks(changes)
    ensures Written(db, changes, WriteAll(db, changes))
  {
    hide DistinctTasks;
    if changes != [] {
      var front, last := changes[..|changes| - 1], changes[|changes| - 1];
      assert changes == front + [last];
      FrontIsDistinct(front, last);
      WriteAllWrites(db, front);
      LastIsWritten(db, front, WriteAll(db, front), last);
    }
  }

  lemma LastIsWritten(db: Database, front: seq<Change>, rest: Database, last: Change)
    requires Written(db, front, rest) && !Among(front, last.task.id)
    ensures Written(db, front + [last], Write(rest, last))
  {
    var changes, n := front + [last], Write(rest, last);
    forall k | 0 <= k < |changes| ensures changes[k].task.id in n.tasks && n.tasks[changes[k].task.id] == changes[k].task {
      if k < |front| {
        assert changes[k] == front[k];
      }
    }
    forall id | id in n.tasks && !Among(changes, id) ensures id in db.tasks && n.tasks[id] == db.tasks[id] {
      assert changes[|front|].task.id != id;
      forall k | 0 <= k < |front| ensures front[k].task.id != id {
        assert changes[k] == front[k];
      }
    }
  }

  lemma WrittenMovesOn(db: Database, changes: seq<Change>, n: Database)
    requires Written(db, changes, n) && NeverBack(db, changes) && RowsSound(db)
    ensures MovesOn(db, n) && RowsSound(n)
  {
    forall id | id in n.tasks
      ensures n.tasks[id].id == id && n.tasks[id].revision >= 1
      ensures id in db.tasks ==> n.tasks[id].revision >= db.tasks[id].revision
    {
      if Among(changes, id) {
        var k :| 0 <= k < |changes| && changes[k].task.id == id;
      }
    }
  }

  lemma AdvancedMovesOn(db: Database, changes: seq<Change>, n: Database)
    requires AdvancedExactly(db, changes, n) && RowsSound(db)
    ensures MovesOn(db, n) && RowsSound(n)
  {
    forall id | id in n.tasks
      ensures n.tasks[id].id == id && n.tasks[id].revision >= 1 && n.tasks[id].revision >= db.tasks[id].revision
    {
      if Among(changes, id) {
        var k :| 0 <= k < |changes| && changes[k].task.id == id;
        assert AdvancedOne(db, changes[k].task, n);
      }
    }
  }

  /** The two ways a committed step can leave the rows it was given. */
  ghost predicate RowsAre(db: Database, step: Step) {
    match step
    case Save(changes, _, _, _) => Written(db, changes, Next(db, step))
    case SaveBatch(_, changes, _, _, _) => AdvancedExactly(db, changes, Next(db, step))
    case SaveSetting(_, _, _, _, _) => Next(db, step).tasks == db.tasks
    case DeleteDraft(task, _, _) => Next(db, step).tasks == db.tasks - {task.id} && task.revision == 1
    case Restart => Next(db, step).tasks == AllReconciled(db.tasks)
  }

  lemma CommittedRows(db: Database, step: Step)
    requires Enabled(db, step) && Commits(db, step)
    ensures RowsAre(db, step)
  {
    hide WriteAll, LinkAll, AdvanceAll, InsertRelease, WithoutTask, Advances, AdvancedExactly, Written, Reconciled;
    match step {
      case Save(changes, _, agents, _) =>
        WriteAllWrites(db, changes);
        LinkingLeavesTasks(WriteAll(db, changes), agents);
        SameTasks(db, changes, WriteAll(db, changes), Next(db, step));
      case SaveBatch(_, _, _, _, _) => BatchIsAllOrNone(db, step);
      case _ =>
    }
  }

  lemma SameTasks(db: Database, changes: seq<Change>, written: Database, n: Database)
    requires Written(db, changes, written) && n.tasks == written.tasks
    ensures Written(db, changes, n)
  {
  }

  lemma RestartMovesOn(db: Database, n: Database)
    requires RowsSound(db) && n.tasks == AllReconciled(db.tasks)
    ensures MovesOn(db, n) && RowsSound(n)
  {
  }

  lemma StepMovesOn(db: Database, step: Step)
    requires RowsSound(db) && Enabled(db, step)
    ensures MovesOn(db, Next(db, step)) && RowsSound(Next(db, step))
  {
    hide Attempted, AdvancedExactly, Written, AllReconciled;
    if Commits(db, step) {
      CommittedRows(db, step);
      match step {
        case Save(changes, _, _, _) => WrittenMovesOn(db, changes, Next(db, step));
        case SaveBatch(_, changes, _, _, _) => AdvancedMovesOn(db, changes, Next(db, step));
        case Restart => RestartMovesOn(db, Next(db, step));
        case _ =>
      }
    }
  }

  /** The response that a committing step stores. */
  function ResponseOf(step: Step): Response {
    match step
    case Save(_, receipt, _, _) => if receipt.Some? then receipt.value.response else Presets("")
    case SaveBatch(_, _, _, response, _) => response
    case SaveSetting(_, _, _, response, _) => response
    case DeleteDraft(task, _, _) => Deleted(task.id)
    case Restart => Presets("")
  }

  lemma StoredResponse(db: Database, step: Step)
    requires Commits(db, step) && RequestOf(step).Some?
    ensures RequestOf(step).value.id in Next(db, step).receipts
    ensures Next(db, step).receipts[RequestOf(step).value.id] == Receipt(RequestOf(step).value, ResponseOf(step))
  {
    hide WriteAll, LinkAll, AdvanceAll, InsertRelease, WithoutTask, Untouched, Advances;
  }

  lemma NewReportIsCurrent(db: Database, step: Step, k: nat)
    requires Enabled(db, step) && Commits(db, step) && k < |Reported(ResponseOf(step))|
    ensures AsNewAs(Next(db, step), Reported(ResponseOf(step))[k])
  {
    hide Attempted, Next, NeverBack, DistinctTasks;
    CommittedRows(db, step);
    var t := Reported(ResponseOf(step))[k];
    match step {
      case Save(changes, _, _, _) =>
        var j :| 0 <= j < |changes| && changes[j].task == t;
      case SaveBatch(_, changes, _, _, _) =>
        var j :| 0 <= j < |changes| && changes[j].task == t;
        assert AdvancedOne(db, changes[j].task, Next(db, step));
      case _ =>
    }
  }

  lemma StaysAsNew(db: Database, n: Database, t: Task)
    requires MovesOn(db, n) && RowsSound(n) && AsNewAs(db, t)
    ensures AsNewAs(n, t)
  {
  }

  ghost predicate Invariant(db: Database) {
    RowsSound(db) && ReceiptsSound(db) && ReceiptIds(db)
  }

  lemma StepKeepsReceipts(db: Database, step: Step)
    requires Invariant(db) && Enabled(db, step)
    ensures ReceiptsSound(Next(db, step)) && ReceiptIds(Next(db, step))
  {
    hide Attempted, Next, Commits, Enabled, RowsSound, AsNewAs, MovesOn;
    var n := Next(db, step);
    EffectsComeWithReceipt(db, step);
    StepMovesOn(db, step);
    forall r, k | r in n.receipts && 0 <= k < |Reported(n.receipts[r].response)|
      ensures AsNewAs(n, Reported(n.receipts[r].response)[k])
    {
      if r in db.receipts {
        StaysAsNew(db, n, Reported(n.receipts[r].response)[k]);
      } else {
        StoredResponse(db, step);
        NewReportIsCurrent(db, step, k);
      }
    }
  }

  lemma {:induction false} InvariantAlways(states: seq<Database>, steps: seq<Step>, i: nat)
    requires IsRun(states, steps) && i < |states|
    ensures Invariant(states[i])
  {
    hide Next, Enabled, ReceiptsSound;
    if i > 0 {
      InvariantAlways(states, steps, i - 1);
      StepMovesOn(states[i - 1], steps[i - 1]);
      StepKeepsReceipts(states[i - 1], steps[i - 1]);
      assert states[i - 1 + 1] == Next(states[i - 1], steps[i - 1]);
    } else {
      NothingReported();
    }
  }

  lemma NothingReported()
    ensures ReceiptsSound(EMPTY)
  {
  }

  /**
   After a request committed, every retry of it is answered from the receipt with a state of the
   task no older than the one first reported, and any other use of its id is a conflict.
   */
  lemma ReplayIsNeverOlder(states: seq<Database>, steps: seq<Step>, i: nat, j: nat, retry: Request)
    requires IsRun(states, steps) && i < |steps| && i < j < |states|
    requires Commits(states[i], steps[i]) && RequestOf(steps[i]).Some? && retry.id == RequestOf(steps[i]).value.id
    ensures retry != RequestOf(steps[i]).value ==> Replay(states[j], retry) == Some(Error(IdempotencyConflict))
    ensures retry == RequestOf(steps[i]).value && ResponseOf(steps[i]).Changed? ==>
              var first := ResponseOf(steps[i]).task; var now := Replay(states[j], retry);
              || now == Some(Deleted(first.id))
              || (now.Some? && now.value.Changed? && now.value.task.id == first.id && now.value.task.revision >= first.revision)
    ensures retry == RequestOf(steps[i]).value && !ResponseOf(steps[i]).Changed? && !ResponseOf(steps[i]).ReleaseBatch? ==>
              Replay(states[j], retry) == Some(ResponseOf(steps[i]))
  {
    hide Next, Enabled, Commits, Attempted;
    StoredResponse(states[i], steps[i]);
    assert states[i + 1] == Next(states[i], steps[i]);
    ReceiptsStay(states, steps, i + 1, j, retry.id);
    InvariantAlways(states, steps, j);
    if ResponseOf(steps[i]).Changed? {
      assert AsNewAs(states[j], Reported(ResponseOf(steps[i]))[0]);
    }
  }

  /** A replayed batch is its tasks one by one: the row as it is now, or nothing if there is none. */
  lemma {:induction false} ReplayGoesTaskByTask(db: Database, a: seq<Task>, b: seq<Task>, t: Task)
    ensures CurrentTasks(db, a + b) == CurrentTasks(db, a) + CurrentTasks(db, b)
    ensures CurrentTasks(db, [t]) == if t.id in db.tasks then [db.tasks[t.id]] else []
    decreases |b|
  {
    assert [t][..0] == [];
    if b != [] {
      var front, last := b[..|b| - 1], b[|b| - 1];
      ReplayGoesTaskByTask(db, a, front, t);
      assert (a + b)[..|a + b| - 1] == a + front && (a + b)[|a + b| - 1] == last;
    } else {
      assert a + b == a && CurrentTasks(db, a) + [] == CurrentTasks(db, a);
    }
  }

  lemma {:induction false} CurrentTasksAre(db: Database, tasks: seq<Task>)
    requires RowsSound(db) && forall k | 0 <= k < |tasks| :: AsNewAs(db, tasks[k])
    ensures forall t | t in CurrentTasks(db, tasks) ::
              && t.id in db.tasks && db.tasks[t.id] == t
              && exists k | 0 <= k < |tasks| :: tasks[k].id == t.id && t.revision >= tasks[k].revision
    ensures forall k | 0 <= k < |tasks| && tasks[k].id in db.tasks :: db.tasks[tasks[k].id] in CurrentTasks(db, tasks)
  {
    hide RowsSound;
    if tasks != [] {
      var n := |tasks| - 1;
      CurrentTasksAre(db, tasks[..n]);
      assert tasks[n] in tasks;
      forall t | t in CurrentTasks(db, tasks)
        ensures t.id in db.tasks && db.tasks[t.id] == t
        ensures exists k | 0 <= k < |tasks| :: tasks[k].id == t.id && t.revision >= tasks[k].revision
      {
        if t in CurrentTasks(db, tasks[..n]) {
          var k :| 0 <= k < n && tasks[..n][k].id == t.id && t.revision >= tasks[..n][k].revision;
          assert tasks[k].id == t.id;
        } else {
          RowIsItself(db, tasks[n].id);
          assert tasks[n].id == t.id;
        }
      }
      forall k | 0 <= k < |tasks| && tasks[k].id in db.tasks ensures db.tasks[tasks[k].id] in CurrentTasks(db, tasks) {
        if k < n {
          assert tasks[..n][k] == tasks[k];
        }
      }
    }
  }

  lemma RowIsItself(db: Database, id: TaskId)
    requires RowsSound(db) && id in db.tasks
    ensures db.tasks[id].id == id
  {
  }

  /** A replayed batch shows exactly the surviving tasks of the batch, each as it is now. */
  lemma ReplayedBatchIsCurrent(states: seq<Database>, steps: seq<Step>, i: nat, j: nat)
    requires IsRun(states, steps) && i < |steps| && i < j < |states|
    requires Commits(states[i], steps[i]) && RequestOf(steps[i]).Some? && ResponseOf(steps[i]).ReleaseBatch?
    ensures Replay(states[j], RequestOf(steps[i]).value).Some?
    ensures Replay(states[j], RequestOf(steps[i]).value).value.ReleaseBatch?
    ensures var first := ResponseOf(steps[i]).tasks; var now := Replay(states[j], RequestOf(steps[i]).value).value.tasks;
            && (forall t | t in now :: t.id in states[j].tasks && states[j].tasks[t.id] == t
                  && exists k | 0 <= k < |first| :: first[k].id == t.id && t.revision >= first[k].revision)
            && (forall k | 0 <= k < |first| && first[k].id in states[j].tasks :: states[j].tasks[first[k].id] in now)
  {
    hide Next, Enabled, Commits, Attempted, CurrentTasks;
    StoredResponse(states[i], steps[i]);
    assert states[i + 1] == Next(states[i], steps[i]);
    ReceiptsStay(states, steps, i + 1, j, RequestOf(steps[i]).value.id);
    InvariantAlways(states, steps, j);
    var first := ResponseOf(steps[i]).tasks;
    forall k | 0 <= k < |first| ensures AsNewAs(states[j], first[k]) {
      assert AsNewAs(states[j], Reported(ResponseOf(steps[i]))[k]);
    }
    CurrentTasksAre(states[j], first);
  }
}

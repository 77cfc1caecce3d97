/**
 Importing GitHub issues onto a board: which task each issue belongs to, kept in
 the tasks themselves, in the source rows and in the receipts of past imports.
 */
module Import {
  import opened Wrappers
  import ConfigText

  type ProjectId = nat
  type TaskId = nat
  type IssueId = nat
  type RepositoryId = nat
  type Uuid = nat

  const I64_MAX: int := 0x7FFF_FFFF_FFFF_FFFF
  const ORDER_STEP: int := 1024
  const MAX_TITLE: nat := 512
  const MAX_DESCRIPTION: nat := 65536

  datatype Issue = Issue(id: IssueId, number: nat, title: string, body: string)

  datatype Source = Source(repository: RepositoryId, issue: IssueId, number: nat)

  /** `content` stands for everything about a task that an import leaves alone. */
  datatype Task = Task(project: ProjectId, title: string, content: string, revision: nat, orderKey: int, source: Option<Source>)

  datatype Row = Row(repository: RepositoryId, number: nat, task: TaskId)

  /** Imports are told apart by the set of (issue, number) pairs they name, in whatever order and however often. */
  datatype Fingerprint = Fingerprint(project: ProjectId, repository: RepositoryId, identity: set<(IssueId, nat)>)

  datatype ReceiptId = Given(id: Uuid) | Legacy(fingerprint: Fingerprint)

  datatype Receipt = Receipt(fingerprint: Fingerprint, result: seq<TaskId>)

  datatype Board = Board(
    projects: set<ProjectId>,
    tasks: map<TaskId, Task>,
    rows: map<(ProjectId, IssueId), Row>,
    receipts: map<ReceiptId, Receipt>)

  datatype ImportError = ProjectUnavailable | RequestReused | TaskUnavailable | InvalidIssue | Storage

  function IdentityOf(issues: seq<Issue>): set<(IssueId, nat)> {
    set i | i in issues :: (i.id, i.number)
  }

  function ReceiptFor(request: Option<Uuid>, fingerprint: Fingerprint): ReceiptId {
    match request
    case Some(id) => Given(id)
    case None => Legacy(fingerprint)
  }

  function IssueSource(repository: RepositoryId, issue: Issue): Source {
    Source(repository, issue.id, issue.number)
  }

  // ---- Order keys ----

  /** The greatest order key on the board, or 0 when it is empty. */
  ghost predicate IsMaxKey(tasks: map<TaskId, Task>, max: int) {
    && (forall id | id in tasks :: tasks[id].orderKey <= max)
    && (if tasks == map[] then max == 0 else exists id | id in tasks :: tasks[id].orderKey == max)
  }

  function SaturatingAdd(a: int, b: int): int {
    if a + b > I64_MAX then I64_MAX else a + b
  }

  // ---- Going through the issues ----

  datatype Change = Change(id: TaskId, task: Task, isNew: bool)

  datatype Progress = Progress(changes: seq<Change>, sources: seq<(TaskId, Issue)>, ids: seq<TaskId>, seen: set<IssueId>)

  const NOTHING := Progress([], [], [], {})

  predicate Importable(issue: Issue) {
    ConfigText.Trim(issue.title) != "" && |issue.title| <= MAX_TITLE && |issue.body| <= MAX_DESCRIPTION
  }

  function Relinked(task: Task, repository: RepositoryId, issue: Issue): Task {
    task.(source := Some(IssueSource(repository, issue)))
  }

  predicate NeedsRelink(task: Task, repository: RepositoryId, issue: Issue) {
    task.source.None? || task.source.value.repository != repository || task.source.value.number != issue.number
  }

  function NewTask(project: ProjectId, repository: RepositoryId, issue: Issue, orderKey: int): Task {
    Task(project, ConfigText.Trim(issue.title), issue.body, 1, orderKey, Some(IssueSource(repository, issue)))
  }

  /** What one import knows: its board, the greatest key there, where it imports to, and an id for each new task. */
  datatype Context = Context(board: Board, maxKey: int, project: ProjectId, repository: RepositoryId)

  function Take(c: Context, p: Progress, issue: Issue, newId: TaskId): Result<Progress, ImportError> {
    if issue.id in p.seen then Ok(p)
    else
      var q := p.(seen := p.seen + {issue.id});
      if (c.project, issue.id) in c.board.rows then
        var id := c.board.rows[(c.project, issue.id)].task;
        if id !in c.board.tasks then Err(TaskUnavailable)
        else if NeedsRelink(c.board.tasks[id], c.repository, issue) then
          Ok(q.(changes := p.changes + [Change(id, Relinked(c.board.tasks[id], c.repository, issue), false)],
                sources := p.sources + [(id, issue)], ids := p.ids + [id]))
        else Ok(q.(ids := p.ids + [id]))
      else if !Importable(issue) then Err(InvalidIssue)
      else
        var key := SaturatingAdd(c.maxKey, (|p.changes| + 1) * ORDER_STEP);
        Ok(q.(changes := p.changes + [Change(newId, NewTask(c.project, c.repository, issue, key), true)],
              sources := p.sources + [(newId, issue)], ids := p.ids + [newId]))
  }

  function TakeAll(c: Context, issues: seq<Issue>, newIds: seq<TaskId>): Result<Progress, ImportError>
    requires |newIds| == |issues|
  {
    if issues == [] then Ok(NOTHING)
    else
      var n := |issues| - 1;
      match TakeAll(c, issues[..n], newIds[..n])
      case Err(e) => Err(e)
      case Ok(p) => Take(c, p, issues[n], newIds[n])
  }

  // ---- Committing ----

  function WithChanges(tasks: map<TaskId, Task>, changes: seq<Change>): map<TaskId, Task> {
    if changes == [] then tasks
    else
      var last := changes[|changes| - 1];
      WithChanges(tasks, changes[..|changes| - 1])[last.id := last.task]
  }

  /** A row that exists keeps its task and follows the issue to another repository or number. */
  function WithSources(rows: map<(ProjectId, IssueId), Row>, project: ProjectId, repository: RepositoryId,
                       sources: seq<(TaskId, Issue)>): map<(ProjectId, IssueId), Row> {
    if sources == [] then rows
    else
      var (id, issue) := sources[|sources| - 1];
      var rest := WithSources(rows, project, repository, sources[..|sources| - 1]);
      var key := (project, issue.id);
      rest[key := Row(repository, issue.number, if key in rest then rest[key].task else id)]
  }

  function Committed(c: Context, p: Progress, receipt: ReceiptId, fingerprint: Fingerprint): Board {
    c.board.(tasks := WithChanges(c.board.tasks, p.changes),
             rows := WithSources(c.board.rows, c.project, c.repository, p.sources),
             receipts := c.board.receipts[receipt := Receipt(fingerprint, p.ids)])
  }

  /** A whole import: from the receipt when there is one, otherwise all of it in one transaction. */
  function Imported(c: Context, issues: seq<Issue>, request: Option<Uuid>, newIds: seq<TaskId>, sound: bool)
    : (Board, Result<seq<TaskId>, ImportError>)
    requires |newIds| == |issues|
  {
    var fingerprint := Fingerprint(c.project, c.repository, IdentityOf(issues));
    var receipt := ReceiptFor(request, fingerprint);
    if c.project !in c.board.projects then (c.board, Err(ProjectUnavailable))
    else if receipt in c.board.receipts then
      (c.board,
       if c.board.receipts[receipt].fingerprint != fingerprint then Err(RequestReused)
       else Ok(c.board.receipts[receipt].result))
    else
      match TakeAll(c, issues, newIds)
      case Err(e) => (c.board, Err(e))
      case Ok(p) => if sound then (Committed(c, p, receipt, fingerprint), Ok(p.ids)) else (c.board, Err(Storage))
  }

  // ---- Attaching a published issue ----

  datatype AttachError = NotFound | AttachedElsewhere | LinkedElsewhere | InvalidIdentity | NotSaved

  /** `sane` is whether the issue's number and address are those of the source, `sound` whether it can be saved. */
  function Attached(b: Board, project: ProjectId, id: TaskId, source: Source, sane: bool, sound: bool)
    : (Board, Result<(), AttachError>)
  {
    if id !in b.tasks || b.tasks[id].project != project then (b, Err(NotFound))
    else
      var task, key := b.tasks[id], (project, source.issue);
      if key in b.rows && b.rows[key].task != id then (b, Err(AttachedElsewhere))
      else if task.source.Some? then
        if task.source.value.issue != source.issue || task.source.value.repository != source.repository then
          (b, Err(LinkedElsewhere))
        else (b, Ok(()))
      else if !sane then (b, Err(InvalidIdentity))
      else if !sound then (b, Err(NotSaved))
      else
        (b.(tasks := b.tasks[id := task.(source := Some(source), revision := task.revision + 1)],
            rows := b.rows[key := if key in b.rows then b.rows[key] else Row(source.repository, source.number, id)]), Ok(()))
  }

  /** A task is linked to its issue once: the same again is fine and changes nothing, and no other task gets the issue. */
  lemma LinkedOnce(b: Board, project: ProjectId, id: TaskId, source: Source, other: TaskId, again: Source, sane: bool, sound: bool)
    requires Linked(b) && Attached(b, project, id, source, sane, sound).1.Ok?
    ensures var n := Attached(b, project, id, source, sane, sound).0;
            && id in n.tasks && n.tasks[id].source.Some?
            && n.tasks[id].source.value.issue == source.issue && n.tasks[id].source.value.repository == source.repository
            && (project, source.issue) in n.rows && n.rows[(project, source.issue)].task == id
            && (again.issue == source.issue && again.repository == source.repository ==>
                  Attached(n, project, id, again, sane, sound) == (n, Ok(())))
            && (again.issue == source.issue && again.repository != source.repository ==>
                  Attached(n, project, id, again, sane, sound) == (n, Err(LinkedElsewhere)))
            && (again.issue != source.issue ==>
                  Attached(n, project, id, again, sane, sound).0 == n && Attached(n, project, id, again, sane, sound).1.Err?)
            && (other in n.tasks && other != id && n.tasks[other].project == project ==>
                  Attached(n, project, other, source, sane, sound) == (n, Err(AttachedElsewhere)))
  {
  }

  // ---- The board in place ----

  class IssueBoard {
    const projects: set<ProjectId>
    var tasks: map<TaskId, Task>
    var rows: map<(ProjectId, IssueId), Row>
    var receipts: map<ReceiptId, Receipt>

    constructor (projects: set<ProjectId>)
      ensures View() == Board(projects, map[], map[], map[])
    {
      this.projects, tasks, rows, receipts := projects, map[], map[], map[];
    }

    function View(): Board
      reads this
    {
      Board(projects, tasks, rows, receipts)
    }

    method MaxKey() returns (max: int)
      ensures IsMaxKey(tasks, max)
    {
      max := 0;
      var rest, any := tasks.Keys, false;
      while rest != {}
        invariant rest <= tasks.Keys && (any <==> rest != tasks.Keys)
        invariant forall id | id in tasks && id !in rest :: tasks[id].orderKey <= max
        invariant if any then exists id | id in tasks :: tasks[id].orderKey == max else max == 0
        decreases |rest|
      {
        var id :| id in rest;
        if !any || tasks[id].orderKey > max {
          max := tasks[id].orderKey;
        }
        any, rest := true, rest - {id};
      }
    }

    method ImportIssues(project: ProjectId, repository: RepositoryId, issues: seq<Issue>, request: Option<Uuid>,
                        newIds: seq<TaskId>, sound: bool)
      returns (result: Result<seq<TaskId>, ImportError>, ghost maxKey: int)
      requires |newIds| == |issues|
      modifies this
      ensures IsMaxKey(old(tasks), maxKey)
      ensures (View(), result) == Imported(Context(old(View()), maxKey, project, repository), issues, request, newIds, sound)
    {
      var max := MaxKey();
      maxKey := max;
      var c := Context(View(), max, project, repository);
      if project !in projects {
        return Err(ProjectUnavailable), maxKey;
      }
      var fingerprint := Fingerprint(project, repository, IdentityOf(issues));
      var receipt := ReceiptFor(request, fingerprint);
      if receipt in receipts {
        if receipts[receipt].fingerprint != fingerprint {
          return Err(RequestReused), maxKey;
        }
        return Ok(receipts[receipt].result), maxKey;
      }
      var changes: seq<Change>, sources: seq<(TaskId, Issue)>, ids: seq<TaskId>, seen: set<IssueId> := [], [], [], {};
      for i := 0 to |issues|
        invariant TakeAll(c, issues[..i], newIds[..i]) == Ok(Progress(changes, sources, ids, seen))
        invariant View() == old(View())
      {
        var issue := issues[i];
        assert issues[..i + 1][..i] == issues[..i] && newIds[..i + 1][..i] == newIds[..i];
        if issue.id !in seen {
          seen := seen + {issue.id};
          if (project, issue.id) in rows {
            var id := rows[(project, issue.id)].task;
            if id !in tasks {
              RefusedPrefix(c, issues, newIds, i + 1);
              return Err(TaskUnavailable), maxKey;
            }
            if NeedsRelink(tasks[id], repository, issue) {
              sources := sources + [(id, issue)];
              changes := changes + [Change(id, Relinked(tasks[id], repository, issue), false)];
            }
            ids := ids + [id];
          } else {
            if !Importable(issue) {
              RefusedPrefix(c, issues, newIds, i + 1);
              return Err(InvalidIssue), maxKey;
            }
            var key := SaturatingAdd(max, (|changes| + 1) * ORDER_STEP);
            ids := ids + [newIds[i]];
            sources := sources + [(newIds[i], issue)];
            changes := changes + [Change(newIds[i], NewTask(project, repository, issue, key), true)];
          }
        }
      }
      assert issues[..|issues|] == issues && newIds[..|newIds|] == newIds;
      if !sound {
        return Err(Storage), maxKey;
      }
      tasks := WithChanges(tasks, changes);
      rows := WithSources(rows, project, repository, sources);
      receipts := receipts[receipt := Receipt(fingerprint, ids)];
      return Ok(ids), maxKey;
    }

    /** Whatever happens rows and tasks keep corresponding; only the one task can change, and only by being linked. */
    method AttachSource(project: ProjectId, id: TaskId, source: Source, sane: bool, sound: bool)
      returns (r: Result<(), AttachError>)
      requires Linked(View())
      modifies this
      ensures (View(), r) == Attached(old(View()), project, id, source, sane, sound)
      ensures Linked(View()) && tasks.Keys == old(tasks).Keys && receipts == old(receipts)
      ensures forall other | other in tasks && other != id :: tasks[other] == old(tasks)[other]
      ensures r.Err? ==> View() == old(View())
      ensures r.Ok? ==>
                && id in tasks && tasks[id].source.Some? && tasks[id].source.value.issue == source.issue
                && tasks[id].source.value.repository == source.repository
                && (project, source.issue) in rows && rows[(project, source.issue)].task == id
      ensures r == Err(NotFound) <==> id !in tasks || tasks[id].project != project
      ensures r == Err(AttachedElsewhere) <==>
                && id in tasks && tasks[id].project == project
                && (project, source.issue) in old(rows) && old(rows)[(project, source.issue)].task != id
      ensures r == Err(LinkedElsewhere) ==>
                && tasks[id].source.Some?
                && !(tasks[id].source.value.issue == source.issue && tasks[id].source.value.repository == source.repository)
      ensures r in {Err(InvalidIdentity), Err(NotSaved)} ==> tasks[id].source.None? && !(sane && sound)
      ensures r.Ok? && old(tasks)[id].source.Some? ==> View() == old(View())
      ensures r.Ok? && old(tasks)[id].source.None? ==>
                && sane && sound && tasks[id] == old(tasks)[id].(source := Some(source), revision := old(tasks)[id].revision + 1)
                && rows == if (project, source.issue) in old(rows) then old(rows)
                           else old(rows)[(project, source.issue) := Row(source.repository, source.number, id)]
    {
      AttachKeepsLinked(View(), project, id, source, sane, sound);
      if id !in tasks || tasks[id].project != project {
        return Err(NotFound);
      }
      var task := tasks[id];
      var key := (project, source.issue);
      if key in rows && rows[key].task != id {
        return Err(AttachedElsewhere);
      }
      if task.source.Some? {
        if task.source.value.issue != source.issue || task.source.value.repository != source.repository {
          return Err(LinkedElsewhere);
        }
        return Ok(());
      }
      if !sane {
        return Err(InvalidIdentity);
      }
      if !sound {
        return Err(NotSaved);
      }
      tasks := tasks[id := task.(source := Some(source), revision := task.revision + 1)];
      if key !in rows {
        rows := rows[key := Row(source.repository, source.number, id)];
      }
      return Ok(());
    }
  }

  lemma {:induction false} RefusedPrefix(c: Context, issues: seq<Issue>, newIds: seq<TaskId>, i: nat)
    requires |newIds| == |issues| && i <= |issues| && TakeAll(c, issues[..i], newIds[..i]).Err?
    ensures TakeAll(c, issues, newIds) == TakeAll(c, issues[..i], newIds[..i])
    decreases |issues| - i
  {
    if i < |issues| {
      assert issues[..i + 1][..i] == issues[..i] && newIds[..i + 1][..i] == newIds[..i];
      RefusedPrefix(c, issues, newIds, i + 1);
    } else {
      assert issues[..i] == issues && newIds[..i] == newIds;
    }
  }

  // ---- What an import does ----

  /** Every row names a task of its project that carries the issue, and every task that carries one has its row. */
  predicate Linked(b: Board) {
    && (forall key | key in b.rows ::
          var row := b.rows[key];
          && row.task in b.tasks && b.tasks[row.task].project == key.0
          && b.tasks[row.task].source == Some(Source(row.repository, key.1, row.number)))
    && (forall id | id in b.tasks && b.tasks[id].source.Some? ::
          && (b.tasks[id].project, b.tasks[id].source.value.issue) in b.rows
          && b.rows[(b.tasks[id].project, b.tasks[id].source.value.issue)].task == id)
  }

  /** The issues in the order in which each id first occurs. */
  function FirstSeen(issues: seq<Issue>): seq<Issue> {
    if issues == [] then []
    else
      var last, rest := issues[|issues| - 1], FirstSeen(issues[..|issues| - 1]);
      if exists k | 0 <= k < |rest| :: rest[k].id == last.id then rest else rest + [last]
  }

  /** A change either admits an issue nobody knew as a new task, or moves the source of the task that has it. */
  ghost predicate ChangeSound(c: Context, change: Change, source: (TaskId, Issue), position: nat) {
    var issue, b := source.1, c.board;
    && source.0 == change.id
    && (if change.isNew then
          && (c.project, issue.id) !in b.rows && change.id !in b.tasks
          && change.task == NewTask(c.project, c.repository, issue, SaturatingAdd(c.maxKey, (position + 1) * ORDER_STEP))
        else
          && (c.project, issue.id) in b.rows && b.rows[(c.project, issue.id)].task == change.id && change.id in b.tasks
          && change.task == Relinked(b.tasks[change.id], c.repository, issue))
  }

  ghost predicate ChangesSound(c: Context, p: Progress) {
    && |p.changes| == |p.sources|
    && (forall k | 0 <= k < |p.changes| :: ChangeSound(c, p.changes[k], p.sources[k], k))
    && (forall j, k | 0 <= j < k < |p.changes| ::
          p.changes[j].id != p.changes[k].id && p.sources[j].1.id != p.sources[k].1.id)
    && (forall k | 0 <= k < |p.sources| :: p.sources[k].1.id in p.seen)
  }

  ghost predicate InSources(p: Progress, id: TaskId, issue: Issue) {
    exists k | 0 <= k < |p.sources| :: p.sources[k] == (id, issue)
  }

  /** The task reported for an issue: its row's, relinked when that is needed, or the one made for it. */
  ghost predicate Answers(c: Context, p: Progress, issue: Issue, id: TaskId) {
    if (c.project, issue.id) in c.board.rows then
      && c.board.rows[(c.project, issue.id)].task == id && id in c.board.tasks
      && (NeedsRelink(c.board.tasks[id], c.repository, issue) <==> InSources(p, id, issue))
    else InSources(p, id, issue)
  }

  ghost predicate AllAnswered(c: Context, p: Progress, issues: seq<Issue>) {
    && |p.ids| == |FirstSeen(issues)|
    && forall k | 0 <= k < |p.ids| :: Answers(c, p, FirstSeen(issues)[k], p.ids[k])
  }

  /** Nothing is lost or invented among the ids seen. */
  ghost predicate SeenExactly(p: Progress, issues: seq<Issue>) {
    forall id :: id in p.seen <==> exists k | 0 <= k < |FirstSeen(issues)| :: FirstSeen(issues)[k].id == id
  }

  ghost predicate NewFrom(p: Progress, newIds: seq<TaskId>) {
    forall k | 0 <= k < |p.changes| && p.changes[k].isNew :: p.changes[k].id in newIds
  }

  ghost predicate FreshIds(b: Board, newIds: seq<TaskId>) {
    && (forall k | 0 <= k < |newIds| :: newIds[k] !in b.tasks)
    && (forall j, k | 0 <= j < k < |newIds| :: newIds[j] != newIds[k])
  }

  ghost predicate Gathered(c: Context, p: Progress, issues: seq<Issue>, newIds: seq<TaskId>) {
    && ChangesSound(c, p) && AllAnswered(c, p, issues) && SeenExactly(p, issues) && NewFrom(p, newIds)
    && forall k | 0 <= k < |p.sources| :: p.sources[k].1 in FirstSeen(issues)
  }

  lemma {:induction false} FirstSeenOnce(issues: seq<Issue>)
    ensures forall j, k | 0 <= j < k < |FirstSeen(issues)| :: FirstSeen(issues)[j].id != FirstSeen(issues)[k].id
    ensures forall issue | issue in FirstSeen(issues) :: issue in issues
    ensures forall issue | issue in issues :: exists k | 0 <= k < |FirstSeen(issues)| :: FirstSeen(issues)[k].id == issue.id
  {
    if issues != [] {
      var front, last := issues[..|issues| - 1], issues[|issues| - 1];
      FirstSeenOnce(front);
      forall issue | issue in issues ensures exists k | 0 <= k < |FirstSeen(issues)| :: FirstSeen(issues)[k].id == issue.id {
        if issue in front {
          var k :| 0 <= k < |FirstSeen(front)| && FirstSeen(front)[k].id == issue.id;
          assert FirstSeen(issues)[k] == FirstSeen(front)[k];
        } else {
          assert issue == last;
          assert FirstSeen(issues) != FirstSeen(front) ==> FirstSeen(issues)[|FirstSeen(front)|] == last;
        }
      }
    }
  }

  lemma SeenAgain(issues: seq<Issue>, p: Progress, last: Issue)
    requires SeenExactly(p, issues)
    ensures FirstSeen(issues + [last]) == if last.id in p.seen then FirstSeen(issues) else FirstSeen(issues) + [last]
  {
    assert (issues + [last])[..|issues|] == issues;
  }

  lemma SkippingGathers(c: Context, p: Progress, issues: seq<Issue>, newIds: seq<TaskId>, issue: Issue, newId: TaskId)
    requires Gathered(c, p, issues, newIds) && issue.id in p.seen
    ensures Gathered(c, p, issues + [issue], newIds + [newId])
  {
    SeenAgain(issues, p, issue);
  }

  /** The sources gathered so far and one more. */
  lemma MoreSources(p: Progress, q: Progress, id: TaskId, issue: Issue, other: TaskId, about: Issue)
    requires q.sources == p.sources + [(id, issue)]
    ensures InSources(q, id, issue)
    ensures about.id != issue.id ==> (InSources(q, other, about) <==> InSources(p, other, about))
  {
    assert q.sources[|p.sources|] == (id, issue);
    if InSources(p, other, about) {
      var k :| 0 <= k < |p.sources| && p.sources[k] == (other, about);
      assert q.sources[k] == (other, about);
    }
  }

  lemma SeeingOneMore(p: Progress, q: Progress, first: seq<Issue>, issue: Issue)
    requires forall other :: other in p.seen <==> exists k | 0 <= k < |first| :: first[k].id == other
    requires q.seen == p.seen + {issue.id}
    ensures forall other :: other in q.seen <==> exists k | 0 <= k < |first + [issue]| :: (first + [issue])[k].id == other
  {
    forall other ensures other in q.seen <==> exists k | 0 <= k < |first + [issue]| :: (first + [issue])[k].id == other {
      if other in p.seen {
        var k :| 0 <= k < |first| && first[k].id == other;
        assert (first + [issue])[k].id == other;
      }
      assert (first + [issue])[|first|].id == issue.id;
    }
  }

  lemma AnsweringGathers(c: Context, p: Progress, q: Progress, issues: seq<Issue>, issue: Issue, id: TaskId)
    requires AllAnswered(c, p, issues) && SeenExactly(p, issues) && issue.id !in p.seen
    requires q.ids == p.ids + [id] && q.seen == p.seen + {issue.id}
    requires q.sources == p.sources || q.sources == p.sources + [(id, issue)]
    requires Answers(c, q, issue, id) && forall k | 0 <= k < |p.sources| :: p.sources[k].1 in FirstSeen(issues)
    ensures AllAnswered(c, q, issues + [issue]) && SeenExactly(q, issues + [issue])
    ensures forall k | 0 <= k < |q.sources| :: q.sources[k].1 in FirstSeen(issues + [issue])
  {
    hide FirstSeen;
    SeenAgain(issues, p, issue);
    var first := FirstSeen(issues);
    forall k | 0 <= k < |q.ids| ensures Answers(c, q, FirstSeen(issues + [issue])[k], q.ids[k]) {
      if k < |first| {
        assert Answers(c, p, first[k], p.ids[k]);
        assert first[k].id in p.seen;
        if q.sources != p.sources {
          MoreSources(p, q, id, issue, p.ids[k], first[k]);
        }
      }
    }
    SeeingOneMore(p, q, first, issue);
  }

  lemma ChangingGathers(c: Context, p: Progress, q: Progress, change: Change, issue: Issue)
    requires ChangesSound(c, p) && issue.id !in p.seen && q.seen == p.seen + {issue.id}
    requires q.changes == p.changes + [change] && q.sources == p.sources + [(change.id, issue)]
    requires ChangeSound(c, change, (change.id, issue), |p.changes|)
    requires forall k | 0 <= k < |p.changes| :: p.changes[k].id != change.id
    ensures ChangesSound(c, q)
  {
    forall k | 0 <= k < |q.changes| ensures ChangeSound(c, q.changes[k], q.sources[k], k) {
      if k < |p.changes| {
        assert ChangeSound(c, p.changes[k], p.sources[k], k);
      }
    }
  }

  /** The task of another issue is another task. */
  lemma RowsApart(c: Context, p: Progress, issue: Issue, k: nat)
    requires Linked(c.board) && ChangesSound(c, p) && (c.project, issue.id) in c.board.rows && issue.id !in p.seen
    requires k < |p.changes|
    ensures p.changes[k].id != c.board.rows[(c.project, issue.id)].task
  {
    assert ChangeSound(c, p.changes[k], p.sources[k], k);
    assert p.sources[k].1.id in p.seen;
  }

  lemma KnownIssueGathers(c: Context, p: Progress, issues: seq<Issue>, newIds: seq<TaskId>, issue: Issue, newId: TaskId)
    requires Linked(c.board) && Gathered(c, p, issues, newIds) && Take(c, p, issue, newId).Ok?
    requires issue.id !in p.seen && (c.project, issue.id) in c.board.rows
    ensures Gathered(c, Take(c, p, issue, newId).value, issues + [issue], newIds + [newId])
  {
    hide FirstSeen, AllAnswered, SeenExactly;
    var q := Take(c, p, issue, newId).value;
    var id := c.board.rows[(c.project, issue.id)].task;
    if NeedsRelink(c.board.tasks[id], c.repository, issue) {
      forall k | 0 <= k < |p.changes| ensures p.changes[k].id != id {
        RowsApart(c, p, issue, k);
      }
      MoreSources(p, q, id, issue, id, issue);
      ChangingGathers(c, p, q, q.changes[|p.changes|], issue);
    } else {
      NotASource(c, p, issue, id);
    }
    AnsweringGathers(c, p, q, issues, issue, id);
  }

  lemma NewIssueGathers(c: Context, p: Progress, issues: seq<Issue>, newIds: seq<TaskId>, issue: Issue, newId: TaskId)
    requires Linked(c.board) && Gathered(c, p, issues, newIds) && FreshIds(c.board, newIds + [newId])
    requires issue.id !in p.seen && (c.project, issue.id) !in c.board.rows && Take(c, p, issue, newId).Ok?
    ensures Gathered(c, Take(c, p, issue, newId).value, issues + [issue], newIds + [newId])
  {
    hide FirstSeen, AllAnswered, SeenExactly, Linked;
    var q := Take(c, p, issue, newId).value;
    assert (newIds + [newId])[|newIds|] == newId;
    forall k | 0 <= k < |p.changes| ensures p.changes[k].id != newId {
      assert ChangeSound(c, p.changes[k], p.sources[k], k);
      NewIdIsNew(p, newIds, newId, c.board, k);
    }
    MoreSources(p, q, newId, issue, newId, issue);
    ChangingGathers(c, p, q, q.changes[|p.changes|], issue);
    AnsweringGathers(c, p, q, issues, issue, newId);
  }

  lemma TakeGathers(c: Context, p: Progress, issues: seq<Issue>, newIds: seq<TaskId>, issue: Issue, newId: TaskId)
    requires Linked(c.board) && Gathered(c, p, issues, newIds) && FreshIds(c.board, newIds + [newId])
    requires Take(c, p, issue, newId).Ok?
    ensures Gathered(c, Take(c, p, issue, newId).value, issues + [issue], newIds + [newId])
  {
    if issue.id in p.seen {
      SkippingGathers(c, p, issues, newIds, issue, newId);
    } else if (c.project, issue.id) in c.board.rows {
      KnownIssueGathers(c, p, issues, newIds, issue, newId);
    } else {
      NewIssueGathers(c, p, issues, newIds, issue, newId);
    }
  }

  lemma NotASource(c: Context, p: Progress, issue: Issue, id: TaskId)
    requires ChangesSound(c, p) && issue.id !in p.seen
    ensures !InSources(p, id, issue)
  {
  }

  lemma NewIdIsNew(p: Progress, newIds: seq<TaskId>, newId: TaskId, b: Board, k: nat)
    requires NewFrom(p, newIds) && FreshIds(b, newIds + [newId]) && k < |p.changes|
    requires !p.changes[k].isNew ==> p.changes[k].id in b.tasks
    ensures p.changes[k].id != newId
  {
    var all := newIds + [newId];
    assert all[|newIds|] == newId;
    if p.changes[k].isNew {
      var j :| 0 <= j < |newIds| && newIds[j] == p.changes[k].id;
      assert all[j] == newIds[j];
    }
  }

  lemma {:induction false} TakeAllGathers(c: Context, issues: seq<Issue>, newIds: seq<TaskId>)
    requires |newIds| == |issues| && Linked(c.board) && FreshIds(c.board, newIds)
    ensures TakeAll(c, issues, newIds).Ok? ==> Gathered(c, TakeAll(c, issues, newIds).value, issues, newIds)
  {
    hide Gathered, Take, Linked;
    if issues == [] {
      NothingGathered(c);
    } else {
      var n := |issues| - 1;
      assert issues[..n] + [issues[n]] == issues && newIds[..n] + [newIds[n]] == newIds;
      TakeAllGathers(c, issues[..n], newIds[..n]);
      if TakeAll(c, issues, newIds).Ok? {
        TakeGathers(c, TakeAll(c, issues[..n], newIds[..n]).value, issues[..n], newIds[..n], issues[n], newIds[n]);
      }
    }
  }

  lemma NothingGathered(c: Context)
    ensures Gathered(c, NOTHING, [], [])
  {
  }

  // ---- What the transaction leaves behind ----

  predicate Changes(changes: seq<Change>, id: TaskId) {
    exists k | 0 <= k < |changes| :: changes[k].id == id
  }

  lemma {:induction false} ChangesAreWritten(tasks: map<TaskId, Task>, changes: seq<Change>)
    requires forall j, k | 0 <= j < k < |changes| :: changes[j].id != changes[k].id
    ensures forall k | 0 <= k < |changes| ::
              changes[k].id in WithChanges(tasks, changes) && WithChanges(tasks, changes)[changes[k].id] == changes[k].task
    ensures forall id | !Changes(changes, id) ::
              (id in WithChanges(tasks, changes) <==> id in tasks) && (id in tasks ==> WithChanges(tasks, changes)[id] == tasks[id])
  {
    if changes != [] {
      var n := |changes| - 1;
      var front := changes[..n];
      ChangesAreWritten(tasks, front);
      forall k | 0 <= k < |changes|
        ensures changes[k].id in WithChanges(tasks, changes) && WithChanges(tasks, changes)[changes[k].id] == changes[k].task
      {
        if k < n {
          assert front[k] == changes[k];
        }
      }
      forall id | !Changes(changes, id)
        ensures (id in WithChanges(tasks, changes) <==> id in tasks) && (id in tasks ==> WithChanges(tasks, changes)[id] == tasks[id])
      {
        assert changes[n].id != id;
        forall k | 0 <= k < |front| ensures front[k].id != id {
          assert changes[k] == front[k];
        }
      }
    }
  }

  predicate Sourced(sources: seq<(TaskId, Issue)>, issue: IssueId) {
    exists k | 0 <= k < |sources| :: sources[k].1.id == issue
  }

  lemma {:induction false} SourcesAreWritten(rows: map<(ProjectId, IssueId), Row>, project: ProjectId, repository: RepositoryId,
                                             sources: seq<(TaskId, Issue)>)
    requires forall j, k | 0 <= j < k < |sources| :: sources[j].1.id != sources[k].1.id
    ensures var n := WithSources(rows, project, repository, sources);
            && (forall k | 0 <= k < |sources| ::
                  var key := (project, sources[k].1.id);
                  key in n && n[key] == Row(repository, sources[k].1.number, if key in rows then rows[key].task else sources[k].0))
            && (forall key: (ProjectId, IssueId) | key.0 != project || !Sourced(sources, key.1) ::
                  (key in n <==> key in rows) && (key in rows ==> n[key] == rows[key]))
  {
    if sources != [] {
      var last := |sources| - 1;
      var front := sources[..last];
      SourcesAreWritten(rows, project, repository, front);
      var rest, n := WithSources(rows, project, repository, front), WithSources(rows, project, repository, sources);
      assert !Sourced(front, sources[last].1.id);
      forall k | 0 <= k < |sources|
        ensures var key := (project, sources[k].1.id);
                key in n && n[key] == Row(repository, sources[k].1.number, if key in rows then rows[key].task else sources[k].0)
      {
        if k < last {
          assert front[k] == sources[k];
        }
      }
      forall key: (ProjectId, IssueId) | key.0 != project || !Sourced(sources, key.1)
        ensures (key in n <==> key in rows) && (key in rows ==> n[key] == rows[key])
      {
        assert key != (project, sources[last].1.id);
        forall k | 0 <= k < |front| ensures key.0 == project ==> front[k].1.id != key.1 {
          assert sources[k] == front[k];
        }
      }
    }
  }

  /** An import runs afresh: the project exists, nothing was imported under its receipt, no issue is refused, the save succeeds. */
  predicate Commits(c: Context, issues: seq<Issue>, request: Option<Uuid>, newIds: seq<TaskId>, sound: bool)
    requires |newIds| == |issues|
  {
    && c.project in c.board.projects && sound && TakeAll(c, issues, newIds).Ok?
    && ReceiptFor(request, Fingerprint(c.project, c.repository, IdentityOf(issues))) !in c.board.receipts
  }

  /** What holds of the board after a committed import. */
  ghost predicate Done(c: Context, p: Progress, n: Board) {
    && n.projects == c.board.projects
    && n.tasks == WithChanges(c.board.tasks, p.changes) && n.rows == WithSources(c.board.rows, c.project, c.repository, p.sources)
  }

  /** Tasks keep their title, content, revision and place; only the source of a task that was asked for may move. */
  ghost predicate TasksKept(c: Context, p: Progress, n: Board) {
    && (forall id | id in c.board.tasks :: id in n.tasks && n.tasks[id] == c.board.tasks[id].(source := n.tasks[id].source))
    && (forall id | id in c.board.tasks && n.tasks[id] != c.board.tasks[id] :: id in p.ids)
    && (forall id | id in n.tasks && id !in c.board.tasks :: id in p.ids && n.tasks[id].project == c.project && n.tasks[id].revision == 1)
  }

  lemma ChangedIsReported(c: Context, p: Progress, issues: seq<Issue>, newIds: seq<TaskId>, k: nat)
    requires Gathered(c, p, issues, newIds) && Linked(c.board) && k < |p.changes|
    ensures p.changes[k].id in p.ids
  {
    var source := p.sources[k];
    assert ChangeSound(c, p.changes[k], source, k);
    assert source.1.id in p.seen;
    var j :| 0 <= j < |FirstSeen(issues)| && FirstSeen(issues)[j].id == source.1.id;
    assert Answers(c, p, FirstSeen(issues)[j], p.ids[j]);
    if (c.project, source.1.id) !in c.board.rows {
      var l :| 0 <= l < |p.sources| && p.sources[l] == (p.ids[j], FirstSeen(issues)[j]);
      assert l == k;
    }
  }

  lemma ImportKeepsTasks(c: Context, p: Progress, issues: seq<Issue>, newIds: seq<TaskId>, n: Board)
    requires Gathered(c, p, issues, newIds) && Linked(c.board) && Done(c, p, n)
    ensures TasksKept(c, p, n)
  {
    ChangesAreWritten(c.board.tasks, p.changes);
    forall id | id in n.tasks
      ensures id in c.board.tasks ==> n.tasks[id] == c.board.tasks[id].(source := n.tasks[id].source)
      ensures (id in c.board.tasks ==> n.tasks[id] != c.board.tasks[id]) ==> id in p.ids
      ensures id !in c.board.tasks ==> n.tasks[id].project == c.project && n.tasks[id].revision == 1
    {
      if Changes(p.changes, id) {
        var k :| 0 <= k < |p.changes| && p.changes[k].id == id;
        assert ChangeSound(c, p.changes[k], p.sources[k], k);
        ChangedIsReported(c, p, issues, newIds, k);
      }
    }
    forall id | id in c.board.tasks ensures id in n.tasks {
      if Changes(p.changes, id) {
        var k :| 0 <= k < |p.changes| && p.changes[k].id == id;
      }
    }
  }

  /**
   After the import each issue asked for has the row and the task that the import reports for it: the task it had, or
   a new one with its title and body.
   */
  ghost predicate IssueHasTask(c: Context, n: Board, issue: Issue, id: TaskId) {
    && (c.project, issue.id) in n.rows && n.rows[(c.project, issue.id)] == Row(c.repository, issue.number, id)
    && id in n.tasks && n.tasks[id].project == c.project && n.tasks[id].source == Some(Source(c.repository, issue.id, issue.number))
    && (if (c.project, issue.id) in c.board.rows then id in c.board.tasks && c.board.rows[(c.project, issue.id)].task == id
        else
          && id !in c.board.tasks && n.tasks[id].title == ConfigText.Trim(issue.title) && n.tasks[id].content == issue.body
          && n.tasks[id].revision == 1)
  }

  lemma ImportAnswers(c: Context, p: Progress, issues: seq<Issue>, newIds: seq<TaskId>, n: Board, j: nat)
    requires Gathered(c, p, issues, newIds) && Linked(c.board) && Done(c, p, n) && j < |p.ids|
    ensures IssueHasTask(c, n, FirstSeen(issues)[j], p.ids[j])
  {
    var issue, id := FirstSeen(issues)[j], p.ids[j];
    assert Answers(c, p, issue, id);
    ChangesAreWritten(c.board.tasks, p.changes);
    SourcesAreWritten(c.board.rows, c.project, c.repository, p.sources);
    hide WithChanges, WithSources, FirstSeen;
    if InSources(p, id, issue) {
      var k :| 0 <= k < |p.sources| && p.sources[k] == (id, issue);
      assert ChangeSound(c, p.changes[k], p.sources[k], k);
    } else {
      UntouchedIssue(c, p, issues, newIds, j);
    }
  }

  lemma UntouchedIssue(c: Context, p: Progress, issues: seq<Issue>, newIds: seq<TaskId>, j: nat)
    requires Gathered(c, p, issues, newIds) && Linked(c.board) && j < |p.ids| && !InSources(p, p.ids[j], FirstSeen(issues)[j])
    ensures !Sourced(p.sources, FirstSeen(issues)[j].id) && !Changes(p.changes, p.ids[j])
  {
    var issue, id := FirstSeen(issues)[j], p.ids[j];
    FirstSeenOnce(issues);
    assert Answers(c, p, issue, id);
    forall k | 0 <= k < |p.sources| ensures p.sources[k].1.id != issue.id && p.changes[k].id != id {
      assert ChangeSound(c, p.changes[k], p.sources[k], k);
      var l :| 0 <= l < |FirstSeen(issues)| && FirstSeen(issues)[l] == p.sources[k].1;
      assert p.sources[k] != (id, issue);
    }
  }

  lemma RowOfAnother(c: Context, p: Progress, key: (ProjectId, IssueId), k: nat)
    requires Linked(c.board) && ChangesSound(c, p) && key in c.board.rows && k < |p.changes|
    requires key != (c.project, p.sources[k].1.id)
    ensures c.board.rows[key].task != p.changes[k].id
  {
    assert ChangeSound(c, p.changes[k], p.sources[k], k);
  }

  lemma ImportKeepsRows(c: Context, p: Progress, n: Board, key: (ProjectId, IssueId))
    requires Linked(c.board) && ChangesSound(c, p) && Done(c, p, n) && key in n.rows
    ensures var row := n.rows[key];
            && row.task in n.tasks && n.tasks[row.task].project == key.0
            && n.tasks[row.task].source == Some(Source(row.repository, key.1, row.number))
    ensures key in c.board.rows ==> n.rows[key].task == c.board.rows[key].task
  {
    ChangesAreWritten(c.board.tasks, p.changes);
    SourcesAreWritten(c.board.rows, c.project, c.repository, p.sources);
    hide WithChanges, WithSources;
    if key.0 == c.project && Sourced(p.sources, key.1) {
      var k :| 0 <= k < |p.sources| && p.sources[k].1.id == key.1;
      assert ChangeSound(c, p.changes[k], p.sources[k], k);
    } else {
      forall k | 0 <= k < |p.changes| ensures p.changes[k].id != c.board.rows[key].task {
        RowOfAnother(c, p, key, k);
      }
      assert !Changes(p.changes, c.board.rows[key].task);
    }
  }

  lemma ChangedTaskHasRow(c: Context, p: Progress, n: Board, k: nat)
    requires ChangesSound(c, p) && Done(c, p, n) && k < |p.changes|
    ensures var id := p.changes[k].id; id in n.tasks && n.tasks[id].source.Some?
    ensures var id := p.changes[k].id; var key := (c.project, n.tasks[id].source.value.issue);
            key in n.rows && n.rows[key].task == id
    ensures Linked(c.board) ==> n.tasks[p.changes[k].id].project == c.project
  {
    ChangesAreWritten(c.board.tasks, p.changes);
    SourcesAreWritten(c.board.rows, c.project, c.repository, p.sources);
    hide WithChanges, WithSources;
    assert ChangeSound(c, p.changes[k], p.sources[k], k);
  }

  lemma UnchangedTaskHasRow(c: Context, p: Progress, n: Board, id: TaskId)
    requires Linked(c.board) && ChangesSound(c, p) && Done(c, p, n) && !Changes(p.changes, id)
    requires id in c.board.tasks && c.board.tasks[id].source.Some?
    ensures var key := (c.board.tasks[id].project, c.board.tasks[id].source.value.issue);
            key in n.rows && n.rows[key].task == id
  {
    SourcesAreWritten(c.board.rows, c.project, c.repository, p.sources);
    hide WithChanges, WithSources;
    var key := (c.board.tasks[id].project, c.board.tasks[id].source.value.issue);
    assert key in c.board.rows && c.board.rows[key].task == id;
    forall k | 0 <= k < |p.sources| ensures key == (c.project, p.sources[k].1.id) ==> p.changes[k].id == id {
      assert ChangeSound(c, p.changes[k], p.sources[k], k);
    }
  }

  lemma ImportKeepsSources(c: Context, p: Progress, n: Board, id: TaskId)
    requires Linked(c.board) && ChangesSound(c, p) && Done(c, p, n) && id in n.tasks && n.tasks[id].source.Some?
    ensures var key := (n.tasks[id].project, n.tasks[id].source.value.issue); key in n.rows && n.rows[key].task == id
  {
    ChangesAreWritten(c.board.tasks, p.changes);
    if Changes(p.changes, id) {
      var k :| 0 <= k < |p.changes| && p.changes[k].id == id;
      hide ChangesSound, Linked;
      ChangedTaskHasRow(c, p, n, k);
    } else {
      hide ChangesSound, Linked, WithChanges, WithSources;
      UnchangedTaskHasRow(c, p, n, id);
    }
  }

  lemma ImportKeepsLinked(c: Context, p: Progress, n: Board)
    requires Linked(c.board) && ChangesSound(c, p) && Done(c, p, n)
    ensures Linked(n)
  {
    forall key | key in n.rows
      ensures var row := n.rows[key];
              && row.task in n.tasks && n.tasks[row.task].project == key.0
              && n.tasks[row.task].source == Some(Source(row.repository, key.1, row.number))
    {
      ImportKeepsRows(c, p, n, key);
    }
    forall id | id in n.tasks && n.tasks[id].source.Some?
      ensures (n.tasks[id].project, n.tasks[id].source.value.issue) in n.rows
      ensures n.rows[(n.tasks[id].project, n.tasks[id].source.value.issue)].task == id
    {
      ImportKeepsSources(c, p, n, id);
    }
  }

  lemma AttachKeepsLinked(b: Board, project: ProjectId, id: TaskId, source: Source, sane: bool, sound: bool)
    requires Linked(b)
    ensures Linked(Attached(b, project, id, source, sane, sound).0)
  {
  }

  // ---- Order keys ----

  /** The new tasks come after everything that was there, each after the one before. */
  ghost predicate KeysRise(c: Context, p: Progress) {
    && (forall k | 0 <= k < |p.changes| && p.changes[k].isNew :: p.changes[k].task.orderKey > c.maxKey)
    && (forall j, k | 0 <= j < k < |p.changes| && p.changes[j].isNew && p.changes[k].isNew ::
          p.changes[j].task.orderKey < p.changes[k].task.orderKey)
  }

  /** There is room above the greatest key for every new task, and full steps for all but the last. */
  ghost predicate Room(c: Context, p: Progress) {
    && ((exists k | 0 <= k < |p.changes| :: p.changes[k].isNew) ==> c.maxKey < I64_MAX)
    && (forall j, k | 0 <= j < k < |p.changes| && p.changes[j].isNew && p.changes[k].isNew ::
          c.maxKey + (j + 1) * ORDER_STEP < I64_MAX)
  }

  ghost predicate KeysStepped(c: Context, p: Progress) {
    forall k | 0 <= k < |p.changes| && p.changes[k].isNew ::
      p.changes[k].task.orderKey == SaturatingAdd(c.maxKey, (k + 1) * ORDER_STEP)
  }

  lemma RoomMeansRise(c: Context, p: Progress)
    requires KeysStepped(c, p) && Room(c, p) && c.maxKey <= I64_MAX
    ensures KeysRise(c, p)
  {
    forall j, k | 0 <= j < k < |p.changes| && p.changes[j].isNew && p.changes[k].isNew
      ensures p.changes[j].task.orderKey < p.changes[k].task.orderKey
    {
      assert c.maxKey + (j + 1) * ORDER_STEP < I64_MAX;
      assert (j + 1) * ORDER_STEP < (k + 1) * ORDER_STEP;
    }
  }

  lemma RiseMeansRoom(c: Context, p: Progress)
    requires KeysStepped(c, p) && KeysRise(c, p) && c.maxKey <= I64_MAX
    ensures Room(c, p)
  {
    forall j, k | 0 <= j < k < |p.changes| && p.changes[j].isNew && p.changes[k].isNew
      ensures c.maxKey + (j + 1) * ORDER_STEP < I64_MAX
    {
      assert p.changes[j].task.orderKey < p.changes[k].task.orderKey;
    }
  }

  /** The new order keys are distinct, above all old ones and rise exactly while they do not saturate. */
  lemma KeysRiseIff(c: Context, issues: seq<Issue>, newIds: seq<TaskId>)
    requires |newIds| == |issues| && Linked(c.board) && FreshIds(c.board, newIds) && TakeAll(c, issues, newIds).Ok?
    requires IsMaxKey(c.board.tasks, c.maxKey) && c.maxKey <= I64_MAX
    ensures KeysRise(c, TakeAll(c, issues, newIds).value) <==> Room(c, TakeAll(c, issues, newIds).value)
  {
    TakeAllGathers(c, issues, newIds);
    var p := TakeAll(c, issues, newIds).value;
    hide TakeAll, AllAnswered, SeenExactly, NewFrom, Linked, FreshIds, KeysRise, Room;
    assert KeysStepped(c, p) by {
      forall k | 0 <= k < |p.changes| && p.changes[k].isNew
        ensures p.changes[k].task.orderKey == SaturatingAdd(c.maxKey, (k + 1) * ORDER_STEP)
      {
        assert ChangeSound(c, p.changes[k], p.sources[k], k);
      }
    }
    hide KeysStepped, Gathered;
    if Room(c, p) {
      RoomMeansRise(c, p);
    }
    if KeysRise(c, p) {
      RiseMeansRoom(c, p);
    }
  }

  // ---- Runs of imports, publications and other changes of the board ----

  datatype Step =
    | ImportAll(maxKey: int, project: ProjectId, repository: RepositoryId, issues: seq<Issue>, request: Option<Uuid>,
                newIds: seq<TaskId>, sound: bool)
    | Attach(project: ProjectId, id: TaskId, source: Source, sane: bool, sound: bool)
    | Edit(id: TaskId, task: Task)
    | Create(id: TaskId, task: Task)
    | Delete(id: TaskId)

  /** Edits leave project and source alone; only tasks without a source, which have no history, can be deleted. */
  ghost predicate Enabled(b: Board, step: Step) {
    match step
    case ImportAll(maxKey, _, _, issues, _, newIds, _) =>
      |newIds| == |issues| && FreshIds(b, newIds) && IsMaxKey(b.tasks, maxKey)
    case Attach(_, _, _, _, _) => true
    case Edit(id, task) => id in b.tasks && task.project == b.tasks[id].project && task.source == b.tasks[id].source
    case Create(id, task) => id !in b.tasks && task.source.None?
    case Delete(id) => id in b.tasks && b.tasks[id].source.None?
  }

  function ContextOf(b: Board, step: Step): Context
    requires step.ImportAll?
  {
    Context(b, step.maxKey, step.project, step.repository)
  }

  ghost function Next(b: Board, step: Step): Board
    requires Enabled(b, step)
  {
    match step
    case ImportAll(_, _, _, issues, request, newIds, sound) => Imported(ContextOf(b, step), issues, request, newIds, sound).0
    case Attach(project, id, source, sane, sound) => Attached(b, project, id, source, sane, sound).0
    case Edit(id, task) => b.(tasks := b.tasks[id := task])
    case Create(id, task) => b.(tasks := b.tasks[id := task])
    case Delete(id) => b.(tasks := b.tasks - {id})
  }

  ghost predicate IsRun(states: seq<Board>, steps: seq<Step>) {
    && |states| == |steps| + 1 && states[0].tasks == map[] && states[0].rows == map[] && states[0].receipts == map[]
    && forall i | 0 <= i < |steps| :: Enabled(states[i], steps[i]) && states[i + 1] == Next(states[i], steps[i])
  }

  lemma CommitIsDone(b: Board, step: Step)
    requires Linked(b) && Enabled(b, step) && step.ImportAll?
    ensures var c := ContextOf(b, step);
            if Commits(c, step.issues, step.request, step.newIds, step.sound) then
              var p := TakeAll(c, step.issues, step.newIds).value;
              Gathered(c, p, step.issues, step.newIds) && Done(c, p, Next(b, step))
            else Next(b, step) == b
  {
    TakeAllGathers(ContextOf(b, step), step.issues, step.newIds);
    hide Gathered, TakeAll, WithChanges, WithSources, Linked, FreshIds;
  }

  lemma StepKeepsLinked(b: Board, step: Step)
    requires Linked(b) && Enabled(b, step)
    ensures Linked(Next(b, step))
  {
    if step.ImportAll? {
      CommitIsDone(b, step);
      var c := ContextOf(b, step);
      if Commits(c, step.issues, step.request, step.newIds, step.sound) {
        hide Next, Enabled, Commits, Linked, Done;
        ImportKeepsLinked(c, TakeAll(c, step.issues, step.newIds).value, Next(b, step));
      }
    } else if step.Attach? {
      AttachKeepsLinked(b, step.project, step.id, step.source, step.sane, step.sound);
    }
  }

  lemma {:induction false} LinkedAlways(states: seq<Board>, steps: seq<Step>, i: nat)
    requires IsRun(states, steps) && i < |states|
    ensures Linked(states[i]) && |states| == |steps| + 1
    ensures i < |steps| ==> Enabled(states[i], steps[i]) && states[i + 1] == Next(states[i], steps[i])
  {
    if i > 0 {
      hide Next, Enabled;
      LinkedAlways(states, steps, i - 1);
      StepKeepsLinked(states[i - 1], steps[i - 1]);
    }
  }

  /** At any moment each issue of a project has exactly one row and exactly one task, or neither. */
  lemma OneTaskPerIssue(states: seq<Board>, steps: seq<Step>, i: nat, project: ProjectId, issue: IssueId, id: TaskId)
    requires IsRun(states, steps) && i < |states|
    ensures var b := states[i];
            (id in b.tasks && b.tasks[id].project == project && b.tasks[id].source.Some? && b.tasks[id].source.value.issue == issue)
            <==> (project, issue) in b.rows && b.rows[(project, issue)].task == id
  {
    LinkedAlways(states, steps, i);
  }

  lemma RowStays(b: Board, step: Step, key: (ProjectId, IssueId))
    requires Linked(b) && Enabled(b, step) && key in b.rows
    ensures key in Next(b, step).rows && Next(b, step).rows[key].task == b.rows[key].task
  {
    if step.ImportAll? {
      CommitIsDone(b, step);
      var c := ContextOf(b, step);
      if Commits(c, step.issues, step.request, step.newIds, step.sound) {
        var p := TakeAll(c, step.issues, step.newIds).value;
        SourcesAreWritten(b.rows, c.project, c.repository, p.sources);
        hide WithSources, WithChanges, Next;
        ImportKeepsRows(c, p, Next(b, step), key);
      }
    }
  }

  /** An issue never moves to another task. */
  lemma {:induction false} RowsAreForever(states: seq<Board>, steps: seq<Step>, i: nat, j: nat, key: (ProjectId, IssueId))
    requires IsRun(states, steps) && i <= j < |states| && key in states[i].rows
    ensures key in states[j].rows && states[j].rows[key].task == states[i].rows[key].task
    decreases j - i
  {
    hide Next, Enabled, Linked;
    if i < j {
      RowsAreForever(states, steps, i, j - 1, key);
      LinkedAlways(states, steps, j - 1);
      RowStays(states[j - 1], steps[j - 1], key);
    }
  }

  /**
   What a committed import does: it reports one task for each distinct issue, in the order first seen, and that is the
   task the issue's row names afterwards; tasks that existed keep everything but their source.
   */
  lemma ImportIsExact(states: seq<Board>, steps: seq<Step>, i: nat)
    requires IsRun(states, steps) && i < |steps| && steps[i].ImportAll?
    requires Commits(ContextOf(states[i], steps[i]), steps[i].issues, steps[i].request, steps[i].newIds, steps[i].sound)
    ensures var c, issues := ContextOf(states[i], steps[i]), steps[i].issues;
            var p := TakeAll(c, issues, steps[i].newIds).value;
            && Imported(c, issues, steps[i].request, steps[i].newIds, steps[i].sound).1 == Ok(p.ids)
            && |p.ids| == |FirstSeen(issues)|
            && (forall j | 0 <= j < |p.ids| :: IssueHasTask(c, states[i + 1], FirstSeen(issues)[j], p.ids[j]))
            && TasksKept(c, p, states[i + 1])
  {
    LinkedAlways(states, steps, i);
    var b, step := states[i], steps[i];
    var c := ContextOf(b, step);
    var p := TakeAll(c, step.issues, step.newIds).value;
    CommitIsDone(b, step);
    hide Next, Enabled, TakeAll, Linked, Done;
    ImportKeepsTasks(c, p, step.issues, step.newIds, states[i + 1]);
    forall j | 0 <= j < |p.ids| ensures IssueHasTask(c, states[i + 1], FirstSeen(step.issues)[j], p.ids[j]) {
      ImportAnswers(c, p, step.issues, step.newIds, states[i + 1], j);
    }
  }

  /** An issue that can be imported: known in the project, or with a title and not too long. */
  predicate Admissible(b: Board, project: ProjectId, issue: Issue) {
    || (project, issue.id) in b.rows
    || (ConfigText.Trim(issue.title) != "" && |issue.title| <= 512 && |issue.body| <= 65536)
  }

  ghost predicate AllAdmissible(b: Board, project: ProjectId, issues: seq<Issue>) {
    forall k | 0 <= k < |issues| :: Admissible(b, project, issues[k])
  }

  lemma OneMoreAdmissible(b: Board, project: ProjectId, issues: seq<Issue>, last: Issue)
    ensures AllAdmissible(b, project, issues + [last]) <==> AllAdmissible(b, project, issues) && Admissible(b, project, last)
  {
    var all := issues + [last];
    assert all[|issues|] == last && forall k | 0 <= k < |issues| :: all[k] == issues[k];
  }

  lemma TakesOneIff(c: Context, p: Progress, issue: Issue, newId: TaskId)
    requires Linked(c.board)
    ensures Take(c, p, issue, newId).Ok? <==> issue.id in p.seen || Admissible(c.board, c.project, issue)
    ensures Take(c, p, issue, newId).Err? ==> Take(c, p, issue, newId).error == InvalidIssue
  {
    hide ConfigText.Trim;
  }

  /** Issues are refused together: exactly if one of them, the first of its id, cannot be imported. */
  lemma {:induction false} TakesIff(c: Context, issues: seq<Issue>, newIds: seq<TaskId>)
    requires |newIds| == |issues| && Linked(c.board) && FreshIds(c.board, newIds)
    ensures TakeAll(c, issues, newIds).Ok? <==> AllAdmissible(c.board, c.project, FirstSeen(issues))
    ensures TakeAll(c, issues, newIds).Err? ==> TakeAll(c, issues, newIds).error == InvalidIssue
  {
    if issues != [] {
      var n := |issues| - 1;
      var front, last := issues[..n], issues[n];
      TakesIff(c, front, newIds[..n]);
      OneMoreAdmissible(c.board, c.project, FirstSeen(front), last);
      TakeAllGathers(c, front, newIds[..n]);
      assert front + [last] == issues;
      if TakeAll(c, front, newIds[..n]).Ok? {
        var p := TakeAll(c, front, newIds[..n]).value;
        SeenAgain(front, p, last);
        TakesOneIff(c, p, last, newIds[n]);
      }
      hide Linked, FreshIds, Gathered, Take, AllAdmissible;
    } else {
      hide Linked, FreshIds;
    }
  }

  /**
   An import of a known project under a new receipt fails exactly if the first mention of some issue cannot be
   imported, or the save fails; a task that an issue is linked to is always there.
   */
  lemma ImportFailsIff(states: seq<Board>, steps: seq<Step>, i: nat)
    requires IsRun(states, steps) && i < |steps| && steps[i].ImportAll? && steps[i].project in states[i].projects
    requires var s := steps[i];
             ReceiptFor(s.request, Fingerprint(s.project, s.repository, IdentityOf(s.issues))) !in states[i].receipts
    ensures |steps[i].newIds| == |steps[i].issues|
    ensures var s := steps[i];
            var r := Imported(ContextOf(states[i], s), s.issues, s.request, s.newIds, s.sound).1;
            && (r == Err(InvalidIssue) <==> !AllAdmissible(states[i], s.project, FirstSeen(s.issues)))
            && (r == Err(Storage) <==> AllAdmissible(states[i], s.project, FirstSeen(s.issues)) && !s.sound)
            && (r.Err? ==> r.error in {InvalidIssue, Storage} && states[i + 1] == states[i])
  {
    LinkedAlways(states, steps, i);
    TakesIff(ContextOf(states[i], steps[i]), steps[i].issues, steps[i].newIds);
    hide TakeAll, AllAdmissible, FirstSeen, Linked, FreshIds, IsRun;
  }

  // ---- Receipts ----

  lemma ReceiptsOnlyGrow(b: Board, step: Step)
    requires Linked(b) && Enabled(b, step)
    ensures forall r | r in b.receipts :: r in Next(b, step).receipts && Next(b, step).receipts[r] == b.receipts[r]
  {
    hide TakeAll, WithChanges, WithSources;
  }

  lemma {:induction false} ReceiptsAreForever(states: seq<Board>, steps: seq<Step>, i: nat, j: nat, receipt: ReceiptId)
    requires IsRun(states, steps) && i <= j < |states| && receipt in states[i].receipts
    ensures receipt in states[j].receipts && states[j].receipts[receipt] == states[i].receipts[receipt]
    decreases j - i
  {
    hide Next, Enabled, Linked;
    if i < j {
      ReceiptsAreForever(states, steps, i, j - 1, receipt);
      LinkedAlways(states, steps, j - 1);
      ReceiptsOnlyGrow(states[j - 1], steps[j - 1]);
    }
  }

  /** Both under one id given by the caller, or both without one and for the same issues. */
  predicate SameReceipt(first: Step, again: Step)
    requires first.ImportAll? && again.ImportAll?
  {
    if first.request.Some? then again.request == first.request
    else again.request.None? && SameImport(first, again)
  }

  predicate SameImport(first: Step, again: Step)
    requires first.ImportAll? && again.ImportAll?
  {
    && first.project == again.project && first.repository == again.repository
    && (forall i | i in first.issues :: exists k | k in again.issues :: k.id == i.id && k.number == i.number)
    && (forall i | i in again.issues :: exists k | k in first.issues :: k.id == i.id && k.number == i.number)
  }

  lemma SameImportIff(first: Step, again: Step)
    requires first.ImportAll? && again.ImportAll?
    ensures SameImport(first, again) <==>
            Fingerprint(first.project, first.repository, IdentityOf(first.issues))
            == Fingerprint(again.project, again.repository, IdentityOf(again.issues))
  {
    SubIdentity(first.issues, again.issues);
    SubIdentity(again.issues, first.issues);
  }

  lemma SubIdentity(issues: seq<Issue>, others: seq<Issue>)
    ensures (forall i | i in issues :: exists k | k in others :: k.id == i.id && k.number == i.number)
            <==> IdentityOf(issues) <= IdentityOf(others)
  {
    if IdentityOf(issues) <= IdentityOf(others) {
      forall i | i in issues ensures exists k | k in others :: k.id == i.id && k.number == i.number {
        assert (i.id, i.number) in IdentityOf(issues);
        assert (i.id, i.number) in IdentityOf(others);
      }
    } else {
      var pair :| pair in IdentityOf(issues) && pair !in IdentityOf(others);
      var i :| i in issues && (i.id, i.number) == pair;
      assert forall k | k in others :: (k.id, k.number) in IdentityOf(others);
    }
  }

  /**
   Repeating an import, in whatever order and with whatever duplicates, is answered from its receipt; reusing its id
   for other issues is refused.  Neither changes anything.
   */
  lemma RepeatedImports(states: seq<Board>, steps: seq<Step>, i: nat, j: nat, again: Step)
    requires IsRun(states, steps) && i < |steps| && i < j < |states| && steps[i].ImportAll?
    requires Commits(ContextOf(states[i], steps[i]), steps[i].issues, steps[i].request, steps[i].newIds, steps[i].sound)
    requires again.ImportAll? && Enabled(states[j], again) && SameReceipt(steps[i], again)
    requires again.project in states[j].projects
    ensures Next(states[j], again) == states[j]
    ensures Imported(ContextOf(states[j], again), again.issues, again.request, again.newIds, again.sound).1
         == if SameImport(steps[i], again) then
              Ok(TakeAll(ContextOf(states[i], steps[i]), steps[i].issues, steps[i].newIds).value.ids)
            else Err(RequestReused)
  {
    LinkedAlways(states, steps, i);
    SameImportIff(steps[i], again);
    hide SameImport;
    var receipt := ReceiptFor(steps[i].request, Fingerprint(steps[i].project, steps[i].repository, IdentityOf(steps[i].issues)));
    ReceiptsAreForever(states, steps, i + 1, j, receipt);
    hide TakeAll, WithChanges, WithSources, Linked, FreshIds, IdentityOf;
  }
}

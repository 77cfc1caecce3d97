/**
 One agent turn over the App Server: the reader's start-up steps and event gate,
 and the approval requests a user answers from other threads.

 Requests and responses are paired by id as in section 5 of JSON-RPC 2.0.
 */
module TurnProtocol {
  import opened Wrappers

  type Uuid = nat

  datatype RpcId = Text(text: string) | Number(number: int)

  const THREAD_ID := "ditch:thread"
  const TURN_ID := "ditch:turn"
  const INITIALIZE_ID := "ditch:initialize"
  const INTERRUPT_ID := "ditch:interrupt"

  const MAX_ANSWERS: nat := 20
  const MAX_ANSWER_LENGTH: nat := 20000

  /** The fields of an incoming message that the reader looks at. */
  datatype Message = Message(
    method_: Option<string>,
    id: Option<RpcId>,
    isError: bool,
    resultThread: Option<string>,
    resultTurn: Option<string>,
    thread: Option<string>,
    turnId: Option<string>,
    turnObjectId: Option<string>,
    requestId: Option<RpcId>,
    item: Option<string>,
    questions: Option<seq<string>>,
    permissions: string)
  {
    predicate IsResponseTo(name: string) {
      method_.None? && id == Some(Text(name))
    }

    /** The turn a notification names. */
    function NamedTurn(): Option<string> {
      if turnId.Some? then turnId else turnObjectId
    }
  }

  predicate StartsWith(s: string, prefix: string) {
    prefix <= s
  }

  // ---- The event gate ----

  datatype Gate = Gate(threadResponse: bool, thread: Option<string>, turn: Option<string>)

  const CLOSED_GATE := Gate(false, None, None)

  function Accept(g: Gate, m: Message): (Gate, bool) {
    if m.method_.None? then
      if m.id == Some(Text(THREAD_ID)) then
        if g.threadResponse then (g, false) else (g.(threadResponse := true, thread := m.resultThread), true)
      else if m.id == Some(Text(TURN_ID)) then
        if g.thread.None? then (g, false) else (g.(turn := m.resultTurn), true)
      else (g, true)
    else
      var name := m.method_.value;
      if (StartsWith(name, "turn/") || StartsWith(name, "item/")) && g.thread.None? then (g, false)
      else if m.thread.Some? && g.thread != m.thread then (g, false)
      else if g.turn.Some? && m.NamedTurn().Some? && g.turn != m.NamedTurn() then (g, false)
      else (if name == "turn/started" then g.(turn := m.NamedTurn()) else g, true)
  }

  class TurnEventGate {
    var threadResponse: bool
    var thread: Option<string>
    var turn: Option<string>

    constructor ()
      ensures View() == CLOSED_GATE
    {
      threadResponse, thread, turn := false, None, None;
    }

    function View(): Gate
      reads this
    {
      Gate(threadResponse, thread, turn)
    }

    /**
     The first thread response names the thread and a turn response after it the turn; a notification passes exactly if
     it names no other thread and no other turn, and there is a thread for what belongs to a turn.
     */
    method AcceptMessage(m: Message) returns (accepted: bool)
      modifies this
      ensures (View(), accepted) == Accept(old(View()), m)
      ensures old(threadResponse) ==> threadResponse && thread == old(thread)
      ensures m.IsResponseTo(THREAD_ID) ==> accepted == !old(threadResponse) && threadResponse
      ensures m.IsResponseTo(THREAD_ID) && accepted ==> thread == m.resultThread
      ensures m.IsResponseTo(TURN_ID) ==> accepted == old(thread).Some?
      ensures m.method_.None? && !m.IsResponseTo(THREAD_ID) && !m.IsResponseTo(TURN_ID) ==> accepted
      ensures m.method_.Some? ==> (accepted <==>
                && (m.thread.Some? ==> old(thread) == m.thread)
                && (old(turn).Some? && m.turnId.Some? ==> old(turn) == m.turnId)
                && (old(turn).Some? && m.turnId.None? && m.turnObjectId.Some? ==> old(turn) == m.turnObjectId)
                && ("turn/" <= m.method_.value || "item/" <= m.method_.value ==> old(thread).Some?))
      ensures turn == if accepted && m.IsResponseTo(TURN_ID) then m.resultTurn
                      else if accepted && m.method_ == Some("turn/started") then if m.turnId.Some? then m.turnId else m.turnObjectId
                      else old(turn)
      ensures !(accepted && m.IsResponseTo(THREAD_ID)) ==> threadResponse == old(threadResponse) && thread == old(thread)
    {
      if m.method_.None? {
        if m.id == Some(Text(THREAD_ID)) {
          if threadResponse {
            return false;
          }
          threadResponse := true;
          thread := m.resultThread;
        } else if m.id == Some(Text(TURN_ID)) {
          if thread.None? {
            return false;
          }
          turn := m.resultTurn;
        }
        return true;
      }
      var name := m.method_.value;
      if (StartsWith(name, "turn/") || StartsWith(name, "item/")) && thread.None? {
        return false;
      }
      if m.thread.Some? && thread != m.thread {
        return false;
      }
      if turn.Some? && m.NamedTurn().Some? && turn != m.NamedTurn() {
        return false;
      }
      if name == "turn/started" {
        turn := m.NamedTurn();
      }
      return true;
    }
  }

  // ---- Pending approvals ----

  datatype ApprovalKind = Decision | Permissions(requested: string) | Questions(ids: seq<string>)

  datatype PermissionDecision = ApproveOnce | ApproveForSession | Deny

  datatype Response =
    | Decided(decision: PermissionDecision)
    | Granted(permissions: Option<string>, session: bool)
    | Answered(answers: map<string, seq<string>>)

  datatype Pending = Pending(rpcId: RpcId, kind: ApprovalKind, item: Option<string>, response: Option<Response>)

  /** What Ditch writes to the server. */
  datatype Write =
    | TurnStart(thread: string)
    | Result(request: Uuid, rpcId: RpcId, response: Response)
    | ErrorReply(to_: Option<RpcId>)

  datatype RespondError = Expired | WrongKind | InvalidAnswers | AlreadyAnswered

  function DecisionResponse(kind: ApprovalKind, decision: PermissionDecision): Option<Response> {
    match kind
    case Questions(_) => None
    case Decision => Some(Decided(decision))
    case Permissions(requested) =>
      Some(Granted(if decision == Deny then None else Some(requested), decision == ApproveForSession))
  }

  predicate AnswersAll(ids: seq<string>, answers: map<string, seq<string>>) {
    && |answers| == |ids|
    && forall i | 0 <= i < |ids| ::
      && ids[i] in answers && 1 <= |answers[ids[i]]| <= MAX_ANSWERS
      && forall k | 0 <= k < |answers[ids[i]]| :: |answers[ids[i]][k]| <= MAX_ANSWER_LENGTH
  }

  /** The state shared by the reader and the answering threads; `asked` is every request ever queued. */
  datatype Turn = Turn(
    gate: Gate,
    waitingFor: Option<string>,
    pending: map<Uuid, Pending>,
    writes: seq<Write>,
    asked: map<Uuid, RpcId>)

  const NEW_TURN := Turn(CLOSED_GATE, Some(THREAD_ID), map[], [], map[])

  function Send(t: Turn, request: Uuid, response: Response): (Turn, Option<RespondError>)
    requires request in t.pending
  {
    var entry := t.pending[request];
    if entry.response == Some(response) then (t, None)
    else if entry.response.Some? then (t, Some(AlreadyAnswered))
    else
      (t.(pending := t.pending[request := entry.(response := Some(response))],
          writes := t.writes + [Result(request, entry.rpcId, response)]), None)
  }

  function Respond(t: Turn, request: Uuid, decision: PermissionDecision): (Turn, Option<RespondError>) {
    if request !in t.pending then (t, Some(Expired))
    else
      match DecisionResponse(t.pending[request].kind, decision)
      case None => (t, Some(WrongKind))
      case Some(response) => Send(t, request, response)
  }

  function Answer(t: Turn, request: Uuid, answers: map<string, seq<string>>): (Turn, Option<RespondError>) {
    if request !in t.pending then (t, Some(Expired))
    else if !t.pending[request].kind.Questions? then (t, Some(WrongKind))
    else if !AnswersAll(t.pending[request].kind.ids, answers) then (t, Some(InvalidAnswers))
    else Send(t, request, Answered(answers))
  }

  // ---- The reader ----

  /** What the surroundings contribute to handling one message. */
  datatype Circumstances = Circumstances(uuid: Uuid, writerOpen: bool, launchVerified: bool)

  function QueueApproval(t: Turn, m: Message, kind: ApprovalKind, uuid: Uuid): Turn {
    if m.id.None? || (exists request | request in t.pending :: t.pending[request].rpcId == m.id.value) then t
    else
      t.(pending := t.pending[uuid := Pending(m.id.value, kind, m.item, None)], asked := t.asked[uuid := m.id.value])
  }

  /** An error reply carries the id of the message, or null if it had none. */
  function Reply(t: Turn, id: Option<RpcId>, c: Circumstances): Turn {
    if c.writerOpen then t.(writes := t.writes + [ErrorReply(id)]) else t
  }

  function Remove(t: Turn, gone: set<Uuid>): Turn {
    t.(pending := t.pending - gone)
  }

  const IGNORED := {
    "skills/changed", "thread/tokenUsage/updated", "thread/name/updated", "item/agentMessage/delta", "turn/started",
    "item/started", "item/commandExecution/outputDelta", "item/mcpToolCall/progress", "turn/completed", "error",
    "warning", "configWarning"
  }

  const ANSWERED := {
    "serverRequest/resolved", "item/completed", "item/commandExecution/requestApproval", "item/fileChange/requestApproval",
    "item/tool/requestUserInput", "tool/requestUserInput", "item/permissions/requestApproval"
  }

  function HandleMethod(t: Turn, name: string, m: Message, c: Circumstances): Turn {
    if name == "serverRequest/resolved" then
      if m.requestId.None? then t else Remove(t, set u | u in t.pending && t.pending[u].rpcId == m.requestId.value)
    else if name == "item/completed" then
      if m.item.None? then t else Remove(t, set u | u in t.pending && t.pending[u].item == m.item)
    else if name == "item/commandExecution/requestApproval" || name == "item/fileChange/requestApproval" then
      QueueApproval(t, m, Decision, c.uuid)
    else if name == "item/tool/requestUserInput" || name == "tool/requestUserInput" then
      if m.questions.Some? && 1 <= |m.questions.value| <= 3 then QueueApproval(t, m, Questions(m.questions.value), c.uuid)
      else Reply(t, m.id, c)
    else if name == "item/permissions/requestApproval" then
      QueueApproval(t, m, Permissions(m.permissions), c.uuid)
    else if name in IGNORED || m.id.None? then t
    else Reply(t, m.id, c)
  }

  /** The turn is requested once the thread is known and the launch was verified. */
  function StartTurn(t: Turn, m: Message, c: Circumstances): Turn {
    if m.isError || m.resultThread.None? || !c.writerOpen || !c.launchVerified then t
    else t.(writes := t.writes + [TurnStart(m.resultThread.value)])
  }

  function AfterResponse(waitingFor: Option<string>): Option<string> {
    if waitingFor == Some(INITIALIZE_ID) then Some(THREAD_ID)
    else if waitingFor == Some(THREAD_ID) then Some(TURN_ID)
    else None
  }

  function OnMessage(t0: Turn, m: Message, c: Circumstances): Turn {
    var (gate, accepted) := Accept(t0.gate, m);
    var t := t0.(gate := gate);
    if !accepted || m.IsResponseTo(INTERRUPT_ID) then t
    else if m.method_.Some? then HandleMethod(t, m.method_.value, m, c)
    else if t.waitingFor.None? || m.id != Some(Text(t.waitingFor.value)) then t
    else
      var advanced := if m.isError then t else t.(waitingFor := AfterResponse(t.waitingFor));
      if m.IsResponseTo(THREAD_ID) then StartTurn(advanced, m, c) else advanced
  }

  /** The turn in place: `gate` and `waitingFor` belong to the reader, the rest is shared under the lock. */
  class ActiveTurn {
    const gate: TurnEventGate
    var waitingFor: Option<string>
    var pending: map<Uuid, Pending>
    var writes: seq<Write>
    ghost var asked: map<Uuid, RpcId>

    constructor ()
      ensures View() == NEW_TURN && fresh(gate) && Valid()
    {
      gate := new TurnEventGate();
      waitingFor, pending, writes, asked := Some(THREAD_ID), map[], [], map[];
    }

    ghost function View(): Turn
      reads this, gate
    {
      Turn(gate.View(), waitingFor, pending, writes, asked)
    }

    ghost predicate Valid()
      reads this, gate
    {
      Invariant(View())
    }

    /** No error means that the response kept is this one; it is written exactly if there was none, under the request's own id. */
    method SendApprovalResponse(request: Uuid, response: Response) returns (error: Option<RespondError>)
      requires Valid() && request in pending
      modifies this`pending, this`writes
      ensures (View(), error) == Send(old(View()), request, response) && Valid()
      ensures pending.Keys == old(pending).Keys && pending[request].response.Some?
      ensures forall u | u in pending && u != request :: pending[u] == old(pending)[u]
      ensures error.None? <==> pending[request].response == Some(response)
      ensures old(pending)[request].response.Some? ==> pending == old(pending)
      ensures writes == old(writes) + if old(pending)[request].response.Some? then [] else [Result(request, pending[request].rpcId, response)]
    {
      SendKeeps(View(), request, response);
      var entry := pending[request];
      if entry.response.Some? {
        return if entry.response.value == response then None else Some(AlreadyAnswered);
      }
      pending := pending[request := entry.(response := Some(response))];
      writes := writes + [Result(request, entry.rpcId, response)];
      return None;
    }

    /** Nothing is written for a request that expired, asks a question, or was answered before; no other request is touched. */
    method RespondTo(request: Uuid, decision: PermissionDecision) returns (error: Option<RespondError>)
      requires Valid()
      modifies this`pending, this`writes
      ensures (View(), error) == Respond(old(View()), request, decision) && Valid()
      ensures pending.Keys == old(pending).Keys && forall u | u in pending && u != request :: pending[u] == old(pending)[u]
      ensures error == Some(Expired) <==> request !in pending
      ensures error == Some(WrongKind) <==> request in pending && pending[request].kind.Questions?
      ensures error.None? && pending[request].kind.Decision? ==> pending[request].response == Some(Decided(decision))
      ensures error.None? && pending[request].kind.Permissions? ==>
                && pending[request].response.Some? && pending[request].response.value.Granted?
                && var granted := pending[request].response.value;
                && granted.permissions == (if decision == Deny then None else Some(pending[request].kind.requested))
                && (granted.session <==> decision == ApproveForSession)
      ensures request in pending && !pending[request].kind.Questions? && old(pending)[request].response.None? ==>
                error.None? && pending[request].response.Some?
                && writes == old(writes) + [Result(request, old(pending)[request].rpcId, pending[request].response.value)]
      ensures request in pending && old(pending)[request].response.Some? ==> View() == old(View())
      ensures error.Some? ==> View() == old(View())
    {
      if request !in pending {
        return Some(Expired);
      }
      var response := DecisionResponse(pending[request].kind, decision);
      if response.None? {
        return Some(WrongKind);
      }
      error := SendApprovalResponse(request, response.value);
    }

    /** Only complete answers to a question that is still pending are written, and only the first time. */
    method AnswerQuestions(request: Uuid, answers: map<string, seq<string>>) returns (error: Option<RespondError>)
      requires Valid()
      modifies this`pending, this`writes
      ensures (View(), error) == Answer(old(View()), request, answers) && Valid()
      ensures pending.Keys == old(pending).Keys && forall u | u in pending && u != request :: pending[u] == old(pending)[u]
      ensures error == Some(Expired) <==> request !in pending
      ensures error == Some(WrongKind) <==> request in pending && !pending[request].kind.Questions?
      ensures error in {None, Some(AlreadyAnswered)} <==>
                && request in pending && pending[request].kind.Questions? && |answers| == |pending[request].kind.ids|
                && forall id | id in pending[request].kind.ids ::
                     && id in answers && 1 <= |answers[id]| <= MAX_ANSWERS
                     && forall text | text in answers[id] :: |text| <= MAX_ANSWER_LENGTH
      ensures error.None? ==> pending[request].response == Some(Answered(answers))
      ensures error in {None, Some(AlreadyAnswered)} && old(pending)[request].response.None? ==>
                error.None? && writes == old(writes) + [Result(request, old(pending)[request].rpcId, Answered(answers))]
      ensures request in pending && old(pending)[request].response.Some? ==> View() == old(View())
      ensures error.Some? ==> View() == old(View())
    {
      if request !in pending {
        return Some(Expired);
      }
      if !pending[request].kind.Questions? {
        return Some(WrongKind);
      }
      if !AnswersAll(pending[request].kind.ids, answers) {
        return Some(InvalidAnswers);
      }
      error := SendApprovalResponse(request, Answered(answers));
    }

    /** Afterwards the server's request is pending, exactly once, and every other as it was; nothing is written. */
    method QueueRequest(m: Message, kind: ApprovalKind, uuid: Uuid)
      requires Valid() && uuid !in asked
      modifies this`pending, this`asked
      ensures View() == QueueApproval(old(View()), m, kind, uuid) && Valid()
      ensures m.id.Some? ==> exists u :: u in pending && pending[u].rpcId == m.id.value
      ensures forall u | u in old(pending) :: u in pending && pending[u] == old(pending)[u]
      ensures forall u | u in pending && u !in old(pending) ::
                u == uuid && m.id.Some? && pending[u] == Pending(m.id.value, kind, m.item, None)
    {
      QueueKeeps(View(), m, kind, uuid);
      if m.id.None? || exists request :: request in pending && pending[request].rpcId == m.id.value {
        return;
      }
      pending := pending[uuid := Pending(m.id.value, kind, m.item, None)];
      asked := asked[uuid := m.id.value];
      assert uuid in pending && pending[uuid].rpcId == m.id.value;
    }

    method RejectRequest(id: Option<RpcId>, c: Circumstances)
      requires Valid()
      modifies this`writes
      ensures View() == Reply(old(View()), id, c) && Valid()
      ensures WritesNoStart(old(View()), View())
      ensures writes == old(writes) + if c.writerOpen then [ErrorReply(id)] else []
    {
      ReplyKeeps(View(), id, c, {});
      if c.writerOpen {
        writes := writes + [ErrorReply(id)];
      }
    }

    /**
     A request goes away exactly when the server settles it, a new one is unanswered, has the id of the message and is
     of the kind its method asks for, and an error is written exactly for what cannot be answered.
     */
    method HandleLine(name: string, m: Message, c: Circumstances)
      requires Valid() && c.uuid !in asked && m.method_ == Some(name)
      modifies this`pending, this`asked, this`writes
      ensures View() == HandleMethod(old(View()), name, m, c) && Valid()
      ensures WritesNoStart(old(View()), View())
      ensures OnlySettles(old(View()), m, c, View())
      ensures Handled(old(View()), View(), name, m, c)
    {
      MethodKeeps(View(), name, m, c);
      HandlingMeans(View(), name, m, c);
      HandlingWritesNoStart(View(), name, m, c);
      HandlingFollowsTheTable(View(), name, m, c);
      hide Invariant, WritesNoStart, OnlySettles, Handled;
      if name == "serverRequest/resolved" {
        if m.requestId.Some? {
          pending := pending - set u | u in pending && pending[u].rpcId == m.requestId.value;
        }
      } else if name == "item/completed" {
        if m.item.Some? {
          pending := pending - set u | u in pending && pending[u].item == m.item;
        }
      } else if name == "item/commandExecution/requestApproval" || name == "item/fileChange/requestApproval" {
        QueueRequest(m, Decision, c.uuid);
      } else if name == "item/tool/requestUserInput" || name == "tool/requestUserInput" {
        if m.questions.Some? && 1 <= |m.questions.value| <= 3 {
          QueueRequest(m, Questions(m.questions.value), c.uuid);
        } else {
          RejectRequest(m.id, c);
        }
      } else if name == "item/permissions/requestApproval" {
        QueueRequest(m, Permissions(m.permissions), c.uuid);
      } else if name !in IGNORED && m.id.Some? {
        RejectRequest(m.id, c);
      }
    }

    /**
     One round of the reader loop: at most one message is written, a turn is started only by the first thread response,
     on its thread, and pending requests go away only when the server settles them.
     */
    method ReceiveMessage(m: Message, c: Circumstances)
      requires Valid() && c.uuid !in asked
      modifies this, gate
      ensures View() == OnMessage(old(View()), m, c) && Valid()
      ensures old(writes) <= writes && |writes| <= |old(writes)| + 1
      ensures |writes| > |old(writes)| && writes[|old(writes)|].TurnStart? ==>
                m.IsResponseTo(THREAD_ID) && !old(gate.threadResponse) && gate.thread == Some(writes[|old(writes)|].thread)
      ensures m.IsResponseTo(THREAD_ID) && !old(gate.threadResponse) && old(waitingFor) == Some(THREAD_ID)
              && !m.isError && m.resultThread.Some? && c.writerOpen && c.launchVerified ==>
                writes == old(writes) + [TurnStart(m.resultThread.value)] && waitingFor == Some(TURN_ID)
      ensures waitingFor != old(waitingFor) ==>
                && old(waitingFor).Some? && m.IsResponseTo(old(waitingFor).value) && !m.isError
                && waitingFor == if old(waitingFor) == Some(THREAD_ID) then Some(TURN_ID) else None
      ensures OnlySettles(old(View()), m, c, View())
    {
      StepKeeps(View(), Receive(m, c));
      GateKeepsValid(View(), m);
      hide Invariant;
      var accepted := gate.AcceptMessage(m);
      if !accepted || m.IsResponseTo(INTERRUPT_ID) {
        return;
      }
      if m.method_.Some? {
        HandleLine(m.method_.value, m, c);
        return;
      }
      if waitingFor.None? || m.id != Some(Text(waitingFor.value)) {
        return;
      }
      if !m.isError {
        waitingFor := AfterResponse(waitingFor);
      }
      if m.IsResponseTo(THREAD_ID) && !m.isError && m.resultThread.Some? && c.writerOpen && c.launchVerified {
        writes := writes + [TurnStart(m.resultThread.value)];
      }
    }
  }

  // ---- Whole runs ----

  datatype Step =
    | Receive(message: Message, circumstances: Circumstances)
    | Decide(request: Uuid, decision: PermissionDecision)
    | AnswerAll(request: Uuid, answers: map<string, seq<string>>)

  predicate Enabled(t: Turn, step: Step) {
    step.Receive? ==> step.circumstances.uuid !in t.asked
  }

  function Next(t: Turn, step: Step): Turn {
    match step
    case Receive(m, c) => OnMessage(t, m, c)
    case Decide(request, decision) => Respond(t, request, decision).0
    case AnswerAll(request, answers) => Answer(t, request, answers).0
  }

  ghost predicate IsRun(states: seq<Turn>, steps: seq<Step>) {
    && |states| == |steps| + 1 && states[0] == NEW_TURN
    && forall i | 0 <= i < |steps| :: Enabled(states[i], steps[i]) && states[i + 1] == Next(states[i], steps[i])
  }

  /** At most one turn is started, on the thread the gate admits, and only after its response. */
  ghost predicate StartsOnce(t: Turn) {
    && (t.waitingFor == Some(THREAD_ID) ==> forall k | 0 <= k < |t.writes| :: !t.writes[k].TurnStart?)
    && (forall k | 0 <= k < |t.writes| && t.writes[k].TurnStart? ::
          t.gate.threadResponse && t.gate.thread == Some(t.writes[k].thread))
    && (forall j, k | 0 <= j < k < |t.writes| :: !(t.writes[j].TurnStart? && t.writes[k].TurnStart?))
    && (t.waitingFor != Some(INITIALIZE_ID))
  }

  ghost predicate PendingOnce(t: Turn) {
    && (forall u | u in t.pending :: u in t.asked && t.asked[u] == t.pending[u].rpcId)
    && (forall u, v | u in t.pending && v in t.pending && t.pending[u].rpcId == t.pending[v].rpcId :: u == v)
  }

  /** Results are written at most once a request, under its own id, and are the response kept with it. */
  ghost predicate AnsweredOnce(t: Turn) {
    && (forall k | 0 <= k < |t.writes| && t.writes[k].Result? ::
          && t.writes[k].request in t.asked && t.asked[t.writes[k].request] == t.writes[k].rpcId
          && (t.writes[k].request in t.pending ==> t.pending[t.writes[k].request].response == Some(t.writes[k].response)))
    && (forall j, k | 0 <= j < k < |t.writes| && t.writes[j].Result? && t.writes[k].Result? ::
          t.writes[j].request != t.writes[k].request)
  }

  ghost predicate Invariant(t: Turn) {
    StartsOnce(t) && PendingOnce(t) && AnsweredOnce(t)
  }

  lemma SendKeeps(t: Turn, request: Uuid, response: Response)
    requires Invariant(t) && request in t.pending
    ensures Invariant(Send(t, request, response).0)
  {
  }

  lemma QueueKeeps(t: Turn, m: Message, kind: ApprovalKind, uuid: Uuid)
    requires Invariant(t) && uuid !in t.asked
    ensures Invariant(QueueApproval(t, m, kind, uuid))
  {
  }

  lemma ReplyKeeps(t: Turn, id: Option<RpcId>, c: Circumstances, gone: set<Uuid>)
    requires Invariant(t)
    ensures Invariant(Reply(t, id, c)) && Invariant(Remove(t, gone))
  {
  }

  lemma MethodKeeps(t: Turn, name: string, m: Message, c: Circumstances)
    requires Invariant(t) && c.uuid !in t.asked
    ensures Invariant(HandleMethod(t, name, m, c))
  {
    hide Invariant, QueueApproval, Reply, Remove;
    QueueKeeps(t, m, Decision, c.uuid);
    QueueKeeps(t, m, Permissions(m.permissions), c.uuid);
    ReplyKeeps(t, m.id, c, {});
    if m.questions.Some? {
      QueueKeeps(t, m, Questions(m.questions.value), c.uuid);
    }
    if m.requestId.Some? {
      ReplyKeeps(t, m.id, c, set u | u in t.pending && t.pending[u].rpcId == m.requestId.value);
    }
    ReplyKeeps(t, m.id, c, set u | u in t.pending && t.pending[u].item == m.item);
  }

  lemma ResponseKeeps(t: Turn, m: Message, c: Circumstances)
    requires Invariant(t) && m.method_.None?
    ensures Invariant(OnMessage(t, m, c))
  {
  }

  lemma GateKeeps(t: Turn, m: Message)
    requires Invariant(t) && m.method_.Some?
    ensures Invariant(t.(gate := Accept(t.gate, m).0))
  {
  }

  lemma GateKeepsValid(t: Turn, m: Message)
    requires Invariant(t)
    ensures m.method_.Some? ==> Invariant(t.(gate := Accept(t.gate, m).0))
  {
    if m.method_.Some? {
      GateKeeps(t, m);
    }
  }

  lemma StepKeeps(t: Turn, step: Step)
    requires Invariant(t) && Enabled(t, step)
    ensures Invariant(Next(t, step))
  {
    hide Invariant, HandleMethod, Send;
    match step {
      case Receive(m, c) =>
        if m.method_.None? {
          ResponseKeeps(t, m, c);
        } else {
          GateKeeps(t, m);
          MethodKeeps(t.(gate := Accept(t.gate, m).0), m.method_.value, m, c);
        }
      case Decide(request, decision) =>
        if request in t.pending && DecisionResponse(t.pending[request].kind, decision).Some? {
          SendKeeps(t, request, DecisionResponse(t.pending[request].kind, decision).value);
        }
      case AnswerAll(request, answers) =>
        if request in t.pending {
          SendKeeps(t, request, Answered(answers));
        }
    }
  }

  lemma {:induction false} InvariantAlways(states: seq<Turn>, steps: seq<Step>, i: nat)
    requires IsRun(states, steps) && i < |states|
    ensures Invariant(states[i])
  {
    hide Next;
    if i > 0 {
      InvariantAlways(states, steps, i - 1);
      StepKeeps(states[i - 1], steps[i - 1]);
      assert states[i - 1 + 1] == Next(states[i - 1], steps[i - 1]);
    }
  }

  lemma {:induction false} Reached(states: seq<Turn>, steps: seq<Step>, i: nat)
    requires IsRun(states, steps) && i < |steps|
    ensures Invariant(states[i]) && Enabled(states[i], steps[i]) && states[i + 1] == Next(states[i], steps[i])
  {
    InvariantAlways(states, steps, i);
  }

  // ---- The turn is started at most once, on the thread the server announced ----

  lemma HandlingKeepsGate(t: Turn, name: string, m: Message, c: Circumstances)
    ensures HandleMethod(t, name, m, c).gate == t.gate
  {
    hide QueueApproval, Remove, Reply;
    GateUntouched(t, m, Decision, c, {});
    GateUntouched(t, m, Permissions(m.permissions), c, {});
    if m.questions.Some? {
      GateUntouched(t, m, Questions(m.questions.value), c, {});
    }
    if m.requestId.Some? {
      GateUntouched(t, m, Decision, c, set u | u in t.pending && t.pending[u].rpcId == m.requestId.value);
    }
    GateUntouched(t, m, Decision, c, set u | u in t.pending && t.pending[u].item == m.item);
  }

  lemma GateUntouched(t: Turn, m: Message, kind: ApprovalKind, c: Circumstances, gone: set<Uuid>)
    ensures QueueApproval(t, m, kind, c.uuid).gate == Remove(t, gone).gate == Reply(t, m.id, c).gate == t.gate
  {
  }

  /** Only the reader moves the gate, and only by admitting a message. */
  lemma GateMoves(t: Turn, step: Step)
    ensures Next(t, step).gate == if step.Receive? then Accept(t.gate, step.message).0 else t.gate
  {
    hide HandleMethod, Accept, AnswersAll, DecisionResponse;
    if step.Receive? && step.message.method_.Some? {
      HandlingKeepsGate(t.(gate := Accept(t.gate, step.message).0), step.message.method_.value, step.message, step.circumstances);
    }
  }

  lemma GateOpensOnce(t: Turn, step: Step)
    requires t.gate.threadResponse
    ensures Next(t, step).gate.threadResponse && Next(t, step).gate.thread == t.gate.thread
  {
    hide Next;
    GateMoves(t, step);
  }

  lemma {:induction false} ThreadIsSetOnce(states: seq<Turn>, steps: seq<Step>, i: nat, j: nat)
    requires IsRun(states, steps) && i <= j < |states| && states[i].gate.threadResponse
    ensures states[j].gate.threadResponse && states[j].gate.thread == states[i].gate.thread
    decreases j - i
  {
    hide Next, Invariant;
    if i < j {
      ThreadIsSetOnce(states, steps, i, j - 1);
      Reached(states, steps, j - 1);
      GateOpensOnce(states[j - 1], steps[j - 1]);
    }
  }

  predicate Accepts(t: Turn, step: Step) {
    step.Receive? && Accept(t.gate, step.message).1
  }

  /** A notification that names a thread is accepted only for the thread that the rest of the run stays on. */
  lemma {:induction false} AcceptedNotificationsNameTheThread(states: seq<Turn>, steps: seq<Step>, i: nat, j: nat)
    requires IsRun(states, steps) && i < |steps| && i < j < |states|
    requires Accepts(states[i], steps[i]) && steps[i].message.method_.Some? && steps[i].message.thread.Some?
    ensures states[j].gate.thread == steps[i].message.thread
  {
    Reached(states, steps, i);
    GateThreadNeedsResponse(states, steps, i);
    ThreadIsSetOnce(states, steps, i, j);
  }

  /**
   While no turn response and no start of an unnamed turn is admitted, the turn stays the one that was named, and an
   accepted notification names that turn or none.
   */
  lemma {:induction false} AcceptedNotificationsNameTheTurn(states: seq<Turn>, steps: seq<Step>, i: nat, j: nat)
    requires IsRun(states, steps) && i <= j < |steps| && states[i].gate.turn.Some?
    requires forall k | i <= k < j && Accepts(states[k], steps[k]) ::
               !steps[k].message.IsResponseTo(TURN_ID) && (steps[k].message.method_ == Some("turn/started") ==> steps[k].message.NamedTurn().Some?)
    ensures states[j].gate.turn == states[i].gate.turn
    ensures Accepts(states[j], steps[j]) && steps[j].message.method_.Some? && steps[j].message.NamedTurn().Some? ==>
              steps[j].message.NamedTurn() == states[i].gate.turn
    decreases j - i
  {
    hide Next, Invariant;
    if i < j {
      AcceptedNotificationsNameTheTurn(states, steps, i, j - 1);
      Reached(states, steps, j - 1);
      GateMoves(states[j - 1], steps[j - 1]);
    }
  }

  lemma {:induction false} GateThreadNeedsResponse(states: seq<Turn>, steps: seq<Step>, i: nat)
    requires IsRun(states, steps) && i < |states|
    ensures states[i].gate.thread.Some? ==> states[i].gate.threadResponse
  {
    if i > 0 {
      GateThreadNeedsResponse(states, steps, i - 1);
      Reached(states, steps, i - 1);
      ThreadComesWithResponse(states[i - 1], steps[i - 1]);
    }
  }

  lemma ThreadComesWithResponse(t: Turn, step: Step)
    requires t.gate.thread.Some? ==> t.gate.threadResponse
    ensures Next(t, step).gate.thread.Some? ==> Next(t, step).gate.threadResponse
  {
    hide Next;
    GateMoves(t, step);
  }

  ghost predicate WritesNoStart(t: Turn, n: Turn) {
    && t.writes <= n.writes && |n.writes| <= |t.writes| + 1
    && (|n.writes| > |t.writes| ==> !n.writes[|t.writes|].TurnStart?)
  }

  lemma HandlingWritesNoStart(t: Turn, name: string, m: Message, c: Circumstances)
    ensures WritesNoStart(t, HandleMethod(t, name, m, c))
  {
  }

  /** What handling a server message does to the requests that are pending. */
  ghost predicate OnlySettles(t: Turn, m: Message, c: Circumstances, n: Turn) {
    && (forall u | u in t.pending && u !in n.pending :: Settles(Receive(m, c), t.pending[u]))
    && (forall u | u in n.pending && u in t.pending :: n.pending[u] == t.pending[u])
    && (forall u | u in n.pending && u !in t.pending :: Some(n.pending[u].rpcId) == m.id && n.pending[u].response.None?)
  }

  /** A request was queued with this kind, unless it was pending already or cannot be answered. */
  ghost predicate Queued(t: Turn, n: Turn, m: Message, kind: ApprovalKind, uuid: Uuid) {
    && n.writes == t.writes
    && n.pending ==
       if m.id.Some? && forall u | u in t.pending :: t.pending[u].rpcId != m.id.value then
         t.pending[uuid := Pending(m.id.value, kind, m.item, None)]
       else t.pending
  }

  ghost predicate Rejected(t: Turn, n: Turn, id: Option<RpcId>, c: Circumstances) {
    n.pending == t.pending && n.writes == t.writes + if c.writerOpen then [ErrorReply(id)] else []
  }

  /** Which methods ask for what, which settle requests, and which are answered with an error. */
  ghost predicate Handled(t: Turn, n: Turn, name: string, m: Message, c: Circumstances) {
    && (name in {"serverRequest/resolved", "item/completed"} ==>
          n.writes == t.writes && forall u | u in t.pending :: u in n.pending <==> !Settles(Receive(m, c), t.pending[u]))
    && (name in {"item/commandExecution/requestApproval", "item/fileChange/requestApproval"} ==> Queued(t, n, m, Decision, c.uuid))
    && (name == "item/permissions/requestApproval" ==> Queued(t, n, m, Permissions(m.permissions), c.uuid))
    && (name in {"item/tool/requestUserInput", "tool/requestUserInput"} ==>
          if m.questions.Some? && 1 <= |m.questions.value| <= 3 then Queued(t, n, m, Questions(m.questions.value), c.uuid)
          else Rejected(t, n, m.id, c))
    && (name in IGNORED ==> n == t)
    && (name !in ANSWERED && name !in IGNORED ==> if m.id.Some? then Rejected(t, n, m.id, c) else n == t)
  }

  lemma HandlingFollowsTheTable(t: Turn, name: string, m: Message, c: Circumstances)
    requires m.method_ == Some(name)
    ensures Handled(t, HandleMethod(t, name, m, c), name, m, c)
  {
    var n := HandleMethod(t, name, m, c);
    SettlingFollowsTheTable(t, name, m, c);
    if name in ANSWERED && name !in {"serverRequest/resolved", "item/completed"} {
      QueueingFollowsTheTable(t, name, m, c);
    }
    hide QueueApproval, Queued, Rejected, Reply, Remove, Settles;
    assert name !in ANSWERED && name !in IGNORED && m.id.Some? ==> n == Reply(t, m.id, c);
    ReplyRejects(t, m.id, c);
  }

  lemma ReplyRejects(t: Turn, id: Option<RpcId>, c: Circumstances)
    ensures Rejected(t, Reply(t, id, c), id, c)
  {
  }

  lemma SettlingFollowsTheTable(t: Turn, name: string, m: Message, c: Circumstances)
    requires m.method_ == Some(name)
    ensures var n := HandleMethod(t, name, m, c);
            name in {"serverRequest/resolved", "item/completed"} ==>
              n.writes == t.writes && forall u | u in t.pending :: u in n.pending <==> !Settles(Receive(m, c), t.pending[u])
  {
    hide QueueApproval, Reply;
  }

  lemma QueueApprovalQueues(t: Turn, m: Message, kind: ApprovalKind, uuid: Uuid)
    ensures Queued(t, QueueApproval(t, m, kind, uuid), m, kind, uuid)
  {
  }

  lemma QueueingFollowsTheTable(t: Turn, name: string, m: Message, c: Circumstances)
    requires m.method_ == Some(name) && name !in {"serverRequest/resolved", "item/completed"} && name in ANSWERED
    ensures Handled(t, HandleMethod(t, name, m, c), name, m, c)
  {
    hide QueueApproval, Reply, Queued, Rejected;
    QueueApprovalQueues(t, m, Decision, c.uuid);
    QueueApprovalQueues(t, m, Permissions(m.permissions), c.uuid);
    if m.questions.Some? {
      QueueApprovalQueues(t, m, Questions(m.questions.value), c.uuid);
    }
    ReplyRejects(t, m.id, c);
  }

  lemma QueueingSettles(t: Turn, m: Message, kind: ApprovalKind, c: Circumstances)
    requires Invariant(t) && c.uuid !in t.asked
    ensures OnlySettles(t, m, c, QueueApproval(t, m, kind, c.uuid)) && OnlySettles(t, m, c, Reply(t, m.id, c))
    ensures OnlySettles(t, m, c, t)
  {
    hide Settles;
  }

  /** The requests that the server's own notifications take away. */
  function SettledBy(t: Turn, m: Message): set<Uuid> {
    if m.method_ == Some("serverRequest/resolved") then
      if m.requestId.None? then {} else set u | u in t.pending && t.pending[u].rpcId == m.requestId.value
    else if m.method_ == Some("item/completed") then
      if m.item.None? then {} else set u | u in t.pending && t.pending[u].item == m.item
    else {}
  }

  lemma SettlingSettles(t: Turn, m: Message, c: Circumstances)
    ensures OnlySettles(t, m, c, Remove(t, SettledBy(t, m)))
  {
  }

  /** Handling a message is taking away what it settles, queueing it as a request, replying with an error, or nothing. */
  lemma HandlingIs(t: Turn, name: string, m: Message, c: Circumstances)
    requires m.method_ == Some(name)
    ensures var n := HandleMethod(t, name, m, c);
            || n == t || n == Remove(t, SettledBy(t, m)) || n == Reply(t, m.id, c)
            || n == QueueApproval(t, m, Decision, c.uuid) || n == QueueApproval(t, m, Permissions(m.permissions), c.uuid)
            || (m.questions.Some? && n == QueueApproval(t, m, Questions(m.questions.value), c.uuid))
  {
    hide QueueApproval, Reply, Remove;
  }

  lemma HandlingMeans(t: Turn, name: string, m: Message, c: Circumstances)
    requires Invariant(t) && c.uuid !in t.asked && m.method_ == Some(name)
    ensures OnlySettles(t, m, c, HandleMethod(t, name, m, c))
  {
    hide Invariant, HandleMethod, QueueApproval, Reply, Remove, SettledBy, OnlySettles;
    HandlingIs(t, name, m, c);
    SettlingSettles(t, m, c);
    QueueingSettles(t, m, Decision, c);
    QueueingSettles(t, m, Permissions(m.permissions), c);
    if m.questions.Some? {
      QueueingSettles(t, m, Questions(m.questions.value), c);
    }
  }

  lemma OnlyThreadResponseStartsTurn(t: Turn, step: Step)
    ensures t.writes <= Next(t, step).writes && |Next(t, step).writes| <= |t.writes| + 1
    ensures |Next(t, step).writes| > |t.writes| && Next(t, step).writes[|t.writes|].TurnStart? ==>
              && step.Receive? && step.message.IsResponseTo(THREAD_ID) && !step.message.isError
              && step.message.resultThread == Some(Next(t, step).writes[|t.writes|].thread)
              && !t.gate.threadResponse && step.circumstances.launchVerified
  {
    hide HandleMethod, AnswersAll, DecisionResponse;
    if step.Receive? && step.message.method_.Some? {
      HandlingWritesNoStart(t.(gate := Accept(t.gate, step.message).0), step.message.method_.value, step.message, step.circumstances);
    }
  }

  /** In every run at most one turn is started: by the first thread response, on its thread, for good. */
  lemma {:induction false} TurnStartsOnce(states: seq<Turn>, steps: seq<Step>, i: nat, k: nat) returns (m: nat)
    requires IsRun(states, steps) && i < |states| && k < |states[i].writes| && states[i].writes[k].TurnStart?
    ensures m < i && steps[m].Receive? && steps[m].message.IsResponseTo(THREAD_ID) && !steps[m].message.isError
    ensures !states[m].gate.threadResponse && steps[m].message.resultThread == Some(states[i].writes[k].thread)
    ensures states[i].gate.thread == Some(states[i].writes[k].thread)
    ensures forall l | 0 <= l < |states[i].writes| && l != k :: !states[i].writes[l].TurnStart?
  {
    hide Next;
    InvariantAlways(states, steps, i);
    Reached(states, steps, i - 1);
    OnlyThreadResponseStartsTurn(states[i - 1], steps[i - 1]);
    if k < |states[i - 1].writes| {
      m := TurnStartsOnce(states, steps, i - 1, k);
    } else {
      m := i - 1;
    }
  }

  // ---- Server requests ----

  /** However often the server repeats a request, it is pending at most once. */
  lemma RequestsArePendingOnce(states: seq<Turn>, steps: seq<Step>, i: nat, u: Uuid, v: Uuid)
    requires IsRun(states, steps) && i < |states| && u in states[i].pending && v in states[i].pending
    ensures states[i].pending[u].rpcId == states[i].pending[v].rpcId ==> u == v
  {
    InvariantAlways(states, steps, i);
  }

  /** At most one result is written for a request, and it carries the id the server asked under. */
  lemma RequestsAreAnsweredOnce(states: seq<Turn>, steps: seq<Step>, i: nat, j: nat, k: nat)
    requires IsRun(states, steps) && i < |states| && j < |states[i].writes| && k < |states[i].writes|
    requires states[i].writes[j].Result? && states[i].writes[k].Result?
    ensures states[i].writes[j].request == states[i].writes[k].request ==> j == k
    ensures states[i].writes[j].request in states[i].asked
    ensures states[i].asked[states[i].writes[j].request] == states[i].writes[j].rpcId
  {
    InvariantAlways(states, steps, i);
  }

  predicate Settles(step: Step, entry: Pending) {
    && step.Receive?
    && ((step.message.method_ == Some("serverRequest/resolved") && step.message.requestId == Some(entry.rpcId))
        || (step.message.method_ == Some("item/completed") && step.message.item.Some? && step.message.item == entry.item))
  }

  /** An asked request keeps its id and kind, its response is set once, and only the server takes it away. */
  ghost predicate Evolves(t: Turn, n: Turn, u: Uuid, settled: bool)
    requires u in t.asked
  {
    && u in n.asked && n.asked[u] == t.asked[u]
    && (u in n.pending ==>
          && u in t.pending && n.pending[u].kind == t.pending[u].kind && n.pending[u].item == t.pending[u].item
          && (t.pending[u].response.Some? ==> n.pending[u] == t.pending[u]))
    && (u in t.pending && u !in n.pending ==> settled)
  }

  lemma QueueEvolves(t: Turn, m: Message, kind: ApprovalKind, c: Circumstances, u: Uuid)
    requires c.uuid !in t.asked && u in t.asked
    ensures Evolves(t, QueueApproval(t, m, kind, c.uuid), u, false) && Evolves(t, Reply(t, m.id, c), u, false)
  {
  }

  lemma HandlingEvolves(t: Turn, name: string, m: Message, c: Circumstances, u: Uuid)
    requires c.uuid !in t.asked && u in t.asked && m.method_ == Some(name)
    ensures Evolves(t, HandleMethod(t, name, m, c), u, u in t.pending && Settles(Receive(m, c), t.pending[u]))
  {
    hide QueueApproval, Reply;
    QueueEvolves(t, m, Decision, c, u);
    QueueEvolves(t, m, Permissions(m.permissions), c, u);
    if m.questions.Some? {
      QueueEvolves(t, m, Questions(m.questions.value), c, u);
    }
  }

  lemma PendingEvolves(t: Turn, step: Step, u: Uuid)
    requires Enabled(t, step) && u in t.asked
    ensures Evolves(t, Next(t, step), u, u in t.pending && Settles(step, t.pending[u]))
  {
    hide HandleMethod, Accept, AnswersAll, DecisionResponse, Settles;
    if step.Receive? && step.message.method_.Some? {
      HandlingEvolves(t.(gate := Accept(t.gate, step.message).0), step.message.method_.value, step.message, step.circumstances, u);
    }
  }

  lemma {:induction false} ResponseIsKept(states: seq<Turn>, steps: seq<Step>, i: nat, j: nat, u: Uuid)
    requires IsRun(states, steps) && i <= j < |states|
    requires u in states[i].pending && states[i].pending[u].response.Some?
    ensures u in states[j].asked
    ensures u in states[j].pending ==> states[j].pending[u] == states[i].pending[u]
    decreases j - i
  {
    hide Next, StartsOnce, AnsweredOnce;
    InvariantAlways(states, steps, i);
    if i < j {
      ResponseIsKept(states, steps, i, j - 1, u);
      Reached(states, steps, j - 1);
      PendingEvolves(states[j - 1], steps[j - 1], u);
    }
  }

  /** What a user's step says in answer to a request of some kind. */
  predicate Conveys(step: Step, kind: ApprovalKind, response: Response) {
    match kind
    case Decision => step.Decide? && response == Decided(step.decision)
    case Permissions(requested) =>
      && step.Decide? && response.Granted?
      && (step.decision == Deny ==> response == Granted(None, false))
      && (step.decision == ApproveOnce ==> response == Granted(Some(requested), false))
      && (step.decision == ApproveForSession ==> response == Granted(Some(requested), true))
    case Questions(ids) =>
      && step.AnswerAll? && response == Answered(step.answers)
      && |step.answers| == |ids|
      && forall id | id in ids ::
           && id in step.answers && 1 <= |step.answers[id]| <= MAX_ANSWERS
           && forall text | text in step.answers[id] :: |text| <= MAX_ANSWER_LENGTH
  }

  lemma ResultComesFrom(t: Turn, step: Step)
    requires Enabled(t, step) && |Next(t, step).writes| > |t.writes| && Next(t, step).writes[|t.writes|].Result?
    ensures !step.Receive? && step.request in t.pending && t.pending[step.request].response.None?
    ensures var entry, response := t.pending[step.request], Next(t, step).writes[|t.writes|].response;
            Conveys(step, entry.kind, response) && Next(t, step).writes == t.writes + [Result(step.request, entry.rpcId, response)]
  {
    if step.Receive? {
      ReceivingWritesNoResult(t, step.message, step.circumstances);
    }
  }

  lemma ReceivingWritesNoResult(t: Turn, m: Message, c: Circumstances)
    ensures t.writes <= OnMessage(t, m, c).writes
    ensures forall k | |t.writes| <= k < |OnMessage(t, m, c).writes| :: !OnMessage(t, m, c).writes[k].Result?
  {
    hide Accept;
    HandlingWritesNoResult(t.(gate := Accept(t.gate, m).0), if m.method_.Some? then m.method_.value else "", m, c);
    hide HandleMethod;
  }

  lemma HandlingWritesNoResult(t: Turn, name: string, m: Message, c: Circumstances)
    ensures t.writes <= HandleMethod(t, name, m, c).writes
    ensures forall k | |t.writes| <= k < |HandleMethod(t, name, m, c).writes| :: !HandleMethod(t, name, m, c).writes[k].Result?
  {
  }

  /**
   Every result ever written is one user step's own words: the decision it took, the permissions the server asked for or
   none of them, or the complete answers, for a request that was pending and unanswered.
   */
  lemma {:induction false} ResultsAreTheUsersOwn(states: seq<Turn>, steps: seq<Step>, i: nat, k: nat) returns (j: nat)
    requires IsRun(states, steps) && i < |states| && k < |states[i].writes| && states[i].writes[k].Result?
    ensures j < i && !steps[j].Receive? && steps[j].request == states[i].writes[k].request
    ensures |states[j].writes| == k && states[j + 1].writes == states[j].writes + [states[i].writes[k]]
    ensures steps[j].request in states[j].pending && states[j].pending[steps[j].request].response.None?
    ensures states[i].writes[k].rpcId == states[j].pending[steps[j].request].rpcId
    ensures Conveys(steps[j], states[j].pending[steps[j].request].kind, states[i].writes[k].response)
  {
    hide Next, Conveys, Invariant;
    assert i > 0;
    Reached(states, steps, i - 1);
    OnlyThreadResponseStartsTurn(states[i - 1], steps[i - 1]);
    if k < |states[i - 1].writes| {
      j := ResultsAreTheUsersOwn(states, steps, i - 1, k);
    } else {
      j := i - 1;
      ResultComesFrom(states[j], steps[j]);
    }
  }

  /** Each decision a user takes on a request that waits for one is written at once. */
  lemma DecisionsAreWritten(t: Turn, u: Uuid, decision: PermissionDecision)
    requires u in t.pending && !t.pending[u].kind.Questions? && t.pending[u].response.None?
    ensures var n := Next(t, Decide(u, decision));
            && |n.writes| == |t.writes| + 1 && n.writes[|t.writes|].Result?
            && n.writes == t.writes + [Result(u, t.pending[u].rpcId, n.writes[|t.writes|].response)]
            && Conveys(Decide(u, decision), t.pending[u].kind, n.writes[|t.writes|].response)
  {
  }

  /**
   Once a decision was taken, every later one writes nothing: repeating it is fine,
   another one is refused, and after the server settled the request it has expired.
   */
  lemma {:induction false} DecisionsAreFinal(states: seq<Turn>, steps: seq<Step>, i: nat, j: nat, u: Uuid,
                                             first: PermissionDecision, later: PermissionDecision)
    requires IsRun(states, steps) && i < j < |states|
    requires steps[i] == Decide(u, first) && Respond(states[i], u, first).1.None?
    ensures Respond(states[j], u, later).0 == states[j]
    ensures u in states[j].pending ==> (Respond(states[j], u, later).1.None? <==> later == first)
    ensures u in states[j].pending && Respond(states[j], u, later).1.Some? ==>
              Respond(states[j], u, later).1 == Some(AlreadyAnswered)
    ensures u !in states[j].pending ==> Respond(states[j], u, later).1 == Some(Expired)
  {
    Reached(states, steps, i);
    ResponseIsKept(states, steps, i + 1, j, u);
  }

  lemma {:induction false} AnswersAreFinal(states: seq<Turn>, steps: seq<Step>, i: nat, j: nat, u: Uuid,
                                           first: map<string, seq<string>>, later: map<string, seq<string>>)
    requires IsRun(states, steps) && i < j < |states|
    requires steps[i] == AnswerAll(u, first) && Answer(states[i], u, first).1.None?
    ensures Answer(states[j], u, later).0 == states[j]
    ensures u in states[j].pending ==> (Answer(states[j], u, later).1.None? <==> later == first)
    ensures u !in states[j].pending ==> Answer(states[j], u, later).1 == Some(Expired)
  {
    Reached(states, steps, i);
    ResponseIsKept(states, steps, i + 1, j, u);
  }
}

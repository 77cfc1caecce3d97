/**
 Publishing one task as a GitHub issue through a relay that may be slow, lose its replies
 or refuse the issue's type.  The request id and contents are saved before anything is sent.
 */
module Publish {
  import opened Wrappers

  type CallId = nat
  type RequestId = nat
  type IssueId = nat

  datatype Payload = Payload(request: RequestId, contents: string)

  datatype Publication = Publication(payload: Payload, result: Option<IssueId>)

  /** What is stored for the task: its publication row, and the issue it is linked to. */
  datatype Stored = Stored(row: Option<Publication>, source: Option<IssueId>)

  /** A call in progress: about to send, waiting for a reply, and with an issue to save or to attach. */
  datatype Call =
    | Ready(payload: Payload)
    | Waiting(payload: Payload)
    | Holding(issue: IssueId)
    | Attaching(issue: IssueId)

  datatype Beginning = Finished | Refused | Begun(call: Call)

  /** The first section: the saved contents win, and a saved result needs no new request. */
  function BeginWith(s: Stored, payload: Payload): (Stored, Beginning) {
    if s.source.Some? && s.row.None? then (s, Finished)
    else
      match s.row
      case None => (s.(row := Some(Publication(payload, None))), Begun(Ready(payload)))
      case Some(saved) =>
        if saved.payload.contents != payload.contents then (s, Refused)
        else (s, Begun(if saved.result.Some? then Holding(saved.result.value) else Ready(saved.payload)))
  }

  /** A refused type forgets the publication, unless it has a result by now. */
  function TypeRejected(s: Stored): Stored {
    if s.row.Some? && s.row.value.result.None? then s.(row := None) else s
  }

  function ResultSaved(s: Stored, issue: IssueId): Stored {
    if s.row.Some? then s.(row := Some(s.row.value.(result := Some(issue)))) else s
  }

  /** `free` is whether no other task has the issue and its identity is in order. */
  function SourceAttached(s: Stored, issue: IssueId, free: bool): Stored {
    if free && s.source.None? then s.(source := Some(issue)) else s
  }

  /**
   Retrying under new request ids: with the same contents the saved request is sent again, with other contents the
   call is refused; once a result was saved it is handed out instead, and a type refused too late forgets nothing.
   */
  lemma RetriesKeepTheRequest(s: Stored, payload: Payload, again: Payload, issue: IssueId)
    requires s.row.None? && s.source.None?
    ensures var (begun, first) := BeginWith(s, payload);
            && first == Begun(Ready(payload))
            && BeginWith(begun, again) == (begun, if again.contents == payload.contents then Begun(Ready(payload)) else Refused)
            && var done := ResultSaved(begun, issue);
            && BeginWith(done, again) == (done, if again.contents == payload.contents then Begun(Holding(issue)) else Refused)
            && TypeRejected(done) == done && TypeRejected(begun) == s
  {
  }

  class TaskPublication {
    var row: Option<Publication>
    var source: Option<IssueId>

    constructor (source: Option<IssueId>)
      ensures View() == Stored(None, source)
    {
      this.row, this.source := None, source;
    }

    function View(): Stored
      reads this
    {
      Stored(row, source)
    }

    /** What a call may send is what is stored, with the contents it was called with; what was stored stays. */
    method BeginPublication(payload: Payload) returns (beginning: Beginning)
      modifies this
      ensures (View(), beginning) == BeginWith(old(View()), payload)
      ensures source == old(source) && (old(row).Some? ==> row == old(row))
      ensures beginning.Begun? ==> row.Some? && row.value.payload.contents == payload.contents
      ensures beginning.Begun? && beginning.call.Ready? ==> row == Some(Publication(beginning.call.payload, None))
      ensures beginning.Begun? && !beginning.call.Ready? ==> beginning.call.Holding? && row.value.result == Some(beginning.call.issue)
      ensures beginning.Finished? <==> old(source).Some? && old(row).None?
      ensures beginning.Refused? <==> old(row).Some? && old(row).value.payload.contents != payload.contents
      ensures beginning.Finished? ==> row.None?
      ensures old(row).None? && beginning.Begun? ==> beginning.call == Ready(payload)
      ensures old(row).Some? && beginning.Begun? ==> (beginning.call.Holding? <==> old(row).value.result.Some?)
    {
      if source.Some? && row.None? {
        return Finished;
      }
      var current, recovered := payload, None;
      if row.Some? {
        current, recovered := row.value.payload, row.value.result;
      } else {
        row := Some(Publication(payload, None));
      }
      if current.contents != payload.contents {
        return Refused;
      }
      return Begun(if recovered.Some? then Holding(recovered.value) else Ready(current));
    }

    /** A saved result is never forgotten. */
    method ForgetRejectedType()
      modifies this
      ensures View() == TypeRejected(old(View()))
      ensures source == old(source) && (row.None? || row == old(row))
      ensures row.Some? <==> old(row).Some? && old(row).value.result.Some?
    {
      if row.Some? && row.value.result.None? {
        row := None;
      }
    }

    /** The request stays with its result, if it is still there. */
    method SaveResult(issue: IssueId)
      modifies this
      ensures View() == ResultSaved(old(View()), issue)
      ensures source == old(source) && (row.Some? <==> old(row).Some?)
      ensures row.Some? ==> row.value == Publication(old(row).value.payload, Some(issue))
    {
      if row.Some? {
        row := Some(row.value.(result := Some(issue)));
      }
    }

    /** A task that is linked already stays linked as it is. */
    method AttachSource(issue: IssueId, free: bool) returns (ok: bool)
      modifies this
      ensures View() == SourceAttached(old(View()), issue, free)
      ensures ok <==> free && source == Some(issue)
      ensures source == if old(source).None? && free then Some(issue) else old(source)
      ensures row == old(row)
    {
      if !free {
        return false;
      }
      if source.Some? {
        return source.value == issue;
      }
      source := Some(issue);
      return true;
    }
  }

  // ---- The daemon's calls, the network and the relay ----

  datatype Reply = Created(issue: IssueId) | Rejected

  /** `relay` is the relay's memory: the issue it made for each request id. */
  datatype World = World(
    stored: Stored,
    calls: map<CallId, Call>,
    messages: map<CallId, Payload>,
    replies: map<CallId, Reply>,
    relay: map<RequestId, IssueId>,
    begun: set<CallId>)

  datatype Step =
    | Begin(call: CallId, payload: Payload)
    | Send(call: CallId)
    | Handle(call: CallId, typeKnown: bool, issue: IssueId)
    | Receive(call: CallId, verified: bool)
    | GiveUp(call: CallId)
    | Save(call: CallId, permitted: bool)
    | Attach(call: CallId, free: bool)
    | OtherAttach(issue: IssueId)
    | Crash

  predicate Enabled(w: World, step: Step) {
    match step
    case Begin(call, _) => call !in w.begun
    case Send(call) => call in w.calls && w.calls[call].Ready?
    case Handle(call, _, issue) => call in w.messages && issue !in w.relay.Values
    case Receive(call, _) => call in w.calls && w.calls[call].Waiting? && call in w.replies
    case GiveUp(call) => call in w.calls && w.calls[call].Waiting?
    case Save(call, _) => call in w.calls && w.calls[call].Holding?
    case Attach(call, _) => call in w.calls && w.calls[call].Attaching?
    case OtherAttach(_) => true
    case Crash => true
  }

  /** The relay makes at most one issue per request id and refuses types only for ids it has not used. */
  function Handled(w: World, call: CallId, typeKnown: bool, issue: IssueId): World
    requires call in w.messages
  {
    var request := w.messages[call].request;
    var rest := w.(messages := w.messages - {call});
    if request in w.relay then rest.(replies := w.replies[call := Created(w.relay[request])])
    else if !typeKnown then rest.(replies := w.replies[call := Rejected])
    else rest.(relay := w.relay[request := issue], replies := w.replies[call := Created(issue)])
  }

  function Next(w: World, step: Step): World
    requires Enabled(w, step)
  {
    match step
    case Begin(call, payload) =>
      var (stored, beginning) := BeginWith(w.stored, payload);
      w.(stored := stored, begun := w.begun + {call},
         calls := if beginning.Begun? then w.calls[call := beginning.call] else w.calls)
    case Send(call) =>
      var payload := w.calls[call].payload;
      w.(calls := w.calls[call := Waiting(payload)], messages := w.messages[call := payload])
    case Handle(call, typeKnown, issue) => Handled(w, call, typeKnown, issue)
    case Receive(call, verified) =>
      (match w.replies[call]
       case Created(issue) => w.(calls := if verified then w.calls[call := Holding(issue)] else w.calls - {call})
       case Rejected => w.(calls := w.calls - {call}, stored := TypeRejected(w.stored)))
    case GiveUp(call) => w.(calls := w.calls - {call})
    case Save(call, permitted) =>
      if !permitted then w.(calls := w.calls - {call})
      else
        var issue := w.calls[call].issue;
        w.(calls := w.calls[call := Attaching(issue)], stored := ResultSaved(w.stored, issue))
    case Attach(call, free) => w.(calls := w.calls - {call}, stored := SourceAttached(w.stored, w.calls[call].issue, free))
    case OtherAttach(issue) => w.(stored := SourceAttached(w.stored, issue, true))
    case Crash => w.(calls := map[], replies := map[])
  }

  ghost predicate Init(w: World) {
    && w.stored == Stored(None, None) && w.calls == map[] && w.messages == map[] && w.replies == map[] && w.relay == map[]
    && w.begun == {}
  }

  ghost predicate IsRun(states: seq<World>, steps: seq<Step>) {
    && |states| == |steps| + 1 && Init(states[0])
    && forall i | 0 <= i < |steps| :: Enabled(states[i], steps[i]) && states[i + 1] == Next(states[i], steps[i])
  }

  // ---- When forgetting a publication is safe ----

  /** Does this step delete the publication row? */
  predicate Deletes(w: World, step: Step) {
    && step.Receive? && step.call in w.replies && w.replies[step.call].Rejected?
    && w.stored.row.Some? && w.stored.row.value.result.None?
  }

  /** The request is still carried: by a call that is about to send it, or by a message under way. */
  predicate Carries(w: World, call: CallId, request: RequestId) {
    || (call in w.calls && w.calls[call].Ready? && w.calls[call].payload.request == request)
    || (call in w.messages && w.messages[call].request == request)
  }

  /** No issue exists for the request that is being forgotten, and none can come of it any more, or the task is linked. */
  ghost predicate ForgetsSafely(w: World, step: Step) {
    Deletes(w, step) && w.stored.source.None? ==>
      var request := w.stored.row.value.payload.request;
      request !in w.relay && forall call | call != step.call :: !Carries(w, call, request)
  }

  /** Everything under way is this request, and so is all that the relay made. */
  ghost predicate AllCarry(w: World, payload: Payload) {
    && (forall call | call in w.calls && w.calls[call].Ready? :: w.calls[call].payload == payload)
    && (forall call | call in w.messages :: w.messages[call] == payload)
    && (forall request | request in w.relay :: request == payload.request)
  }

  /** Everything under way is the saved request; without one nothing is under way, unless the task is linked. */
  ghost predicate OneRequest(w: World) {
    if w.stored.row.Some? then AllCarry(w, w.stored.row.value.payload)
    else if w.stored.source.Some? then exists payload :: AllCarry(w, payload)
    else
      && (forall call | call in w.calls :: !w.calls[call].Ready?)
      && w.messages == map[] && w.relay == map[]
  }

  ghost predicate OneIssue(w: World) {
    forall a, b | a in w.relay && b in w.relay :: a == b
  }

  /** Messages and replies belong to calls that have sent, and every issue in hand is one the relay made. */
  ghost predicate Tidy(w: World) {
    && (forall call | call in w.calls || call in w.messages || call in w.replies :: call in w.begun)
    && (forall call | call in w.calls && w.calls[call].Ready? :: call !in w.messages && call !in w.replies)
    && (forall call | call in w.messages :: call !in w.replies)
  }

  lemma StepKeepsTidy(w: World, step: Step)
    requires Tidy(w) && Enabled(w, step)
    ensures Tidy(Next(w, step))
  {
  }

  lemma StepCarries(w: World, step: Step, payload: Payload)
    requires AllCarry(w, payload) && Tidy(w) && Enabled(w, step)
    requires step.Begin? ==> w.stored.row.Some? && w.stored.row.value.payload == payload
    ensures AllCarry(Next(w, step), payload)
  {
  }

  lemma FirstCarries(w: World, step: Step)
    requires OneRequest(w) && w.stored == Stored(None, None) && Tidy(w) && step.Begin? && Enabled(w, step)
    ensures Next(w, step).stored.row == Some(Publication(step.payload, None)) && AllCarry(Next(w, step), step.payload)
  {
  }

  /** Nobody but a beginning call puts a request under way that was not. */
  lemma NothingComesOfNothing(w: World, step: Step)
    requires OneRequest(w) && w.stored == Stored(None, None) && Tidy(w) && Enabled(w, step) && !step.Begin?
    ensures var n := Next(w, step);
            && n.messages == map[] && n.relay == map[] && n.stored.row.None?
            && forall call | call in n.calls :: !n.calls[call].Ready?
    ensures AllCarry(Next(w, step), Payload(0, ""))
  {
  }

  lemma ForgettingLeavesNothing(w: World, step: Step)
    requires OneRequest(w) && Tidy(w) && Enabled(w, step) && ForgetsSafely(w, step) && Deletes(w, step) && w.stored.source.None?
    ensures OneRequest(Next(w, step))
  {
    var request, n := w.stored.row.value.payload.request, Next(w, step);
    forall call | call != step.call
      ensures call in w.calls ==> !w.calls[call].Ready?
      ensures call !in w.messages
    {
      assert !Carries(w, call, request);
    }
    assert n.messages == map[];
    assert n.relay == map[];
  }

  lemma StepKeepsOneRequest(w: World, step: Step)
    requires OneRequest(w) && Tidy(w) && Enabled(w, step) && ForgetsSafely(w, step)
    ensures OneRequest(Next(w, step))
  {
    if w.stored.row.Some? {
      StepCarries(w, step, w.stored.row.value.payload);
      if Deletes(w, step) && w.stored.source.None? {
        ForgettingLeavesNothing(w, step);
      }
    } else if w.stored.source.Some? {
      var payload :| AllCarry(w, payload);
      if step.Begin? {
        assert BeginWith(w.stored, step.payload) == (w.stored, Finished);
        assert AllCarry(Next(w, step), payload);
      } else {
        StepCarries(w, step, payload);
      }
    } else if step.Begin? {
      FirstCarries(w, step);
    } else {
      NothingComesOfNothing(w, step);
    }
  }

  lemma {:induction false} OneRequestAlways(states: seq<World>, steps: seq<Step>, i: nat)
    requires IsRun(states, steps) && i < |states|
    requires forall j | 0 <= j < i :: ForgetsSafely(states[j], steps[j])
    ensures OneRequest(states[i]) && Tidy(states[i])
  {
    hide Next, Enabled, ForgetsSafely, OneRequest, Tidy;
    if i > 0 {
      OneRequestAlways(states, steps, i - 1);
      StepKeepsTidy(states[i - 1], steps[i - 1]);
      StepKeepsOneRequest(states[i - 1], steps[i - 1]);
      assert states[i - 1 + 1] == Next(states[i - 1], steps[i - 1]);
    } else {
      NothingRequested(states[0]);
    }
  }

  lemma NothingRequested(w: World)
    requires Init(w)
    ensures OneRequest(w) && Tidy(w)
  {
  }

  /**
   While publications are only forgotten safely, the relay is never asked for a second request of the task, whatever is
   retried, lost or crashes, and makes at most one issue; every request sent is the saved one, contents and all, as
   long as one is saved, and the task is linked when none is.
   */
  lemma AtMostOneIssue(states: seq<World>, steps: seq<Step>, i: nat)
    requires IsRun(states, steps) && i < |states|
    requires forall j | 0 <= j < i :: ForgetsSafely(states[j], steps[j])
    ensures OneIssue(states[i])
    ensures i < |steps| && steps[i].Send? ==>
              if states[i].stored.row.Some? then states[i].calls[steps[i].call].payload == states[i].stored.row.value.payload
              else states[i].stored.source.Some?
  {
    OneRequestAlways(states, steps, i);
  }

  // ---- A discipline of the callers that is enough ----

  /** The fate of the call's request is still open. */
  predicate InFlight(w: World, call: CallId) {
    (call in w.calls && (w.calls[call].Ready? || w.calls[call].Waiting?)) || call in w.messages
  }

  /** Nobody begins while the request of another call is open. */
  ghost predicate BeginsAlone(w: World, step: Step) {
    step.Begin? ==> forall call :: !InFlight(w, call)
  }

  ghost predicate Serial(w: World) {
    && (forall a, b | InFlight(w, a) && InFlight(w, b) :: a == b)
    && (forall call | call in w.calls && (w.calls[call].Ready? || w.calls[call].Waiting?) && w.stored.row.Some? ::
          w.calls[call].payload == w.stored.row.value.payload)
    && (forall call | call in w.calls && w.calls[call].Waiting? && call in w.messages :: w.messages[call] == w.calls[call].payload)
    && (forall call | call in w.calls && w.calls[call].Waiting? && call in w.replies && w.replies[call].Rejected? ::
          w.calls[call].payload.request !in w.relay)
  }

  lemma BeginningKeepsSerial(w: World, step: Step)
    requires Serial(w) && Tidy(w) && Enabled(w, step) && step.Begin? && BeginsAlone(w, step)
    ensures Serial(Next(w, step))
  {
    var n := Next(w, step);
    assert forall call | call in w.calls :: !InFlight(w, call);
    assert forall call | InFlight(n, call) :: call == step.call || InFlight(w, call);
  }

  lemma StaysSingle(w: World, step: Step)
    requires Serial(w) && Tidy(w) && Enabled(w, step) && !step.Begin?
    ensures forall a, b | InFlight(Next(w, step), a) && InFlight(Next(w, step), b) :: a == b
  {
    forall a, b | InFlight(Next(w, step), a) && InFlight(Next(w, step), b) ensures a == b {
      assert InFlight(w, a) && InFlight(w, b);
    }
  }

  lemma StepKeepsSerial(w: World, step: Step)
    requires Serial(w) && Tidy(w) && Enabled(w, step) && BeginsAlone(w, step)
    ensures Serial(Next(w, step))
  {
    if step.Begin? {
      BeginningKeepsSerial(w, step);
    } else {
      StaysSingle(w, step);
      if step.Handle? {
        HandlingKeepsSerial(w, step);
      }
    }
  }

  lemma HandlingKeepsSerial(w: World, step: Step)
    requires Serial(w) && Tidy(w) && Enabled(w, step) && step.Handle?
    ensures Serial(Next(w, step))
  {
    StaysSingle(w, step);
    forall call | call in w.calls && w.calls[call].Waiting? ensures call == step.call {
      assert InFlight(w, call) && InFlight(w, step.call);
    }
  }

  /** Then publications are only ever forgotten safely, so the task gets at most one issue. */
  lemma {:induction false} SerialCallsForgetSafely(states: seq<World>, steps: seq<Step>, i: nat)
    requires IsRun(states, steps) && i < |states|
    requires forall j | 0 <= j < |steps| :: BeginsAlone(states[j], steps[j])
    ensures Serial(states[i]) && Tidy(states[i])
    ensures i < |steps| ==> ForgetsSafely(states[i], steps[i])
  {
    if i > 0 {
      hide Next, Enabled, Serial, Tidy, ForgetsSafely, BeginsAlone;
      SerialCallsForgetSafely(states, steps, i - 1);
      StepKeepsTidy(states[i - 1], steps[i - 1]);
      StepKeepsSerial(states[i - 1], steps[i - 1]);
      assert states[i - 1 + 1] == Next(states[i - 1], steps[i - 1]);
    }
    if i < |steps| {
      SerialForgetsSafely(states[i], steps[i]);
    }
  }

  lemma SerialForgetsSafely(w: World, step: Step)
    requires Serial(w) && Tidy(w) && Enabled(w, step)
    ensures ForgetsSafely(w, step)
  {
    if Deletes(w, step) {
      var request := w.stored.row.value.payload.request;
      assert InFlight(w, step.call) && w.calls[step.call].payload.request == request;
      forall call | call != step.call ensures !Carries(w, call, request) {
        assert !InFlight(w, call);
      }
    }
  }

  lemma OneCallAtATime(states: seq<World>, steps: seq<Step>, i: nat)
    requires IsRun(states, steps) && i < |states|
    requires forall j | 0 <= j < |steps| :: BeginsAlone(states[j], steps[j])
    ensures OneIssue(states[i])
  {
    hide Next, Enabled, ForgetsSafely, OneIssue, BeginsAlone, Serial, Tidy;
    forall j | 0 <= j < i ensures ForgetsSafely(states[j], steps[j]) {
      SerialCallsForgetSafely(states, steps, j);
    }
    AtMostOneIssue(states, steps, i);
  }

  predicate SendsNothing(w: World, call: CallId) {
    call in w.calls ==> w.calls[call].Holding? || w.calls[call].Attaching?
  }

  lemma StillSendsNothing(w: World, step: Step, call: CallId)
    requires Enabled(w, step) && Tidy(w) && call in w.begun && SendsNothing(w, call)
    ensures SendsNothing(Next(w, step), call) && call in Next(w, step).begun
  {
  }

  lemma {:induction false} TidyAlways(states: seq<World>, steps: seq<Step>, i: nat)
    requires IsRun(states, steps) && i < |states|
    ensures Tidy(states[i])
  {
    hide Next, Enabled, Tidy;
    if i > 0 {
      TidyAlways(states, steps, i - 1);
      StepKeepsTidy(states[i - 1], steps[i - 1]);
      assert states[i - 1 + 1] == Next(states[i - 1], steps[i - 1]);
    } else {
      NothingRequested(states[0]);
    }
  }

  /** A call that begins after a result was saved never sends a request: it has the saved issue in hand from the start. */
  lemma {:induction false} NoRequestAfterResult(states: seq<World>, steps: seq<Step>, i: nat, j: nat)
    requires IsRun(states, steps) && i < j < |states| && steps[i].Begin?
    requires states[i].stored.row.Some? && states[i].stored.row.value.result.Some?
    ensures SendsNothing(states[j], steps[i].call) && steps[i].call in states[j].begun
    ensures j < |steps| ==> steps[j] != Send(steps[i].call)
    decreases j - i
  {
    assert states[j - 1 + 1] == Next(states[j - 1], steps[j - 1]);
    TidyAlways(states, steps, j - 1);
    if i + 1 < j {
      hide Next;
      NoRequestAfterResult(states, steps, i, j - 1);
      StillSendsNothing(states[j - 1], steps[j - 1], steps[i].call);
    }
  }

  // ---- Forgetting unsafely ----

  /** The last of the states a list of steps leads through. */
  ghost predicate Leads(from_: World, steps: seq<Step>, to_: World)
    decreases |steps|
  {
    if steps == [] then from_ == to_
    else Enabled(from_, steps[0]) && Leads(Next(from_, steps[0]), steps[1..], to_)
  }

  predicate Unused(w: World, call: CallId, request: RequestId) {
    call !in w.begun && call !in w.calls && call !in w.messages && call !in w.replies && request !in w.relay
  }

  /** A retry under a new request id, from a task with no publication and no source, ends in an issue for that id. */
  lemma RetryCreates(w: World, call: CallId, payload: Payload, issue: IssueId) returns (steps: seq<Step>, n: World)
    requires w.stored == Stored(None, None) && Unused(w, call, payload.request) && issue !in w.relay.Values
    ensures Leads(w, steps, n) && n.relay == w.relay[payload.request := issue]
  {
    steps := [Begin(call, payload), Send(call), Handle(call, true, issue)];
    var w1 := Next(w, steps[0]);
    assert w1.calls[call] == Ready(payload);
    var w2 := Next(w1, steps[1]);
    n := Next(w2, steps[2]);
    assert Leads(w2, [steps[2]], n) by {
      assert [steps[2]][1..] == [];
    }
    assert steps[1..] == [steps[1], steps[2]] && steps[1..][1..] == [steps[2]];
    assert Leads(w1, steps[1..], n);
  }

  /**
   The condition is exact: whenever a publication is forgotten unsafely, the task can still get two issues, one for
   the forgotten request and one for the request of the next retry.
  */
  lemma UnsafeForgettingDuplicates(w: World, step: Step, call: CallId, payload: Payload, first: IssueId, second: IssueId)
    returns (steps: seq<Step>, n: World)
    requires Enabled(w, step) && !ForgetsSafely(w, step) && Tidy(w)
    requires payload.request != w.stored.row.value.payload.request && payload.request !in w.relay
    requires call !in w.begun && first != second && first !in w.relay.Values && second !in w.relay.Values
    ensures Leads(Next(w, step), steps, n)
    ensures w.stored.row.value.payload.request in n.relay && payload.request in n.relay && !OneIssue(n)
  {
    var request := w.stored.row.value.payload.request;
    var forgotten := Next(w, step);
    if request in w.relay {
      steps, n := RetryCreates(forgotten, call, payload, second);
    } else {
      var other :| other != step.call && Carries(w, other, request);
      var sent := if other in w.messages then forgotten else Next(forgotten, Send(other));
      var handled := Next(sent, Handle(other, true, first));
      var rest;
      rest, n := RetryCreates(handled, call, payload, second);
      steps := [Handle(other, true, first)] + rest;
      assert steps[1..] == rest && Leads(sent, steps, n);
      if other !in w.messages {
        steps := [Send(other)] + steps;
        assert steps[1..] == [Handle(other, true, first)] + rest;
      }
    }
  }

  lemma Onward(from_: World, step: Step, rest: seq<Step>, to_: World)
    requires Enabled(from_, step) && Leads(Next(from_, step), rest, to_)
    ensures Leads(from_, [step] + rest, to_)
  {
    assert ([step] + rest)[1..] == rest;
  }

  /** The rest of a call whose message the relay is about to handle. */
  lemma RepliedCallLinks(w: World, call: CallId, typeKnown: bool, fresh_: IssueId)
    returns (steps: seq<Step>, n: World)
    requires call in w.calls && w.calls[call].Waiting? && call in w.messages && w.stored.row.Some? && w.stored.source.None?
    requires fresh_ !in w.relay.Values && (typeKnown || w.messages[call].request in w.relay)
    ensures Leads(w, steps, n)
    ensures var request := w.messages[call].request;
            var issue := if request in w.relay then w.relay[request] else fresh_;
            && n.stored == Stored(Some(Publication(w.stored.row.value.payload, Some(issue))), Some(issue))
            && n.relay == w.relay[request := issue] && call !in n.calls
  {
    steps := [Handle(call, typeKnown, fresh_), Receive(call, true), Save(call, true), Attach(call, true)];
    var w1 := Next(w, steps[0]);
    var w2 := Next(w1, steps[1]);
    var w3 := Next(w2, steps[2]);
    n := Next(w3, steps[3]);
    hide Next, Enabled;
    Onward(w3, steps[3], [], n);
    Onward(w2, steps[2], [steps[3]], n);
    Onward(w1, steps[1], [steps[2], steps[3]], n);
    Onward(w, steps[0], [steps[1], steps[2], steps[3]], n);
    assert steps == [steps[0]] + [steps[1], steps[2], steps[3]];
    assert [steps[1]] + [steps[2], steps[3]] == [steps[1], steps[2], steps[3]] && [steps[2]] + [steps[3]] == [steps[2], steps[3]];
    assert [steps[3]] + [] == [steps[3]];
  }

  /**
   A publication can always be finished.  Whatever was lost before, a call with the saved contents, under any request
   id, sends the saved request and ends with the task linked to the one issue of that request, the one that the relay
   made already or else the one it makes now; the relay makes no second one.
   */
  lemma RetryFinishes(w: World, call: CallId, payload: Payload, typeKnown: bool, fresh_: IssueId)
    returns (steps: seq<Step>, n: World)
    requires call !in w.begun && Tidy(w) && w.stored.source.None?
    requires w.stored.row.Some? ==> w.stored.row.value.result.None? && w.stored.row.value.payload.contents == payload.contents
    requires fresh_ !in w.relay.Values
    requires typeKnown || (w.stored.row.Some? && w.stored.row.value.payload.request in w.relay)
    ensures Leads(w, steps, n)
    ensures var saved := if w.stored.row.Some? then w.stored.row.value.payload else payload;
            var issue := if saved.request in w.relay then w.relay[saved.request] else fresh_;
            && n.stored == Stored(Some(Publication(saved, Some(issue))), Some(issue))
            && n.relay == w.relay[saved.request := issue]
  {
    var begun := Next(w, Begin(call, payload));
    var sent := Next(begun, Send(call));
    var rest;
    rest, n := RepliedCallLinks(sent, call, typeKnown, fresh_);
    Onward(begun, Send(call), rest, n);
    Onward(w, Begin(call, payload), [Send(call)] + rest, n);
    steps := [Begin(call, payload)] + ([Send(call)] + rest);
  }

  const FIRST := Payload(1, "text")
  const NOBODY := World(Stored(None, None), map[], map[], map[], map[], {})

  /** ... and publications are forgotten unsafely: a request whose reply is awaited no longer may still be under way. */
  lemma UnsafeForgettingHappens() returns (states: seq<World>, steps: seq<Step>)
    ensures IsRun(states, steps) && |steps| > 0 && states[|steps|].stored == Stored(None, None)
    ensures !ForgetsSafely(states[|steps| - 1], steps[|steps| - 1])
  {
    var saved := NOBODY.(stored := Stored(Some(Publication(FIRST, None)), None), begun := {1});
    var s1 := saved.(calls := map[1 := Ready(FIRST)]);
    var s2 := saved.(calls := map[1 := Waiting(FIRST)], messages := map[1 := FIRST]);
    var s3 := saved.(messages := map[1 := FIRST]);
    var s4 := s3.(begun := {1, 2}, calls := map[2 := Ready(FIRST)]);
    var s5 := s4.(calls := map[2 := Waiting(FIRST)], messages := map[1 := FIRST, 2 := FIRST]);
    var s6 := s5.(messages := map[1 := FIRST], replies := map[2 := Rejected]);
    var s7 := s6.(calls := map[], stored := Stored(None, None));
    steps := [Begin(1, FIRST), Send(1), GiveUp(1), Begin(2, Payload(2, "text")), Send(2), Handle(2, false, 0), Receive(2, true)];
    assert Next(NOBODY, steps[0]) == s1;
    assert Next(s1, steps[1]) == s2;
    assert Next(s2, steps[2]) == s3;
    assert Next(s3, steps[3]) == s4;
    assert Next(s4, steps[4]) == s5;
    assert Next(s5, steps[5]) == s6;
    assert Next(s6, steps[6]) == s7;
    assert Carries(s6, 1, 1);
    states := [NOBODY, s1, s2, s3, s4, s5, s6, s7];
  }
}

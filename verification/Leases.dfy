/**
 Who may write in a workspace: the durable writer reservations, the leases in memory,
 and the acceptance loops that own them.

 Everything happens in critical sections under one lock; a loop begins in two of them,
 and every retry moves its lease to a new agent id in one.
 */
module Leases {
  import opened Wrappers

  type TaskId = nat
  type AgentId = nat
  type GroupId = nat

  datatype Lease = Lease(group: Option<GroupId>, target: string, root: string, unconfined: bool)
  {
    predicate Conflicts(other: Lease) {
      group.Some? && group == other.group && target == other.target && root == other.root
    }
  }

  /** A reservation row: the lease, and whether a process group is recorded with it. */
  datatype Row = Row(lease: Lease, hasProcess: bool)

  datatype Registry = Registry(
    leases: map<AgentId, Lease>,
    table: map<AgentId, Row>,
    owners: set<AgentId>,
    waiters: set<AgentId>,
    controls: map<TaskId, AgentId>,
    orphans: set<AgentId>,
    children: set<AgentId>)

  const EMPTY := Registry(map[], map[], {}, {}, map[], {}, {})

  // ---- Taking and giving back a lease ----

  datatype Grant = Refused | Reserved | AlreadyOwned

  /** What the guard asks: a direct prompt or not, and what the rest of the daemon answers. */
  datatype Asking = Asking(direct: bool, admitted: bool, sound: bool)

  predicate Contended(leases: map<AgentId, Lease>, lease: Lease) {
    exists a | a in leases :: lease.Conflicts(leases[a])
  }

  function GrantFor(r: Registry, agent: AgentId, lease: Lease, asking: Asking): Grant {
    if asking.direct && agent in r.owners then Refused
    else if agent in r.owners && agent in r.leases && agent !in r.children then AlreadyOwned
    else if agent in r.children || agent in r.leases || Contended(r.leases, lease) then Refused
    else if !asking.admitted || agent in r.table || !asking.sound then Refused
    else Reserved
  }

  function Acquired(r: Registry, agent: AgentId, lease: Lease, asking: Asking): Registry {
    if GrantFor(r, agent, lease, asking).Reserved? then
      r.(table := r.table[agent := Row(lease, false)], leases := r.leases[agent := lease])
    else r
  }

  /** How the outside world answers a release: can the table be read, is the process group alive, is it deleted. */
  datatype Releasing = Releasing(readable: bool, alive: bool, sound: bool)

  predicate Frees(r: Registry, agent: AgentId, how: Releasing) {
    && agent !in r.owners && how.readable
    && !(agent in r.table && r.table[agent].hasProcess && how.alive)
    && how.sound
  }

  function Released(r: Registry, agent: AgentId, how: Releasing): Registry {
    if Frees(r, agent, how) then
      r.(table := r.table - {agent}, leases := r.leases - {agent}, orphans := r.orphans - {agent})
    else if agent !in r.owners && how.readable && agent in r.table && r.table[agent].hasProcess && how.alive then
      r.(orphans := r.orphans + {agent})
    else r
  }

  /** The row of `from_` gets the id `to_`, which must be free; without a row nothing happens. */
  function Transferred(table: map<AgentId, Row>, from_: AgentId, to_: AgentId): Option<map<AgentId, Row>> {
    if from_ !in table || from_ == to_ then Some(table)
    else if to_ in table then None
    else Some((table - {from_})[to_ := table[from_]])
  }

  // ---- The loop ----

  function Registered(r: Registry, task: TaskId, owner: AgentId): Registry {
    r.(owners := r.owners + {owner}, waiters := r.waiters + {owner}, controls := r.controls[task := owner])
  }

  datatype Rotation = Rotated | NotTransferred | LostLease

  function RotationOf(r: Registry, task: TaskId, agent: AgentId, sound: bool): Rotation
    requires task in r.controls
  {
    if !sound || Transferred(r.table, r.controls[task], agent).None? then NotTransferred
    else if r.controls[task] !in r.leases then LostLease
    else Rotated
  }

  function AfterRotation(r: Registry, task: TaskId, agent: AgentId, sound: bool): Registry
    requires task in r.controls
  {
    var owner := r.controls[task];
    match RotationOf(r, task, agent, sound)
    case NotTransferred => r
    case LostLease => r.(table := Transferred(r.table, owner, agent).value)
    case Rotated =>
      r.(table := Transferred(r.table, owner, agent).value,
         leases := (r.leases - {owner})[agent := r.leases[owner]],
         owners := r.owners - {owner} + {agent},
         waiters := if owner in r.waiters then r.waiters - {owner} + {agent} else r.waiters,
         controls := r.controls[task := agent])
  }

  function AfterEnd(r: Registry, task: TaskId, how: Releasing): Registry {
    if task !in r.controls then r
    else
      var owner := r.controls[task];
      Released(r.(controls := r.controls - {task}, owners := r.owners - {owner}, waiters := r.waiters - {owner}), owner, how)
  }

  // ---- What the sections keep ----

  /** Memory and the table agree on every lease. */
  predicate SameRows(r: Registry) {
    r.leases.Keys == r.table.Keys && forall id | id in r.leases :: r.leases[id] == r.table[id].lease
  }

  /** No two leases are for the same workspace within one coordinator group. */
  ghost predicate NoConflicts(leases: map<AgentId, Lease>) {
    forall a, b | a in leases && b in leases && a != b :: !leases[a].Conflicts(leases[b])
  }

  predicate Controls(r: Registry, id: AgentId) {
    exists t | t in r.controls :: r.controls[t] == id
  }

  /** Owners and waiters are exactly the agents of the live loops, one for each. */
  predicate OwnersMatch(r: Registry) {
    && (forall t | t in r.controls :: r.controls[t] in r.owners)
    && (forall id | id in r.owners :: Controls(r, id))
    && r.waiters == r.owners
    && (forall t, u | t in r.controls && u in r.controls && r.controls[t] == r.controls[u] :: t == u)
  }

  ghost predicate Sound(r: Registry) {
    SameRows(r) && NoConflicts(r.leases) && OwnersMatch(r)
  }

  /** The four places an agent id can occur in on behalf of a loop. */
  predicate Occurs(r: Registry, id: AgentId) {
    id in r.owners || id in r.waiters || id in r.leases || id in r.table
  }

  predicate SameFor(r: Registry, n: Registry, id: AgentId) {
    && (id in n.owners <==> id in r.owners) && (id in n.waiters <==> id in r.waiters)
    && (id in n.leases <==> id in r.leases) && (id in n.leases ==> n.leases[id] == r.leases[id])
    && (id in n.table <==> id in r.table) && (id in n.table ==> n.table[id] == r.table[id])
  }

  lemma SameOwnersMatch(r: Registry, n: Registry)
    requires OwnersMatch(r) && n.controls == r.controls && n.owners == r.owners && n.waiters == r.waiters
    ensures OwnersMatch(n)
  {
    forall id | id in n.owners ensures Controls(n, id) {
      assert Controls(r, id);
    }
  }

  lemma AcquiringKeeps(r: Registry, agent: AgentId, lease: Lease, asking: Asking)
    requires Sound(r)
    ensures Sound(Acquired(r, agent, lease, asking))
  {
    SameOwnersMatch(r, Acquired(r, agent, lease, asking));
    hide OwnersMatch;
  }

  lemma ReleasingKeeps(r: Registry, agent: AgentId, how: Releasing)
    requires Sound(r)
    ensures Sound(Released(r, agent, how))
  {
    SameOwnersMatch(r, Released(r, agent, how));
    hide OwnersMatch;
  }

  lemma RegisteringMatches(r: Registry, task: TaskId, owner: AgentId)
    requires OwnersMatch(r) && task !in r.controls && owner !in r.owners
    ensures OwnersMatch(Registered(r, task, owner))
  {
    var n := Registered(r, task, owner);
    forall id | id in n.owners ensures Controls(n, id) {
      if id in r.owners {
        var t :| t in r.controls && r.controls[t] == id;
        assert t in n.controls && n.controls[t] == id;
      } else {
        assert n.controls[task] == id;
      }
    }
  }

  lemma RotatingMatches(r: Registry, task: TaskId, agent: AgentId, sound: bool)
    requires OwnersMatch(r) && task in r.controls && agent !in r.owners
    ensures OwnersMatch(AfterRotation(r, task, agent, sound))
  {
    hide Transferred;
    var n := AfterRotation(r, task, agent, sound);
    forall id | id in n.owners ensures Controls(n, id) {
      if id in r.owners {
        var t :| t in r.controls && r.controls[t] == id;
        assert t in n.controls && (t != task ==> n.controls[t] == id);
      }
      assert task in n.controls;
    }
  }

  lemma RotatingKeeps(r: Registry, task: TaskId, agent: AgentId, sound: bool)
    requires Sound(r) && task in r.controls && agent !in r.owners && agent !in r.leases
    ensures Sound(AfterRotation(r, task, agent, sound))
  {
    RotatingMatches(r, task, agent, sound);
    hide OwnersMatch;
  }

  /** Everything moves, or nothing but perhaps a row without a lease. */
  lemma RotationMeans(r: Registry, task: TaskId, agent: AgentId, sound: bool)
    requires Sound(r) && task in r.controls && agent !in r.owners && agent !in r.leases
    ensures var n, rotation, owner := AfterRotation(r, task, agent, sound), RotationOf(r, task, agent, sound), r.controls[task];
            && task in n.controls
            && (owner in r.leases ==> !rotation.LostLease? && n.controls[task] in n.leases
                                      && n.leases[n.controls[task]] == r.leases[owner])
            && (owner in r.leases && sound ==> rotation.Rotated?) && (!sound ==> n == r)
            && (rotation.Rotated? ==>
                  && n.controls[task] == agent && !Occurs(n, owner) && owner in r.leases && owner in r.table
                  && agent in n.owners && agent in n.waiters && agent in n.leases && n.leases[agent] == r.leases[owner]
                  && agent in n.table && n.table[agent] == r.table[owner])
            && forall id | id != agent && id != owner :: SameFor(r, n, id)
  {
    hide NoConflicts;
    assert r.controls[task] in r.owners;
  }

  lemma EndingMatches(r: Registry, task: TaskId, how: Releasing)
    requires OwnersMatch(r)
    ensures OwnersMatch(AfterEnd(r, task, how))
  {
    var n := AfterEnd(r, task, how);
    forall id | id in n.owners ensures Controls(n, id) {
      var t :| t in r.controls && r.controls[t] == id;
      assert t in n.controls && n.controls[t] == id;
    }
  }

  lemma EndingKeeps(r: Registry, task: TaskId, how: Releasing)
    requires Sound(r)
    ensures Sound(AfterEnd(r, task, how))
  {
    EndingMatches(r, task, how);
    hide OwnersMatch;
  }

  // ---- The same sections in place ----

  class RuntimeState {
    var leases: map<AgentId, Lease>
    var table: map<AgentId, Row>
    var owners: set<AgentId>
    var waiters: set<AgentId>
    var controls: map<TaskId, AgentId>
    var orphans: set<AgentId>
    var children: set<AgentId>

    constructor ()
      ensures View() == EMPTY && Sound(View())
    {
      leases, table, owners, waiters, controls, orphans, children := map[], map[], {}, {}, map[], {}, {};
    }

    function View(): Registry
      reads this
    {
      Registry(leases, table, owners, waiters, controls, orphans, children)
    }

    /**
     Whoever is not refused holds a lease afterwards that conflicts with nobody's; a refusal changes nothing.  The agent
     of a live loop is refused a direct prompt and otherwise goes on under the lease it has; everybody else gets a new
     lease exactly if neither memory, table, children nor the rest of the daemon object.
     */
    method Acquire(agent: AgentId, lease: Lease, asking: Asking) returns (grant: Grant)
      requires Sound(View())
      modifies this
      ensures grant == GrantFor(old(View()), agent, lease, asking)
      ensures View() == Acquired(old(View()), agent, lease, asking)
      ensures Sound(View())
      ensures !grant.Refused? ==> agent in leases && forall a | a in leases && a != agent :: !leases[agent].Conflicts(leases[a])
      ensures grant.Reserved? <==> agent !in old(leases) && agent in leases
      ensures asking.direct && agent in owners ==> grant.Refused?
      ensures grant.AlreadyOwned? <==> !asking.direct && agent in owners && agent in old(leases) && agent !in children
      ensures grant.Reserved? <==>
                && !(asking.direct && agent in owners) && agent !in children && agent !in old(leases) && agent !in old(table)
                && (forall a | a in old(leases) :: !lease.Conflicts(old(leases)[a])) && asking.admitted && asking.sound
      ensures grant.Reserved? ==> leases == old(leases)[agent := lease] && table == old(table)[agent := Row(lease, false)]
      ensures controls == old(controls) && owners == old(owners) && waiters == old(waiters) && children == old(children)
      ensures !grant.Reserved? ==> View() == old(View())
      ensures forall id | id != agent :: SameFor(old(View()), View(), id)
    {
      AcquiringKeeps(View(), agent, lease, asking);
      if asking.direct && agent in owners {
        return Refused;
      }
      if agent in owners && agent in leases && agent !in children {
        return AlreadyOwned;
      }
      if agent in children || agent in leases || Contended(leases, lease) {
        return Refused;
      }
      if !asking.admitted || agent in table || !asking.sound {
        return Refused;
      }
      table := table[agent := Row(lease, false)];
      leases := leases[agent := lease];
      return Reserved;
    }

    /** A release never takes the lease of a live loop, takes nobody else's, and frees memory and table together. */
    method ReleaseWriter(agent: AgentId, how: Releasing)
      requires Sound(View())
      modifies this
      ensures View() == Released(old(View()), agent, how)
      ensures Sound(View())
      ensures controls == old(controls) && forall t | t in controls :: SameFor(old(View()), View(), controls[t])
      ensures forall id | id != agent :: SameFor(old(View()), View(), id)
      ensures agent in old(leases) ==>
                (agent in leases <==> agent in owners || !how.readable || !how.sound || (old(table)[agent].hasProcess && how.alive))
      ensures orphans == if agent in owners || !how.readable then old(orphans)
                         else if agent in old(table) && old(table)[agent].hasProcess && how.alive then old(orphans) + {agent}
                         else if how.sound then old(orphans) - {agent} else old(orphans)
      ensures owners == old(owners) && waiters == old(waiters) && children == old(children)
    {
      ReleasingKeeps(View(), agent, how);
      if agent in owners || !how.readable {
        return;
      }
      if agent in table && table[agent].hasProcess && how.alive {
        orphans := orphans + {agent};
        return;
      }
      if how.sound {
        table := table - {agent};
        leases := leases - {agent};
        orphans := orphans - {agent};
      }
    }

    /** The second section of a beginning loop; an agent that owns no loop yet gets exactly this one. */
    method RegisterLoop(task: TaskId, owner: AgentId) returns (ok: bool)
      requires Sound(View()) && owner !in owners
      modifies this
      ensures ok == (task !in old(controls))
      ensures View() == if ok then Registered(old(View()), task, owner) else old(View())
      ensures Sound(View())
      ensures ok ==> forall t | t in controls :: controls[t] == owner <==> t == task
      ensures ok ==> owner in owners && owner in waiters && controls == old(controls)[task := owner]
      ensures leases == old(leases) && table == old(table)
    {
      if task !in controls {
        RegisteringMatches(View(), task, owner);
      }
      if task in controls {
        return false;
      }
      owners := owners + {owner};
      waiters := waiters + {owner};
      controls := controls[task := owner];
      return true;
    }

    /**
     To an unused id.  Nothing is left under the old one, and other agents and loops are not touched;
     a loop that holds its lease loses it on no path.
     */
    method RotateOwner(task: TaskId, agent: AgentId, sound: bool) returns (rotation: Rotation)
      requires Sound(View()) && task in controls && agent !in owners && agent !in leases
      modifies this
      ensures rotation == RotationOf(old(View()), task, agent, sound)
      ensures View() == AfterRotation(old(View()), task, agent, sound)
      ensures Sound(View()) && task in controls
      ensures old(controls[task]) in old(leases) ==>
                !rotation.LostLease? && controls[task] in leases && leases[controls[task]] == old(leases[controls[task]])
      ensures rotation.Rotated? ==> controls[task] == agent && !Occurs(View(), old(controls[task]))
      ensures rotation.Rotated? ==>
                && old(controls[task]) in old(leases) && old(controls[task]) in old(table)
                && agent in owners && agent in waiters && agent in leases && leases[agent] == old(leases[controls[task]])
                && agent in table && table[agent] == old(table[controls[task]])
      ensures old(controls[task]) in old(leases) && sound ==> rotation.Rotated?
      ensures !sound ==> View() == old(View())
      ensures forall id | id != agent && id != old(controls[task]) :: SameFor(old(View()), View(), id)
    {
      RotatingKeeps(View(), task, agent, sound);
      RotationMeans(View(), task, agent, sound);
      hide Sound, Occurs, SameFor;
      var owner := controls[task];
      var transferred := Transferred(table, owner, agent);
      if !sound || transferred.None? {
        return NotTransferred;
      }
      table := transferred.value;
      if owner !in leases {
        return LostLease;
      }
      var lease := leases[owner];
      leases := leases - {owner};
      leases := leases[agent := lease];
      owners := owners - {owner};
      owners := owners + {agent};
      if owner in waiters {
        waiters := waiters - {owner};
        waiters := waiters + {agent};
      }
      controls := controls[task := agent];
      return Rotated;
    }

    /** Afterwards the loop has no owner, and nobody else was touched. */
    method EndLoop(task: TaskId, how: Releasing)
      requires Sound(View())
      modifies this
      ensures View() == AfterEnd(old(View()), task, how)
      ensures Sound(View()) && task !in controls
      ensures task in old(controls) ==> old(controls[task]) !in owners && old(controls[task]) !in waiters
      ensures task in old(controls) ==>
                var owner := old(controls[task]);
                owner in leases <==> owner in old(leases) && (!how.readable || !how.sound || (old(table)[owner].hasProcess && how.alive))
      ensures forall id | task !in old(controls) || id != old(controls[task]) :: SameFor(old(View()), View(), id)
    {
      EndingKeeps(View(), task, how);
      if task in controls {
        var owner := controls[task];
        ghost var before := View();
        assert OwnersMatch(View().(controls := controls - {task}, owners := owners - {owner}, waiters := waiters - {owner})) by {
          WithoutLoop(before, task);
        }
        controls := controls - {task};
        owners := owners - {owner};
        waiters := waiters - {owner};
        ReleaseWriter(owner, how);
      }
    }
  }

  /** Taking a loop and its owner out leaves the others matched. */
  lemma WithoutLoop(r: Registry, task: TaskId)
    requires OwnersMatch(r) && task in r.controls
    ensures OwnersMatch(r.(controls := r.controls - {task}, owners := r.owners - {r.controls[task]},
                           waiters := r.waiters - {r.controls[task]}))
  {
    var n := r.(controls := r.controls - {task}, owners := r.owners - {r.controls[task]}, waiters := r.waiters - {r.controls[task]});
    forall id | id in n.owners ensures Controls(n, id) {
      var t :| t in r.controls && r.controls[t] == id;
      assert t in n.controls && n.controls[t] == id;
    }
  }

  // ---- Everything together ----

  /** A launch between its sections: before the guard, or holding it. */
  datatype Launch = Launch(agent: AgentId, guarded: bool)

  /**
   How far a live loop is with its workers: none launched yet, one launched for the present id, moved to a new id
   that has none yet, or on its way out, with or without having launched one.
   */
  datatype Stage = Beginning | Launched | Moved | Stopping(worked: bool)
  {
    predicate Worked() { Launched? || Moved? || (Stopping? && worked) }
  }

  /**
   `launches` are tasks whose loop is about to begin, `stages` belongs to the live loops, `guards` are the other
   guards held at the moment.  `temporary` (ids made only to hold a guard), `bare` (loops whose lease was released
   between the two sections of their beginning and that launched no worker since) and `seen` (ids ever used) are history.
   */
  datatype State = State(
    r: Registry,
    launches: map<TaskId, Launch>,
    stages: map<TaskId, Stage>,
    guards: map<nat, AgentId>,
    temporary: set<AgentId>,
    bare: set<TaskId>,
    seen: set<AgentId>)

  const INITIAL := State(EMPTY, map[], map[], map[], {}, {}, {})

  datatype Step =
    | Claim(task: TaskId, agent: AgentId)
    | AcquireForLaunch(task: TaskId, lease: Lease, asking: Asking)
    | Register(task: TaskId, how: Releasing)
    | LaunchWorker(task: TaskId, lease: Lease, asking: Asking, started: bool)
    | Rotate(task: TaskId, agent: AgentId, sound: bool)
    | End(task: TaskId, how: Releasing)
    | AcquireOther(key: nat, agent: AgentId, lease: Lease, asking: Asking, temporary: bool)
    | RetainGuard(key: nat)
    | DropGuard(key: nat, how: Releasing)
    | HandOver(key: nat, agent: AgentId, sound: bool)
    | AgentStopped(agent: AgentId, how: Releasing)
    | ChildStarted(agent: AgentId)
    | ChildEnded(agent: AgentId)
    | RecordProcess(agent: AgentId, present: bool)
    | Widen(agent: AgentId)
    | Restart(kept: set<AgentId>)

  predicate Launching(s: State, agent: AgentId) {
    exists t | t in s.launches :: s.launches[t].agent == agent
  }

  /** A task is handed to a loop with an agent that is idle and bound to no other launch or loop. */
  predicate Claimable(s: State, task: TaskId, agent: AgentId) {
    && task !in s.r.controls && task !in s.launches
    && agent !in s.r.leases && agent !in s.r.owners && !Launching(s, agent) && agent !in s.temporary
  }

  /** A worker is launched for every attempt that is not for validation only; a retry moves to a new id before it. */
  predicate Enabled(s: State, step: Step) {
    match step
    case Claim(task, agent) => Claimable(s, task, agent)
    case AcquireForLaunch(task, _, asking) => task in s.launches && !s.launches[task].guarded && !asking.direct
    case Register(task, _) => task in s.launches && s.launches[task].guarded
    case LaunchWorker(task, _, asking, _) => task in s.stages && !s.stages[task].Stopping? && !asking.direct
    case Rotate(task, agent, _) => task in s.stages && s.stages[task].Launched? && agent !in s.seen
    case End(task, _) => task in s.stages
    case AcquireOther(key, agent, _, _, temporary) =>
      key !in s.guards && !Launching(s, agent) && (if temporary then agent !in s.seen else agent !in s.temporary)
    case RetainGuard(key) => key in s.guards
    case DropGuard(key, _) => key in s.guards
    case HandOver(key, agent, _) => key in s.guards && s.guards[key] in s.temporary && agent !in s.temporary
    case Widen(agent) => agent in s.r.leases && agent in s.r.table
    case Restart(kept) => kept <= s.r.table.Keys
    case _ => true
  }

  /** The launches that hold a guard whose lease a release has just taken. */
  function Bared(s: State, r: Registry): set<TaskId> {
    set t | t in s.launches && s.launches[t].guarded && s.launches[t].agent in s.r.leases && s.launches[t].agent !in r.leases
  }

  function WithRegistry(s: State, r: Registry): State {
    s.(r := r, bare := s.bare + Bared(s, r))
  }

  function HandedOver(r: Registry, from_: AgentId, to_: AgentId, sound: bool): Registry {
    var moved := Transferred(r.table, from_, to_);
    if !sound || moved.None? then r
    else if from_ !in r.leases then r.(table := moved.value)
    else r.(table := moved.value, leases := (r.leases - {from_})[to_ := r.leases[from_]])
  }

  function Widened(r: Registry, agent: AgentId): Registry
    requires agent in r.leases && agent in r.table
  {
    var lease := r.leases[agent].(unconfined := true);
    r.(leases := r.leases[agent := lease], table := r.table[agent := r.table[agent].(lease := lease)])
  }

  function WithProcess(r: Registry, agent: AgentId, present: bool): Registry {
    if agent in r.table then r.(table := r.table[agent := r.table[agent].(hasProcess := present)]) else r
  }

  /** A restart keeps the reservations whose process group still runs, and nothing in memory but their leases. */
  function Restarted(r: Registry, kept: set<AgentId>): Registry {
    var table := map id | id in r.table && id in kept :: r.table[id];
    EMPTY.(table := table, leases := map id | id in table :: table[id].lease, orphans := kept)
  }

  /** The launch of an attempt's worker asks for the lease once more; refused or failed, it ends the loop. */
  function WorkerLaunched(s: State, task: TaskId, lease: Lease, asking: Asking, started: bool): State
    requires task in s.r.controls && task in s.stages
  {
    var owner := s.r.controls[task];
    var r := Acquired(s.r, owner, lease, asking);
    if GrantFor(s.r, owner, lease, asking).Refused? then s.(stages := s.stages[task := Stopping(s.stages[task].Worked())])
    else
      s.(r := r, bare := s.bare - {task}, stages := s.stages[task := if started then Launched else Stopping(true)])
  }

  /** A rotation that does not come off ends the loop. */
  function StageAfter(r: Registry, task: TaskId, agent: AgentId, sound: bool): Stage
    requires task in r.controls
  {
    if RotationOf(r, task, agent, sound).Rotated? then Moved else Stopping(true)
  }

  predicate StagesMatch(s: State) {
    s.stages.Keys == s.r.controls.Keys
  }

  function Next(s: State, step: Step): State
    requires StagesMatch(s) && Enabled(s, step)
  {
    match step
    case Claim(task, agent) =>
      s.(launches := s.launches[task := Launch(agent, false)], bare := s.bare - {task}, seen := s.seen + {agent})
    case AcquireForLaunch(task, lease, asking) =>
      var agent := s.launches[task].agent;
      var r := Acquired(s.r, agent, lease, asking);
      if GrantFor(s.r, agent, lease, asking).Refused? then s.(launches := s.launches - {task})
      else s.(r := r, launches := s.launches[task := Launch(agent, true)])
    case Register(task, how) =>
      var agent, rest := s.launches[task].agent, s.(launches := s.launches - {task});
      if task in s.r.controls then WithRegistry(rest, Released(s.r, agent, how))
      else rest.(r := Registered(s.r, task, agent), stages := s.stages[task := Beginning])
    case LaunchWorker(task, lease, asking, started) => WorkerLaunched(s, task, lease, asking, started)
    case Rotate(task, agent, sound) =>
      WithRegistry(s.(stages := s.stages[task := StageAfter(s.r, task, agent, sound)], seen := s.seen + {agent}),
                   AfterRotation(s.r, task, agent, sound))
    case End(task, how) => WithRegistry(s.(stages := s.stages - {task}), AfterEnd(s.r, task, how))
    case AcquireOther(key, agent, lease, asking, temporary) =>
      var next := s.(r := Acquired(s.r, agent, lease, asking), seen := s.seen + {agent},
                     temporary := if temporary then s.temporary + {agent} else s.temporary);
      if GrantFor(s.r, agent, lease, asking).Reserved? then next.(guards := s.guards[key := agent]) else next
    case RetainGuard(key) => s.(guards := s.guards - {key})
    case DropGuard(key, how) => WithRegistry(s.(guards := s.guards - {key}), Released(s.r, s.guards[key], how))
    case HandOver(key, agent, sound) =>
      WithRegistry(s.(guards := s.guards - {key}, seen := s.seen + {agent}), HandedOver(s.r, s.guards[key], agent, sound))
    case AgentStopped(agent, how) => WithRegistry(s, Released(s.r, agent, how))
    case ChildStarted(agent) => s.(r := s.r.(children := s.r.children + {agent}), seen := s.seen + {agent})
    case ChildEnded(agent) => s.(r := s.r.(children := s.r.children - {agent}))
    case RecordProcess(agent, present) => s.(r := WithProcess(s.r, agent, present))
    case Widen(agent) => s.(r := Widened(s.r, agent))
    case Restart(kept) => State(Restarted(s.r, kept), map[], map[], map[], s.temporary, {}, s.seen)
  }

  // ---- What every step keeps ----

  /** Nobody who only held a guard ever owns a loop, and every id was seen. */
  predicate Known(s: State) {
    && s.r.leases.Keys <= s.seen && s.r.owners <= s.seen && s.temporary <= s.seen && (forall id | id in s.r.owners :: id !in s.temporary)
    && (forall t | t in s.launches :: s.launches[t].agent in s.seen)
  }

  predicate LeasesHeld(s: State) {
    && (forall t | t in s.r.controls && t !in s.bare :: s.r.controls[t] in s.r.leases)
    && (forall t | t in s.launches && s.launches[t].guarded && t !in s.bare :: s.launches[t].agent in s.r.leases)
    && (forall t | t in s.bare && t in s.stages :: !s.stages[t].Worked())
  }

  predicate LaunchesApart(s: State) {
    && (forall t | t in s.launches :: t !in s.r.controls && s.launches[t].agent !in s.r.owners && s.launches[t].agent !in s.temporary)
    && (forall t, u | t in s.launches && u in s.launches && s.launches[t].agent == s.launches[u].agent :: t == u)
  }

  ghost predicate Invariant(s: State) {
    StagesMatch(s) && Sound(s.r) && Known(s) && LeasesHeld(s) && LaunchesApart(s)
  }

  ghost predicate IsRun(states: seq<State>, steps: seq<Step>) {
    && |states| == |steps| + 1 && states[0] == INITIAL
    && forall i | 0 <= i < |steps| ::
         StagesMatch(states[i]) && Enabled(states[i], steps[i]) && states[i + 1] == Next(states[i], steps[i])
  }

  lemma MovingKeepsRows(r: Registry, from_: AgentId, to_: AgentId, sound: bool)
    requires Sound(r)
    ensures Sound(HandedOver(r, from_, to_, sound))
  {
    SameOwnersMatch(r, HandedOver(r, from_, to_, sound));
    hide OwnersMatch;
  }

  lemma WideningKeeps(r: Registry, agent: AgentId)
    requires Sound(r) && agent in r.leases && agent in r.table
    ensures Sound(Widened(r, agent))
  {
    SameOwnersMatch(r, Widened(r, agent));
    hide OwnersMatch;
  }

  lemma ProcessesKeep(r: Registry, agent: AgentId, present: bool)
    requires Sound(r)
    ensures Sound(WithProcess(r, agent, present))
  {
    SameOwnersMatch(r, WithProcess(r, agent, present));
    hide OwnersMatch;
  }

  lemma ChildrenKeep(r: Registry, children: set<AgentId>)
    requires Sound(r)
    ensures Sound(r.(children := children))
  {
    SameOwnersMatch(r, r.(children := children));
  }

  lemma RestartingKeeps(r: Registry, kept: set<AgentId>)
    requires Sound(r) && kept <= r.table.Keys
    ensures Sound(Restarted(r, kept))
  {
  }

  lemma StaysSound(s: State, step: Step)
    requires Invariant(s) && Enabled(s, step)
    ensures Sound(Next(s, step).r)
  {
    hide Launching, Contended, Released, HandedOver, AfterRotation, AfterEnd, Acquired, Registered, Widened, WithProcess,
      Restarted, LeasesHeld, SameRows, NoConflicts, OwnersMatch, GrantFor, Bared, RotationOf;
    match step {
      case AcquireForLaunch(task, lease, asking) => AcquiringKeeps(s.r, s.launches[task].agent, lease, asking);
      case Register(task, how) => RegisteringMatches(s.r, task, s.launches[task].agent); RegisteringIsSound(s.r, task, s.launches[task].agent);
      case LaunchWorker(task, lease, asking, _) => AcquiringKeeps(s.r, s.r.controls[task], lease, asking);
      case Rotate(task, agent, sound) => RotatingKeeps(s.r, task, agent, sound);
      case End(task, how) => EndingKeeps(s.r, task, how);
      case AcquireOther(_, agent, lease, asking, _) => AcquiringKeeps(s.r, agent, lease, asking);
      case DropGuard(key, how) => ReleasingKeeps(s.r, s.guards[key], how);
      case HandOver(key, agent, sound) => MovingKeepsRows(s.r, s.guards[key], agent, sound);
      case AgentStopped(agent, how) => ReleasingKeeps(s.r, agent, how);
      case ChildStarted(agent) => ChildrenKeep(s.r, s.r.children + {agent});
      case ChildEnded(agent) => ChildrenKeep(s.r, s.r.children - {agent});
      case RecordProcess(agent, present) => ProcessesKeep(s.r, agent, present);
      case Widen(agent) => WideningKeeps(s.r, agent);
      case Restart(kept) => RestartingKeeps(s.r, kept);
      case _ =>
    }
  }

  lemma RegisteringIsSound(r: Registry, task: TaskId, owner: AgentId)
    requires Sound(r) && OwnersMatch(Registered(r, task, owner))
    ensures Sound(Registered(r, task, owner))
  {
  }

  /** What a rotation does to memory; the lease follows the id or nothing moves but a row. */
  lemma RotationInMemory(r: Registry, task: TaskId, agent: AgentId, sound: bool)
    requires Sound(r) && task in r.controls
    ensures var n, owner := AfterRotation(r, task, agent, sound), r.controls[task];
            if RotationOf(r, task, agent, sound).Rotated? then
              && owner in r.leases && n.leases == (r.leases - {owner})[agent := r.leases[owner]]
              && n.owners == r.owners - {owner} + {agent} && n.controls == r.controls[task := agent]
            else n.leases == r.leases && n.owners == r.owners && n.controls == r.controls
    ensures r.controls[task] in r.owners
  {
  }

  lemma EndInMemory(r: Registry, task: TaskId, how: Releasing)
    requires Sound(r) && task in r.controls
    ensures var n, owner := AfterEnd(r, task, how), r.controls[task];
            && r.leases.Keys - {owner} <= n.leases.Keys <= r.leases.Keys
            && n.owners == r.owners - {owner} && n.controls == r.controls - {task}
    ensures r.controls[task] in r.owners
    ensures forall t | t in r.controls && t != task :: r.controls[t] != r.controls[task]
  {
  }

  lemma AcquiredInMemory(r: Registry, agent: AgentId, lease: Lease, asking: Asking)
    ensures var n := Acquired(r, agent, lease, asking);
            && n.owners == r.owners && n.controls == r.controls
            && n.leases.Keys == if GrantFor(r, agent, lease, asking).Reserved? then r.leases.Keys + {agent} else r.leases.Keys
    ensures !GrantFor(r, agent, lease, asking).Refused? ==> agent in Acquired(r, agent, lease, asking).leases
  {
  }

  lemma ReleasedInMemory(r: Registry, agent: AgentId, how: Releasing)
    ensures var n := Released(r, agent, how);
            && n.owners == r.owners && n.controls == r.controls && r.leases.Keys - {agent} <= n.leases.Keys <= r.leases.Keys
            && (agent in r.owners ==> n == r)
  {
  }

  lemma HandedOverInMemory(r: Registry, from_: AgentId, to_: AgentId, sound: bool)
    ensures var n := HandedOver(r, from_, to_, sound);
            && n.owners == r.owners && n.controls == r.controls
            && r.leases.Keys - {from_} <= n.leases.Keys <= r.leases.Keys + {to_}
  {
  }

  lemma BeginningIsKnown(s: State, step: Step)
    requires Invariant(s) && Enabled(s, step) && (step.Claim? || step.AcquireForLaunch? || step.Register?)
    ensures Known(Next(s, step)) && StagesMatch(Next(s, step))
  {
    hide Sound, LeasesHeld, Launching, Bared, GrantFor, Acquired, Released;
    match step {
      case AcquireForLaunch(task, lease, asking) => AcquiredInMemory(s.r, s.launches[task].agent, lease, asking);
      case Register(task, how) => ReleasedInMemory(s.r, s.launches[task].agent, how);
      case _ =>
    }
  }

  lemma LoopIsKnown(s: State, step: Step)
    requires Invariant(s) && Enabled(s, step) && (step.LaunchWorker? || step.Rotate? || step.End?)
    ensures Known(Next(s, step)) && StagesMatch(Next(s, step))
  {
    hide Sound, LeasesHeld, LaunchesApart, Launching, Bared, GrantFor, RotationOf, AfterRotation, AfterEnd, Acquired;
    OwnerOwns(s.r, step.task);
    match step {
      case LaunchWorker(task, lease, asking, _) => AcquiredInMemory(s.r, s.r.controls[task], lease, asking);
      case Rotate(task, agent, sound) => RotationInMemory(s.r, task, agent, sound);
      case End(task, how) => EndInMemory(s.r, task, how);
    }
  }

  lemma OtherIsKnown(s: State, step: Step)
    requires Invariant(s) && Enabled(s, step) && (step.AcquireOther? || step.RecordProcess? || step.Widen?)
    ensures Known(Next(s, step)) && StagesMatch(Next(s, step))
  {
    hide Sound, LeasesHeld, LaunchesApart, Launching, GrantFor, Acquired;
    if step.AcquireOther? {
      AcquiredInMemory(s.r, step.agent, step.lease, step.asking);
    }
  }

  lemma StaysKnown(s: State, step: Step)
    requires Invariant(s) && Enabled(s, step)
    ensures Known(Next(s, step)) && StagesMatch(Next(s, step))
  {
    if step.Claim? || step.AcquireForLaunch? || step.Register? {
      BeginningIsKnown(s, step);
    } else if step.LaunchWorker? || step.Rotate? || step.End? {
      LoopIsKnown(s, step);
    } else {
      hide Sound, LeasesHeld, LaunchesApart, Launching, Bared, GrantFor, Acquired, Released, HandedOver, Widened, WithProcess;
      match step {
        case AcquireOther(_, _, _, _, _) => OtherIsKnown(s, step);
        case DropGuard(key, how) => ReleasedInMemory(s.r, s.guards[key], how);
        case HandOver(key, agent, sound) => HandedOverInMemory(s.r, s.guards[key], agent, sound);
        case AgentStopped(agent, how) => ReleasedInMemory(s.r, agent, how);
        case RecordProcess(_, _) => OtherIsKnown(s, step);
        case Widen(_) => OtherIsKnown(s, step);
        case Restart(_) => RestartedKnown(s, step);
        case _ =>
      }
    }
  }

  lemma RestartedKnown(s: State, step: Step)
    requires Invariant(s) && Enabled(s, step) && step.Restart?
    ensures Known(Next(s, step)) && StagesMatch(Next(s, step))
  {
  }

  lemma OwnerOwns(r: Registry, task: TaskId)
    requires Sound(r) && task in r.controls
    ensures r.controls[task] in r.owners
    ensures forall t | t in r.controls && t != task :: r.controls[t] != r.controls[task]
  {
  }

  lemma BeginningKeepsLeases(s: State, step: Step)
    requires Invariant(s) && Enabled(s, step) && (step.Register? || step.Claim? || step.AcquireForLaunch?)
    ensures LeasesHeld(Next(s, step))
  {
    hide Sound, Launching, GrantFor, Acquired, Released;
    match step {
      case AcquireForLaunch(task, lease, asking) => AcquiredInMemory(s.r, s.launches[task].agent, lease, asking);
      case Register(task, how) => ReleasedInMemory(s.r, s.launches[task].agent, how);
      case _ =>
    }
  }

  lemma WorkerKeepsLeases(s: State, step: Step)
    requires Invariant(s) && Enabled(s, step) && step.LaunchWorker?
    ensures LeasesHeld(Next(s, step))
  {
    hide Sound, Launching, GrantFor, Acquired;
    AcquiredInMemory(s.r, s.r.controls[step.task], step.lease, step.asking);
  }

  lemma RotationKeepsLeases(s: State, step: Step)
    requires Invariant(s) && Enabled(s, step) && step.Rotate?
    ensures LeasesHeld(Next(s, step))
  {
    hide Sound, Launching, RotationOf, AfterRotation;
    OwnerOwns(s.r, step.task);
    RotationInMemory(s.r, step.task, step.agent, step.sound);
    LeaseGoesAlong(s.r, step.task, step.agent, step.sound);
  }

  lemma EndKeepsLeases(s: State, step: Step)
    requires Invariant(s) && Enabled(s, step) && step.End?
    ensures LeasesHeld(Next(s, step))
  {
    hide Sound, Launching, AfterEnd;
    OwnerOwns(s.r, step.task);
    EndInMemory(s.r, step.task, step.how);
  }

  lemma LeaseGoesAlong(r: Registry, task: TaskId, agent: AgentId, sound: bool)
    requires Sound(r) && task in r.controls && r.controls[task] in r.leases && agent !in r.leases
    ensures RotationOf(r, task, agent, sound) == if sound then Rotated else NotTransferred
  {
  }

  /** A release takes no owner's lease, and a launch that loses its lease is remembered. */
  lemma ReleasesKeepLeases(s: State, n: State)
    requires Invariant(s) && n.launches == s.launches && n.stages == s.stages
    requires n.r.controls == s.r.controls && n.r.owners == s.r.owners
    requires n.bare == s.bare + Bared(s, n.r)
    requires forall id | id in s.r.owners && id in s.r.leases :: id in n.r.leases
    ensures LeasesHeld(n)
  {
    hide NoConflicts, SameRows, Controls;
  }

  lemma ReleaseSparesOwners(r: Registry, agent: AgentId, how: Releasing)
    ensures var n := Released(r, agent, how);
            && n.controls == r.controls && n.owners == r.owners
            && forall id | id in r.owners && id in r.leases :: id in n.leases
  {
  }

  lemma HandOverSparesOwners(r: Registry, from_: AgentId, to_: AgentId, sound: bool)
    requires from_ !in r.owners
    ensures var n := HandedOver(r, from_, to_, sound);
            && n.controls == r.controls && n.owners == r.owners
            && forall id | id in r.owners && id in r.leases :: id in n.leases
  {
  }

  lemma LeasesStayHeld(s: State, step: Step)
    requires Invariant(s) && Enabled(s, step)
    ensures LeasesHeld(Next(s, step))
  {
    match step {
      case Claim(_, _) => BeginningKeepsLeases(s, step);
      case AcquireForLaunch(_, _, _) => BeginningKeepsLeases(s, step);
      case Register(_, _) => BeginningKeepsLeases(s, step);
      case LaunchWorker(_, _, _, _) => WorkerKeepsLeases(s, step);
      case Rotate(_, _, _) => RotationKeepsLeases(s, step);
      case End(_, _) => EndKeepsLeases(s, step);
      case DropGuard(key, how) =>
        ReleaseSparesOwners(s.r, s.guards[key], how);
        hide Invariant, Released, Bared, LeasesHeld;
        ReleasesKeepLeases(s, Next(s, step));
      case AgentStopped(agent, how) =>
        ReleaseSparesOwners(s.r, agent, how);
        hide Invariant, Released, Bared, LeasesHeld;
        ReleasesKeepLeases(s, Next(s, step));
      case HandOver(key, agent, sound) =>
        HandOverSparesOwners(s.r, s.guards[key], agent, sound);
        hide Invariant, HandedOver, Bared, LeasesHeld;
        ReleasesKeepLeases(s, Next(s, step));
      case AcquireOther(_, agent, lease, asking, _) =>
        AcquiredInMemory(s.r, agent, lease, asking);
        hide Sound, LaunchesApart, Launching, GrantFor, Acquired;
      case _ =>
        hide Sound, LaunchesApart, Launching, GrantFor;
    }
  }

  lemma LoopKeepsLaunches(s: State, step: Step)
    requires Invariant(s) && Enabled(s, step) && (step.LaunchWorker? || step.Rotate? || step.End?)
    ensures LaunchesApart(Next(s, step))
  {
    hide Sound, LeasesHeld, Bared, GrantFor, RotationOf, AfterRotation, AfterEnd, Acquired, Launching;
    match step {
      case LaunchWorker(task, lease, asking, _) => AcquiredInMemory(s.r, s.r.controls[task], lease, asking);
      case Rotate(task, agent, sound) => RotationInMemory(s.r, task, agent, sound);
      case End(task, how) => EndInMemory(s.r, task, how);
    }
  }

  lemma LaunchesStayApart(s: State, step: Step)
    requires Invariant(s) && Enabled(s, step)
    ensures LaunchesApart(Next(s, step))
  {
    if step.Claim? || step.AcquireForLaunch? || step.Register? || step.AcquireOther? {
      NewLaunchesApart(s, step);
    } else if step.LaunchWorker? || step.Rotate? || step.End? {
      LoopKeepsLaunches(s, step);
    } else {
      hide Sound, LeasesHeld, Known, Bared, Released, HandedOver, Launching, Widened, Restarted;
      match step {
        case DropGuard(key, how) => ReleasedInMemory(s.r, s.guards[key], how);
        case HandOver(key, agent, sound) => HandedOverInMemory(s.r, s.guards[key], agent, sound);
        case AgentStopped(agent, how) => ReleasedInMemory(s.r, agent, how);
        case Widen(agent) => WidenedInMemory(s.r, agent);
        case _ =>
      }
    }
  }

  lemma WidenedInMemory(r: Registry, agent: AgentId)
    requires agent in r.leases && agent in r.table
    ensures var n := Widened(r, agent); n.owners == r.owners && n.controls == r.controls && n.leases.Keys == r.leases.Keys
  {
  }

  lemma NewLaunchesApart(s: State, step: Step)
    requires Invariant(s) && Enabled(s, step)
    requires step.Claim? || step.AcquireForLaunch? || step.Register? || step.AcquireOther?
    ensures LaunchesApart(Next(s, step))
  {
    hide Sound, LeasesHeld, Bared, GrantFor, Acquired, Released;
    match step {
      case AcquireForLaunch(task, lease, asking) => AcquiredInMemory(s.r, s.launches[task].agent, lease, asking);
      case Register(task, how) => ReleasedInMemory(s.r, s.launches[task].agent, how);
      case AcquireOther(_, agent, lease, asking, _) => AcquiredInMemory(s.r, agent, lease, asking);
      case _ =>
    }
  }

  lemma {:induction false} InvariantAlways(states: seq<State>, steps: seq<Step>, i: nat)
    requires IsRun(states, steps) && i < |states|
    ensures Invariant(states[i])
    ensures |states| == |steps| + 1
    ensures i < |steps| ==> Enabled(states[i], steps[i]) && states[i + 1] == Next(states[i], steps[i])
  {
    if i > 0 {
      hide Next, Enabled, Sound, Known, LeasesHeld, LaunchesApart, StagesMatch;
      InvariantAlways(states, steps, i - 1);
      var before, step := states[i - 1], steps[i - 1];
      StaysSound(before, step);
      StaysKnown(before, step);
      LeasesStayHeld(before, step);
      LaunchesStayApart(before, step);
    }
  }

  // ---- Whole runs ----

  /**
   In every run the owner of a live loop is an owner and a waiter, no other loop has that owner, and it holds the lease
   in memory and in the table; only until the loop has launched a worker can that lease be gone, if it was released
   between the two sections of the loop's beginning.
   */
  lemma LoopsOwnTheirLease(states: seq<State>, steps: seq<Step>, i: nat, task: TaskId)
    requires IsRun(states, steps) && i < |states| && task in states[i].r.controls
    ensures task in states[i].stages
    ensures var r, owner := states[i].r, states[i].r.controls[task];
            && owner in r.owners && owner in r.waiters
            && (owner in r.leases <==> owner in r.table) && (owner in r.leases ==> r.table[owner].lease == r.leases[owner])
            && (states[i].stages[task].Worked() || task !in states[i].bare ==> owner in r.leases)
            && forall other | other in r.controls && other != task :: r.controls[other] != owner
  {
    InvariantAlways(states, steps, i);
  }

  /** A coordinator group never has two writers in one workspace. */
  lemma OneWriterPerGroup(states: seq<State>, steps: seq<Step>, i: nat, a: AgentId, b: AgentId)
    requires IsRun(states, steps) && i < |states| && a in states[i].r.leases && b in states[i].r.leases && a != b
    ensures !states[i].r.leases[a].Conflicts(states[i].r.leases[b])
    ensures var l, k := states[i].r.leases[a], states[i].r.leases[b];
            !(l.group.Some? && l.group == k.group && l.target == k.target && l.root == k.root)
  {
    InvariantAlways(states, steps, i);
  }

  /**
   The branch for a lost lease is never taken: a loop moves to a new id only after a worker was launched for the old
   one, and then it holds its lease.  The move comes off exactly when the table could be written.
   */
  lemma LeaseIsNeverLost(states: seq<State>, steps: seq<Step>, i: nat, task: TaskId, agent: AgentId, sound: bool)
    requires IsRun(states, steps) && i < |states| && Enabled(states[i], Rotate(task, agent, sound))
    ensures task in states[i].r.controls
    ensures RotationOf(states[i].r, task, agent, sound) == if sound then Rotated else NotTransferred
  {
    InvariantAlways(states, steps, i);
  }

  /**
   How far a loop is: beginning once it is registered, launched with each worker that starts, on its way out as soon
   as a launch or a rotation does not come off, moved with each rotation, and gone with its end or a restart.
   */
  lemma StagesFollowTheLoop(s: State, step: Step)
    requires StagesMatch(s) && Enabled(s, step)
    ensures var n := Next(s, step);
            match step
            case Register(task, _) => n.stages == if task in s.r.controls then s.stages else s.stages[task := Beginning]
            case LaunchWorker(task, lease, asking, started) =>
              n.stages == s.stages[task := if GrantFor(s.r, s.r.controls[task], lease, asking).Refused? then
                                             Stopping(s.stages[task] in {Launched, Moved, Stopping(true)})
                                           else if started then Launched else Stopping(true)]
            case Rotate(task, agent, sound) =>
              n.stages == s.stages[task := if RotationOf(s.r, task, agent, sound) == Rotated then Moved else Stopping(true)]
            case End(task, _) => n.stages == s.stages - {task}
            case Restart(_) => n.stages == map[]
            case _ => n.stages == s.stages
  {
    hide GrantFor, RotationOf, Acquired, AfterRotation, AfterEnd, Released, HandedOver, Bared;
  }

  /**
   A guard is held from the reservation that it made until it is retained, dropped or handed over, and the running
   children are those started and not ended; a restart forgets both and keeps the running processes as orphans.
   */
  lemma GuardsAndChildren(s: State, step: Step)
    requires StagesMatch(s) && Enabled(s, step)
    ensures var n := Next(s, step);
            && n.guards == (match step
                            case AcquireOther(key, agent, lease, asking, _) =>
                              if GrantFor(s.r, agent, lease, asking) == Reserved then s.guards[key := agent] else s.guards
                            case RetainGuard(key) => s.guards - {key}
                            case DropGuard(key, _) => s.guards - {key}
                            case HandOver(key, _, _) => s.guards - {key}
                            case Restart(_) => map[]
                            case _ => s.guards)
            && n.r.children == (match step
                                case ChildStarted(agent) => s.r.children + {agent}
                                case ChildEnded(agent) => s.r.children - {agent}
                                case Restart(_) => {}
                                case _ => s.r.children)
            && (step.Restart? ==> n.r.orphans == step.kept)
            && (step.Widen? ==> n.r.leases == s.r.leases[step.agent := s.r.leases[step.agent].(unconfined := true)])
  {
    hide GrantFor, RotationOf, Transferred;
  }

  /** A loop whose lease is gone gets it back with its first worker, or that launch ends it. */
  lemma FirstWorkerRestoresTheLease(states: seq<State>, steps: seq<Step>, i: nat)
    requires IsRun(states, steps) && i < |steps| && steps[i].LaunchWorker?
    ensures var s, n, task := states[i], states[i + 1], steps[i].task;
            && task in s.r.controls && task in n.r.controls && task in n.stages
            && (n.r.controls[task] in n.r.leases || (n.stages[task] == Stopping(false) && n.r == s.r))
  {
    InvariantAlways(states, steps, i);
    InvariantAlways(states, steps, i + 1);
  }

  predicate TakesLaunchLease(s: State, step: Step, n: State, task: TaskId) {
    && (step.AgentStopped? || step.DropGuard?)
    && task in s.launches && s.launches[task].guarded
    && s.launches[task].agent in s.r.leases && s.launches[task].agent !in n.r.leases
  }

  lemma BecomingBare(s: State, step: Step, task: TaskId)
    requires Invariant(s) && Enabled(s, step) && task in Next(s, step).bare && task !in s.bare
    ensures TakesLaunchLease(s, step, Next(s, step), task)
  {
    hide Sound, LeasesHeld, GrantFor, RotationOf, AfterRotation, AfterEnd, Acquired, Released, Launching;
    match step {
      case Rotate(loop, agent, sound) => RotationInMemory(s.r, loop, agent, sound);
      case End(loop, how) => EndInMemory(s.r, loop, how);
      case HandOver(key, agent, sound) => HandedOverInMemory(s.r, s.guards[key], agent, sound);
      case _ =>
    }
  }

  lemma {:induction false} BareWasReleased(states: seq<State>, steps: seq<Step>, i: nat, task: TaskId) returns (j: nat)
    requires IsRun(states, steps) && i < |states| && task in states[i].bare
    ensures j < i && TakesLaunchLease(states[j], steps[j], states[j + 1], task)
    ensures forall k | j < k <= i :: task in states[k].bare
  {
    hide Next, Enabled, Invariant, TakesLaunchLease;
    InvariantAlways(states, steps, i - 1);
    if task in states[i - 1].bare {
      j := BareWasReleased(states, steps, i - 1, task);
    } else {
      BecomingBare(states[i - 1], steps[i - 1], task);
      j := i - 1;
    }
  }

  /**
   A live loop without its lease has launched no worker yet, and lost it to a release, as that of a stopped agent or by
   a guard going away, that came after the lease was reserved and before the loop was registered as its owner.
   */
  lemma MissingLeaseWasReleasedEarly(states: seq<State>, steps: seq<Step>, i: nat, task: TaskId) returns (j: nat)
    requires IsRun(states, steps) && i < |states| && task in states[i].r.controls
    requires states[i].r.controls[task] !in states[i].r.leases
    ensures task in states[i].stages && !states[i].stages[task].Worked()
    ensures j < i && TakesLaunchLease(states[j], steps[j], states[j + 1], task)
  {
    InvariantAlways(states, steps, i);
    hide Next, Enabled, TakesLaunchLease;
    j := BareWasReleased(states, steps, i, task);
  }

  // ---- What a loop leaves behind ----

  /** Somebody else takes the id: its own launch, another guard, or a guard handed over to it. */
  predicate TakenByOthers(s: State, step: Step, id: AgentId) {
    match step
    case AcquireForLaunch(task, _, _) => task in s.launches && s.launches[task].agent == id
    case AcquireOther(_, agent, _, _, _) => agent == id
    case HandOver(_, agent, _) => agent == id
    case Register(task, _) => task in s.launches && s.launches[task].agent == id
    case _ => false
  }

  /** Whoever is no owner and has no lease is in none of the four places. */
  lemma OccursInMemory(r: Registry, id: AgentId)
    requires Sound(r)
    ensures Occurs(r, id) <==> id in r.owners || id in r.leases
  {
  }

  lemma OnlyOthersOwn(s: State, step: Step, id: AgentId)
    requires Invariant(s) && Enabled(s, step) && id in s.seen && id !in s.r.owners && !TakenByOthers(s, step, id)
    ensures id in Next(s, step).seen && id !in Next(s, step).r.owners
  {
    hide Sound, LeasesHeld, LaunchesApart, Bared, Launching, GrantFor, RotationOf,
      AfterRotation, AfterEnd, Acquired, Released, HandedOver;
    match step {
      case AcquireForLaunch(task, lease, asking) => AcquiredInMemory(s.r, s.launches[task].agent, lease, asking);
      case Register(task, how) => ReleasedInMemory(s.r, s.launches[task].agent, how);
      case LaunchWorker(task, lease, asking, _) => AcquiredInMemory(s.r, s.r.controls[task], lease, asking);
      case Rotate(task, agent, sound) => RotationInMemory(s.r, task, agent, sound);
      case End(task, how) => EndInMemory(s.r, task, how);
      case AcquireOther(_, agent, lease, asking, _) => AcquiredInMemory(s.r, agent, lease, asking);
      case DropGuard(key, how) => ReleasedInMemory(s.r, s.guards[key], how);
      case HandOver(key, agent, sound) => HandedOverInMemory(s.r, s.guards[key], agent, sound);
      case AgentStopped(agent, how) => ReleasedInMemory(s.r, agent, how);
      case _ =>
    }
  }

  lemma OnlyOthersTake(s: State, step: Step, id: AgentId)
    requires Invariant(s) && Enabled(s, step) && id in s.seen && !Occurs(s.r, id) && !TakenByOthers(s, step, id)
    ensures id in Next(s, step).seen && !Occurs(Next(s, step).r, id)
  {
    OccursInMemory(s.r, id);
    StaysSound(s, step);
    OnlyOthersOwn(s, step, id);
    OnlyOthersLease(s, step, id);
    OccursInMemory(Next(s, step).r, id);
    hide Next, Sound, Occurs;
  }

  lemma OnlyOthersLease(s: State, step: Step, id: AgentId)
    requires Invariant(s) && Enabled(s, step) && id in s.seen && !TakenByOthers(s, step, id)
    requires id !in s.r.owners && id !in s.r.leases
    ensures id !in Next(s, step).r.leases
  {
    hide LeasesHeld, LaunchesApart, Bared, Launching, GrantFor, RotationOf,
      AfterRotation, AfterEnd, Acquired, Released, HandedOver, NoConflicts, OwnersMatch;
    match step {
      case AcquireForLaunch(task, lease, asking) => AcquiredInMemory(s.r, s.launches[task].agent, lease, asking);
      case Register(task, how) => ReleasedInMemory(s.r, s.launches[task].agent, how);
      case LaunchWorker(task, lease, asking, _) =>
        OwnerOwns(s.r, task);
        AcquiredInMemory(s.r, s.r.controls[task], lease, asking);
      case Rotate(task, agent, sound) => RotationInMemory(s.r, task, agent, sound);
      case End(task, how) => EndInMemory(s.r, task, how);
      case AcquireOther(_, agent, lease, asking, _) => AcquiredInMemory(s.r, agent, lease, asking);
      case DropGuard(key, how) => ReleasedInMemory(s.r, s.guards[key], how);
      case HandOver(key, agent, sound) => HandedOverInMemory(s.r, s.guards[key], agent, sound);
      case AgentStopped(agent, how) => ReleasedInMemory(s.r, agent, how);
      case _ =>
    }
  }

  lemma {:induction false} GoneUnlessTaken(states: seq<State>, steps: seq<Step>, from_: nat, i: nat, id: AgentId)
    requires IsRun(states, steps) && from_ <= i < |states| && id in states[from_].seen && !Occurs(states[from_].r, id)
    requires forall k | from_ <= k < i :: !TakenByOthers(states[k], steps[k], id)
    ensures id in states[i].seen && !Occurs(states[i].r, id)
  {
    if from_ < i {
      hide IsRun, Next, Enabled, Invariant, TakenByOthers, Occurs;
      InvariantAlways(states, steps, i - 1);
      GoneUnlessTaken(states, steps, from_, i - 1, id);
      OnlyOthersTake(states[i - 1], steps[i - 1], id);
    }
  }

  lemma CleanRotation(r: Registry, task: TaskId, agent: AgentId)
    requires Sound(r) && task in r.controls && r.controls[task] in r.leases && agent !in r.leases && agent !in r.owners
    ensures var n, old_ := AfterRotation(r, task, agent, true), r.controls[task];
            && old_ in r.table && n.controls == r.controls[task := agent] && !Occurs(n, old_)
            && agent in n.owners && agent in n.waiters && agent in n.leases && agent in n.table
            && n.leases[agent] == r.leases[old_] && n.table[agent] == r.table[old_]
            && forall id | id != old_ && id != agent :: SameFor(r, n, id)
  {
    OwnerOwns(r, task);
    hide NoConflicts, OwnersMatch;
  }

  /** A rotation moves everything from the old id to the new one and touches no other agent and no other loop. */
  lemma RotationMovesEverything(states: seq<State>, steps: seq<Step>, i: nat)
    requires IsRun(states, steps) && i < |steps| && steps[i].Rotate?
    ensures var r, n, task, agent := states[i].r, states[i + 1].r, steps[i].task, steps[i].agent;
            && task in r.controls
            && (steps[i].sound ==>
                  var old_ := r.controls[task];
                  && old_ in r.leases && old_ in r.table && n.controls == r.controls[task := agent] && !Occurs(n, old_)
                  && agent in n.owners && agent in n.waiters && agent in n.leases && agent in n.table
                  && n.leases[agent] == r.leases[old_] && n.table[agent] == r.table[old_]
                  && forall id | id != old_ && id != agent :: SameFor(r, n, id))
            && (!steps[i].sound ==> n == r)
  {
    InvariantAlways(states, steps, i);
    LeaseIsNeverLost(states, steps, i, steps[i].task, steps[i].agent, steps[i].sound);
    if steps[i].sound {
      CleanRotation(states[i].r, steps[i].task, steps[i].agent);
      hide AfterRotation, Sound, LaunchesApart, Bared, Launching, SameFor, Occurs, RotationOf, IsRun;
    } else {
      hide Sound, LaunchesApart, Bared, Launching, IsRun;
    }
  }

  lemma CleanEnd(r: Registry, task: TaskId, how: Releasing)
    requires Sound(r) && task in r.controls
    ensures var n, owner := AfterEnd(r, task, how), r.controls[task];
            && n.controls == r.controls - {task} && owner !in n.owners && owner !in n.waiters
            && (forall t | t in n.controls :: n.controls[t] != owner)
            && (owner in n.leases <==> owner in n.table)
            && (owner in n.leases <==>
                  owner in r.leases && owner in r.table
                  && !(how.readable && how.sound && !(r.table[owner].hasProcess && how.alive)))
            && (forall id | id != owner :: SameFor(r, n, id))
  {
    OwnerOwns(r, task);
    hide NoConflicts, OwnersMatch;
  }

  /**
   When the thread ends its owner is neither owner nor waiter any more and no loop's; its lease is gone from memory
   and table alike unless its processes still run or the table could not be changed.  Nobody else is touched.
   */
  lemma EndFreesTheOwner(states: seq<State>, steps: seq<Step>, i: nat)
    requires IsRun(states, steps) && i < |steps| && steps[i].End?
    ensures var r, n, task, how := states[i].r, states[i + 1].r, steps[i].task, steps[i].how;
            && task in r.controls
            && var owner := r.controls[task];
            && n.controls == r.controls - {task} && owner !in n.owners && owner !in n.waiters
            && (forall t | t in n.controls :: n.controls[t] != owner)
            && (owner in n.leases <==> owner in n.table)
            && (owner in n.leases <==>
                  owner in r.leases && owner in r.table
                  && !(how.readable && how.sound && !(r.table[owner].hasProcess && how.alive)))
            && (forall id | id != owner :: SameFor(r, n, id))
  {
    InvariantAlways(states, steps, i);
    CleanEnd(states[i].r, steps[i].task, steps[i].how);
    hide AfterEnd, Sound, LaunchesApart, Bared, Launching, SameFor, IsRun;
  }

  lemma OthersKeepTheId(s: State, step: Step, task: TaskId)
    requires Invariant(s) && Enabled(s, step) && task in s.r.controls && task in Next(s, step).r.controls
    requires !step.Rotate?
    ensures Next(s, step).r.controls[task] == s.r.controls[task]
  {
    hide Sound, LeasesHeld, Known, Bared, Launching, GrantFor, Acquired, Released, HandedOver, AfterEnd;
    match step {
      case AcquireForLaunch(other, lease, asking) => AcquiredInMemory(s.r, s.launches[other].agent, lease, asking);
      case Register(other, how) => ReleasedInMemory(s.r, s.launches[other].agent, how);
      case LaunchWorker(other, lease, asking, _) => AcquiredInMemory(s.r, s.r.controls[other], lease, asking);
      case End(other, how) => EndInMemory(s.r, other, how);
      case AcquireOther(_, agent, lease, asking, _) => AcquiredInMemory(s.r, agent, lease, asking);
      case DropGuard(key, how) => ReleasedInMemory(s.r, s.guards[key], how);
      case HandOver(key, agent, sound) => HandedOverInMemory(s.r, s.guards[key], agent, sound);
      case AgentStopped(agent, how) => ReleasedInMemory(s.r, agent, how);
      case _ =>
    }
  }

  lemma OnlyRotationChangesTheId(s: State, step: Step, task: TaskId)
    requires Invariant(s) && Enabled(s, step) && task in s.r.controls && task in Next(s, step).r.controls
    ensures s.r.controls[task] in Next(s, step).seen
    ensures Next(s, step).r.controls[task] == s.r.controls[task]
            || (step.Rotate? && step.task == task && step.sound && !Occurs(Next(s, step).r, s.r.controls[task]))
  {
    OwnerOwns(s.r, task);
    StaysKnown(s, step);
    if step.Rotate? {
      StaysSound(s, step);
      OccursInMemory(Next(s, step).r, s.r.controls[task]);
      RotationInMemory(s.r, step.task, step.agent, step.sound);
      LeaseGoesAlong(s.r, step.task, step.agent, step.sound);
      hide Sound, Occurs, Bared, AfterRotation, RotationOf;
    } else {
      OthersKeepTheId(s, step, task);
      SeenStays(s, step, s.r.controls[task]);
      hide Next;
    }
  }

  lemma SeenStays(s: State, step: Step, id: AgentId)
    requires StagesMatch(s) && Enabled(s, step) && id in s.seen
    ensures id in Next(s, step).seen
  {
    hide Bared, GrantFor, Acquired, Released, HandedOver, AfterEnd, AfterRotation, RotationOf;
  }

  /**
   An id the loop had at any time is, while the loop lives, either still its id or in none of the four places,
   unless somebody else has taken it since.
   */
  lemma {:induction false} UsedIdsAreGivenUp(states: seq<State>, steps: seq<Step>, from_: nat, i: nat, task: TaskId)
    requires IsRun(states, steps) && |states| == |steps| + 1 && from_ <= i < |states|
    requires forall k | from_ <= k <= i :: task in states[k].r.controls
    requires states[i].r.controls[task] != states[from_].r.controls[task]
    requires forall k | from_ <= k < i :: !TakenByOthers(states[k], steps[k], states[from_].r.controls[task])
    ensures !Occurs(states[i].r, states[from_].r.controls[task]) && states[from_].r.controls[task] in states[i].seen
  {
    hide IsRun, Next, Enabled, Invariant, TakenByOthers, Occurs;
    InvariantAlways(states, steps, i - 1);
    var id := states[from_].r.controls[task];
    if states[i - 1].r.controls[task] == id {
      OnlyRotationChangesTheId(states[i - 1], steps[i - 1], task);
    } else {
      UsedIdsAreGivenUp(states, steps, from_, i - 1, task);
      OnlyOthersTake(states[i - 1], steps[i - 1], id);
    }
  }

  /**
   After the end of the thread none of the ids its loop ever had is left for it, the ones it moved away from
   included: each is in none of the four places, unless somebody else has taken it since, or it is the last one and
   its processes still run or the table could not be changed.
   */
  lemma NothingIsLeftBehind(states: seq<State>, steps: seq<Step>, from_: nat, i: nat, task: TaskId)
    requires IsRun(states, steps) && |states| == |steps| + 1 && from_ <= i < |steps|
    requires forall k | from_ <= k <= i :: task in states[k].r.controls
    requires steps[i].End? && steps[i].task == task
    ensures var id, last, r, n, how :=
              states[from_].r.controls[task], states[i].r.controls[task], states[i].r, states[i + 1].r, steps[i].how;
            || (exists k | from_ <= k < i :: TakenByOthers(states[k], steps[k], id))
            || !Occurs(n, id)
            || (&& id == last && id !in n.owners && id !in n.waiters && id in r.table
                && (!how.readable || !how.sound || (r.table[id].hasProcess && how.alive)))
  {
    EndFreesTheOwner(states, steps, i);
    hide Next, Enabled, TakenByOthers;
    var id := states[from_].r.controls[task];
    if id != states[i].r.controls[task] && forall k | from_ <= k < i :: !TakenByOthers(states[k], steps[k], id) {
      UsedIdsAreGivenUp(states, steps, from_, i, task);
      assert SameFor(states[i].r, states[i + 1].r, id);
    }
  }

  lemma {:induction false} NobodyOwnsIt(states: seq<State>, steps: seq<Step>, from_: nat, i: nat, id: AgentId)
    requires IsRun(states, steps) && from_ <= i < |states| && id in states[from_].seen && id !in states[from_].r.owners
    requires forall k | from_ <= k < i :: !TakenByOthers(states[k], steps[k], id)
    ensures id in states[i].seen && id !in states[i].r.owners
  {
    if from_ < i {
      hide IsRun, Next, Enabled, Invariant, TakenByOthers;
      InvariantAlways(states, steps, i - 1);
      NobodyOwnsIt(states, steps, from_, i - 1, id);
      OnlyOthersOwn(states[i - 1], steps[i - 1], id);
    }
  }

  /**
   What an ended loop left behind, because processes still ran or the table failed, stays nobody's however long it
   takes, and goes with the first release after the processes are gone, unless somebody else has taken the id.
   */
  lemma LeftoverIsReaped(states: seq<State>, steps: seq<Step>, end: nat, i: nat)
    requires IsRun(states, steps) && end < i < |steps| && steps[end].End?
    requires steps[end].task in states[end].r.controls
    requires steps[i] == AgentStopped(states[end].r.controls[steps[end].task], Releasing(true, false, true))
    requires forall k | end < k < i :: !TakenByOthers(states[k], steps[k], steps[i].agent)
    ensures !Occurs(states[i + 1].r, steps[i].agent)
  {
    var id := steps[i].agent;
    EndFreesTheOwner(states, steps, end);
    InvariantAlways(states, steps, end);
    InvariantAlways(states, steps, end + 1);
    OwnerWasSeen(states[end], steps[end]);
    NobodyOwnsIt(states, steps, end + 1, i, id);
    InvariantAlways(states, steps, i);
  }

  lemma OwnerWasSeen(s: State, step: Step)
    requires Invariant(s) && Enabled(s, step) && step.End?
    ensures s.r.controls[step.task] in Next(s, step).seen
  {
    OwnerOwns(s.r, step.task);
  }

  // ---- A lease lost at the beginning ----

  const GROUP_LEASE := Lease(Some(1), "local", "/p", false)
  const TO_RELEASE := Releasing(true, false, true)
  const ASKED := Asking(false, true, true)
  const CLAIMED := INITIAL.(launches := map[1 := Launch(5, false)], seen := {5})
  const HOLDING :=
    CLAIMED.(r := EMPTY.(leases := map[5 := GROUP_LEASE], table := map[5 := Row(GROUP_LEASE, false)]),
             launches := map[1 := Launch(5, true)])
  const ROBBED := CLAIMED.(launches := map[1 := Launch(5, true)], bare := {1})
  const LEASELESS :=
    INITIAL.(r := EMPTY.(owners := {5}, waiters := {5}, controls := map[1 := 5]), stages := map[1 := Beginning],
             bare := {1}, seen := {5})
  const ROBBING: seq<Step> :=
    [Claim(1, 5), AcquireForLaunch(1, GROUP_LEASE, ASKED), AgentStopped(5, TO_RELEASE), Register(1, TO_RELEASE),
     AcquireOther(0, 6, GROUP_LEASE, ASKED, false)]

  lemma LaunchIsGuarded()
    ensures Enabled(INITIAL, ROBBING[0]) && Next(INITIAL, ROBBING[0]) == CLAIMED
    ensures Enabled(CLAIMED, ROBBING[1]) && Next(CLAIMED, ROBBING[1]) == HOLDING
  {
  }

  lemma LaunchIsRobbed()
    ensures Enabled(HOLDING, ROBBING[2]) && Next(HOLDING, ROBBING[2]) == ROBBED
    ensures Enabled(ROBBED, ROBBING[3]) && Next(ROBBED, ROBBING[3]) == LEASELESS
  {
  }

  /**
   Such an early release happens: a loop that launches no worker, one for validation only, then runs without a lease
   while another writer of its group gets one for the same workspace.
   */
  lemma LeaselessLoopMeetsAWriter() returns (states: seq<State>, steps: seq<Step>)
    ensures IsRun(states, steps) && |steps| > 0
    ensures var s, step := states[|steps| - 1], steps[|steps| - 1];
            && 1 in s.r.controls && s.r.controls[1] !in s.r.leases
            && step.AcquireOther? && step.lease == GROUP_LEASE && GrantFor(s.r, step.agent, step.lease, step.asking) == Reserved
    ensures states[|steps|].r.controls == states[|steps| - 1].r.controls
  {
    LaunchIsGuarded();
    LaunchIsRobbed();
    steps, states := ROBBING, [INITIAL, CLAIMED, HOLDING, ROBBED, LEASELESS, Next(LEASELESS, ROBBING[4])];
    assert LEASELESS.r.leases == map[];
    assert Enabled(LEASELESS, ROBBING[4]);
    hide Next, Enabled;
  }
}

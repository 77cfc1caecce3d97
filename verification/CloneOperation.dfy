/**
 Daemon-owned clones.  Each operation has a status guarded by its lock; request
 handlers and one worker thread take turns at it, while anything may happen to
 the file system outside.

 Every function below is what one critical section does to an operation and the
 disk.  The class performs the same sections in place.
 */
module CloneOperation {
  import opened Wrappers

  type Path = string
  type Inode = nat
  type ProjectId = nat

  datatype Phase = Validating | Cloning | Checkout | Configuring | Completed | Failed | Cancelled

  predicate Terminal(phase: Phase) {
    phase in {Completed, Failed, Cancelled}
  }

  /** Where the worker thread of an operation is between two critical sections. */
  datatype Worker =
    | NoWorker
    | BeforeReservation
    | RunningGit
    | GitSucceeded
    | CheckoutFailed
    | BeforeVerification
    | Verifying
    | Verified(ok: bool)

  /** A directory reserved by exclusive creation: where, and which one. */
  datatype Reservation = Reservation(path: Path, inode: Inode)

  datatype Status = Status(
    phase: Phase,
    cancelled: bool,
    owned: Option<Reservation>,
    checkoutReady: bool,
    identity: Option<ProjectId>,
    registered: Option<ProjectId>,
    worker: Worker)

  /** Directories by path.  A path is redirected while one of its ancestors is a symbolic link. */
  datatype Disk = Disk(entries: map<Path, Inode>, redirected: set<Path>, used: set<Inode>)

  const STARTED := Status(Validating, false, None, false, None, None, BeforeReservation)

  predicate Owns(s: Status, disk: Disk) {
    && s.owned.Some?
    && s.owned.value.path in disk.entries
    && disk.entries[s.owned.value.path] == s.owned.value.inode
    && s.owned.value.path !in disk.redirected
  }

  // ---- Requests ----

  function OnCancel(s: Status): Status {
    if Terminal(s.phase) then s else s.(cancelled := true)
  }

  function OnRetry(s: Status): Status {
    if s.phase in {Failed, Cancelled} && s.checkoutReady then
      s.(cancelled := false, phase := Configuring, worker := BeforeVerification)
    else s
  }

  // ---- The worker ----

  /** Input was rejected before any directory was touched. */
  function OnInvalidInput(s: Status): Status {
    if s.worker == BeforeReservation then s.(worker := CheckoutFailed) else s
  }

  function OnReserve(s: Status, disk: Disk, path: Path, inode: Inode, permitted: bool): (r: (Status, Disk)) {
    if s.worker != BeforeReservation then (s, disk)
    else if s.cancelled || path in disk.entries || !permitted then (s.(worker := CheckoutFailed), disk)
    else
      (s.(owned := Some(Reservation(path, inode)), phase := Cloning, worker := RunningGit),
       disk.(entries := disk.entries[path := inode], used := disk.used + {inode}))
  }

  function OnProgress(s: Status, checkout: bool): Status {
    if s.worker in {RunningGit, Verifying} then s.(phase := if checkout then Checkout else Cloning) else s
  }

  function OnGitExit(s: Status, ok: bool): Status {
    if s.worker == RunningGit then s.(worker := if ok then GitSucceeded else CheckoutFailed)
    else if s.worker == Verifying then s.(worker := Verified(ok))
    else s
  }

  function OnCheckedOut(s: Status, disk: Disk, repositoryOk: bool, identity: ProjectId): Status {
    if s.worker != GitSucceeded then s
    else if !Owns(s, disk) || !repositoryOk then s.(worker := CheckoutFailed)
    else s.(checkoutReady := true, identity := Some(identity), worker := BeforeVerification)
  }

  /** Does the clean-up of a failed checkout remove its directory? */
  predicate Removes(s: Status, disk: Disk) {
    s.worker == CheckoutFailed && !s.checkoutReady && Owns(s, disk)
  }

  function OnCleanUp(s: Status, disk: Disk, removed: bool): (r: (Status, Disk)) {
    if s.worker != CheckoutFailed then (s, disk)
    else
      (s.(phase := if s.cancelled then Cancelled else Failed, worker := NoWorker),
       if Removes(s, disk) && removed then disk.(entries := disk.entries - {s.owned.value.path}) else disk)
  }

  function OnConfigure(s: Status): Status {
    if s.worker == BeforeVerification then s.(phase := Configuring, worker := Verifying) else s
  }

  /** Registration happens under the operation's lock, after the last look at `cancelled`. */
  function OnFinish(s: Status, disk: Disk, repositoryOk: bool, registrationOk: bool): Status {
    if !s.worker.Verified? || s.identity.None? then s
    else if s.cancelled then s.(phase := Cancelled, worker := NoWorker)
    else if Owns(s, disk) && repositoryOk && s.worker.ok && registrationOk then
      s.(phase := Completed, registered := s.identity, worker := NoWorker)
    else s.(phase := Failed, worker := NoWorker)
  }

  /** What holds of one operation at every moment. */
  ghost predicate Consistent(s: Status) {
    && (s.worker == NoWorker <==> Terminal(s.phase))
    && (s.phase == Cancelled ==> s.cancelled) && (s.phase in {Completed, Failed} ==> !s.cancelled)
    && (s.checkoutReady <==> s.identity.Some?)
    && (s.worker in {BeforeReservation, RunningGit, GitSucceeded, CheckoutFailed} ==> !s.checkoutReady)
    && (s.worker in {BeforeVerification, Verifying} || s.worker.Verified? ==> s.checkoutReady)
    && (s.worker in {RunningGit, GitSucceeded} ==> s.owned.Some?) && (s.checkoutReady ==> s.owned.Some?)
    && (s.registered.Some? <==> s.phase == Completed) && (s.registered.Some? ==> s.registered == s.identity)
    && (s.worker == BeforeReservation ==> s.owned.None?)
  }

  lemma RequestsKeepConsistent(s: Status)
    requires Consistent(s)
    ensures Consistent(OnCancel(s)) && Consistent(OnRetry(s))
    ensures OnRetry(s) != s ==> s.worker == NoWorker
  {
  }

  lemma CheckoutKeepsConsistent(s: Status, disk: Disk, path: Path, inode: Inode, ok: bool, identity: ProjectId)
    requires Consistent(s)
    ensures Consistent(OnInvalidInput(s)) && Consistent(OnReserve(s, disk, path, inode, ok).0)
    ensures Consistent(OnProgress(s, ok)) && Consistent(OnGitExit(s, ok))
    ensures Consistent(OnCheckedOut(s, disk, ok, identity)) && Consistent(OnCleanUp(s, disk, ok).0)
  {
  }

  lemma RegistrationKeepsConsistent(s: Status, disk: Disk, ok: bool, registrationOk: bool)
    requires Consistent(s)
    ensures Consistent(OnConfigure(s)) && Consistent(OnFinish(s, disk, ok, registrationOk))
  {
  }

  // ---- The same sections in place ----

  class FileSystem {
    var disk: Disk

    constructor (disk: Disk)
      ensures this.disk == disk
    {
      this.disk := disk;
    }
  }

  class Operation {
    var phase: Phase
    var cancelled: bool
    var owned: Option<Reservation>
    var checkoutReady: bool
    var project: Option<ProjectId>
    var registered: Option<ProjectId>
    var worker: Worker

    constructor ()
      ensures View() == STARTED && Valid()
    {
      phase, cancelled, owned, checkoutReady := Validating, false, None, false;
      project, registered, worker := None, None, BeforeReservation;
    }

    function View(): Status
      reads this
    {
      Status(phase, cancelled, owned, checkoutReady, project, registered, worker)
    }

    ghost predicate Valid()
      reads this
    {
      Consistent(View())
    }

    predicate OwnsDestination(fs: FileSystem)
      reads this, fs
      ensures OwnsDestination(fs) == Owns(View(), fs.disk)
    {
      && owned.Some?
      && owned.value.path in fs.disk.entries
      && fs.disk.entries[owned.value.path] == owned.value.inode
      && owned.value.path !in fs.disk.redirected
    }

    /** A final operation is left alone; any other is marked, and stays with its worker. */
    method CancelProjectClone()
      requires Valid()
      modifies this
      ensures View() == OnCancel(old(View())) && Valid()
      ensures cancelled <==> phase == Cancelled || worker != NoWorker
      ensures View() == old(View()).(cancelled := cancelled)
    {
      RequestsKeepConsistent(View());
      if !Terminal(phase) {
        cancelled := true;
      }
    }

    /** Never a second worker, never a completed operation again, and always the same checkout. */
    method RetryProjectCloneRegistration()
      requires Valid()
      modifies this
      ensures View() == OnRetry(old(View())) && Valid()
      ensures old(worker) != NoWorker || old(phase) == Completed || !old(checkoutReady) ==> View() == old(View())
      ensures checkoutReady == old(checkoutReady) && project == old(project) && owned == old(owned)
      ensures old(phase) in {Failed, Cancelled} && checkoutReady ==>
                !cancelled && phase == Configuring && worker == BeforeVerification && registered.None?
    {
      RequestsKeepConsistent(View());
      if phase in {Failed, Cancelled} && checkoutReady {
        cancelled := false;
        phase := Configuring;
        worker := BeforeVerification;
      }
    }

    /** Input that is rejected ends the round before anything is touched. */
    method RejectInput()
      requires Valid() && worker == BeforeReservation
      modifies this
      ensures View() == OnInvalidInput(old(View())) && Valid()
      ensures View() == old(View()).(worker := CheckoutFailed)
    {
      CheckoutKeepsConsistent(View(), Disk(map[], {}, {}), "", 0, true, 0);
      worker := CheckoutFailed;
    }

    /** What git reports while it runs is shown and nothing else. */
    method ShowProgress(checkout: bool)
      requires Valid() && worker in {RunningGit, Verifying}
      modifies this
      ensures View() == OnProgress(old(View()), checkout) && Valid()
      ensures View() == old(View()).(phase := if checkout then Checkout else Cloning)
    {
      CheckoutKeepsConsistent(View(), Disk(map[], {}, {}), "", 0, checkout, 0);
      phase := if checkout then Checkout else Cloning;
    }

    /** Git's answer: the clone goes on to its checkout or fails, the verification keeps it as its verdict. */
    method GitFinished(ok: bool)
      requires Valid() && worker in {RunningGit, Verifying}
      modifies this
      ensures View() == OnGitExit(old(View()), ok) && Valid()
      ensures View() == old(View()).(worker := if old(worker) == Verifying then Verified(ok) else if ok then GitSucceeded else CheckoutFailed)
    {
      CheckoutKeepsConsistent(View(), Disk(map[], {}, {}), "", 0, ok, 0);
      worker := if worker == Verifying then Verified(ok) else if ok then GitSucceeded else CheckoutFailed;
    }

    method BeginVerification()
      requires Valid() && worker == BeforeVerification
      modifies this
      ensures View() == OnConfigure(old(View())) && Valid()
      ensures View() == old(View()).(phase := Configuring, worker := Verifying)
    {
      RegistrationKeepsConsistent(View(), Disk(map[], {}, {}), true, true);
      phase := Configuring;
      worker := Verifying;
    }

    /** Whatever was there stays as it was; what is reserved was not there. */
    method ReserveDestination(fs: FileSystem, path: Path, inode: Inode, permitted: bool)
      requires Valid() && worker == BeforeReservation
      modifies this, fs
      ensures (View(), fs.disk) == OnReserve(old(View()), old(fs.disk), path, inode, permitted) && Valid()
      ensures forall p | p in old(fs.disk).entries :: p in fs.disk.entries && fs.disk.entries[p] == old(fs.disk).entries[p]
      ensures owned == if permitted && !cancelled && path !in old(fs.disk).entries then Some(Reservation(path, inode)) else None
      ensures owned.Some? ==> OwnsDestination(fs) || path in old(fs.disk).redirected
      ensures owned.Some? ==> worker == RunningGit && phase == Cloning && fs.disk.entries.Keys == old(fs.disk).entries.Keys + {path}
      ensures owned.None? ==> fs.disk == old(fs.disk) && worker == CheckoutFailed && phase == old(phase)
      ensures cancelled == old(cancelled)
    {
      CheckoutKeepsConsistent(View(), fs.disk, path, inode, permitted, 0);
      if cancelled || path in fs.disk.entries || !permitted {
        worker := CheckoutFailed;
        return;
      }
      fs.disk := fs.disk.(entries := fs.disk.entries[path := inode], used := fs.disk.used + {inode});
      owned := Some(Reservation(path, inode));
      phase := Cloning;
      worker := RunningGit;
    }

    /** A checkout is ready only in the directory that was reserved, still there. */
    method CheckoutFinished(fs: FileSystem, repositoryOk: bool, identity: ProjectId)
      requires Valid() && worker == GitSucceeded
      modifies this
      ensures View() == OnCheckedOut(old(View()), fs.disk, repositoryOk, identity) && Valid()
      ensures owned == old(owned) && (checkoutReady <==> repositoryOk && OwnsDestination(fs))
      ensures project == if checkoutReady then Some(identity) else None
      ensures worker == (if checkoutReady then BeforeVerification else CheckoutFailed)
      ensures phase == old(phase) && cancelled == old(cancelled)
    {
      CheckoutKeepsConsistent(View(), fs.disk, "", 0, repositoryOk, identity);
      if !OwnsDestination(fs) || !repositoryOk {
        worker := CheckoutFailed;
        return;
      }
      checkoutReady := true;
      project := Some(identity);
      worker := BeforeVerification;
    }

    /** The round ends, and the one directory that can disappear is the reserved one, still the same. */
    method CleanUpFailedCheckout(fs: FileSystem, removed: bool)
      requires Valid() && worker == CheckoutFailed
      modifies this, fs
      ensures (View(), fs.disk) == OnCleanUp(old(View()), old(fs.disk), removed) && Valid()
      ensures worker == NoWorker && phase == (if cancelled then Cancelled else Failed) && registered.None?
      ensures cancelled == old(cancelled) && owned == old(owned)
      ensures old(OwnsDestination(fs)) && removed ==> owned.value.path !in fs.disk.entries
      ensures fs.disk.entries.Keys <= old(fs.disk).entries.Keys
      ensures forall p | p in fs.disk.entries :: fs.disk.entries[p] == old(fs.disk).entries[p]
      ensures forall p | p in old(fs.disk).entries && p !in fs.disk.entries ::
                owned == Some(Reservation(p, old(fs.disk).entries[p])) && p !in old(fs.disk).redirected
    {
      CheckoutKeepsConsistent(View(), fs.disk, "", 0, removed, 0);
      if !checkoutReady && OwnsDestination(fs) && removed {
        fs.disk := fs.disk.(entries := fs.disk.entries - {owned.value.path});
      }
      phase := if cancelled then Cancelled else Failed;
      worker := NoWorker;
    }

    /**
     A cancel that landed before decides.  Otherwise the project is registered exactly if the verifying git run succeeded,
     the directory is still the reserved one, and nothing about its contents or the registration failed.
     */
    method FinishRegistration(fs: FileSystem, repositoryOk: bool, registrationOk: bool)
      requires Valid() && worker.Verified? && project.Some?
      modifies this
      ensures View() == OnFinish(old(View()), fs.disk, repositoryOk, registrationOk) && Valid()
      ensures Terminal(phase) && worker == NoWorker && cancelled == old(cancelled)
      ensures cancelled <==> phase == Cancelled
      ensures phase == Completed <==>
                !cancelled && old(worker) == Verified(true) && OwnsDestination(fs) && repositoryOk && registrationOk
      ensures registered == if phase == Completed then project else None
      ensures checkoutReady && project == old(project) && owned == old(owned)
    {
      RegistrationKeepsConsistent(View(), fs.disk, repositoryOk, registrationOk);
      var verified := worker.ok;
      worker := NoWorker;
      if cancelled {
        phase := Cancelled;
        return;
      }
      if !OwnsDestination(fs) || !repositoryOk || !verified || !registrationOk {
        phase := Failed;
      } else {
        phase := Completed;
        registered := project;
      }
    }
  }

  // ---- All operations together ----

  /** `identities` and `created` are history: who was given which project identity, and which directories were created exclusively. */
  datatype State = State(
    operations: map<nat, Status>,
    disk: Disk,
    identities: map<ProjectId, nat>,
    created: map<Inode, (nat, Path)>)

  const MAX_OPERATIONS: nat := 256

  ghost predicate Init(s: State) {
    s.operations == map[] && s.created == map[]
    && forall path | path in s.disk.entries :: s.disk.entries[path] in s.disk.used
  }

  datatype Step =
    | Start(id: nat)
    | Cancel(id: nat)
    | Retry(id: nat)
    | InvalidInput(id: nat)
    | Reserve(id: nat, path: Path, inode: Inode, permitted: bool)
    | Progress(id: nat, checkout: bool)
    | GitExit(id: nat, ok: bool)
    | CheckedOut(id: nat, ok: bool, identity: ProjectId)
    | CleanUp(id: nat, ok: bool)
    | Configure(id: nat)
    | Finish(id: nat, ok: bool, registrationOk: bool)
    | OutsideChange(disk: Disk)

  /** Outside programs move, replace and redirect directories freely; new ones get inodes never seen before. */
  predicate PossibleOutside(before: Disk, after: Disk) {
    && before.used <= after.used
    && (forall path | path in after.entries :: after.entries[path] in after.used)
    && (forall path | path in after.entries && after.entries[path] in before.used ::
          after.entries[path] in before.entries.Values)
  }

  predicate Enabled(s: State, step: Step) {
    match step
    case Start(id) => id !in s.operations && |s.operations| < MAX_OPERATIONS
    case OutsideChange(disk) => PossibleOutside(s.disk, disk)
    case Reserve(id, path, inode, permitted) => id in s.operations && inode !in s.disk.used
    case CheckedOut(id, ok, identity) => id in s.operations && identity !in s.identities
    case _ => step.id in s.operations
  }

  function Put(s: State, id: nat, status: Status): State {
    s.(operations := s.operations[id := status])
  }

  function Next(s: State, step: Step): State
    requires Enabled(s, step)
  {
    match step
    case Start(id) => Put(s, id, STARTED)
    case Cancel(id) => Put(s, id, OnCancel(s.operations[id]))
    case Retry(id) => Put(s, id, OnRetry(s.operations[id]))
    case InvalidInput(id) => Put(s, id, OnInvalidInput(s.operations[id]))
    case Reserve(id, path, inode, permitted) =>
      var (status, disk) := OnReserve(s.operations[id], s.disk, path, inode, permitted);
      var created := if disk != s.disk then s.created[inode := (id, path)] else s.created;
      Put(s, id, status).(disk := disk, created := created)
    case Progress(id, checkout) => Put(s, id, OnProgress(s.operations[id], checkout))
    case GitExit(id, ok) => Put(s, id, OnGitExit(s.operations[id], ok))
    case CheckedOut(id, ok, identity) =>
      Put(s, id, OnCheckedOut(s.operations[id], s.disk, ok, identity)).(identities := s.identities[identity := id])
    case CleanUp(id, ok) =>
      var (status, disk) := OnCleanUp(s.operations[id], s.disk, ok);
      Put(s, id, status).(disk := disk)
    case Configure(id) => Put(s, id, OnConfigure(s.operations[id]))
    case Finish(id, ok, registrationOk) => Put(s, id, OnFinish(s.operations[id], s.disk, ok, registrationOk))
    case OutsideChange(disk) => s.(disk := disk)
  }

  /** Every reservation was made by exclusive creation, by the operation that holds it. */
  ghost predicate OwnedByCreation(s: State) {
    forall id | id in s.operations && s.operations[id].owned.Some? ::
          var r := s.operations[id].owned.value; r.inode in s.created && s.created[r.inode] == (id, r.path)
  }

  ghost predicate InodesUsed(s: State) {
    && (forall inode | inode in s.created :: inode in s.disk.used)
    && (forall path | path in s.disk.entries :: s.disk.entries[path] in s.disk.used)
  }

  /** Every project identity was made for the operation that holds it. */
  ghost predicate IdentitiesRecorded(s: State) {
    forall id | id in s.operations && s.operations[id].identity.Some? ::
      var identity := s.operations[id].identity.value; identity in s.identities && s.identities[identity] == id
  }

  ghost predicate Invariant(s: State) {
    && (forall id | id in s.operations :: Consistent(s.operations[id]))
    && OwnedByCreation(s) && InodesUsed(s) && IdentitiesRecorded(s)
  }

  // ---- Each step keeps the invariant ----

  /** The operation a step is about; a change outside is about none. */
  predicate About(step: Step, id: nat) {
    !step.OutsideChange? && step.id == id
  }

  lemma StatusStaysConsistent(s: State, step: Step, id: nat)
    requires Invariant(s) && Enabled(s, step) && id in Next(s, step).operations
    ensures Consistent(Next(s, step).operations[id])
  {
    hide Consistent;
    StartedIsConsistent();
    if About(step, id) && !step.Start? {
      var status := s.operations[id];
      RequestsKeepConsistent(status);
      match step {
        case Reserve(_, path, inode, permitted) => CheckoutKeepsConsistent(status, s.disk, path, inode, permitted, 0);
        case CheckedOut(_, ok, identity) => CheckoutKeepsConsistent(status, s.disk, "", 0, ok, identity);
        case CleanUp(_, ok) => CheckoutKeepsConsistent(status, s.disk, "", 0, ok, 0);
        case Progress(_, checkout) => CheckoutKeepsConsistent(status, s.disk, "", 0, checkout, 0);
        case GitExit(_, ok) => CheckoutKeepsConsistent(status, s.disk, "", 0, ok, 0);
        case InvalidInput(_) => CheckoutKeepsConsistent(status, s.disk, "", 0, true, 0);
        case Configure(_) => RegistrationKeepsConsistent(status, s.disk, true, true);
        case Finish(_, ok, registrationOk) => RegistrationKeepsConsistent(status, s.disk, ok, registrationOk);
        case _ =>
      }
    } else {
      assert id in s.operations ==> Consistent(s.operations[id]);
    }
  }

  lemma StartedIsConsistent()
    ensures Consistent(STARTED)
  {
  }

  lemma OwnershipKept(s: State, step: Step)
    requires Invariant(s) && Enabled(s, step)
    ensures OwnedByCreation(Next(s, step))
  {
    hide InodesUsed, IdentitiesRecorded, Consistent;
    var n := Next(s, step);
    forall id | id in n.operations && n.operations[id].owned.Some?
      ensures n.operations[id].owned.value.inode in n.created
      ensures n.created[n.operations[id].owned.value.inode] == (id, n.operations[id].owned.value.path)
    {
      FreshInode(s, step);
      assert id in s.operations && s.operations[id].owned.Some? ==> s.operations[id].owned.value.inode in s.created;
    }
  }

  lemma FreshInode(s: State, step: Step)
    requires Invariant(s) && Enabled(s, step)
    ensures step.Reserve? ==> step.inode !in s.created
  {
  }

  lemma InodesKept(s: State, step: Step)
    requires Invariant(s) && Enabled(s, step)
    ensures InodesUsed(Next(s, step))
  {
    hide OwnedByCreation, IdentitiesRecorded, Consistent;
  }

  lemma IdentitiesKept(s: State, step: Step)
    requires Invariant(s) && Enabled(s, step)
    ensures IdentitiesRecorded(Next(s, step))
  {
    hide OwnedByCreation, InodesUsed, Consistent;
  }

  lemma StepKeepsInvariant(s: State, step: Step)
    requires Invariant(s) && Enabled(s, step)
    ensures Invariant(Next(s, step))
  {
    forall id | id in Next(s, step).operations ensures Consistent(Next(s, step).operations[id]) {
      StatusStaysConsistent(s, step, id);
    }
    OwnershipKept(s, step);
    InodesKept(s, step);
    IdentitiesKept(s, step);
  }

  // ---- Whole runs ----

  /** Any interleaving of requests, workers and outside changes, from an empty registry. */
  ghost predicate IsRun(states: seq<State>, steps: seq<Step>) {
    && |states| == |steps| + 1 && Init(states[0])
    && forall i | 0 <= i < |steps| :: Enabled(states[i], steps[i]) && states[i + 1] == Next(states[i], steps[i])
  }

  lemma {:induction false} InvariantAlways(states: seq<State>, steps: seq<Step>, i: nat)
    requires IsRun(states, steps) && i < |states|
    ensures Invariant(states[i])
  {
    if i > 0 {
      InvariantAlways(states, steps, i - 1);
      StepKeepsInvariant(states[i - 1], steps[i - 1]);
      assert states[i - 1 + 1] == Next(states[i - 1], steps[i - 1]);
    }
  }

  /** A worker exists exactly while the phase is not final, and a retry never starts one beside another. */
  lemma OneWorkerWhileRunning(states: seq<State>, steps: seq<Step>, i: nat, id: nat)
    requires IsRun(states, steps) && i < |states| && id in states[i].operations
    ensures states[i].operations[id].worker != NoWorker <==> !Terminal(states[i].operations[id].phase)
    ensures i < |steps| && steps[i] == Retry(id) && states[i + 1] != states[i] ==> states[i].operations[id].worker == NoWorker
  {
    InvariantAlways(states, steps, i);
    RequestsKeepConsistent(states[i].operations[id]);
    assert states[i].operations[id := states[i].operations[id]] == states[i].operations;
  }

  lemma {:induction false} CompletedIsFinal(states: seq<State>, steps: seq<Step>, i: nat, j: nat, id: nat)
    requires IsRun(states, steps) && i <= j < |states|
    requires id in states[i].operations && states[i].operations[id].phase == Completed
    ensures id in states[j].operations && states[j].operations[id] == states[i].operations[id]
    decreases j - i
  {
    hide Next, Invariant;
    if i < j {
      CompletedIsFinal(states, steps, i, j - 1, id);
      InvariantAlways(states, steps, j - 1);
      assert states[j - 1 + 1] == Next(states[j - 1], steps[j - 1]);
      CompletedStays(states[j - 1], steps[j - 1], id);
    }
  }

  lemma CompletedStays(s: State, step: Step, id: nat)
    requires Invariant(s) && Enabled(s, step) && id in s.operations && s.operations[id].phase == Completed
    ensures id in Next(s, step).operations && Next(s, step).operations[id] == s.operations[id]
  {
    assert Consistent(s.operations[id]);
  }

  lemma ReadyStays(s: State, step: Step, id: nat)
    requires Invariant(s) && Enabled(s, step) && id in s.operations && s.operations[id].checkoutReady
    ensures id in Next(s, step).operations && Next(s, step).operations[id].checkoutReady
    ensures Next(s, step).operations[id].identity == s.operations[id].identity
    ensures Next(s, step).operations[id].owned == s.operations[id].owned
  {
    assert Consistent(s.operations[id]);
  }

  lemma FailedCheckoutStays(s: State, step: Step, id: nat)
    requires Invariant(s) && Enabled(s, step) && id in s.operations
    requires Terminal(s.operations[id].phase) && !s.operations[id].checkoutReady
    ensures id in Next(s, step).operations && Next(s, step).operations[id] == s.operations[id]
  {
    assert Consistent(s.operations[id]);
  }

  lemma {:induction false} ReadyNeverReverts(states: seq<State>, steps: seq<Step>, i: nat, j: nat, id: nat)
    requires IsRun(states, steps) && i <= j < |states|
    requires id in states[i].operations && states[i].operations[id].checkoutReady
    ensures id in states[j].operations && states[j].operations[id].checkoutReady
    ensures states[j].operations[id].identity == states[i].operations[id].identity
    ensures states[j].operations[id].owned == states[i].operations[id].owned
    decreases j - i
  {
    hide Next, Invariant;
    if i < j {
      ReadyNeverReverts(states, steps, i, j - 1, id);
      InvariantAlways(states, steps, j - 1);
      assert states[j - 1 + 1] == Next(states[j - 1], steps[j - 1]);
      ReadyStays(states[j - 1], steps[j - 1], id);
    }
  }

  lemma CancelledPersists(s: State, step: Step, id: nat)
    requires Invariant(s) && Enabled(s, step) && id in s.operations
    requires s.operations[id].cancelled && !Terminal(s.operations[id].phase)
    ensures Next(s, step).operations[id].cancelled
  {
  }

  // ---- What success rests on ----

  lemma Reached(states: seq<State>, steps: seq<Step>, i: nat)
    requires IsRun(states, steps) && i < |steps|
    ensures Invariant(states[i]) && Enabled(states[i], steps[i]) && states[i + 1] == Next(states[i], steps[i])
  {
    InvariantAlways(states, steps, i);
  }

  predicate IsAt(s: State, id: nat, worker: Worker) {
    id in s.operations && s.operations[id].worker == worker
  }

  /** The moment an operation completes. */
  predicate FinishedWell(s: State, step: Step, id: nat) {
    && step == Finish(id, true, true)
    && IsAt(s, id, Verified(true)) && !s.operations[id].cancelled && Owns(s.operations[id], s.disk)
  }

  lemma CompletesBy(s: State, step: Step, id: nat)
    requires Invariant(s) && Enabled(s, step) && id in Next(s, step).operations
    requires id in s.operations ==> s.operations[id].phase != Completed
    ensures Next(s, step).operations[id].phase == Completed <==> FinishedWell(s, step, id)
  {
    assert id in s.operations ==> Consistent(s.operations[id]);
  }

  /** Git's own answer is the only way to the worker's next point. */
  lemma ExitDecides(s: State, step: Step, id: nat, ok: bool)
    requires Enabled(s, step)
    ensures IsAt(Next(s, step), id, Verified(ok)) ==>
              IsAt(s, id, Verified(ok)) || (IsAt(s, id, Verifying) && step == GitExit(id, ok))
    ensures IsAt(Next(s, step), id, GitSucceeded) ==>
              IsAt(s, id, GitSucceeded) || (IsAt(s, id, RunningGit) && step == GitExit(id, true))
  {
  }

  lemma {:induction false} VerifiedByItsRun(states: seq<State>, steps: seq<Step>, i: nat, id: nat, ok: bool) returns (v: nat)
    requires IsRun(states, steps) && i < |states| && IsAt(states[i], id, Verified(ok))
    ensures v < i && steps[v] == GitExit(id, ok) && IsAt(states[v], id, Verifying)
    ensures forall l | v < l <= i :: IsAt(states[l], id, Verified(ok))
  {
    hide Next;
    Reached(states, steps, i - 1);
    ExitDecides(states[i - 1], steps[i - 1], id, ok);
    if IsAt(states[i - 1], id, Verified(ok)) {
      v := VerifiedByItsRun(states, steps, i - 1, id, ok);
    } else {
      v := i - 1;
    }
  }

  lemma {:induction false} SucceededByItsRun(states: seq<State>, steps: seq<Step>, i: nat, id: nat) returns (g: nat)
    requires IsRun(states, steps) && i < |states| && IsAt(states[i], id, GitSucceeded)
    ensures g < i && steps[g] == GitExit(id, true) && IsAt(states[g], id, RunningGit)
    ensures forall l | g < l <= i :: IsAt(states[l], id, GitSucceeded)
  {
    hide Next;
    Reached(states, steps, i - 1);
    ExitDecides(states[i - 1], steps[i - 1], id, true);
    if IsAt(states[i - 1], id, GitSucceeded) {
      g := SucceededByItsRun(states, steps, i - 1, id);
    } else {
      g := i - 1;
    }
  }

  /**
   Whatever is completed was finished, uncancelled and in its own directory, right after a verifying git run that
   succeeded; its last verification is the one that counts.
   */
  lemma {:induction false} CompletedWasVerified(states: seq<State>, steps: seq<Step>, i: nat, id: nat) returns (v: nat, f: nat)
    requires IsRun(states, steps) && i < |states|
    requires id in states[i].operations && states[i].operations[id].phase == Completed
    ensures v < f < i && FinishedWell(states[f], steps[f], id)
    ensures steps[v] == GitExit(id, true) && IsAt(states[v], id, Verifying)
    ensures forall l | v < l <= f :: IsAt(states[l], id, Verified(true))
  {
    hide Next;
    Reached(states, steps, i - 1);
    var before := states[i - 1];
    if id in before.operations && before.operations[id].phase == Completed {
      v, f := CompletedWasVerified(states, steps, i - 1, id);
    } else {
      CompletesBy(before, steps[i - 1], id);
      f := i - 1;
      v := VerifiedByItsRun(states, steps, f, id, true);
    }
  }

  lemma ReadyBy(s: State, step: Step, id: nat)
    requires Enabled(s, step) && id in Next(s, step).operations && Next(s, step).operations[id].checkoutReady
    requires id in s.operations ==> !s.operations[id].checkoutReady
    ensures step.CheckedOut? && step.id == id && step.ok && IsAt(s, id, GitSucceeded) && Owns(s.operations[id], s.disk)
    ensures Next(s, step).operations[id].identity == Some(step.identity)
  {
  }

  /** A checkout is ready only after git succeeded, in the directory that was reserved, and under the identity made then. */
  lemma {:induction false} ReadyMeansGitSucceeded(states: seq<State>, steps: seq<Step>, i: nat, id: nat) returns (g: nat, c: nat)
    requires IsRun(states, steps) && i < |states| && id in states[i].operations && states[i].operations[id].checkoutReady
    ensures g < c < i && steps[g] == GitExit(id, true) && IsAt(states[g], id, RunningGit)
    ensures forall l | g < l <= c :: IsAt(states[l], id, GitSucceeded)
    ensures steps[c].CheckedOut? && steps[c].id == id && steps[c].ok && Owns(states[c].operations[id], states[c].disk)
    ensures states[i].operations[id].identity == Some(steps[c].identity)
  {
    hide Next;
    Reached(states, steps, i - 1);
    var before := states[i - 1];
    if id in before.operations && before.operations[id].checkoutReady {
      g, c := ReadyMeansGitSucceeded(states, steps, i - 1, id);
      ReadyStays(before, steps[i - 1], id);
    } else {
      ReadyBy(before, steps[i - 1], id);
      c := i - 1;
      g := SucceededByItsRun(states, steps, c, id);
    }
  }

  /** One more step, if it can be taken. */
  function Then(s: Option<State>, step: Step): Option<State> {
    if s.Some? && Enabled(s.value, step) then Some(Next(s.value, step)) else None
  }

  /** A new operation, up to git's answer about its clone. */
  function Cloned(s: State, id: nat, path: Path, inode: Inode, ok: bool): Option<State> {
    Then(Then(Then(Some(s), Start(id)), Reserve(id, path, inode, true)), GitExit(id, ok))
  }

  lemma ClonedMeans(s: State, id: nat, path: Path, inode: Inode, ok: bool)
    requires id !in s.operations && |s.operations| < MAX_OPERATIONS && path !in s.disk.entries && inode !in s.disk.used
    ensures var status := Status(Cloning, false, Some(Reservation(path, inode)), false, None, None,
                                 if ok then GitSucceeded else CheckoutFailed);
            Cloned(s, id, path, inode, ok)
            == Some(s.(operations := s.operations[id := status], created := s.created[inode := (id, path)],
                       disk := s.disk.(entries := s.disk.entries[path := inode], used := s.disk.used + {inode})))
  {
    var started := Next(s, Start(id));
    var reserved := Next(started, Reserve(id, path, inode, true));
    assert inode in reserved.disk.used;
    assert reserved.operations == s.operations[id := reserved.operations[id]];
    assert Next(reserved, GitExit(id, ok)).operations == s.operations[id := Next(reserved, GitExit(id, ok)).operations[id]];
  }

  /** Whoever is not interfered with registers exactly if the verifying git run succeeds, also after a retry. */
  lemma UndisturbedRound(s: State, id: nat, ok: bool)
    requires IsAt(s, id, BeforeVerification) && s.operations[id].identity.Some? && !s.operations[id].cancelled
    requires Owns(s.operations[id], s.disk) && s.operations[id].registered.None?
    ensures var status := s.operations[id].(worker := NoWorker, phase := if ok then Completed else Failed,
                                            registered := if ok then s.operations[id].identity else None);
            Then(Then(Then(Some(s), Configure(id)), GitExit(id, ok)), Finish(id, true, true))
            == Some(s.(operations := s.operations[id := status]))
  {
    var n := Next(Next(Next(s, Configure(id)), GitExit(id, ok)), Finish(id, true, true));
    assert n.operations == s.operations[id := n.operations[id]];
  }

  /** Both git runs succeeding and nobody interfering, a clone completes in a directory made for it. */
  lemma UndisturbedCloneCompletes(s: State, id: nat, path: Path, inode: Inode, identity: ProjectId)
    requires id !in s.operations && |s.operations| < MAX_OPERATIONS && path !in s.disk.entries && path !in s.disk.redirected
    requires inode !in s.disk.used && identity !in s.identities
    ensures var ready := Then(Cloned(s, id, path, inode, true), CheckedOut(id, true, identity));
            var n := Then(Then(Then(ready, Configure(id)), GitExit(id, true)), Finish(id, true, true));
            && n.Some? && n.value.disk.entries == s.disk.entries[path := inode]
            && id in n.value.operations && n.value.operations == s.operations[id := n.value.operations[id]]
            && n.value.operations[id].phase == Completed && n.value.operations[id].registered == Some(identity)
  {
    ClonedMeans(s, id, path, inode, true);
    hide Cloned;
    var ready := Then(Cloned(s, id, path, inode, true), CheckedOut(id, true, identity)).value;
    UndisturbedRound(ready, id, true);
    hide Next;
    var n := Then(Then(Then(Some(ready), Configure(id)), GitExit(id, true)), Finish(id, true, true)).value;
    assert n.operations == s.operations[id := n.operations[id]];
  }

  /** A clone whose git run fails ends failed, and its directory is gone again. */
  lemma FailedCloneLeavesNothing(s: State, id: nat, path: Path, inode: Inode)
    requires id !in s.operations && |s.operations| < MAX_OPERATIONS && path !in s.disk.entries && path !in s.disk.redirected
    requires inode !in s.disk.used
    ensures var n := Then(Cloned(s, id, path, inode, false), CleanUp(id, true));
            && n.Some? && n.value.disk.entries == s.disk.entries
            && id in n.value.operations && n.value.operations == s.operations[id := n.value.operations[id]]
            && n.value.operations[id].phase == Failed && !n.value.operations[id].checkoutReady
  {
    ClonedMeans(s, id, path, inode, false);
    hide Cloned;
  }

  /** Once a cancel has landed, the round can only end cancelled, with nothing registered. */
  lemma {:induction false} CancelDecidesTheRound(states: seq<State>, steps: seq<Step>, i: nat, j: nat, id: nat)
    requires IsRun(states, steps) && i < j < |states|
    requires id in states[i].operations && steps[i] == Cancel(id)
    requires forall k | i <= k < j :: id in states[k].operations && !Terminal(states[k].operations[id].phase)
    ensures id in states[j].operations && states[j].operations[id].cancelled
    ensures Terminal(states[j].operations[id].phase) ==> states[j].operations[id].phase == Cancelled
    ensures states[j].operations[id].registered.None?
    decreases j - i
  {
    assert states[i + 1] == Next(states[i], steps[i]);
    if i + 1 < j {
      CancelDecidesTheRound(states, steps, i, j - 1, id);
      InvariantAlways(states, steps, j - 1);
      CancelledPersists(states[j - 1], steps[j - 1], id);
      assert states[j - 1 + 1] == Next(states[j - 1], steps[j - 1]);
    }
    InvariantAlways(states, steps, j);
    assert Consistent(states[j].operations[id]);
  }

  lemma CreatedByReserving(s: State, step: Step, inode: Inode)
    requires Enabled(s, step) && inode in Next(s, step).created
    requires !(inode in s.created && s.created[inode] == Next(s, step).created[inode])
    ensures step.Reserve? && step.inode == inode && Next(s, step).created[inode] == (step.id, step.path)
    ensures step.path !in s.disk.entries && inode !in s.disk.used
  {
  }

  lemma {:induction false} CreationWasExclusive(states: seq<State>, steps: seq<Step>, i: nat, inode: Inode) returns (k: nat)
    requires IsRun(states, steps) && i < |states| && inode in states[i].created
    ensures k < i && steps[k].Reserve? && steps[k].inode == inode
    ensures (steps[k].id, steps[k].path) == states[i].created[inode]
    ensures states[i].created[inode].1 !in states[k].disk.entries && inode !in states[k].disk.used
  {
    var before, step := states[i - 1], steps[i - 1];
    assert states[i - 1 + 1] == Next(before, step);
    hide Next;
    if inode in before.created && before.created[inode] == states[i].created[inode] {
      k := CreationWasExclusive(states, steps, i - 1, inode);
    } else {
      CreatedByReserving(before, step, inode);
      k := i - 1;
    }
  }

  lemma {:induction false} NotReadyEarlier(states: seq<State>, steps: seq<Step>, i: nat, j: nat, id: nat)
    requires IsRun(states, steps) && i <= j < |states|
    requires id in states[j].operations && !states[j].operations[id].checkoutReady
    ensures id in states[i].operations ==> !states[i].operations[id].checkoutReady
  {
    if id in states[i].operations && states[i].operations[id].checkoutReady {
      ReadyNeverReverts(states, steps, i, j, id);
    }
  }

  lemma {:induction false} FailedCheckoutIsNeverReady(states: seq<State>, steps: seq<Step>, i: nat, j: nat, id: nat)
    requires IsRun(states, steps) && i <= j < |states|
    requires id in states[i].operations && Terminal(states[i].operations[id].phase) && !states[i].operations[id].checkoutReady
    ensures id in states[j].operations && !states[j].operations[id].checkoutReady && Terminal(states[j].operations[id].phase)
    decreases j - i
  {
    hide Next, Invariant;
    if i < j {
      FailedCheckoutIsNeverReady(states, steps, i, j - 1, id);
      InvariantAlways(states, steps, j - 1);
      assert states[j - 1 + 1] == Next(states[j - 1], steps[j - 1]);
      FailedCheckoutStays(states[j - 1], steps[j - 1], id);
    }
  }

  /**
   The only directory the daemon takes away is one that the same operation made
   by exclusive creation, still in its place, whose checkout never succeeds.
   */
  lemma OnlyOwnDirectoryIsRemoved(states: seq<State>, steps: seq<Step>, m: nat) returns (at: Reservation, k: nat)
    requires IsRun(states, steps) && m < |steps| && steps[m].CleanUp? && states[m + 1].disk != states[m].disk
    ensures k < m && steps[k].Reserve? && steps[k].id == steps[m].id && Reservation(steps[k].path, steps[k].inode) == at
    ensures at.path !in states[k].disk.entries && at.inode !in states[k].disk.used
    ensures at.path in states[m].disk.entries && states[m].disk.entries[at.path] == at.inode && at.path !in states[m].disk.redirected
    ensures states[m + 1].disk == states[m].disk.(entries := states[m].disk.entries - {at.path})
    ensures forall j | 0 <= j < |states| && steps[m].id in states[j].operations :: !states[j].operations[steps[m].id].checkoutReady
  {
    var id := steps[m].id;
    InvariantAlways(states, steps, m);
    InvariantAlways(states, steps, m + 1);
    at := states[m].operations[id].owned.value;
    k := CreationWasExclusive(states, steps, m, at.inode);
    assert Consistent(states[m + 1].operations[id]);
    forall j | 0 <= j < |states| && id in states[j].operations ensures !states[j].operations[id].checkoutReady {
      if j <= m + 1 {
        NotReadyEarlier(states, steps, j, m + 1, id);
      } else {
        FailedCheckoutIsNeverReady(states, steps, m + 1, j, id);
      }
    }
  }

  /** A directory that the daemon did not make, or whose checkout is ready. */
  ghost predicate Protected(s: State, path: Path) {
    && path in s.disk.entries
    && (s.disk.entries[path] in s.created ==>
          var id := s.created[s.disk.entries[path]].0; id in s.operations && s.operations[id].checkoutReady)
  }

  lemma ProtectedStays(s: State, step: Step, path: Path)
    requires Invariant(s) && Enabled(s, step) && Protected(s, path) && !step.OutsideChange?
    ensures Protected(Next(s, step), path) && Next(s, step).disk.entries[path] == s.disk.entries[path]
  {
    var inode := s.disk.entries[path];
    assert inode in s.disk.used;
    if inode in s.created {
      ReadyStays(s, step, s.created[inode].0);
    }
    if step.CleanUp? && Removes(s.operations[step.id], s.disk) {
      assert s.operations[step.id].owned.value.inode in s.created;
    }
    hide Consistent, IdentitiesRecorded;
  }

  /**
   Whatever the operations do, no directory that the daemon did not make itself, and none with a ready checkout,
   disappears or changes; only outside programs can do that.
   */
  lemma {:induction false} OtherDirectoriesAreSafe(states: seq<State>, steps: seq<Step>, i: nat, j: nat, path: Path)
    requires IsRun(states, steps) && i <= j < |states| && Protected(states[i], path)
    requires forall k | i <= k < j :: !steps[k].OutsideChange?
    ensures Protected(states[j], path) && states[j].disk.entries[path] == states[i].disk.entries[path]
    decreases j - i
  {
    hide Next, Invariant, Protected;
    if i < j {
      OtherDirectoriesAreSafe(states, steps, i, j - 1, path);
      InvariantAlways(states, steps, j - 1);
      assert states[j - 1 + 1] == Next(states[j - 1], steps[j - 1]);
      ProtectedStays(states[j - 1], steps[j - 1], path);
    }
    ProtectedIsThere(states[j], path);
    ProtectedIsThere(states[i], path);
  }

  lemma ProtectedIsThere(s: State, path: Path)
    requires Protected(s, path)
    ensures path in s.disk.entries
  {
  }

  /** Two operations never register the same project identity. */
  lemma RegistrationsAreDistinct(states: seq<State>, steps: seq<Step>, i: nat, a: nat, b: nat)
    requires IsRun(states, steps) && i < |states| && a != b
    requires a in states[i].operations && b in states[i].operations
    requires states[i].operations[a].registered.Some? && states[i].operations[b].registered.Some?
    ensures states[i].operations[a].registered != states[i].operations[b].registered
  {
    InvariantAlways(states, steps, i);
    assert Consistent(states[i].operations[a]) && Consistent(states[i].operations[b]);
  }
}

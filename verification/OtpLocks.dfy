/** otp_coordination.go: the reference-counted account semaphores that serialize the
    OTP-consuming logins of one process.

    `Table` is the shared state. Each function on it is one critical section of the mutex or
    one channel operation; `OtpCoordination` is the mutable object, proved against them.
    `State` adds the calling threads, so a run interleaves any number of acquisitions,
    cancellations and releases. `LockId` names a lock object, as its
    address does. */
module OtpLocks {
  import opened Prelude

  type Identity = string
  type Tid = nat
  type LockId = nat

  /** `tokens` is the number of values buffered in the semaphore channel of capacity one. */
  datatype Lock = Lock(tokens: nat, users: nat)

  datatype Table = Table(locks: map<Identity, LockId>, heap: map<LockId, Lock>)

  // ----- critical sections -----

  /** The lock a registration uses: the one in the map, or else the new one. */
  function LockFor(s: Table, id: Identity, spare: LockId): LockId {
    if id in s.locks then s.locks[id] else spare
  }

  function Register(s: Table, id: Identity, spare: LockId): Table
    requires id in s.locks ==> s.locks[id] in s.heap
  {
    if id in s.locks then
      var l := s.locks[id];
      s.(heap := s.heap[l := s.heap[l].(users := s.heap[l].users + 1)])
    else
      Table(s.locks[id := spare], s.heap[spare := Lock(1, 1)])
  }

  function Deregister(s: Table, id: Identity, l: LockId): Table
    requires l in s.heap && s.heap[l].users > 0
  {
    var left := s.heap[l].users - 1;
    Table(if left == 0 then s.locks - {id} else s.locks, s.heap[l := s.heap[l].(users := left)])
  }

  function Take(s: Table, l: LockId): Table
    requires l in s.heap && s.heap[l].tokens > 0
  {
    s.(heap := s.heap[l := s.heap[l].(tokens := s.heap[l].tokens - 1)])
  }

  function Give(s: Table, l: LockId): Table
    requires l in s.heap
  {
    s.(heap := s.heap[l := s.heap[l].(tokens := s.heap[l].tokens + 1)])
  }

  // ----- threads -----

  /** Where a caller of acquireOTPAccount stands. `Taken` has received the token and not yet
      re-checked its context; `GivingBack` is about to send the token back; `Leaving` is about
      to enter the section that decrements `users`; `Done` has left for good. */
  datatype Pc = Waiting | Taken | Holding | GivingBack | Leaving | Done

  predicate Registered(pc: Pc) {
    !pc.Done?
  }

  predicate HasToken(pc: Pc) {
    pc.Taken? || pc.Holding? || pc.GivingBack?
  }

  datatype Thread = Thread(id: Identity, lock: LockId, pc: Pc)

  datatype State = State(table: Table, threads: map<Tid, Thread>)

  /** `Release` covers the first call of the returned closure; `ReleaseAgain` any later one. */
  datatype Step =
    | Enter(t: Tid, id: Identity, spare: LockId)
    | Receive(t: Tid)
    | CancelWaiting(t: Tid)
    | CancelTaken(t: Tid)
    | Return(t: Tid)
    | Release(t: Tid)
    | Send(t: Tid)
    | Leave(t: Tid)
    | ReleaseAgain(t: Tid)

  function Goto(s: State, t: Tid, pc: Pc): State
    requires t in s.threads
  {
    s.(threads := s.threads[t := s.threads[t].(pc := pc)])
  }

  predicate At(s: State, t: Tid, pc: Pc) {
    t in s.threads && s.threads[t].pc == pc
  }

  /** A lock object is only ever reached through a thread that uses it. */
  predicate Enabled(s: State, step: Step) {
    match step
    case Enter(t, id, spare) =>
      t !in s.threads && spare !in s.table.heap && (id in s.table.locks ==> s.table.locks[id] in s.table.heap)
    case Receive(t) =>
      At(s, t, Waiting) && s.threads[t].lock in s.table.heap && s.table.heap[s.threads[t].lock].tokens > 0
    case CancelWaiting(t) => At(s, t, Waiting)
    case CancelTaken(t) => At(s, t, Taken)
    case Return(t) => At(s, t, Taken)
    case Release(t) => At(s, t, Holding)
    case Send(t) => At(s, t, GivingBack) && s.threads[t].lock in s.table.heap
    case Leave(t) =>
      At(s, t, Leaving) && s.threads[t].lock in s.table.heap && s.table.heap[s.threads[t].lock].users > 0
    case ReleaseAgain(t) => At(s, t, Done)
  }

  function Apply(s: State, step: Step): State
    requires Enabled(s, step)
  {
    match step
    case Enter(t, id, spare) =>
      State(Register(s.table, id, spare), s.threads[t := Thread(id, LockFor(s.table, id, spare), Waiting)])
    case Receive(t) => Goto(s.(table := Take(s.table, s.threads[t].lock)), t, Taken)
    case CancelWaiting(t) => Goto(s, t, Leaving)
    case CancelTaken(t) => Goto(s, t, GivingBack)
    case Return(t) => Goto(s, t, Holding)
    case Release(t) => Goto(s, t, GivingBack)
    case Send(t) => Goto(s.(table := Give(s.table, s.threads[t].lock)), t, Leaving)
    case Leave(t) => Goto(s.(table := Deregister(s.table, s.threads[t].id, s.threads[t].lock)), t, Done)
    case ReleaseAgain(t) => s
  }

  /** A run starts with empty maps and takes enabled steps only. */
  ghost predicate IsRun(run: seq<State>, steps: seq<Step>) {
    && |run| == |steps| + 1
    && run[0] == State(Table(map[], map[]), map[])
    && forall i | 0 <= i < |steps| :: Enabled(run[i], steps[i]) && run[i + 1] == Apply(run[i], steps[i])
  }

  // ----- the invariant -----

  ghost predicate Uses(s: State, l: LockId, t: Tid) {
    t in s.threads && s.threads[t].lock == l && Registered(s.threads[t].pc)
  }

  ghost predicate Holds(s: State, l: LockId, t: Tid) {
    t in s.threads && s.threads[t].lock == l && HasToken(s.threads[t].pc)
  }

  ghost function Users(s: State, l: LockId): set<Tid> {
    set t | t in s.threads && Uses(s, l, t)
  }

  ghost function Holders(s: State, l: LockId): set<Tid> {
    set t | t in s.threads && Holds(s, l, t)
  }

  /** Every registered thread uses the lock its identity maps to. */
  ghost predicate Reached(s: State) {
    forall t | t in s.threads && Registered(s.threads[t].pc) ::
      s.threads[t].id in s.table.locks && s.table.locks[s.threads[t].id] == s.threads[t].lock
  }

  ghost predicate Mapped(s: State) {
    && (forall id | id in s.table.locks ::
          s.table.locks[id] in s.table.heap && s.table.heap[s.table.locks[id]].users > 0)
    && (forall id, id' | id in s.table.locks && id' in s.table.locks && s.table.locks[id] == s.table.locks[id'] ::
          id == id')
  }

  /** `users` counts the threads registered on the lock; its token is either in the channel
      or with exactly one thread. */
  ghost predicate LockCounted(s: State, l: LockId)
    requires l in s.table.heap
  {
    && s.table.heap[l].users == |Users(s, l)|
    && s.table.heap[l].tokens + |Holders(s, l)| == 1
  }

  ghost predicate Counted(s: State) {
    && (forall t | t in s.threads :: s.threads[t].lock in s.table.heap)
    && (forall l | l in s.table.heap :: LockCounted(s, l))
  }

  ghost predicate Inv(s: State) {
    Reached(s) && Mapped(s) && Counted(s)
  }

  function One(b: bool): int {
    if b then 1 else 0
  }

  lemma SameBut<T>(a: set<T>, b: set<T>, t: T)
    requires a - {t} == b - {t}
    ensures |b| - One(t in b) == |a| - One(t in a)
  {
    assert |a - {t}| == |a| - One(t in a);
    assert |b - {t}| == |b| - One(t in b);
  }

  /** How the two thread sets of a lock differ between states that agree on every other thread. */
  lemma Differ(s: State, s': State, t: Tid, l: LockId)
    requires forall u | u != t :: Uses(s', l, u) <==> Uses(s, l, u)
    requires forall u | u != t :: Holds(s', l, u) <==> Holds(s, l, u)
    ensures |Users(s', l)| - One(Uses(s', l, t)) == |Users(s, l)| - One(Uses(s, l, t))
    ensures |Holders(s', l)| - One(Holds(s', l, t)) == |Holders(s, l)| - One(Holds(s, l, t))
  {
    SameBut(Users(s, l), Users(s', l), t);
    SameBut(Holders(s, l), Holders(s', l), t);
  }

  /** A step of thread `t` that changes only its own lock's counters, in the way its own
      change of place demands, keeps every count right. */
  lemma MoveKeepsCounted(s: State, t: Tid, pc: Pc, table: Table)
    requires Counted(s) && t in s.threads && s.threads[t].lock in table.heap
    requires var was := s.threads[t]; var l := was.lock;
             && table.heap == s.table.heap[l := table.heap[l]]
             && table.heap[l].tokens + One(HasToken(pc)) == s.table.heap[l].tokens + One(HasToken(was.pc))
             && table.heap[l].users - One(Registered(pc)) == s.table.heap[l].users - One(Registered(was.pc))
    ensures Counted(Goto(s.(table := table), t, pc))
  {
    var s' := Goto(s.(table := table), t, pc);
    forall l | l in s'.table.heap
      ensures LockCounted(s', l)
    {
      assert LockCounted(s, l);
      Differ(s, s', t, l);
    }
  }

  lemma MoveKeepsInv(s: State, t: Tid, pc: Pc, table: Table)
    requires Inv(s) && t in s.threads && s.threads[t].lock in table.heap
    requires Registered(pc) && Registered(s.threads[t].pc) && table.locks == s.table.locks
    requires var l := s.threads[t].lock;
             && table.heap == s.table.heap[l := table.heap[l]]
             && table.heap[l].tokens + One(HasToken(pc)) == s.table.heap[l].tokens + One(HasToken(s.threads[t].pc))
             && table.heap[l].users == s.table.heap[l].users
    ensures Inv(Goto(s.(table := table), t, pc))
  {
    MoveKeepsCounted(s, t, pc, table);
  }

  lemma EnterKeepsCounted(s: State, t: Tid, id: Identity, spare: LockId)
    requires Inv(s) && Enabled(s, Enter(t, id, spare))
    ensures Counted(Apply(s, Enter(t, id, spare)))
  {
    var s' := Apply(s, Enter(t, id, spare));
    forall l | l in s'.table.heap
      ensures LockCounted(s', l)
    {
      Differ(s, s', t, l);
      if l in s.table.heap {
        assert LockCounted(s, l);
      } else {
        assert Users(s, l) == {} && Holders(s, l) == {};
      }
    }
  }

  lemma EnterKeepsMapped(s: State, t: Tid, id: Identity, spare: LockId)
    requires Mapped(s) && Enabled(s, Enter(t, id, spare))
    ensures Mapped(Apply(s, Enter(t, id, spare)))
  {
  }

  lemma EnterKeepsReached(s: State, t: Tid, id: Identity, spare: LockId)
    requires Reached(s) && Enabled(s, Enter(t, id, spare))
    ensures Reached(Apply(s, Enter(t, id, spare)))
  {
  }

  /** The last user may delete the map entry: no registered thread still needs it. */
  lemma LeaveKeepsReached(s: State, t: Tid, u: Tid)
    requires Inv(s) && Enabled(s, Leave(t)) && u != t && u in s.threads && Registered(s.threads[u].pc)
    ensures var s' := Apply(s, Leave(t));
            s.threads[u].id in s'.table.locks && s'.table.locks[s.threads[u].id] == s.threads[u].lock
  {
    if s.threads[u].id == s.threads[t].id {
      var l := s.threads[t].lock;
      assert LockCounted(s, l);
      Subset({t, u}, Users(s, l));
    }
  }

  /** Only the entry of a lock nobody uses any more disappears. */
  lemma LeaveKeepsMapped(s: State, t: Tid)
    requires Inv(s) && Enabled(s, Leave(t))
    ensures Mapped(Apply(s, Leave(t)))
  {
  }

  lemma LeaveKeepsInv(s: State, t: Tid)
    requires Inv(s) && Enabled(s, Leave(t))
    ensures Inv(Apply(s, Leave(t)))
  {
    var s' := Apply(s, Leave(t));
    MoveKeepsCounted(s, t, Done, s'.table);
    LeaveKeepsMapped(s, t);
    forall u | u in s'.threads && Registered(s'.threads[u].pc)
      ensures s'.threads[u].id in s'.table.locks && s'.table.locks[s'.threads[u].id] == s'.threads[u].lock
    {
      LeaveKeepsReached(s, t, u);
    }
  }

  lemma StepKeepsInv(s: State, step: Step)
    requires Inv(s) && Enabled(s, step)
    ensures Inv(Apply(s, step))
  {
    match step
    case Enter(t, id, spare) =>
      EnterKeepsCounted(s, t, id, spare);
      EnterKeepsMapped(s, t, id, spare);
      EnterKeepsReached(s, t, id, spare);
    case ReleaseAgain(t) =>
    case Leave(t) => LeaveKeepsInv(s, t);
    case Receive(t) => MoveKeepsInv(s, t, Taken, Take(s.table, s.threads[t].lock));
    case CancelWaiting(t) => MoveKeepsInv(s, t, Leaving, s.table);
    case CancelTaken(t) => MoveKeepsInv(s, t, GivingBack, s.table);
    case Return(t) => MoveKeepsInv(s, t, Holding, s.table);
    case Release(t) => MoveKeepsInv(s, t, GivingBack, s.table);
    case Send(t) => MoveKeepsInv(s, t, Leaving, Give(s.table, s.threads[t].lock));
  }

  lemma Subset<T>(a: set<T>, b: set<T>)
    requires a <= b
    ensures |a| <= |b|
  {
    assert b == a + (b - a);
  }

  lemma {:induction false} RunKeepsInv(run: seq<State>, steps: seq<Step>, i: nat)
    requires IsRun(run, steps) && i < |run|
    ensures Inv(run[i])
  {
    if i > 0 {
      RunKeepsInv(run, steps, i - 1);
      StepKeepsInv(run[i - 1], steps[i - 1]);
    }
  }

  // ----- what every reachable state guarantees -----

  /** At most one thread has the token of an account. */
  lemma OneHolder(run: seq<State>, steps: seq<Step>, i: nat, t: Tid, u: Tid)
    requires IsRun(run, steps) && i < |run|
    requires t in run[i].threads && u in run[i].threads && run[i].threads[t].id == run[i].threads[u].id
    requires HasToken(run[i].threads[t].pc) && HasToken(run[i].threads[u].pc)
    ensures t == u
  {
    RunKeepsInv(run, steps, i);
    var s := run[i];
    var l := s.threads[t].lock;
    assert LockCounted(s, l);
    if t != u {
      Subset({t, u}, Holders(s, l));
    }
  }

  /** Two live lock objects never exist for one account, however often its entry was deleted
      and created again. */
  lemma OneLiveLock(run: seq<State>, steps: seq<Step>, i: nat, t: Tid, u: Tid)
    requires IsRun(run, steps) && i < |run|
    requires t in run[i].threads && u in run[i].threads && run[i].threads[t].id == run[i].threads[u].id
    requires Registered(run[i].threads[t].pc) && Registered(run[i].threads[u].pc)
    ensures run[i].threads[t].lock == run[i].threads[u].lock
  {
    RunKeepsInv(run, steps, i);
  }

  /** An account is in the map exactly while some thread is registered for it; in particular
      the map is empty once every caller has left. */
  lemma MappedIffUsed(run: seq<State>, steps: seq<Step>, i: nat, id: Identity)
    requires IsRun(run, steps) && i < |run|
    ensures id in run[i].table.locks <==>
              exists t | t in run[i].threads :: run[i].threads[t].id == id && Registered(run[i].threads[t].pc)
  {
    RunKeepsInv(run, steps, i);
    var s := run[i];
    if id in s.table.locks {
      var l := s.table.locks[id];
      assert LockCounted(s, l);
      assert Users(s, l) != {};
      var t :| t in Users(s, l);
      assert Uses(s, l, t);
    }
  }

  /** Putting the token back never blocks: the channel has room whenever a thread is about
      to send. */
  lemma SendNeverBlocks(run: seq<State>, steps: seq<Step>, i: nat, t: Tid)
    requires IsRun(run, steps) && i < |run| && At(run[i], t, GivingBack)
    ensures Enabled(run[i], Send(t)) && run[i].table.heap[run[i].threads[t].lock].tokens == 0
  {
    RunKeepsInv(run, steps, i);
    var s := run[i];
    var l := s.threads[t].lock;
    assert LockCounted(s, l) && Holds(s, l, t);
    assert t in Holders(s, l);
  }

  /** A waiting thread can take the token unless another thread for the same account has it;
      by SendNeverBlocks, giving it back then depends on nobody else. */
  lemma WaitersProgress(run: seq<State>, steps: seq<Step>, i: nat, t: Tid)
    requires IsRun(run, steps) && i < |run| && At(run[i], t, Waiting)
    ensures Enabled(run[i], Receive(t))
            || exists u | u in run[i].threads ::
                 HasToken(run[i].threads[u].pc) && run[i].threads[u].id == run[i].threads[t].id
  {
    RunKeepsInv(run, steps, i);
    var s := run[i];
    var l := s.threads[t].lock;
    assert LockCounted(s, l);
    if s.table.heap[l].tokens == 0 {
      assert Holders(s, l) != {};
      var u :| u in Holders(s, l);
      SameLockSameId(s, t, u);
    }
  }

  lemma SameLockSameId(s: State, t: Tid, u: Tid)
    requires Inv(s) && t in s.threads && u in s.threads && s.threads[t].lock == s.threads[u].lock
    requires Registered(s.threads[t].pc) && Registered(s.threads[u].pc)
    ensures s.threads[t].id == s.threads[u].id
  {
  }
}

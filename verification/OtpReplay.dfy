/** No known OTP replay, over every run of any number of processes and threads.

    Each thread is one login: it takes the account's OS lock when a store is configured, then
    the account semaphore of its process, follows the login protocol, and lets go in reverse
    order. Processes may die at any moment. Mutual exclusion of the semaphore is the theorem
    OtpLocks.OneHolder; the OS lock is exclusive and released on death. Accounts stand for
    (normalized endpoint, lowercased username), bindings for one-way OTP secret bindings. */
module OtpReplay {
  import opened Prelude
  import opened LoginProtocol
  import opened OtpCoordination

  type Tid = nat
  type Pid = nat
  type Dir = nat
  type Account = nat
  type Binding = nat

  /** In-process tables and on-disk metadata are keyed alike. */
  datatype Slot = Slot(place: nat, account: Account, binding: Binding)

  /** Before any lock; with the OS lock only; in `login`; returned from `login` with the OS
      lock still held; finished. */
  datatype Hold = Outside | OsOnly | Inside | Tail | Over

  datatype Thread = Thread(proc: Pid, dir: Option<Dir>, account: Account, binding: Binding, cfg: Config,
                           hold: Hold, m: Monitor)

  /** `tables` and `disks` are the registers the code reads; `recorded` and `saved` are the
      history: every step accepted in a live process, and every step written to a directory. */
  datatype State = State(clock: int, threads: map<Tid, Thread>, tables: map<Slot, int>, disks: map<Slot, int>,
                         recorded: set<(Slot, int)>, saved: set<(Slot, int)>)

  function Home(t: Thread): Slot {
    Slot(t.proc, t.account, t.binding)
  }

  function Disk(t: Thread): Slot
    requires t.dir.Some?
  {
    Slot(t.dir.value, t.account, t.binding)
  }

  predicate HoldsOs(t: Thread, dir: Dir, account: Account) {
    t.dir == Some(dir) && t.account == account && (t.hold.OsOnly? || t.hold.Inside? || t.hold.Tail?)
  }

  predicate HoldsAccount(t: Thread, proc: Pid, account: Account) {
    t.proc == proc && t.account == account && t.hold.Inside?
  }

  /** `PersistLost` is a save whose file was replaced but which still reports a failure. */
  datatype Step =
    | Tick(at: int)
    | Spawn(t: Tid, proc: Pid, dir: Option<Dir>, account: Account, binding: Binding, max: nat, impersonate: bool)
    | LockOs(t: Tid)
    | LockAccount(t: Tid, notBefore: Stamp)
    | Do(t: Tid, e: Event)
    | PersistLost(t: Tid)
    | UnlockAccount(t: Tid)
    | UnlockOs(t: Tid)
    | Crash(proc: Pid)

  function Known(table: map<Slot, int>, slot: Slot): Option<int> {
    if slot in table then Some(table[slot]) else None
  }

  /** What beforeHandshake reads: the in-process step, raised by the stored one if any. */
  function FloorRead(s: State, t: Thread): Option<int> {
    var own := Known(s.tables, Home(t));
    var stored := if t.dir.Some? then Known(s.disks, Disk(t)) else None;
    if stored.Some? && (own.None? || stored.value > own.value) then stored else own
  }

  predicate Enabled(s: State, step: Step) {
    match step
    case Tick(at) => at >= s.clock
    case Spawn(t, _, _, _, _, _, _) => t !in s.threads
    case LockOs(t) =>
      && t in s.threads && s.threads[t].hold.Outside? && s.threads[t].dir.Some?
      && forall u | u in s.threads :: !HoldsOs(s.threads[u], s.threads[t].dir.value, s.threads[t].account)
    case LockAccount(t, _) =>
      && t in s.threads
      && (if s.threads[t].dir.Some? then s.threads[t].hold.OsOnly? else s.threads[t].hold.Outside?)
      && forall u | u in s.threads :: !HoldsAccount(s.threads[u], s.threads[t].proc, s.threads[t].account)
    case Do(t, e) =>
      && t in s.threads && s.threads[t].hold.Inside? && s.threads[t].m.clock >= 0 && e.at == s.clock
      && Advance(s.threads[t].cfg, s.threads[t].m, e).Some?
      && (e.Floor? ==> e.known == FloorRead(s, s.threads[t]))
    case PersistLost(t) =>
      t in s.threads && s.threads[t].hold.Inside? && s.threads[t].dir.Some? && s.threads[t].m.pc.Spent?
    case UnlockAccount(t) => t in s.threads && s.threads[t].hold.Inside?
    case UnlockOs(t) =>
      t in s.threads && s.threads[t].dir.Some? && (s.threads[t].hold.OsOnly? || s.threads[t].hold.Tail?)
    case Crash(_) => true
  }

  function SetHold(s: State, t: Tid, hold: Hold): State
    requires t in s.threads
  {
    s.(threads := s.threads[t := s.threads[t].(hold := hold)])
  }

  function Apply(s: State, step: Step): State
    requires Enabled(s, step)
  {
    match step
    case Tick(at) => s.(clock := at)
    case Spawn(t, proc, dir, account, binding, max, impersonate) =>
      var cfg := Config(max, dir.Some?, impersonate);
      s.(threads := s.threads[t := Thread(proc, dir, account, binding, cfg, Outside, Begin(s.clock, None))])
    case LockOs(t) => SetHold(s, t, OsOnly)
    case LockAccount(t, notBefore) =>
      s.(threads := s.threads[t := s.threads[t].(hold := Inside, m := Begin(s.clock, notBefore))])
    case Do(t, e) =>
      var th := s.threads[t];
      var s1 := s.(threads := s.threads[t := th.(m := Advance(th.cfg, th.m, e).value)]);
      (match e
       case Floor(_, Some(step)) => s1.(tables := Remembered(s.tables, Home(th), step))
       case Accept(_, step) =>
         s1.(tables := Remembered(s.tables, Home(th), step), recorded := s.recorded + {(Home(th), step)})
       case Persist(_, step) =>
         if th.dir.None? then s1
         else s1.(disks := Remembered(s.disks, Disk(th), step), saved := s.saved + {(Disk(th), step)})
       case _ => s1)
    case PersistLost(t) =>
      var th := s.threads[t];
      s.(disks := Remembered(s.disks, Disk(th), th.m.pc.step), saved := s.saved + {(Disk(th), th.m.pc.step)})
    case UnlockAccount(t) => SetHold(s, t, if s.threads[t].dir.Some? then Tail else Over)
    case UnlockOs(t) => SetHold(s, t, Over)
    case Crash(proc) =>
      s.(threads := map t | t in s.threads && s.threads[t].proc != proc :: s.threads[t],
         tables := map k | k in s.tables && k.place != proc :: s.tables[k],
         recorded := set r | r in s.recorded && r.0.place != proc)
  }

  ghost predicate IsRun(run: seq<State>, steps: seq<Step>) {
    && |run| == |steps| + 1
    && run[0].clock >= 0 && run[0] == State(run[0].clock, map[], map[], map[], {}, {})
    && forall i | 0 <= i < |steps| :: Enabled(run[i], steps[i]) && run[i + 1] == Apply(run[i], steps[i])
  }

  // ----- the invariant -----

  predicate AtMost(known: Option<int>, bound: Option<int>) {
    known.Some? ==> bound.Some? && known.value <= bound.value
  }

  predicate Committed(pc: Pc) {
    pc.Floored? || pc.Passed? || pc.PasswordSent? || pc.LoggedIn? || pc.Submitted?
  }

  /** A thread that has read its floor and not yet recorded anything knows every step that is
      recorded for it. */
  ghost predicate Informed(s: State, t: Thread) {
    t.hold.Inside? && Committed(t.m.pc) ==>
      && AtMost(Known(s.tables, Home(t)), t.m.pc.floor)
      && (t.dir.Some? ==> AtMost(Known(s.disks, Disk(t)), t.m.pc.floor))
  }

  ghost predicate ThreadOk(s: State, t: Thread) {
    AboveFloor(t.m) && t.m.clock <= s.clock && t.cfg.store == t.dir.Some? && Informed(s, t)
  }

  /** Neither lock is held by two threads. */
  ghost predicate Exclusive(s: State) {
    forall t, u | t in s.threads && u in s.threads && t != u :: Apart(s.threads[t], s.threads[u])
  }

  ghost predicate Apart(t: Thread, u: Thread) {
    && (t.dir.Some? ==> !(HoldsOs(t, t.dir.value, t.account) && HoldsOs(u, t.dir.value, t.account)))
    && !(HoldsAccount(t, t.proc, t.account) && HoldsAccount(u, t.proc, t.account))
  }

  /** The registers are at least every step in the history. */
  ghost predicate Remembers(s: State) {
    && (forall r | r in s.recorded :: r.0 in s.tables && r.1 <= s.tables[r.0])
    && (forall r | r in s.saved :: r.0 in s.disks && r.1 <= s.disks[r.0])
  }

  ghost predicate Inv(s: State) {
    && s.clock >= 0
    && Exclusive(s)
    && Remembers(s)
    && forall t | t in s.threads :: ThreadOk(s, s.threads[t])
  }

  /** Two threads inside a login share no register: neither their process's for one account
      and secret, nor a directory's. */
  lemma RegistersApart(s: State, t: Tid, u: Tid)
    requires Exclusive(s) && t in s.threads && u in s.threads && t != u
    requires s.threads[t].hold.Inside? && s.threads[u].hold.Inside?
    ensures Home(s.threads[t]) != Home(s.threads[u])
    ensures s.threads[t].dir.Some? && s.threads[u].dir.Some? ==> Disk(s.threads[t]) != Disk(s.threads[u])
  {
    assert Apart(s.threads[t], s.threads[u]);
  }

  lemma RaiseKeepsRemembers(history: set<(Slot, int)>, table: map<Slot, int>, slot: Slot, step: int)
    requires forall r | r in history :: r.0 in table && r.1 <= table[r.0]
    ensures forall r | r in history + {(slot, step)} ::
              r.0 in Remembered(table, slot, step) && r.1 <= Remembered(table, slot, step)[r.0]
  {
  }

  lemma DoKeepsExclusive(s: State, t: Tid, e: Event)
    requires Inv(s) && Enabled(s, Do(t, e))
    ensures Exclusive(Apply(s, Do(t, e)))
  {
    var s' := Apply(s, Do(t, e));
    forall u, v | u in s'.threads && v in s'.threads && u != v
      ensures Apart(s'.threads[u], s'.threads[v])
    {
      assert Apart(s.threads[u], s.threads[v]);
    }
  }

  lemma DoKeepsRemembers(s: State, t: Tid, e: Event)
    requires Inv(s) && Enabled(s, Do(t, e))
    ensures Remembers(Apply(s, Do(t, e)))
  {
    var th := s.threads[t];
    match e
    case Accept(_, step) => RaiseKeepsRemembers(s.recorded, s.tables, Home(th), step);
    case Persist(_, step) =>
      if th.dir.Some? {
        RaiseKeepsRemembers(s.saved, s.disks, Disk(th), step);
      }
    case _ =>
  }

  /** Another login's step changes nothing a committed thread relies on. */
  lemma DoKeepsOthers(s: State, t: Tid, e: Event, u: Tid)
    requires Inv(s) && Enabled(s, Do(t, e)) && u in s.threads && u != t
    ensures ThreadOk(Apply(s, Do(t, e)), s.threads[u])
  {
    assert ThreadOk(s, s.threads[u]);
    if s.threads[u].hold.Inside? {
      RegistersApart(s, t, u);
    }
  }

  /** A login stays informed by its own steps: its read takes in both registers, and what it
      records or persists comes after its submissions. */
  lemma DoKeepsInformed(s: State, t: Tid, e: Event)
    requires Enabled(s, Do(t, e)) && Informed(s, s.threads[t])
    ensures Informed(Apply(s, Do(t, e)), Apply(s, Do(t, e)).threads[t])
  {
  }

  lemma DoKeepsSelf(s: State, t: Tid, e: Event)
    requires Inv(s) && Enabled(s, Do(t, e))
    ensures ThreadOk(Apply(s, Do(t, e)), Apply(s, Do(t, e)).threads[t])
  {
    var th := s.threads[t];
    assert ThreadOk(s, th);
    AdvanceKeepsAboveFloor(th.cfg, th.m, e);
    DoKeepsInformed(s, t, e);
    DoKeepsPlace(s, t, e);
  }

  lemma DoKeepsPlace(s: State, t: Tid, e: Event)
    requires Enabled(s, Do(t, e))
    ensures var th := Apply(s, Do(t, e)).threads[t];
            && Advance(s.threads[t].cfg, s.threads[t].m, e) == Some(th.m) && th.m.clock == s.clock
            && th.cfg == s.threads[t].cfg && th.dir == s.threads[t].dir && Apply(s, Do(t, e)).clock == s.clock
  {
  }

  lemma DoKeepsInv(s: State, t: Tid, e: Event)
    requires Inv(s) && Enabled(s, Do(t, e))
    ensures Inv(Apply(s, Do(t, e)))
  {
    var s' := Apply(s, Do(t, e));
    DoKeepsExclusive(s, t, e);
    DoKeepsRemembers(s, t, e);
    forall u | u in s'.threads
      ensures ThreadOk(s', s'.threads[u])
    {
      if u == t {
        DoKeepsSelf(s, t, e);
      } else {
        DoKeepsOthers(s, t, e, u);
      }
    }
  }

  lemma PersistLostKeepsInv(s: State, t: Tid)
    requires Inv(s) && Enabled(s, PersistLost(t))
    ensures Inv(Apply(s, PersistLost(t)))
  {
    var s' := Apply(s, PersistLost(t));
    var th := s.threads[t];
    RaiseKeepsRemembers(s.saved, s.disks, Disk(th), th.m.pc.step);
    forall u | u in s'.threads
      ensures ThreadOk(s', s'.threads[u])
    {
      assert ThreadOk(s, s.threads[u]);
      if u != t && s.threads[u].hold.Inside? {
        RegistersApart(s, t, u);
      }
    }
  }

  /** Taking and dropping locks, arrivals and the passage of time touch no register. */
  lemma QuietKeepsThreads(s: State, step: Step)
    requires Inv(s) && Enabled(s, step)
    requires !step.Do? && !step.PersistLost? && !step.Crash?
    ensures forall t | t in Apply(s, step).threads :: ThreadOk(Apply(s, step), Apply(s, step).threads[t])
  {
    var s' := Apply(s, step);
    forall t | t in s'.threads
      ensures ThreadOk(s', s'.threads[t])
    {
      if t in s.threads {
        assert ThreadOk(s, s.threads[t]);
      }
    }
  }

  lemma QuietKeepsExclusive(s: State, step: Step)
    requires Inv(s) && Enabled(s, step)
    requires !step.Do? && !step.PersistLost? && !step.Crash?
    ensures Exclusive(Apply(s, step))
  {
    var s' := Apply(s, step);
    forall u, v | u in s'.threads && v in s'.threads && u != v
      ensures Apart(s'.threads[u], s'.threads[v])
    {
      if u in s.threads && v in s.threads {
        assert Apart(s.threads[u], s.threads[v]);
      }
    }
  }

  lemma CrashKeepsInv(s: State, proc: Pid)
    requires Inv(s)
    ensures Inv(Apply(s, Crash(proc)))
  {
    var s' := Apply(s, Crash(proc));
    forall u, v | u in s'.threads && v in s'.threads && u != v
      ensures Apart(s'.threads[u], s'.threads[v])
    {
      assert Apart(s.threads[u], s.threads[v]);
    }
    forall t | t in s'.threads
      ensures ThreadOk(s', s'.threads[t])
    {
      assert ThreadOk(s, s.threads[t]);
    }
  }

  lemma StepKeepsInv(s: State, step: Step)
    requires Inv(s) && Enabled(s, step)
    ensures Inv(Apply(s, step))
  {
    match step
    case Do(t, e) => DoKeepsInv(s, t, e);
    case PersistLost(t) => PersistLostKeepsInv(s, t);
    case Crash(proc) => CrashKeepsInv(s, proc);
    case _ =>
      QuietKeepsThreads(s, step);
      QuietKeepsExclusive(s, step);
  }

  lemma {:induction false} RunKeepsInv(run: seq<State>, steps: seq<Step>, i: nat)
    requires IsRun(run, steps) && i < |run|
    ensures Inv(run[i])
  {
    if i > 0 {
      RunKeepsInv(run, steps, i - 1);
      StepKeepsInv(run[i - 1], steps[i - 1]);
    }
  }

  // ----- the guarantee -----

  /** In every run, every OTP submission uses a TOTP step above every step its own process has
      recorded as accepted for that account and secret, by any client with or without a store;
      and, with a store, above every step any process, dead or alive, has written to that
      directory for them. The step submitted is the counter of the instant of submission. */
  lemma NoKnownReplay(run: seq<State>, steps: seq<Step>, i: nat, t: Tid, at: int, step: int, known: int)
    requires IsRun(run, steps) && i < |steps| && steps[i] == Do(t, Submit(at, step))
    requires var th := run[i].threads[t];
             || (Home(th), known) in run[i].recorded
             || (th.dir.Some? && (Disk(th), known) in run[i].saved)
    ensures step > known && step == StepOf(at)
  {
    RunKeepsInv(run, steps, i);
    var s := run[i];
    var th := s.threads[t];
    assert ThreadOk(s, th);
    AdvanceKeepsAboveFloor(th.cfg, th.m, Submit(at, step));
    StepMonotone(th.m.clock, at);
  }

  /** Two states of one login, with no event of it in between. */
  predicate SameLogin(before: Thread, after: Thread) {
    before.(hold := after.hold) == after
  }

  /** Step `j` submits the code of `step` in the login that thread `t` is in at state `i`, and is the
      last event of that login. */
  ghost predicate LastSubmitted(run: seq<State>, steps: seq<Step>, i: nat, t: Tid, j: nat, step: int)
    requires IsRun(run, steps) && i < |run| && t in run[i].threads
  {
    && j < i && steps[j].Do? && steps[j].t == t && steps[j].e.Submit? && steps[j].e.step == step
    && forall l | j < l <= i :: t in run[l].threads && SameLogin(run[l].threads[t], run[i].threads[t])
  }

  /** What is recorded as accepted is a step this very login submitted, in its last event. */
  lemma RecordedWasSubmitted(run: seq<State>, steps: seq<Step>, i: nat, t: Tid, at: int, step: int)
    requires IsRun(run, steps) && i < |steps| && steps[i] == Do(t, Accept(at, step))
    ensures exists j: nat :: LastSubmitted(run, steps, i, t, j, step)
  {
    var j := SubmittedBefore(run, steps, i, t);
  }

  /** A thread whose reply is outstanding has submitted that step in its last event. */
  lemma {:induction false} SubmittedBefore(run: seq<State>, steps: seq<Step>, i: nat, t: Tid) returns (j: nat)
    requires IsRun(run, steps) && i < |run|
    requires t in run[i].threads && run[i].threads[t].m.pc.Submitted?
    ensures LastSubmitted(run, steps, i, t, j, run[i].threads[t].m.pc.step)
  {
    if i == 0 {
      assert false;
    } else if Submits(steps[i - 1], t) {
      j := i - 1;
    } else {
      StillSubmitted(run[i - 1], steps[i - 1], t);
      j := SubmittedBefore(run, steps, i - 1, t);
    }
  }

  predicate Submits(step: Step, t: Tid) {
    step.Do? && step.t == t && step.e.Submit?
  }

  lemma StillSubmitted(s: State, step: Step, t: Tid)
    requires Enabled(s, step) && !Submits(step, t)
    requires t in Apply(s, step).threads && Apply(s, step).threads[t].m.pc.Submitted?
    ensures t in s.threads && SameLogin(s.threads[t], Apply(s, step).threads[t])
  {
  }
}

/** The single-flight recovery protocol of session.go: every interleaving of any number of
    request threads, the recovery worker and the ineffective-replay marker of one refresher. */
module RefresherRuns {
  import opened Prelude
  import opened AuthErrors
  import opened Refresher
  import LP = LoginProtocol

  type Tid = nat

  /** A call of `login`: where it began, and its events so far. */
  datatype Handshake = Handshake(begin: LP.Monitor, trace: seq<LP.Event>)

  /** A recovery is in `login` or on its way there, or has a jar: from its own login, or restored
      from a newer stored generation. */
  datatype Phase = Logging(m: LP.Monitor, h: Handshake) | Got(jar: Jar) | Found(jar: Jar, generation: nat)

  datatype Worker =
    | Recovering(seen: nat, phase: Phase)
    | Marking(generation: nat, failure: Err, started: Stamp)

  /** A request, from its first snapshot: sent on session `seen`; waiting in `refresh` for a
      worker; told that `refresh` succeeded; sent again, on session `seen`. */
  datatype Thread = Sent(seen: nat) | Waiting(done: Chan, seen: nat) | Recovered(seen: nat) | Replaying(seen: nat)

  datatype Outcome = DidPublish | DidFail(err: Err) | DidMark(verdict: Verdict, failure: Err)

  /** The least time a recovery has, whatever the request timeout. */
  const RECOVERY_LIMIT: int := 35_000_000_000

  /** The refresher, the clock, whether the client was closed, the worker goroutines by the channel
      each will close, the closed channels, the requests under way; the last OTP step the process
      knows to be accepted for the account; and, with a store, the account deadline, the deadline
      of the session entry, and the generation of that entry if it can be loaded.

      History, read by no step but to name new jars: the login behind each jar (here or in
      another process), the last outcome written, the failures and server deadlines per
      generation, and those deadlines that a marker replaced with an earlier one while they
      were still to come. */
  datatype State = State(
    cfg: LP.Config,
    core: Core,
    clock: int,
    shut: bool,
    workers: map<Chan, Worker>,
    closed: set<Chan>,
    threads: map<Tid, Thread>,
    spent: Option<int>,
    account: Stamp,
    entry: Stamp,
    stored: Option<nat>,
    genuine: map<Jar, Handshake>,
    last: Option<Outcome>,
    failures: set<(nat, int)>,
    limits: set<(nat, int)>,
    lowered: set<(nat, int)>)

  /** `next` is the state of the login after event `e`. `saved` says whether the deadline reached
      the store. The steps of other processes that share the store come last; `OtherEntry` also
      stands for the expiry of the entry, and for a save of this process that failed late. */
  datatype Step =
    | Tick(at: int)
    | Shut
    | Capture(t: Tid)
    | Refresh(t: Tid, spare: Chan)
    | Wake(t: Tid)
    | Abandon(t: Tid)
    | Recapture(t: Tid)
    | Note(t: Tid, failure: Err, spare: Chan)
    | Do(c: Chan, e: LP.Event, next: LP.Monitor)
    | LoggedIn(c: Chan, jar: Jar)
    | Restore(c: Chan, jar: Jar)
    | GiveUp(c: Chan, err: Err, saved: bool)
    | Publish(c: Chan, loaded: nat)
    | MarkerStart(c: Chan)
    | MarkerEnd(c: Chan, verdict: Verdict, saved: bool)
    | OtherLogin(jar: Jar, h: Handshake)
    | OtherDeadline(deadline: int)
    | OtherEntry(stamp: Stamp, stored: Option<nat>)

  predicate Recovers(s: State, c: Chan) {
    c in s.workers && s.workers[c].Recovering?
  }

  predicate LogsIn(s: State, c: Chan) {
    Recovers(s, c) && s.workers[c].phase.Logging?
  }

  predicate Marks(s: State, c: Chan) {
    c in s.workers && s.workers[c].Marking?
  }

  predicate Unused(s: State, c: Chan) {
    c !in s.workers && c !in s.closed
  }

  /** Thread `t` may begin a request. */
  predicate Free(s: State, t: Tid) {
    t !in s.threads || s.threads[t].Sent? || s.threads[t].Replaying?
  }

  /** No worker of this client holds the account lock past the check of the account deadline. */
  predicate Outside(s: State) {
    forall c | c in s.workers && s.workers[c].Recovering? ::
      s.workers[c].phase.Logging? && s.workers[c].phase.m.attempts == 0
  }

  /** A recovery without a jar may give up, but between two attempts only once its time is over or
      the client was closed; with a jar, only when the jar cannot be saved. */
  predicate MayGiveUp(s: State, w: Worker)
    requires w.Recovering?
  {
    match w.phase
    case Logging(m, h) =>
      m.pc.Between? && 0 < m.attempts < s.cfg.max ==> s.shut || s.clock >= h.begin.clock + RECOVERY_LIMIT
    case Got(_) => s.cfg.store
    case Found(_, _) => false
  }

  /** What a marker may find in the store: another generation, and it is skipped; its own, and it
      saves; nothing it can load; or an error. */
  predicate MayEnd(s: State, generation: nat, verdict: Verdict, saved: bool) {
    if !s.cfg.store then verdict.Applied?
    else
      match verdict
      case Applied => if saved then s.stored == Some(generation) else s.stored.None?
      case Skipped => s.stored.Some? && s.stored.value != generation
      case Errored(_) => true
  }

  /** Where each step may be taken. */
  predicate Placed(s: State, step: Step) {
    match step
    case Tick(at) => at >= s.clock
    case Shut => true
    case Capture(t) => Free(s, t)
    case Refresh(t, spare) => t in s.threads && s.threads[t].Sent? && Unused(s, spare)
    case Wake(t) => t in s.threads && s.threads[t].Waiting? && s.threads[t].done in s.closed
    case Abandon(t) => t in s.threads && s.threads[t].Waiting?
    case Recapture(t) => t in s.threads && s.threads[t].Recovered?
    case Note(t, _, spare) => t in s.threads && s.threads[t].Replaying? && Unused(s, spare)
    case Do(c, e, next) => LogsIn(s, c) && e.at == s.clock
    case LoggedIn(c, jar) => LogsIn(s, c) && jar !in s.genuine
    case Restore(c, jar) =>
      && s.cfg.store && LogsIn(s, c) && s.workers[c].phase.m.attempts == 0
      && jar in s.genuine && s.stored.Some? && s.stored.value > s.workers[c].seen
    case GiveUp(c, _, _) => Recovers(s, c) && MayGiveUp(s, s.workers[c])
    case Publish(c, loaded) =>
      Recovers(s, c) && !s.workers[c].phase.Logging? && (!s.cfg.store ==> loaded == 0)
    case MarkerStart(c) => Marks(s, c) && s.workers[c].started.None?
    case MarkerEnd(c, verdict, saved) =>
      Marks(s, c) && s.workers[c].started.Some? && MayEnd(s, s.workers[c].generation, verdict, saved)
    case OtherLogin(jar, _) => s.cfg.store && jar !in s.genuine
    case OtherDeadline(_) => s.cfg.store && Outside(s)
    case OtherEntry(_, _) => s.cfg.store
  }

  /** The login of a handshake has come to `m`. */
  ghost predicate ComesTo(cfg: LP.Config, h: Handshake, m: LP.Monitor) {
    && h.begin.clock >= 0 && h.begin == LP.Begin(h.begin.clock, h.begin.notBefore)
    && LP.Run(cfg, h.begin, h.trace) == Some(m)
  }

  ghost predicate Completed(cfg: LP.Config, h: Handshake) {
    exists m :: ComesTo(cfg, h, m) && LP.Complete(cfg, m)
  }

  /** Before its first attempt a recovery with a store refuses while a stored deadline is to
      come. */
  predicate PassesStore(s: State) {
    s.cfg.store ==> !Pending(s.account, s.clock) && !Pending(s.entry, s.clock)
  }

  /** What a login reads as its floor is at least the step its process knows. */
  predicate FloorFits(spent: Option<int>, e: LP.Event) {
    e.Floor? && spent.Some? ==> e.known.Some? && e.known.value >= spent.value
  }

  predicate IsSent(e: LP.Event) {
    e.Password? || e.Submit? || e.Impersonate?
  }

  /** A login does what its protocol allows and sends nothing once the client was closed; a jar is
      published for a complete login only. */
  ghost predicate Enabled(s: State, step: Step) {
    && Placed(s, step)
    && (match step
        case Do(c, e, next) =>
          && var m := s.workers[c].phase.m;
          && m.clock >= 0 && LP.Advance(s.cfg, m, e) == Some(next) && FloorFits(s.spent, e)
          && (e.Start? && m.attempts == 0 ==> PassesStore(s))
          && (IsSent(e) ==> !s.shut)
        case LoggedIn(c, _) => LP.Complete(s.cfg, s.workers[c].phase.m)
        case OtherLogin(_, h) => Completed(s.cfg, h)
        case _ => true)
  }

  function Seat(s: State, t: Tid, th: Thread): State {
    s.(threads := s.threads[t := th])
  }

  function Leave(s: State, t: Tid): State {
    s.(threads := s.threads - {t})
  }

  /** Closing a worker's channel and recording how it ended. */
  function Close(s: State, c: Chan, core: Core, outcome: Outcome): State {
    s.(core := core, workers := s.workers - {c}, closed := s.closed + {c}, last := Some(outcome))
  }

  function SetPhase(s: State, c: Chan, phase: Phase): State
    requires Recovers(s, c)
  {
    s.(workers := s.workers[c := s.workers[c].(phase := phase)])
  }

  /** What is published: the restored generation, or one above what was seen and loaded. */
  function Next(w: Worker, loaded: nat): nat
    requires w.Recovering?
  {
    if w.phase.Found? then w.phase.generation else NextGeneration(w.seen, loaded)
  }

  /** The step known after an event. */
  function SpentAfter(spent: Option<int>, e: LP.Event): Option<int> {
    if e.Accept? && (spent.None? || e.step > spent.value) then Some(e.step)
    else if e.Floor? && e.known.Some? && (spent.None? || e.known.value > spent.value) then e.known
    else spent
  }

  function NewRecovery(s: State, seen: nat): Worker {
    var begin := LP.Begin(s.clock, s.core.notBefore);
    Recovering(seen, Logging(begin, Handshake(begin, [])))
  }

  function Refreshed(s: State, t: Tid, spare: Chan): State
    requires t in s.threads
  {
    var seen := s.threads[t].seen;
    match Decide(s.core, seen, s.clock)
    case Newer => Seat(s, t, Recovered(seen))
    case Refuse(_) => Leave(s, t)
    case Join(done) => Seat(s, t, Waiting(done, seen))
    case Recover =>
      Seat(s, t, Waiting(spare, seen)).(
        core := Entered(s.core, seen, s.clock, spare), workers := s.workers[spare := NewRecovery(s, seen)])
  }

  /** The server deadlines of the current generation that a marker's deadline falls short of. */
  function Overtaken(s: State, started: int): set<(nat, int)> {
    set r | r in s.limits && r.0 == s.core.generation && r.1 > Max(s.clock, started + COOLDOWN)
  }

  function Apply(s: State, step: Step): State
    requires Placed(s, step)
  {
    match step
    case Tick(at) => s.(clock := at)
    case Shut => s.(shut := true)
    case Capture(t) => Seat(s, t, Sent(s.core.generation))
    case Refresh(t, spare) => Refreshed(s, t, spare)
    case Wake(t) => if s.core.lastErr.None? then Seat(s, t, Recovered(s.threads[t].seen)) else Leave(s, t)
    case Abandon(t) => Leave(s, t)
    case Recapture(t) => Seat(s, t, Replaying(s.core.generation))
    case Note(t, failure, spare) =>
      if MayReserve(s.core, s.threads[t].seen) then
        Leave(s, t).(
          core := s.core.(inFlight := Some(spare)),
          workers := s.workers[spare := Marking(s.threads[t].seen, failure, None)])
      else Leave(s, t)
    case Do(c, e, next) =>
      var h := s.workers[c].phase.h;
      var s1 := SetPhase(s, c, Logging(next, h.(trace := h.trace + [e]))).(spent := SpentAfter(s.spent, e));
      if e.Limited? then
        s1.(core := s.core.(notBefore := Some(e.at + e.delay)),
            limits := s.limits + {(s.core.generation, e.at + e.delay)})
      else s1
    case LoggedIn(c, jar) =>
      SetPhase(s, c, Got(jar)).(
        core := s.core.(notBefore := None), genuine := s.genuine[jar := s.workers[c].phase.h])
    case Restore(c, jar) => SetPhase(s, c, Found(jar, s.stored.value))
    case GiveUp(c, err, saved) =>
      Close(s, c, Failed(s.core, err, s.clock), DidFail(err)).(
        failures := s.failures + {(s.core.generation, s.clock)},
        account := if s.cfg.store && saved && Pending(s.core.notBefore, s.clock)
                   then Later(s.account, s.core.notBefore) else s.account)
    case Publish(c, loaded) =>
      Close(s, c, Published(s.core, s.workers[c].phase.jar, Next(s.workers[c], loaded)), DidPublish).(
        entry := if s.workers[c].phase.Got? then None else s.entry,
        stored := if s.workers[c].phase.Got? then Some(Next(s.workers[c], loaded)) else s.stored)
    case MarkerStart(c) => s.(workers := s.workers[c := s.workers[c].(started := Some(s.clock))])
    case MarkerEnd(c, verdict, saved) =>
      var started := s.workers[c].started.value;
      var failure := s.workers[c].failure;
      var s1 := Close(s, c, Marked(s.core, verdict, failure, started), DidMark(verdict, failure));
      if verdict.Applied? then
        s1.(failures := s.failures + {(s.core.generation, started)},
            entry := if s.cfg.store && saved then Some(started + COOLDOWN) else s.entry,
            lowered := s.lowered + Overtaken(s, started))
      else s1
    case OtherLogin(jar, h) => s.(genuine := s.genuine[jar := h])
    case OtherDeadline(deadline) => s.(account := Later(s.account, Some(deadline)))
    case OtherEntry(stamp, stored) => s.(entry := stamp, stored := stored)
  }

  /** A refresher as `initialize` leaves it; a restored session brings its own generation and
      deadline. */
  ghost predicate Init(s: State) {
    && s.clock >= 0 && s.cfg.max >= 1
    && (!s.cfg.store ==> s.core.generation == 1 && s.core.notBefore.None? && s.account.None? && s.entry.None?)
    && s.core.jar in s.genuine && (forall jar | jar in s.genuine :: Completed(s.cfg, s.genuine[jar]))
    && s == State(s.cfg, Core(s.core.generation, s.core.jar, None, None, None, s.core.notBefore), s.clock,
                  false, map[], {}, map[], s.spent, s.account, s.entry, s.stored, s.genuine, None, {}, {}, {})
  }

  /** Step `i` was enabled and led to the next state. */
  ghost predicate Stepped(run: seq<State>, steps: seq<Step>, i: nat)
    requires i < |steps| && |run| == |steps| + 1
  {
    Enabled(run[i], steps[i]) && run[i + 1] == Apply(run[i], steps[i])
  }

  ghost predicate IsRun(run: seq<State>, steps: seq<Step>) {
    && |run| == |steps| + 1 && Init(run[0])
    && forall i | 0 <= i < |steps| :: Stepped(run, steps, i)
  }

  /** Step `i` of a run. */
  ghost predicate StepAt(run: seq<State>, steps: seq<Step>, i: nat) {
    IsRun(run, steps) && i < |steps| && Stepped(run, steps, i)
  }

  // ----- the invariant -----

  /** At most one worker, the one the slot names; nobody else's channel is open. */
  ghost predicate SingleFlight(s: State) {
    && (forall c | c in s.workers :: s.core.inFlight == Some(c) && c !in s.closed)
    && (s.core.inFlight.Some? ==> s.core.inFlight.value in s.workers)
  }

  /** The worker works for the current generation. */
  ghost predicate WorkersCurrent(s: State) {
    forall c | c in s.workers ::
      match s.workers[c]
      case Recovering(seen, phase) => seen == s.core.generation && (phase.Found? ==> phase.generation > seen)
      case Marking(generation, _, _) => generation == s.core.generation
  }

  /** Requests know generations that existed. */
  ghost predicate ThreadsBehind(s: State) {
    forall t | t in s.threads :: s.threads[t].seen <= s.core.generation
  }

  /** A blocked thread waits for the worker of its own generation or for a closed channel, which
      after a publication is an older one. */
  ghost predicate WaiterSound(s: State, done: Chan, seen: nat) {
    && (done in s.workers || done in s.closed)
    && (done in s.workers ==> seen == s.core.generation)
    && (done in s.closed && s.last == Some(DidPublish) ==> seen < s.core.generation)
  }

  ghost predicate WaitersSound(s: State) {
    forall t | t in s.threads && s.threads[t].Waiting? :: WaiterSound(s, s.threads[t].done, s.threads[t].seen)
  }

  /** The error the last recovery or marker wrote: its own failure, that of the replay it was about,
      or that of the store. */
  function LastError(last: Option<Outcome>): Option<Err> {
    match last
    case Some(DidFail(err)) => Some(err)
    case Some(DidMark(Applied, failure)) => Some(failure)
    case Some(DidMark(Errored(err), _)) => Some(err)
    case _ => None
  }

  /** The last outcome is a marker that found another generation in the store. */
  predicate Skips(last: Option<Outcome>) {
    last.Some? && last.value.DidMark? && last.value.verdict.Skipped?
  }

  /** lastErr is the last error written. */
  ghost predicate LastMatches(s: State) {
    && (s.last.None? ==> s.closed == {}) && s.core.lastErr == LastError(s.last)
    && (!s.cfg.store && s.last.Some? && s.last.value.DidMark? ==> s.last.value.verdict.Applied?)
  }

  /** Published jars, and jars about to be, have a login behind them. */
  ghost predicate JarsKnown(s: State) {
    && s.core.jar in s.genuine
    && (forall c | c in s.workers && s.workers[c].Recovering? ::
          !s.workers[c].phase.Logging? ==> s.workers[c].phase.jar in s.genuine)
  }

  ghost predicate Inv(s: State) {
    && SingleFlight(s) && WorkersCurrent(s) && ThreadsBehind(s) && WaitersSound(s) && LastMatches(s)
    && JarsKnown(s)
  }

  /** The steps that close the worker's channel. */
  predicate Ends(step: Step) {
    step.GiveUp? || step.Publish? || step.MarkerEnd?
  }

  /** The steps that start a worker. */
  predicate Starts(step: Step) {
    step.Refresh? || step.Note?
  }

  /** Every other step leaves the generation, the slot, the channels and the last outcome. */
  lemma StepKeepsFrame(s: State, step: Step)
    requires Placed(s, step) && !Ends(step) && !Starts(step)
    ensures var s' := Apply(s, step);
            && s'.core == s.core.(notBefore := s'.core.notBefore)
            && s'.workers.Keys == s.workers.Keys && s'.closed == s.closed && s'.last == s.last && s'.cfg == s.cfg
  {
  }

  /** The steps of requests, of the clock and of other processes. */
  predicate LeavesWork(step: Step) {
    || step.Tick? || step.Shut? || step.Capture? || step.Wake? || step.Abandon? || step.Recapture?
    || step.OtherLogin? || step.OtherDeadline? || step.OtherEntry?
  }

  /** They leave the worker and all that it writes. */
  lemma WorkStays(s: State, step: Step)
    requires Placed(s, step) && LeavesWork(step)
    ensures var s' := Apply(s, step);
            && s'.cfg == s.cfg && s'.core == s.core && s'.workers == s.workers && s'.closed == s.closed
            && s'.last == s.last && s'.failures == s.failures && s'.limits == s.limits && s'.lowered == s.lowered
            && s'.clock >= s.clock && (s'.account == s.account || Outside(s))
  {
  }

  predicate LeavesThreads(step: Step) {
    && !step.Capture? && !step.Wake? && !step.Abandon? && !step.Recapture?
    && !step.Refresh? && !step.Note?
  }

  lemma ThreadsStay(s: State, step: Step)
    requires Placed(s, step) && LeavesThreads(step)
    ensures Apply(s, step).threads == s.threads
  {
  }

  lemma StepKeepsSingleFlight(s: State, step: Step)
    requires SingleFlight(s) && Placed(s, step)
    ensures SingleFlight(Apply(s, step))
  {
    if !Ends(step) && !Starts(step) {
      StepKeepsFrame(s, step);
    }
  }

  lemma StepKeepsWorkersCurrent(s: State, step: Step)
    requires SingleFlight(s) && WorkersCurrent(s) && Placed(s, step)
    ensures WorkersCurrent(Apply(s, step))
  {
    if LeavesWork(step) {
      WorkStays(s, step);
    } else {
      WorkKeepsCurrent(s, step);
    }
  }

  lemma WorkKeepsCurrent(s: State, step: Step)
    requires SingleFlight(s) && WorkersCurrent(s) && Placed(s, step) && !LeavesWork(step)
    ensures WorkersCurrent(Apply(s, step))
  {
  }

  lemma StepKeepsThreadsBehind(s: State, step: Step)
    requires SingleFlight(s) && WorkersCurrent(s) && ThreadsBehind(s) && Placed(s, step)
    ensures ThreadsBehind(Apply(s, step))
  {
    if LeavesThreads(step) {
      ThreadsStay(s, step);
      OnlyPublishingChangesSession(s, step);
    } else {
      ThreadsKeepBehind(s, step);
    }
  }

  lemma ThreadsKeepBehind(s: State, step: Step)
    requires ThreadsBehind(s) && Placed(s, step) && !LeavesThreads(step)
    ensures ThreadsBehind(Apply(s, step))
  {
  }

  lemma EndKeepsWaiterSound(s: State, step: Step, done: Chan, seen: nat)
    requires SingleFlight(s) && WorkersCurrent(s) && WaiterSound(s, done, seen) && seen <= s.core.generation
    requires Placed(s, step) && Ends(step)
    ensures WaiterSound(Apply(s, step), done, seen)
  {
  }

  lemma StepKeepsWaiterSound(s: State, step: Step, done: Chan, seen: nat)
    requires SingleFlight(s) && WaiterSound(s, done, seen) && Placed(s, step) && !Ends(step)
    ensures WaiterSound(Apply(s, step), done, seen)
  {
    if !Starts(step) {
      StepKeepsFrame(s, step);
    }
  }

  /** A thread that starts to wait, waits for a worker of its own generation. */
  lemma NewWaiterSound(s: State, t: Tid, spare: Chan)
    requires SingleFlight(s) && Placed(s, Refresh(t, spare))
    ensures var s' := Apply(s, Refresh(t, spare));
            t in s'.threads && s'.threads[t].Waiting? ==> WaiterSound(s', s'.threads[t].done, s'.threads[t].seen)
  {
  }

  /** No other step makes a thread wait. */
  lemma StepKeepsWaiting(s: State, step: Step, t: Tid)
    requires Placed(s, step) && !(step.Refresh? && step.t == t)
    ensures var s' := Apply(s, step);
            t in s'.threads && s'.threads[t].Waiting? ==> t in s.threads && s'.threads[t] == s.threads[t]
  {
    if LeavesThreads(step) {
      ThreadsStay(s, step);
    }
  }

  lemma StepKeepsWaitersSound(s: State, step: Step)
    requires Inv(s) && Placed(s, step)
    ensures WaitersSound(Apply(s, step))
  {
    var s' := Apply(s, step);
    forall t | t in s'.threads && s'.threads[t].Waiting?
      ensures WaiterSound(s', s'.threads[t].done, s'.threads[t].seen)
    {
      if step.Refresh? && step.t == t {
        NewWaiterSound(s, t, step.spare);
      } else {
        StepKeepsWaiting(s, step, t);
        if Ends(step) {
          EndKeepsWaiterSound(s, step, s.threads[t].done, s.threads[t].seen);
        } else {
          StepKeepsWaiterSound(s, step, s.threads[t].done, s.threads[t].seen);
        }
      }
    }
  }

  lemma StepKeepsLastMatches(s: State, step: Step)
    requires LastMatches(s) && Placed(s, step)
    ensures LastMatches(Apply(s, step))
  {
    if !Ends(step) && !Starts(step) {
      StepKeepsFrame(s, step);
    }
  }

  lemma StepKeepsJarsKnown(s: State, step: Step)
    requires JarsKnown(s) && Placed(s, step)
    ensures JarsKnown(Apply(s, step))
  {
  }

  lemma StepKeepsInv(s: State, step: Step)
    requires Inv(s) && Placed(s, step)
    ensures Inv(Apply(s, step)) && Apply(s, step).cfg == s.cfg && Apply(s, step).clock >= s.clock
  {
    StepKeepsConfig(s, step);
    StepKeepsSingleFlight(s, step);
    StepKeepsWorkersCurrent(s, step);
    StepKeepsThreadsBehind(s, step);
    StepKeepsWaitersSound(s, step);
    StepKeepsLastMatches(s, step);
    StepKeepsJarsKnown(s, step);
  }

  lemma {:induction false} RunKeepsInv(run: seq<State>, steps: seq<Step>, i: nat)
    requires IsRun(run, steps) && i < |run|
    ensures Inv(run[i]) && run[i].cfg == run[0].cfg && run[i].clock >= 0
  {
    if i > 0 {
      RunKeepsInv(run, steps, i - 1);
      assert Stepped(run, steps, i - 1);
      StepKeepsInv(run[i - 1], steps[i - 1]);
    }
  }

  lemma StepKeepsStoreless(s: State, step: Step)
    requires Placed(s, step) && !s.cfg.store && s.account.None? && s.entry.None?
    ensures Apply(s, step).account.None? && Apply(s, step).entry.None?
  {
  }

  lemma StepKeepsConfig(s: State, step: Step)
    requires Placed(s, step)
    ensures Apply(s, step).cfg == s.cfg && Apply(s, step).clock >= s.clock
  {
  }

  /** Without a store no deadline is stored. */
  lemma {:induction false} RunKeepsStoreless(run: seq<State>, steps: seq<Step>, i: nat)
    requires IsRun(run, steps) && i < |run|
    ensures run[i].cfg == run[0].cfg && (!run[0].cfg.store ==> run[i].account.None? && run[i].entry.None?)
  {
    if i > 0 {
      RunKeepsStoreless(run, steps, i - 1);
      assert Stepped(run, steps, i - 1);
      StepKeepsConfig(run[i - 1], steps[i - 1]);
      if !run[0].cfg.store {
        StepKeepsStoreless(run[i - 1], steps[i - 1]);
      }
    }
  }

  // ----- unique publication -----

  /** The session changes only when the one worker owning the slot publishes, and then to a
      strictly newer generation; every other step, in particular every failure of a candidate,
      leaves generation and jar as they are. */
  lemma OnlyPublishingChangesSession(s: State, step: Step)
    requires SingleFlight(s) && WorkersCurrent(s) && Placed(s, step)
    ensures var s' := Apply(s, step);
            if step.Publish? then
              s.core.inFlight == Some(step.c) && s'.core.generation > s.core.generation
            else
              s'.core.generation == s.core.generation && s'.core.jar == s.core.jar
  {
    if !Ends(step) && !Starts(step) {
      StepKeepsFrame(s, step);
    }
  }

  /** What is published is what the recovery has: a restored session under its own generation, and a new
      one under a generation above the one lost and the one loaded. */
  lemma PublishExact(run: seq<State>, steps: seq<Step>, i: nat)
    requires StepAt(run, steps, i) && steps[i].Publish?
    ensures var phase := run[i].workers[steps[i].c].phase; var core := run[i + 1].core;
            && core.jar == phase.jar && core.inFlight.None?
            && if phase.Found? then core.generation == phase.generation
               else core.generation > run[i].core.generation && core.generation > steps[i].loaded
                    && (core.generation == run[i].core.generation + 1 || core.generation == steps[i].loaded + 1)
  {
    RunKeepsInv(run, steps, i);
  }

  /** Over any run generations never decrease, and a generation names one jar for ever. */
  lemma {:induction false} OneJarPerGeneration(run: seq<State>, steps: seq<Step>, i: nat, j: nat)
    requires IsRun(run, steps) && i <= j < |run|
    ensures run[i].core.generation <= run[j].core.generation
    ensures run[i].core.generation == run[j].core.generation ==> run[i].core.jar == run[j].core.jar
  {
    if i < j {
      OneJarPerGeneration(run, steps, i, j - 1);
      RunKeepsInv(run, steps, j - 1);
      assert Stepped(run, steps, j - 1);
      OnlyPublishingChangesSession(run[j - 1], steps[j - 1]);
    }
  }

  /** In every reachable state all workers, recoveries and markers alike, are one worker. */
  lemma OneWorker(run: seq<State>, steps: seq<Step>, i: nat, c: Chan, d: Chan)
    requires IsRun(run, steps) && i < |run| && c in run[i].workers && d in run[i].workers
    ensures c == d && run[i].core.inFlight == Some(c)
  {
    RunKeepsInv(run, steps, i);
  }

  // ----- the login behind every session -----

  /** What a login has come to follows from its events. */
  ghost predicate LoginsTraced(s: State) {
    forall c | c in s.workers && s.workers[c].Recovering? && s.workers[c].phase.Logging? ::
      ComesTo(s.cfg, s.workers[c].phase.h, s.workers[c].phase.m) && s.workers[c].phase.m.clock <= s.clock
  }

  ghost predicate AllCompleted(s: State) {
    forall jar | jar in s.genuine :: Completed(s.cfg, s.genuine[jar])
  }

  lemma TraceGrows(cfg: LP.Config, h: Handshake, m: LP.Monitor, e: LP.Event, next: LP.Monitor)
    requires ComesTo(cfg, h, m) && m.clock >= 0 && LP.Advance(cfg, m, e) == Some(next)
    ensures ComesTo(cfg, h.(trace := h.trace + [e]), next)
  {
    LP.RunSnoc(cfg, h.begin, h.trace, e);
  }

  lemma BeginsTraced(cfg: LP.Config, at: int, notBefore: Stamp)
    requires at >= 0
    ensures var begin := LP.Begin(at, notBefore); ComesTo(cfg, Handshake(begin, []), begin)
  {
  }

  lemma StepKeepsLoginsTraced(s: State, step: Step)
    requires SingleFlight(s) && LoginsTraced(s) && Enabled(s, step) && s.clock >= 0
    ensures LoginsTraced(Apply(s, step))
  {
    if step.Do? {
      var w := s.workers[step.c].phase;
      TraceGrows(s.cfg, w.h, w.m, step.e, step.next);
    } else if step.Refresh? {
      BeginsTraced(s.cfg, s.clock, s.core.notBefore);
    } else {
      OthersKeepLoginsTraced(s, step);
    }
  }

  lemma OthersKeepLoginsTraced(s: State, step: Step)
    requires LoginsTraced(s) && Placed(s, step) && !step.Do? && !step.Refresh?
    ensures LoginsTraced(Apply(s, step))
  {
    if LeavesWork(step) {
      WorkStays(s, step);
    } else {
      WorkKeepsLoginsTraced(s, step);
    }
  }

  lemma WorkKeepsLoginsTraced(s: State, step: Step)
    requires LoginsTraced(s) && Placed(s, step) && !step.Do? && !step.Refresh? && !LeavesWork(step)
    ensures LoginsTraced(Apply(s, step))
  {
  }

  lemma StepKeepsCompleted(s: State, step: Step)
    requires LoginsTraced(s) && AllCompleted(s) && Enabled(s, step)
    ensures AllCompleted(Apply(s, step))
  {
  }

  lemma {:induction false} RunKeepsLogins(run: seq<State>, steps: seq<Step>, i: nat)
    requires IsRun(run, steps) && i < |run|
    ensures LoginsTraced(run[i]) && AllCompleted(run[i])
  {
    if i > 0 {
      RunKeepsLogins(run, steps, i - 1);
      RunKeepsInv(run, steps, i - 1);
      assert Stepped(run, steps, i - 1);
      StepKeepsLoginsTraced(run[i - 1], steps[i - 1]);
      StepKeepsCompleted(run[i - 1], steps[i - 1]);
    }
  }

  /** The session in use at any time comes from a login, here or in another process that shares
      the store, whose events are a run of the login protocol and passed every configured stage
      in one attempt and in order. A candidate that failed at any stage is never published. */
  lemma SessionPassedAllStages(run: seq<State>, steps: seq<Step>, i: nat)
    requires IsRun(run, steps) && i < |run|
    ensures run[i].core.jar in run[i].genuine
    ensures var h := run[i].genuine[run[i].core.jar];
            Completed(run[0].cfg, h) && LP.Milestones(h.trace) == LP.AllStages(run[0].cfg)
  {
    RunKeepsInv(run, steps, i);
    RunKeepsLogins(run, steps, i);
    var h := run[i].genuine[run[i].core.jar];
    var m :| ComesTo(run[i].cfg, h, m) && LP.Complete(run[i].cfg, m);
    LP.CompleteMeansStages(run[i].cfg, h.begin.clock, h.begin.notBefore, h.trace);
  }

  // ----- what a nil result of refresh means -----

  /** The thread whose `refresh` returns nil in this step. */
  ghost predicate ReturnsNil(s: State, step: Step) {
    && Enabled(s, step)
    && (|| (step.Refresh? && Decide(s.core, s.threads[step.t].seen, s.clock).Newer?)
        || (step.Wake? && s.core.lastErr.None?))
  }

  /** A call that returns at once returns nil only for a newer session. A thread that wakes to
      find the session unreplaced is told nil exactly if the last outcome is a marker that
      skipped because the store held another generation: that branch clears lastErr without
      advancing anything. */
  lemma NilMeansNewer(run: seq<State>, steps: seq<Step>, i: nat)
    requires StepAt(run, steps, i) && (steps[i].Refresh? || steps[i].Wake?)
    ensures var s := run[i]; var seen := s.threads[steps[i].t].seen;
            && seen <= s.core.generation
            && (steps[i].Refresh? && ReturnsNil(s, steps[i]) ==> s.core.generation > seen)
            && (steps[i].Wake? && s.core.generation == seen ==>
                  (ReturnsNil(s, steps[i]) <==> Skips(s.last)))
  {
    RunKeepsInv(run, steps, i);
  }

  /** Without a store the exception cannot arise: nil always means a newer session, also for a
      waiter that wakes after later cycles have overwritten lastErr. */
  lemma NilMeansNewerWithoutStore(run: seq<State>, steps: seq<Step>, i: nat)
    requires StepAt(run, steps, i) && ReturnsNil(run[i], steps[i]) && !run[0].cfg.store
    ensures run[i].core.generation > run[i].threads[steps[i].t].seen
  {
    RunKeepsInv(run, steps, i);
    NilMeansNewer(run, steps, i);
  }

  /** What a recovered thread knows, without a store. */
  ghost predicate RecoveredBehind(s: State) {
    forall t | t in s.threads && s.threads[t].Recovered? :: s.threads[t].seen < s.core.generation
  }

  lemma StepKeepsRecoveredBehind(s: State, step: Step)
    requires Inv(s) && RecoveredBehind(s) && !s.cfg.store && Enabled(s, step)
    ensures RecoveredBehind(Apply(s, step))
  {
    OnlyPublishingChangesSession(s, step);
  }

  lemma {:induction false} RunKeepsRecoveredBehind(run: seq<State>, steps: seq<Step>, i: nat)
    requires IsRun(run, steps) && i < |run| && !run[0].cfg.store
    ensures RecoveredBehind(run[i])
  {
    if i > 0 {
      RunKeepsRecoveredBehind(run, steps, i - 1);
      RunKeepsInv(run, steps, i - 1);
      assert Stepped(run, steps, i - 1);
      StepKeepsRecoveredBehind(run[i - 1], steps[i - 1]);
    }
  }

  /** The replay of a request therefore goes out on a strictly newer session than the one that
      was lost. */
  lemma ReplayOnNewerSession(run: seq<State>, steps: seq<Step>, i: nat, t: Tid)
    requires StepAt(run, steps, i) && !run[0].cfg.store && steps[i] == Recapture(t)
    ensures run[i + 1].threads[t].Replaying? && run[i + 1].threads[t].seen > run[i].threads[t].seen
  {
    RunKeepsRecoveredBehind(run, steps, i);
  }

  /** The `refresh` of thread `t` returned nil at step `j`, and up to state `i` its request has not
      been sent again. */
  ghost predicate NilSince(run: seq<State>, steps: seq<Step>, j: nat, i: nat, t: Tid)
    requires IsRun(run, steps) && i < |run|
  {
    && j < i && (steps[j].Refresh? || steps[j].Wake?) && steps[j].t == t && ReturnsNil(run[j], steps[j])
    && forall l | j < l <= i :: t in run[l].threads && run[l].threads[t] == Recovered(run[j].threads[t].seen)
  }

  lemma RecoveredStays(s: State, step: Step, t: Tid)
    requires Enabled(s, step) && t in Apply(s, step).threads && Apply(s, step).threads[t].Recovered?
    requires !((step.Refresh? || step.Wake?) && step.t == t)
    ensures t in s.threads && s.threads[t] == Apply(s, step).threads[t]
  {
    if LeavesThreads(step) {
      ThreadsStay(s, step);
    }
  }

  /** Only a `refresh` that returns nil makes a thread recovered. */
  lemma NilRecovers(s: State, step: Step)
    requires Enabled(s, step) && (step.Refresh? || step.Wake?)
    requires step.t in Apply(s, step).threads && Apply(s, step).threads[step.t].Recovered?
    ensures ReturnsNil(s, step) && Apply(s, step).threads[step.t] == Recovered(s.threads[step.t].seen)
  {
  }

  lemma {:induction false} RecoveredSince(run: seq<State>, steps: seq<Step>, i: nat, t: Tid) returns (j: nat)
    requires IsRun(run, steps) && i < |run| && t in run[i].threads && run[i].threads[t].Recovered?
    ensures NilSince(run, steps, j, i, t) && Stepped(run, steps, j)
  {
    if i == 0 {
      assert false;
    } else {
      assert Stepped(run, steps, i - 1);
      if (steps[i - 1].Refresh? || steps[i - 1].Wake?) && steps[i - 1].t == t {
        NilRecovers(run[i - 1], steps[i - 1]);
        j := i - 1;
      } else {
        RecoveredStays(run[i - 1], steps[i - 1], t);
        j := RecoveredSince(run, steps, i - 1, t);
      }
    }
  }

  /** That nil came from a marker that skipped, on the session of state `i`. */
  ghost predicate NilBySkip(run: seq<State>, steps: seq<Step>, j: nat, i: nat, t: Tid)
    requires IsRun(run, steps) && i < |run|
  {
    && NilSince(run, steps, j, i, t) && steps[j].Wake? && Skips(run[j].last)
    && run[j].core.generation == run[j].threads[t].seen == run[i].core.generation
  }

  /** With a store or without: a replay goes out on the very session that was lost exactly if the
      request's `refresh` woke to a skipped marker on that session and nothing was published
      since; every other replay goes out on a strictly newer one. */
  lemma ReplayOnLostSession(run: seq<State>, steps: seq<Step>, i: nat, t: Tid)
    requires StepAt(run, steps, i) && steps[i] == Recapture(t)
    ensures run[i + 1].threads[t].Replaying? && run[i + 1].threads[t].seen >= run[i].threads[t].seen
    ensures run[i + 1].threads[t].seen == run[i].threads[t].seen <==> exists j: nat :: NilBySkip(run, steps, j, i, t)
  {
    RunKeepsInv(run, steps, i);
    var j := RecoveredSince(run, steps, i, t);
    assert run[i].threads[t] == Recovered(run[j].threads[t].seen);
    OneJarPerGeneration(run, steps, j, i);
    NilMeansNewer(run, steps, j);
    if run[i].core.generation == run[i].threads[t].seen {
      assert NilBySkip(run, steps, j, i, t);
    }
  }

  // ----- what a caller is told -----

  /** What `refresh` returns in this step, if it returns. */
  function Told(s: State, step: Step): Option<Err>
    requires Placed(s, step) && (step.Refresh? || step.Wake?)
  {
    if step.Wake? then s.core.lastErr
    else
      match Decide(s.core, s.threads[step.t].seen, s.clock)
      case Refuse(err) => Some(err)
      case _ => None
  }

  /** A caller that is refused, which is when the cooldown of the last failure or the deadline runs,
      is told the error that the last recovery or marker wrote, and that one was about the caller's
      own session; only if none was written is it told how long the deadline is off. */
  lemma RefusedIsTold(run: seq<State>, steps: seq<Step>, i: nat)
    requires StepAt(run, steps, i) && steps[i].Refresh?
    requires var s := run[i];
             && s.threads[steps[i].t].seen == s.core.generation && s.core.inFlight.None?
             && (|| (s.core.notBefore.Some? && s.core.notBefore.value > s.clock)
                 || (s.core.lastErr.Some? && s.core.lastFailureAt.Some?
                     && s.clock < s.core.lastFailureAt.value + 30_000_000_000))
    ensures steps[i].t !in run[i + 1].threads
    ensures LastError(run[i].last).None? ==> run[i].core.notBefore.Some?
    ensures Told(run[i], steps[i]) == Some(if LastError(run[i].last).Some? then LastError(run[i].last).value
                                           else Auth(SessionRecovery, RateLimited, None,
                                                     run[i].core.notBefore.value - run[i].clock))
    ensures LastError(run[i].last).Some? ==>
              exists j: nat | j < i ::
                Wrote(run, steps, j, i, LastError(run[i].last).value, run[i].threads[steps[i].t].seen)
  {
    RunKeepsInv(run, steps, i);
    RefusalExact(run[i].core, run[i].core.generation, run[i].clock);
    if LastError(run[i].last).Some? {
      var j := LastWrote(run, steps, i);
    }
  }

  /** And a caller that waited is told the error written last, when it wakes. */
  lemma WakerIsTold(run: seq<State>, steps: seq<Step>, i: nat)
    requires StepAt(run, steps, i) && steps[i].Wake?
    ensures Told(run[i], steps[i]) == LastError(run[i].last)
    ensures Told(run[i], steps[i]).Some? ==>
              exists j: nat | j < i :: Wrote(run, steps, j, i, Told(run[i], steps[i]).value, run[i].core.generation)
  {
    RunKeepsInv(run, steps, i);
    if LastError(run[i].last).Some? {
      var j := LastWrote(run, steps, i);
    }
  }

  /** Step `j` was the last to end a recovery or a marker before state `i`; it was about session
      `seen` and wrote the error. */
  ghost predicate Wrote(run: seq<State>, steps: seq<Step>, j: nat, i: nat, err: Err, seen: nat)
    requires i <= |steps| < |run|
  {
    && j < i && (forall l | j < l < i :: !Ends(steps[l]))
    && Enabled(run[j], steps[j])
    && (|| (steps[j].GiveUp? && steps[j].err == err)
        || (steps[j].MarkerEnd? && steps[j].verdict == Applied && run[j].workers[steps[j].c].failure == err)
        || (steps[j].MarkerEnd? && steps[j].verdict == Errored(err)))
    && run[j].core.generation == seen
    && (if steps[j].GiveUp? then run[j].workers[steps[j].c].seen == seen
        else run[j].workers[steps[j].c].generation == seen)
  }

  lemma OthersKeepLast(s: State, step: Step)
    requires Placed(s, step) && !Ends(step)
    ensures Apply(s, step).last == s.last && Apply(s, step).core.generation == s.core.generation
  {
    if LeavesWork(step) {
      WorkStays(s, step);
    }
  }

  lemma EndsWrite(s: State, step: Step)
    requires SingleFlight(s) && WorkersCurrent(s) && Enabled(s, step) && Ends(step)
    requires LastError(Apply(s, step).last).Some?
    ensures Apply(s, step).core.generation == s.core.generation && !step.Publish?
    ensures var err := LastError(Apply(s, step).last).value;
            || (step.GiveUp? && step.err == err && s.workers[step.c].seen == s.core.generation)
            || (step.MarkerEnd? && s.workers[step.c].generation == s.core.generation
                && (step.verdict == Errored(err) || (step.verdict == Applied && s.workers[step.c].failure == err)))
  {
  }

  lemma {:induction false} LastWrote(run: seq<State>, steps: seq<Step>, i: nat) returns (j: nat)
    requires IsRun(run, steps) && i < |run| && LastError(run[i].last).Some?
    ensures j < i && Wrote(run, steps, j, i, LastError(run[i].last).value, run[i].core.generation)
  {
    if i == 0 {
      assert false;
    } else {
      assert Stepped(run, steps, i - 1);
      if Ends(steps[i - 1]) {
        RunKeepsInv(run, steps, i - 1);
        EndsWrite(run[i - 1], steps[i - 1]);
        j := i - 1;
      } else {
        OthersKeepLast(run[i - 1], steps[i - 1]);
        j := LastWrote(run, steps, i - 1);
      }
    }
  }

  // ----- late replays -----

  /** What a request may be about once the session a refresher began with is `first`: nothing
      replays on that one. */
  predicate LateThread(th: Thread, generation: nat, first: nat) {
    && th.seen >= first && (th.Replaying? ==> th.seen > first) && (th.Recovered? ==> generation > first)
  }

  /** Nothing replays, and nothing is marked, on the session a refresher began with. */
  ghost predicate ReplaysLate(s: State, first: nat) {
    && first <= s.core.generation
    && (forall t | t in s.threads :: LateThread(s.threads[t], s.core.generation, first))
    && (forall c | c in s.workers && s.workers[c].Marking? :: s.workers[c].generation > first)
    && (s.last.Some? && !s.last.value.DidFail? ==> s.core.generation > first)
  }

  lemma StepKeepsLateWorkers(s: State, step: Step, first: nat)
    requires SingleFlight(s) && WorkersCurrent(s) && ReplaysLate(s, first) && Placed(s, step)
    ensures var s' := Apply(s, step);
            && first <= s'.core.generation
            && (forall c | c in s'.workers && s'.workers[c].Marking? :: s'.workers[c].generation > first)
            && (s'.last.Some? && !s'.last.value.DidFail? ==> s'.core.generation > first)
  {
    if LeavesWork(step) {
      WorkStays(s, step);
    } else {
      WorkKeepsLate(s, step, first);
    }
  }

  lemma WorkKeepsLate(s: State, step: Step, first: nat)
    requires SingleFlight(s) && WorkersCurrent(s) && ReplaysLate(s, first) && Placed(s, step) && !LeavesWork(step)
    ensures var s' := Apply(s, step);
            && first <= s'.core.generation
            && (forall c | c in s'.workers && s'.workers[c].Marking? :: s'.workers[c].generation > first)
            && (s'.last.Some? && !s'.last.value.DidFail? ==> s'.core.generation > first)
  {
    OnlyPublishingChangesSession(s, step);
  }

  lemma StepKeepsLateThread(s: State, step: Step, first: nat, t: Tid)
    requires SingleFlight(s) && WorkersCurrent(s) && LastMatches(s) && ThreadsBehind(s) && ReplaysLate(s, first)
    requires Placed(s, step) && t in Apply(s, step).threads
    ensures LateThread(Apply(s, step).threads[t], Apply(s, step).core.generation, first)
  {
    if LeavesThreads(step) {
      ThreadsStay(s, step);
      OnlyPublishingChangesSession(s, step);
    } else if step.t != t {
      OtherThreadStays(s, step, t);
    } else {
      ThreadKeepsLate(s, step, first, t);
    }
  }

  lemma OtherThreadStays(s: State, step: Step, t: Tid)
    requires Placed(s, step) && !LeavesThreads(step) && step.t != t && t in Apply(s, step).threads
    ensures t in s.threads && Apply(s, step).threads[t] == s.threads[t]
    ensures Apply(s, step).core.generation == s.core.generation
  {
  }

  lemma ThreadKeepsLate(s: State, step: Step, first: nat, t: Tid)
    requires LastMatches(s) && ThreadsBehind(s) && ReplaysLate(s, first)
    requires Placed(s, step) && !LeavesThreads(step) && step.t == t && t in Apply(s, step).threads
    ensures LateThread(Apply(s, step).threads[t], Apply(s, step).core.generation, first)
  {
    if step.Refresh? {
      RefreshKeepsLate(s, step, first);
    }
  }

  lemma RefreshKeepsLate(s: State, step: Step, first: nat)
    requires ThreadsBehind(s) && ReplaysLate(s, first)
    requires Placed(s, step) && step.Refresh? && step.t in Apply(s, step).threads
    ensures LateThread(Apply(s, step).threads[step.t], Apply(s, step).core.generation, first)
  {
  }

  lemma StepKeepsReplaysLate(s: State, step: Step, first: nat)
    requires Inv(s) && ReplaysLate(s, first) && Placed(s, step)
    ensures ReplaysLate(Apply(s, step), first)
  {
    var s' := Apply(s, step);
    StepKeepsLateWorkers(s, step, first);
    forall t | t in s'.threads
      ensures LateThread(s'.threads[t], s'.core.generation, first)
    {
      StepKeepsLateThread(s, step, first, t);
    }
  }

  lemma {:induction false} RunKeepsReplaysLate(run: seq<State>, steps: seq<Step>, i: nat)
    requires IsRun(run, steps) && i < |run|
    ensures ReplaysLate(run[i], run[0].core.generation)
  {
    if i > 0 {
      RunKeepsReplaysLate(run, steps, i - 1);
      RunKeepsInv(run, steps, i - 1);
      assert Stepped(run, steps, i - 1);
      StepKeepsReplaysLate(run[i - 1], steps[i - 1], run[0].core.generation);
    }
  }

  /** An ineffective replay is always one of a session that a recovery published. */
  lemma MarksRecoveredSessions(run: seq<State>, steps: seq<Step>, i: nat, c: Chan)
    requires IsRun(run, steps) && i < |run| && Marks(run[i], c)
    ensures run[i].workers[c].generation == run[i].core.generation > run[0].core.generation
  {
    RunKeepsInv(run, steps, i);
    RunKeepsReplaysLate(run, steps, i);
  }

  /** An ineffective report for a generation that is no longer current changes nothing but that
      the request is over; and when a marker ends, its generation is still the current one, so
      the cooldown it writes never falls on a newer session. */
  lemma LateReplayHarmless(run: seq<State>, steps: seq<Step>, i: nat)
    requires StepAt(run, steps, i)
    ensures steps[i].Note? && run[i].threads[steps[i].t].seen < run[i].core.generation ==>
              run[i + 1] == Leave(run[i], steps[i].t)
    ensures steps[i].MarkerEnd? ==>
              run[i].workers[steps[i].c].generation == run[i].core.generation == run[i + 1].core.generation
  {
    RunKeepsInv(run, steps, i);
  }

  // ----- failure cooldown -----

  /** No failure lies in the future. */
  ghost predicate FailuresPast(s: State) {
    forall r | r in s.failures :: r.0 <= s.core.generation && r.1 <= s.clock
  }

  /** Nor does the start of the marker under way. */
  ghost predicate MarkersPast(s: State) {
    forall c | c in s.workers && s.workers[c].Marking? && s.workers[c].started.Some? ::
      s.workers[c].started.value <= s.clock
  }

  /** None lies after the start of the marker under way. */
  ghost predicate MarkerLatest(s: State) {
    forall c, r | c in s.workers && s.workers[c].Marking? && s.workers[c].started.Some?
                  && r in s.failures && r.0 == s.core.generation ::
      r.1 <= s.workers[c].started.value
  }

  /** lastErr and lastFailureAt remember the latest failure at the current generation. */
  ghost predicate FailuresRemembered(s: State) {
    forall r | r in s.failures && r.0 == s.core.generation ::
      s.core.lastErr.Some? && s.core.lastFailureAt.Some? && r.1 <= s.core.lastFailureAt.value
  }

  lemma StepKeepsFailuresPast(s: State, step: Step)
    requires SingleFlight(s) && WorkersCurrent(s) && FailuresPast(s) && MarkersPast(s) && Placed(s, step)
    ensures FailuresPast(Apply(s, step))
  {
    OnlyPublishingChangesSession(s, step);
  }

  lemma StepKeepsMarkersPast(s: State, step: Step)
    requires MarkersPast(s) && Placed(s, step)
    ensures MarkersPast(Apply(s, step))
  {
  }

  /** With one worker at most, no failure is added while a marker is under way. */
  lemma StepKeepsMarkerLatest(s: State, step: Step)
    requires SingleFlight(s) && FailuresPast(s) && MarkerLatest(s) && Placed(s, step)
    ensures MarkerLatest(Apply(s, step))
  {
    if Ends(step) {
      assert Apply(s, step).workers == map[];
    } else if step.MarkerStart? {
    } else {
      MarkersStay(s, step);
    }
  }

  lemma MarkersStay(s: State, step: Step)
    requires Placed(s, step) && !Ends(step) && !step.MarkerStart?
    ensures var s' := Apply(s, step);
            && s'.failures == s.failures && s'.core.generation == s.core.generation
            && forall c | c in s'.workers && s'.workers[c].Marking? && s'.workers[c].started.Some? ::
                 c in s.workers && s'.workers[c] == s.workers[c]
  {
    if LeavesWork(step) {
      WorkStays(s, step);
    } else {
      WorkKeepsMarkers(s, step);
    }
  }

  lemma WorkKeepsMarkers(s: State, step: Step)
    requires Placed(s, step) && !Ends(step) && !step.MarkerStart? && !LeavesWork(step)
    ensures var s' := Apply(s, step);
            && s'.failures == s.failures && s'.core.generation == s.core.generation
            && forall c | c in s'.workers && s'.workers[c].Marking? && s'.workers[c].started.Some? ::
                 c in s.workers && s'.workers[c] == s.workers[c]
  {
  }

  lemma StepKeepsFailures(s: State, step: Step)
    requires SingleFlight(s) && WorkersCurrent(s) && FailuresPast(s) && MarkerLatest(s) && FailuresRemembered(s)
    requires Placed(s, step) && !s.cfg.store
    ensures FailuresRemembered(Apply(s, step))
  {
    if !Ends(step) {
      FailuresStay(s, step);
    }
  }

  lemma FailuresStay(s: State, step: Step)
    requires Placed(s, step) && !Ends(step)
    ensures var s' := Apply(s, step);
            && s'.failures == s.failures && s'.core.generation == s.core.generation
            && s'.core.lastErr == s.core.lastErr && s'.core.lastFailureAt == s.core.lastFailureAt
  {
  }

  lemma {:induction false} RunKeepsFailures(run: seq<State>, steps: seq<Step>, i: nat)
    requires IsRun(run, steps) && i < |run|
    ensures FailuresPast(run[i]) && MarkersPast(run[i]) && MarkerLatest(run[i])
    ensures !run[0].cfg.store ==> FailuresRemembered(run[i])
  {
    if i > 0 {
      RunKeepsFailures(run, steps, i - 1);
      RunKeepsInv(run, steps, i - 1);
      assert Stepped(run, steps, i - 1);
      StepKeepsFailuresPast(run[i - 1], steps[i - 1]);
      StepKeepsMarkersPast(run[i - 1], steps[i - 1]);
      StepKeepsMarkerLatest(run[i - 1], steps[i - 1]);
      if !run[0].cfg.store {
        StepKeepsFailures(run[i - 1], steps[i - 1]);
      }
    }
  }

  /** Without a store, no new recovery starts within the cooldown of any failed cycle or
      ineffective replay at the same generation, nor before notBefore. */
  lemma NoRecoveryDuringCooldown(run: seq<State>, steps: seq<Step>, i: nat, failed: int)
    requires StepAt(run, steps, i) && !run[0].cfg.store
    requires var s := run[i];
             && steps[i].Refresh? && Decide(s.core, s.threads[steps[i].t].seen, s.clock).Recover?
             && (s.core.generation, failed) in s.failures
    ensures run[i].clock >= failed + COOLDOWN && !Pending(run[i].core.notBefore, run[i].clock)
  {
    RunKeepsInv(run, steps, i);
    RunKeepsFailures(run, steps, i);
  }

  /** A success clears both: right after it, a thread that loses the new session starts a
      recovery at once, whatever failed before. */
  lemma SuccessClearsCooldown(run: seq<State>, steps: seq<Step>, i: nat)
    requires StepAt(run, steps, i) && steps[i].Publish?
    ensures var core := run[i + 1].core; Decide(core, core.generation, run[i + 1].clock).Recover?
  {
    RunKeepsInv(run, steps, i);
  }

  // ----- server deadlines across recoveries -----

  predicate Reaches(stamp: Stamp, deadline: int) {
    stamp.Some? && deadline <= stamp.value
  }

  ghost predicate LimitsKnown(s: State) {
    forall r | r in s.limits :: r.0 <= s.core.generation
  }

  /** A server deadline of the current generation that no marker has overtaken. */
  predicate Kept(s: State, r: (nat, int)) {
    r in s.limits && r !in s.lowered && r.0 == s.core.generation
  }

  /** Such a deadline has passed or is covered by notBefore. */
  ghost predicate LimitsCovered(s: State) {
    forall r | Kept(s, r) :: r.1 <= s.clock || Reaches(s.core.notBefore, r.1)
  }

  /** A login waits for its own deadline between attempts, and began after all others. */
  predicate Waits(m: LP.Monitor, clock: int, deadline: int) {
    deadline <= clock || (m.pc.Between? && m.attempts > 0 && Reaches(m.notBefore, deadline))
  }

  ghost predicate WaitedPast(s: State) {
    forall c, r | LogsIn(s, c) && Kept(s, r) :: Waits(s.workers[c].phase.m, s.clock, r.1)
  }

  /** Once its first attempt has begun, a login with a store is past the account deadline. */
  ghost predicate StorePassed(s: State) {
    forall c | LogsIn(s, c) ::
      && (s.workers[c].phase.m.pc.Between? || s.workers[c].phase.m.attempts > 0)
      && (s.cfg.store && s.workers[c].phase.m.attempts > 0 ==> !Pending(s.account, s.clock))
  }

  ghost predicate Limits(s: State) {
    LimitsKnown(s) && LimitsCovered(s) && WaitedPast(s) && StorePassed(s)
  }

  lemma StepKeepsLimitsKnown(s: State, step: Step)
    requires SingleFlight(s) && WorkersCurrent(s) && LimitsKnown(s) && Placed(s, step)
    ensures LimitsKnown(Apply(s, step))
  {
    OnlyPublishingChangesSession(s, step);
  }

  /** Steps that touch no deadline. */
  predicate LeavesLimits(step: Step) {
    !step.Do? && !step.LoggedIn? && !step.Publish? && !step.MarkerEnd?
  }

  lemma LimitsStay(s: State, step: Step)
    requires Placed(s, step) && LeavesLimits(step)
    ensures var s' := Apply(s, step);
            && s'.limits == s.limits && s'.lowered == s.lowered && s'.clock >= s.clock
            && s'.core.generation == s.core.generation && s'.core.notBefore == s.core.notBefore
            && forall c | LogsIn(s', c) :: if LogsIn(s, c) then s'.workers[c] == s.workers[c] || step.Refresh?
                                           else step.Refresh?
  {
    if LeavesWork(step) {
      WorkStays(s, step);
    } else {
      WorkLeavesLimits(s, step);
    }
  }

  lemma WorkLeavesLimits(s: State, step: Step)
    requires Placed(s, step) && LeavesLimits(step) && !LeavesWork(step)
    ensures var s' := Apply(s, step);
            && s'.limits == s.limits && s'.lowered == s.lowered && s'.clock >= s.clock
            && s'.core.generation == s.core.generation && s'.core.notBefore == s.core.notBefore
            && forall c | LogsIn(s', c) :: if LogsIn(s, c) then s'.workers[c] == s.workers[c] || step.Refresh?
                                           else step.Refresh?
  {
  }

  lemma StepKeepsLimitsCovered(s: State, step: Step)
    requires SingleFlight(s) && WorkersCurrent(s) && Limits(s) && Enabled(s, step)
    ensures LimitsCovered(Apply(s, step))
  {
    if LeavesLimits(step) {
      LimitsStay(s, step);
    } else if step.Do? {
      DoKeepsLimitsCovered(s, step);
    } else {
      OnlyPublishingChangesSession(s, step);
    }
  }

  lemma DoKeepsLimitsCovered(s: State, step: Step)
    requires Limits(s) && Enabled(s, step) && step.Do?
    ensures LimitsCovered(Apply(s, step))
  {
    if step.e.Limited? {
      assert LogsIn(s, step.c) && !s.workers[step.c].phase.m.pc.Between?;
    }
  }

  lemma StepKeepsWaitedPast(s: State, step: Step)
    requires SingleFlight(s) && WorkersCurrent(s) && Limits(s) && Enabled(s, step)
    ensures WaitedPast(Apply(s, step))
  {
    if step.Do? {
      DoKeepsWaitedPast(s, step);
    } else if step.Refresh? {
      RefreshKeepsWaitedPast(s, step);
    } else if LeavesLimits(step) {
      LimitsStay(s, step);
    } else {
      assert forall c :: !LogsIn(Apply(s, step), c);
    }
  }

  lemma DoKeepsWaitedPast(s: State, step: Step)
    requires SingleFlight(s) && Limits(s) && Enabled(s, step) && step.Do?
    ensures WaitedPast(Apply(s, step))
  {
    var s' := Apply(s, step);
    var m := s.workers[step.c].phase.m;
    forall c, r | LogsIn(s', c) && Kept(s', r)
      ensures Waits(s'.workers[c].phase.m, s'.clock, r.1)
    {
      assert c == step.c;
      if Kept(s, r) {
        assert LogsIn(s, c) && Waits(m, s.clock, r.1);
      }
    }
  }

  lemma RefreshKeepsWaitedPast(s: State, step: Step)
    requires SingleFlight(s) && Limits(s) && Placed(s, step) && step.Refresh?
    ensures WaitedPast(Apply(s, step))
  {
    var s' := Apply(s, step);
    forall c, r | LogsIn(s', c) && Kept(s', r)
      ensures Waits(s'.workers[c].phase.m, s'.clock, r.1)
    {
      assert Kept(s, r);
    }
  }

  lemma DoKeepsStorePassed(s: State, step: Step)
    requires SingleFlight(s) && StorePassed(s) && Enabled(s, step) && step.Do?
    ensures StorePassed(Apply(s, step))
  {
    assert LogsIn(s, step.c);
  }

  lemma StepKeepsStorePassed(s: State, step: Step)
    requires SingleFlight(s) && StorePassed(s) && Enabled(s, step)
    ensures StorePassed(Apply(s, step))
  {
    if step.Do? {
      DoKeepsStorePassed(s, step);
    } else {
      OthersKeepStorePassed(s, step);
    }
  }

  lemma OthersKeepStorePassed(s: State, step: Step)
    requires SingleFlight(s) && StorePassed(s) && Placed(s, step) && !step.Do?
    ensures StorePassed(Apply(s, step))
  {
    if LeavesWork(step) {
      AsideKeepsStorePassed(s, step);
    } else if Ends(step) {
      assert Apply(s, step).workers == map[];
    } else {
      WorkKeepsStorePassed(s, step);
    }
  }

  lemma AsideKeepsStorePassed(s: State, step: Step)
    requires StorePassed(s) && Placed(s, step) && LeavesWork(step)
    ensures StorePassed(Apply(s, step))
  {
    WorkStays(s, step);
    forall c | LogsIn(Apply(s, step), c)
      ensures LogsIn(s, c)
    {
    }
  }

  lemma WorkKeepsStorePassed(s: State, step: Step)
    requires SingleFlight(s) && StorePassed(s) && Placed(s, step) && !step.Do? && !LeavesWork(step) && !Ends(step)
    ensures StorePassed(Apply(s, step))
  {
  }

  lemma {:induction false} RunKeepsLimits(run: seq<State>, steps: seq<Step>, i: nat)
    requires IsRun(run, steps) && i < |run|
    ensures Limits(run[i])
  {
    if i > 0 {
      RunKeepsLimits(run, steps, i - 1);
      RunKeepsInv(run, steps, i - 1);
      assert Stepped(run, steps, i - 1);
      StepKeepsLimitsKnown(run[i - 1], steps[i - 1]);
      StepKeepsLimitsCovered(run[i - 1], steps[i - 1]);
      StepKeepsWaitedPast(run[i - 1], steps[i - 1]);
      StepKeepsStorePassed(run[i - 1], steps[i - 1]);
    }
  }

  /** The store holds a deadline: a rate-limited recovery of some process saved it, or a later
      one, for the account. */
  predicate Held(s: State, deadline: int) {
    s.cfg.store && Reaches(s.account, deadline)
  }

  /** No request of any recovery is sent before a deadline the server set at the same generation,
      in an earlier recovery or this one, if no marker has overtaken that deadline or the store
      holds it. */
  lemma NoRequestBeforeLimit(run: seq<State>, steps: seq<Step>, i: nat, deadline: int)
    requires StepAt(run, steps, i) && steps[i].Do? && LP.IsRequest(steps[i].e)
    requires var s := run[i]; var r := (s.core.generation, deadline);
             r in s.limits && (r !in s.lowered || Held(s, deadline))
    ensures run[i].clock >= deadline
  {
    RunKeepsInv(run, steps, i);
    RunKeepsLimits(run, steps, i);
    var s := run[i];
    assert LogsIn(s, steps[i].c);
    if (s.core.generation, deadline) !in s.lowered {
      assert Kept(s, (s.core.generation, deadline));
    }
  }
}

/** The protocol one call of `refresher.login` follows, as the events other code can see: reads
    of the accepted OTP step, requests, 2xx replies, recordings, and rate-limited endings.

    `Advance` is the monitor of that protocol. The login loop (module Login) is proved to
    produce only traces the monitor accepts, and the threads of module OtpReplay take only
    steps it accepts, so what is proved here of accepted traces holds of both. */
module LoginProtocol {
  import opened Prelude
  import opened AuthErrors
  import Backoff
  import OtpCoordination

  /** `max` is maxAttempts; `store` and `impersonate` say whether they are configured. */
  datatype Config = Config(max: nat, store: bool, impersonate: bool)

  datatype Event =
    | Start(at: int)
    | Floor(at: int, known: Option<int>)
    | Pass(at: int)
    | Password(at: int)
    | PasswordOk(at: int)
    | Submit(at: int, step: int)
    | Accept(at: int, step: int)
    | Persist(at: int, step: int)
    | Impersonate(at: int)
    | Impersonated(at: int)
    | Limited(at: int, cause: Err, delay: int)

  /** Between attempts; in an attempt that has just begun; after the read of the accepted step;
      past the wait; after each request and each 2xx reply. `tries` counts OTP submissions, `step`
      is the one submitted last. */
  datatype Pc =
    | Between
    | Started
    | Floored(floor: Option<int>)
    | Passed(floor: Option<int>)
    | PasswordSent(floor: Option<int>)
    | LoggedIn(floor: Option<int>)
    | Submitted(floor: Option<int>, tries: nat, step: int)
    | Spent(step: int)
    | Persisted(step: int)
    | ImpersonateSent
    | ImpersonateDone

  /** `attempts` counts attempts begun, `clock` is the time of the last event, `notBefore`
      the refresher's field of that name. */
  datatype Monitor = Monitor(pc: Pc, attempts: nat, clock: int, notBefore: Stamp)

  function Begin(at: int, notBefore: Stamp): Monitor {
    Monitor(Between, 0, at, notBefore)
  }

  /** The wait a rate-limited attempt asks for: what the error says, else the backoff. */
  predicate DelayFor(cause: Err, attempt: nat, delay: int) {
    if RetryAfter(cause) > 0 then delay == RetryAfter(cause)
    else Backoff.Jittered(Backoff.Capped(attempt), delay)
  }

  /** Where an event leads from a place, if it may occur there. */
  function Target(cfg: Config, m: Monitor, e: Event): Option<Pc>
    requires m.clock >= 0 && e.at >= m.clock
  {
    match e
    case Start(at) =>
      if m.pc.Between? && m.attempts < cfg.max && (m.attempts > 0 ==> !Pending(m.notBefore, at))
      then Some(Started) else None
    case Floor(_, known) => if m.pc.Started? then Some(Floored(known)) else None
    case Pass(at) =>
      if m.pc.Floored? && (m.pc.floor.Some? ==> OtpCoordination.StepOf(at) > m.pc.floor.value)
      then Some(Passed(m.pc.floor)) else None
    case Password(_) => if m.pc.Passed? then Some(PasswordSent(m.pc.floor)) else None
    case PasswordOk(_) => if m.pc.PasswordSent? then Some(LoggedIn(m.pc.floor)) else None
    case Submit(at, step) =>
      if step != OtpCoordination.StepOf(at) then None
      else if m.pc.LoggedIn? then Some(Submitted(m.pc.floor, 1, step))
      else if m.pc.Submitted? && m.pc.tries == 1 then Some(Submitted(m.pc.floor, 2, step))
      else None
    case Accept(_, step) => if m.pc.Submitted? && step == m.pc.step then Some(Spent(step)) else None
    case Persist(_, step) => if cfg.store && m.pc == Spent(step) then Some(Persisted(step)) else None
    case Impersonate(_) =>
      if cfg.impersonate && (if cfg.store then m.pc.Persisted? else m.pc.Spent?) then Some(ImpersonateSent) else None
    case Impersonated(_) => if m.pc.ImpersonateSent? then Some(ImpersonateDone) else None
    case Limited(_, cause, delay) =>
      if !m.pc.Between? && IsRateLimited(cause) && m.attempts > 0 && DelayFor(cause, m.attempts - 1, delay)
      then Some(Between) else None
  }

  function Advance(cfg: Config, m: Monitor, e: Event): Option<Monitor>
    requires m.clock >= 0
  {
    if e.at < m.clock then None
    else
      match Target(cfg, m, e)
      case None => None
      case Some(pc) =>
        Some(Monitor(
               pc,
               if e.Start? then m.attempts + 1 else m.attempts,
               e.at,
               if e.Limited? then Some(e.at + e.delay) else m.notBefore))
  }

  /** The monitor after a whole trace. */
  function Run(cfg: Config, m: Monitor, trace: seq<Event>): (r: Option<Monitor>)
    requires m.clock >= 0
    ensures r.Some? ==> r.value.clock >= m.clock
    decreases |trace|
  {
    if trace == [] then Some(m)
    else
      var next := Advance(cfg, m, trace[0]);
      if next.None? then None else Run(cfg, next.value, trace[1..])
  }

  /** Every stage the configuration asks for has been answered with success. */
  predicate Complete(cfg: Config, m: Monitor) {
    if cfg.impersonate then m.pc.ImpersonateDone?
    else if cfg.store then m.pc.Persisted?
    else m.pc.Spent?
  }

  lemma {:induction false} RunSplit(cfg: Config, m: Monitor, a: seq<Event>, b: seq<Event>)
    requires m.clock >= 0
    ensures Run(cfg, m, a + b) == if Run(cfg, m, a).None? then None else Run(cfg, Run(cfg, m, a).value, b)
    decreases |a|
  {
    if a == [] {
      assert a + b == b;
    } else {
      assert (a + b)[1..] == a[1..] + b;
      var next := Advance(cfg, m, a[0]);
      if next.Some? {
        RunSplit(cfg, next.value, a[1..], b);
      }
    }
  }

  /** The monitor before event `i` of an accepted trace, and that it accepts the event. */
  lemma {:induction false} RunAt(cfg: Config, m: Monitor, trace: seq<Event>, i: nat)
    requires m.clock >= 0 && i < |trace| && Run(cfg, m, trace).Some?
    ensures Run(cfg, m, trace[..i]).Some?
    ensures var before := Run(cfg, m, trace[..i]).value;
            && before.clock >= m.clock
            && Advance(cfg, before, trace[i]).Some?
            && Run(cfg, m, trace[..i + 1]) == Advance(cfg, before, trace[i])
            && Run(cfg, before, trace[i..]) == Run(cfg, m, trace)
  {
    assert trace == trace[..i] + trace[i..];
    RunSplit(cfg, m, trace[..i], trace[i..]);
    assert trace[..i + 1] == trace[..i] + [trace[i]];
    RunSplit(cfg, m, trace[..i], [trace[i]]);
  }

  /** Appending one event. */
  lemma {:induction false} RunSnoc(cfg: Config, m: Monitor, trace: seq<Event>, e: Event)
    requires m.clock >= 0 && Run(cfg, m, trace).Some?
    ensures Run(cfg, m, trace + [e]) == Advance(cfg, Run(cfg, m, trace).value, e)
  {
    RunSplit(cfg, m, trace, [e]);
  }

  // ----- bounded requests -----

  function CountIf(trace: seq<Event>, p: Event -> bool): nat {
    if trace == [] then 0 else (if p(trace[0]) then 1 else 0) + CountIf(trace[1..], p)
  }

  function Passwords(trace: seq<Event>): nat {
    CountIf(trace, (e: Event) => e.Password?)
  }

  function Submissions(trace: seq<Event>): nat {
    CountIf(trace, (e: Event) => e.Submit?)
  }

  function Impersonations(trace: seq<Event>): nat {
    CountIf(trace, (e: Event) => e.Impersonate?)
  }

  /** The requests of each kind the attempt under way may still send. */
  function PasswordsLeft(pc: Pc): nat {
    if pc.Started? || pc.Floored? || pc.Passed? then 1 else 0
  }

  function SubmissionsLeft(pc: Pc): nat {
    match pc
    case Started => 2
    case Floored(_) => 2
    case Passed(_) => 2
    case PasswordSent(_) => 2
    case LoggedIn(_) => 2
    case Submitted(_, tries, _) => if tries == 1 then 1 else 0
    case _ => 0
  }

  function ImpersonationsLeft(pc: Pc): nat {
    if pc.Between? || pc.ImpersonateSent? || pc.ImpersonateDone? then 0 else 1
  }

  /** From any place in the protocol the rest of a login sends at most what the attempt under
      way may still send, plus one password, two OTP and one impersonation request for each
      attempt not begun yet. */
  lemma {:induction false} RequestsBounded(cfg: Config, m: Monitor, trace: seq<Event>)
    requires m.clock >= 0 && m.attempts <= cfg.max && Run(cfg, m, trace).Some?
    ensures Passwords(trace) <= PasswordsLeft(m.pc) + (cfg.max - m.attempts)
    ensures Submissions(trace) <= SubmissionsLeft(m.pc) + 2 * (cfg.max - m.attempts)
    ensures Impersonations(trace) <= ImpersonationsLeft(m.pc) + (cfg.max - m.attempts)
    decreases |trace|
  {
    if trace != [] {
      RequestsBounded(cfg, Advance(cfg, m, trace[0]).value, trace[1..]);
    }
  }

  /** One login sends at most `max` password requests, twice that many OTP submissions, and
      `max` impersonation requests. */
  lemma {:induction false} LoginBounded(cfg: Config, at: int, notBefore: Stamp, trace: seq<Event>)
    requires at >= 0 && Run(cfg, Begin(at, notBefore), trace).Some?
    ensures Passwords(trace) <= cfg.max
    ensures Submissions(trace) <= 2 * cfg.max
    ensures Impersonations(trace) <= cfg.max
  {
    RequestsBounded(cfg, Begin(at, notBefore), trace);
  }

  /** Up to a place inside an attempt every attempt but the one under way has ended, so if just one
      was begun none has ended. */
  lemma {:induction false} AttemptsBegun(cfg: Config, m: Monitor, trace: seq<Event>)
    requires m.clock >= 0 && Run(cfg, m, trace).Some? && !Run(cfg, m, trace).value.pc.Between?
    ensures var begun := Run(cfg, m, trace).value.attempts - m.attempts;
            && begun >= (if m.pc.Between? then 1 else 0)
            && (begun == (if m.pc.Between? then 1 else 0) ==> forall i | 0 <= i < |trace| :: !trace[i].Limited?)
    decreases |trace|
  {
    if trace != [] {
      AttemptsBegun(cfg, Advance(cfg, m, trace[0]).value, trace[1..]);
      assert forall i | 0 < i < |trace| :: trace[i] == trace[1..][i - 1];
    }
  }

  // ----- no request before a deadline -----

  predicate IsRequest(e: Event) {
    e.Start? || e.Password? || e.Submit? || e.Impersonate?
  }

  /** After a rate-limited ending with a pending deadline, everything later in the login
      happens at or after that deadline: the monitor is either still between attempts, with
      the deadline in `notBefore`, or past it. */
  lemma {:induction false} DeadlineKept(cfg: Config, m: Monitor, trace: seq<Event>, deadline: int, j: nat)
    requires m.clock >= 0 && Run(cfg, m, trace).Some? && j < |trace| && IsRequest(trace[j])
    requires m.clock >= deadline || (m.pc.Between? && m.attempts > 0 && m.notBefore == Some(deadline))
    ensures trace[j].at >= deadline
    decreases j
  {
    var next := Advance(cfg, m, trace[0]).value;
    if j > 0 {
      assert trace[1..][j - 1] == trace[j];
      DeadlineKept(cfg, next, trace[1..], deadline, j - 1);
    }
  }

  /** Each retry starts no earlier than the end of the rate-limited attempt before it plus the
      Retry-After it was given, or else the backoff: no request of any stage is sent before. */
  lemma {:induction false} NoRequestBeforeDeadline(cfg: Config, m: Monitor, trace: seq<Event>, i: nat, j: nat)
    requires m.clock >= 0 && Run(cfg, m, trace).Some?
    requires i < j < |trace| && trace[i].Limited? && IsRequest(trace[j])
    ensures trace[j].at >= trace[i].at + trace[i].delay
  {
    RunAt(cfg, m, trace, i);
    var before := Run(cfg, m, trace[..i]).value;
    var after := Advance(cfg, before, trace[i]).value;
    assert trace[i..][0] == trace[i] && trace[i..][1..] == trace[i + 1..];
    assert trace[i + 1..][j - i - 1] == trace[j];
    DeadlineKept(cfg, after, trace[i + 1..], trace[i].at + trace[i].delay, j - i - 1);
  }

  // ----- the order of events -----

  /** What comes right before an event. */
  predicate Follows(cfg: Config, before: Event, e: Event) {
    match e
    case Start(_) => before.Limited?
    case Floor(_, _) => before.Start?
    case Pass(_) => before.Floor?
    case Password(_) => before.Pass?
    case PasswordOk(_) => before.Password?
    case Submit(_, _) => before.PasswordOk? || before.Submit?
    case Accept(_, step) => before.Submit? && before.step == step
    case Persist(_, step) => cfg.store && before.Accept? && before.step == step
    case Impersonate(_) => cfg.impersonate && if cfg.store then before.Persist? else before.Accept?
    case Impersonated(_) => before.Impersonate?
    case Limited(_, _, _) => !before.Limited?
  }

  /** The place an event leads to tells the event. */
  lemma PlaceTells(cfg: Config, m: Monitor, e: Event)
    requires m.clock >= 0 && Advance(cfg, m, e).Some?
    ensures var pc := Advance(cfg, m, e).value.pc;
            && (pc.Between? <==> e.Limited?) && (pc.Started? <==> e.Start?) && (pc.Floored? <==> e.Floor?)
            && (pc.Passed? <==> e.Pass?) && (pc.PasswordSent? <==> e.Password?) && (pc.LoggedIn? <==> e.PasswordOk?)
            && (pc.Submitted? <==> e.Submit?) && (pc.Submitted? ==> pc.step == e.step)
            && (pc.Spent? <==> e.Accept?) && (pc.Spent? ==> pc.step == e.step)
            && (pc.Persisted? <==> e.Persist?) && (pc.Persisted? ==> pc.step == e.step)
            && (pc.ImpersonateSent? <==> e.Impersonate?) && (pc.ImpersonateDone? <==> e.Impersonated?)
  {
  }

  /** The events of a login come in one order only: an attempt begins first or after a rate-limited
      one, and each stage follows the one before it, up to a second submission of a code. */
  lemma {:induction false} EventOrder(cfg: Config, m: Monitor, trace: seq<Event>, i: nat)
    requires m.clock >= 0 && m.pc.Between? && Run(cfg, m, trace).Some? && i < |trace|
    ensures if i == 0 then trace[0].Start? else Follows(cfg, trace[i - 1], trace[i])
    ensures i > 1 && trace[i].Submit? && trace[i - 1].Submit? ==> trace[i - 2].PasswordOk?
  {
    RunAt(cfg, m, trace, i);
    if i > 0 {
      RunAt(cfg, m, trace, i - 1);
      PlaceTells(cfg, Run(cfg, m, trace[..i - 1]).value, trace[i - 1]);
      if i > 1 {
        RunAt(cfg, m, trace, i - 2);
        PlaceTells(cfg, Run(cfg, m, trace[..i - 2]).value, trace[i - 2]);
      }
    }
  }

  // ----- submissions are above the step read -----

  /** What a place in the protocol knows of the step it will submit: past the wait, the
      current step is above the floor. */
  ghost predicate AboveFloor(m: Monitor) {
    && m.clock >= 0
    && ((m.pc.Passed? || m.pc.PasswordSent? || m.pc.LoggedIn? || m.pc.Submitted?) && m.pc.floor.Some? ==>
          OtpCoordination.StepOf(m.clock) > m.pc.floor.value)
    && (m.pc.Submitted? && m.pc.floor.Some? ==> m.pc.step > m.pc.floor.value)
    && (m.pc.Submitted? ==> m.pc.step <= OtpCoordination.StepOf(m.clock))
  }

  lemma AdvanceKeepsAboveFloor(cfg: Config, m: Monitor, e: Event)
    requires AboveFloor(m) && Advance(cfg, m, e).Some?
    ensures AboveFloor(Advance(cfg, m, e).value)
  {
    OtpCoordination.StepMonotone(m.clock, e.at);
  }

  // ----- what a completed login has behind it -----

  datatype Milestone = PasswordStage | OtpStage | StoreStage | ImpersonationStage

  /** The stages answered with success since the latest attempt began, in order. */
  function Milestones(trace: seq<Event>): seq<Milestone> {
    if trace == [] then []
    else
      var before := Milestones(trace[..|trace| - 1]);
      match trace[|trace| - 1]
      case Start(_) => []
      case PasswordOk(_) => before + [PasswordStage]
      case Accept(_, _) => before + [OtpStage]
      case Persist(_, _) => before + [StoreStage]
      case Impersonated(_) => before + [ImpersonationStage]
      case _ => before
  }

  /** Every stage the configuration asks for. */
  function AllStages(cfg: Config): seq<Milestone> {
    [PasswordStage, OtpStage] + (if cfg.store then [StoreStage] else [])
    + if cfg.impersonate then [ImpersonationStage] else []
  }

  /** The stages behind a place in an attempt. */
  function Behind(cfg: Config, pc: Pc): seq<Milestone> {
    match pc
    case LoggedIn(_) => [PasswordStage]
    case Submitted(_, _, _) => [PasswordStage]
    case Spent(_) => [PasswordStage, OtpStage]
    case Persisted(_) => [PasswordStage, OtpStage, StoreStage]
    case ImpersonateSent => AllStages(cfg.(impersonate := false))
    case ImpersonateDone => AllStages(cfg)
    case _ => []
  }

  lemma {:induction false} MilestonesBehind(cfg: Config, m: Monitor, trace: seq<Event>)
    requires m.clock >= 0 && m.pc.Between? && Run(cfg, m, trace).Some? && !Run(cfg, m, trace).value.pc.Between?
    ensures var pc := Run(cfg, m, trace).value.pc;
            && Milestones(trace) == Behind(cfg, pc)
            && (pc.Persisted? ==> cfg.store) && (pc.ImpersonateSent? || pc.ImpersonateDone? ==> cfg.impersonate)
    decreases |trace|
  {
    if trace != [] {
      var front, e := trace[..|trace| - 1], trace[|trace| - 1];
      assert trace == front + [e];
      RunSplit(cfg, m, front, [e]);
      if !Run(cfg, m, front).value.pc.Between? {
        MilestonesBehind(cfg, m, front);
      }
    }
  }

  /** A login that is complete has passed every configured stage in one attempt and in order:
      password, OTP, the record of the accepted step, impersonation. */
  lemma {:induction false} CompleteMeansStages(cfg: Config, at: int, notBefore: Stamp, trace: seq<Event>)
    requires at >= 0 && Run(cfg, Begin(at, notBefore), trace).Some?
    requires Complete(cfg, Run(cfg, Begin(at, notBefore), trace).value)
    ensures Milestones(trace) == AllStages(cfg)
  {
    MilestonesBehind(cfg, Begin(at, notBefore), trace);
  }

  // ----- runs of the protocol exist -----

  /** The events of an attempt up to its password, when the step read needs no wait. */
  function UpToPassword(at: int, known: Option<int>): seq<Event> {
    [Start(at), Floor(at, known), Pass(at), Password(at)]
  }

  /** The rest of an attempt that goes well at once. */
  function Rest(cfg: Config, at: int, step: int): seq<Event> {
    [PasswordOk(at), Submit(at, step), Accept(at, step)] + AfterAccept(cfg, at, step)
  }

  function AfterAccept(cfg: Config, at: int, step: int): seq<Event> {
    (if cfg.store then [Persist(at, step)] else [])
    + if cfg.impersonate then [Impersonate(at), Impersonated(at)] else []
  }

  predicate PlainAt(trace: seq<Event>, at: int) {
    forall i | 0 <= i < |trace| :: trace[i].at == at && !trace[i].Limited?
  }

  lemma {:induction false} PasswordReached(cfg: Config, m: Monitor, at: int, known: Option<int>)
    requires 0 <= m.clock <= at && m.pc.Between? && m.attempts < cfg.max
    requires m.attempts > 0 ==> !Pending(m.notBefore, at)
    requires known.Some? ==> OtpCoordination.StepOf(at) > known.value
    ensures Run(cfg, m, UpToPassword(at, known)) == Some(Monitor(PasswordSent(known), m.attempts + 1, at, m.notBefore))
    ensures PlainAt(UpToPassword(at, known), at)
  {
    var floor := Floor(at, known);
    RunSnoc(cfg, m, [], Start(at));
    RunSnoc(cfg, m, [Start(at)], floor);
    RunSnoc(cfg, m, [Start(at), floor], Pass(at));
    RunSnoc(cfg, m, [Start(at), floor, Pass(at)], Password(at));
    assert UpToPassword(at, known) == [Start(at), floor, Pass(at)] + [Password(at)];
    assert [Start(at), floor, Pass(at)] == [Start(at), floor] + [Pass(at)];
    assert [Start(at), floor] == [Start(at)] + [floor];
    assert [] + [Start(at)] == [Start(at)];
  }

  lemma {:induction false} OtpReached(cfg: Config, m: Monitor, at: int, step: int)
    requires at >= 0 && m.clock == at && m.pc.PasswordSent? && step == OtpCoordination.StepOf(at)
    ensures Run(cfg, m, [PasswordOk(at), Submit(at, step), Accept(at, step)]) == Some(m.(pc := Spent(step)))
  {
    RunSnoc(cfg, m, [], PasswordOk(at));
    RunSnoc(cfg, m, [PasswordOk(at)], Submit(at, step));
    RunSnoc(cfg, m, [PasswordOk(at), Submit(at, step)], Accept(at, step));
    var two := [PasswordOk(at), Submit(at, step)];
    assert [PasswordOk(at), Submit(at, step), Accept(at, step)] == two + [Accept(at, step)];
    assert two == [PasswordOk(at)] + [Submit(at, step)];
    assert [] + [PasswordOk(at)] == [PasswordOk(at)];
  }

  lemma {:induction false} StoreReached(cfg: Config, m: Monitor, at: int, step: int)
    requires at >= 0 && m.clock == at && m.pc == Spent(step) && cfg.store
    ensures Run(cfg, m, [Persist(at, step)]) == Some(m.(pc := Persisted(step)))
  {
    RunSnoc(cfg, m, [], Persist(at, step));
    assert [] + [Persist(at, step)] == [Persist(at, step)];
  }

  lemma {:induction false} ImpersonationReached(cfg: Config, m: Monitor, at: int)
    requires at >= 0 && m.clock == at && cfg.impersonate && if cfg.store then m.pc.Persisted? else m.pc.Spent?
    ensures Run(cfg, m, [Impersonate(at), Impersonated(at)]) == Some(m.(pc := ImpersonateDone))
  {
    RunSnoc(cfg, m, [], Impersonate(at));
    RunSnoc(cfg, m, [Impersonate(at)], Impersonated(at));
    assert [] + [Impersonate(at)] == [Impersonate(at)];
    assert [Impersonate(at), Impersonated(at)] == [Impersonate(at)] + [Impersonated(at)];
  }

  /** Whatever the configuration, an attempt can go well. */
  lemma {:induction false} RestCompletes(cfg: Config, m: Monitor, at: int)
    requires at >= 0 && m.clock == at && m.pc.PasswordSent?
    ensures var rest := Rest(cfg, at, OtpCoordination.StepOf(at));
            && PlainAt(rest, at) && Run(cfg, m, rest).Some? && Complete(cfg, Run(cfg, m, rest).value)
  {
    var step := OtpCoordination.StepOf(at);
    var otp := [PasswordOk(at), Submit(at, step), Accept(at, step)];
    var store := if cfg.store then [Persist(at, step)] else [];
    var last := if cfg.impersonate then [Impersonate(at), Impersonated(at)] else [];
    OtpReached(cfg, m, at, step);
    var m1 := m.(pc := Spent(step));
    RunSplit(cfg, m, otp, store);
    if cfg.store {
      StoreReached(cfg, m1, at, step);
    }
    var m2 := if cfg.store then m.(pc := Persisted(step)) else m1;
    RunSplit(cfg, m, otp + store, last);
    assert otp + store + last == otp + (store + last);
    if cfg.impersonate {
      ImpersonationReached(cfg, m2, at);
    }
  }
}

/** session.go: the handshake and the attempt loop of `refresher.login`, and the wait of
    otp_coordination.go they use. The methods run against an arbitrary environment and are
    proved to follow the protocol of module LoginProtocol. */
module Login {
  import opened Prelude
  import opened AuthErrors
  import opened LoginProtocol
  import opened OtpCoordination
  import Backoff

  /** What came of a request: no usable response, or a status with its body and the parsed
      Retry-After. */
  datatype Reply = NoAnswer(err: Err) | Answer(status: int, body: string, retryAfter: int)

  /** What came of reading the accepted step from the store. */
  datatype Stored = Unread(err: Err) | Read(step: Option<int>)

  /** Everything outside the program, as a function of the moment of the interaction:
      moments are numbered in program order. `ended` is ctx.Err(), `sleep` the error a sleep
      of a given length returns, `persist` the error of saving the accepted step, `code` the error of computing a
      TOTP code from the secret, `jitter` the random delay. */
  datatype Env = Env(
    clock: nat -> int,
    ended: nat -> Option<Err>,
    sleep: (nat, int) -> Option<Err>,
    reply: nat -> Reply,
    stored: nat -> Stored,
    persist: nat -> Option<Err>,
    code: nat -> Option<Err>,
    jitter: (nat, int) -> int)

  /** An error that contains no AuthError. */
  predicate Plain(err: Option<Err>) {
    err.Some? ==> AsAuth(err.value).None?
  }

  /** An error that is no reply of the server either. */
  predicate Inner(err: Option<Err>) {
    Plain(err) && (err.Some? ==> AsApi(err.value).None?)
  }

  /** The clock starts at or after the epoch and never runs backwards, jitter stays in its
      range, only answers of the server carry an APIError, and nothing outside makes an
      AuthError. Nothing else is assumed. */
  ghost predicate Sane(env: Env) {
    && (forall i: nat :: env.clock(i) >= 0)
    && (forall i: nat, j: nat | i <= j :: env.clock(i) <= env.clock(j))
    && (forall i: nat :: Inner(env.persist(i)))
    && (forall i: nat :: Inner(env.code(i)))
    && (forall i: nat :: Inner(env.ended(i)))
    && (forall i: nat, d: int :: Inner(env.sleep(i, d)))
    && (forall i: nat | env.stored(i).Unread? :: Inner(Some(env.stored(i).err)))
    && (forall i: nat | env.reply(i).NoAnswer? :: Inner(Some(env.reply(i).err)))
    && (forall i: nat, d: int :: d > 0 ==> Backoff.Jittered(d, env.jitter(i, d)))
  }

  const STUCK := Other("cloudsigma: clock did not advance during accepted OTP wait")
  const BEHIND := Other("cloudsigma: clock did not advance past accepted OTP step")

  /** Why a wait for the step after `accepted`, begun at moment `start`, fails at moment `k`: an ended
      context; a failed sleep until one second into that step; or a clock that stood still over the
      sleep. */
  predicate CannotWait(env: Env, accepted: int, start: nat, k: nat, raw: Err) {
    || env.ended(k) == Some(raw)
    || (k >= start + 2 && env.sleep(k, ((accepted + 1) * 30 + 1) * 1_000_000_000 - env.clock(k - 1)) == Some(raw))
    || (k >= start + 3 && raw == STUCK && env.clock(k) == env.clock(k - 2))
  }

  /** waitForAcceptedOTPStep. It terminates whatever the sleeps do; it succeeds only past the
      accepted step; every failure is an ended context, a failed sleep until one second into the
      step after it, or a clock that stood still, and the branch that finds no time left to wait
      is never taken. */
  method WaitForAccepted(env: Env, start: nat, accepted: int) returns (err: Option<Err>, k: nat)
    requires Sane(env)
    ensures k > start
    ensures err.None? ==> StepOf(env.clock(k - 1)) > accepted
    ensures err.Some? ==> CannotWait(env, accepted, start, k - 1, err.value)
    ensures StepOf(env.clock(start + 1)) <= accepted && env.ended(start).None? && err.None? ==>
              env.clock(k - 1) > env.clock(start + 1)
    ensures Plain(err)
  {
    k := start;
    while true
      invariant k >= start
      invariant k > start ==> env.clock(k - 1) > env.clock(start + 1)
      decreases WakeTime(accepted) - (if k > start then env.clock(k - 1) else -1)
    {
      err := env.ended(k);
      k := k + 1;
      if err.Some? {
        return;
      }
      var before := env.clock(k);
      k := k + 1;
      if StepOf(before) > accepted {
        return;
      }
      var delay := WakeTime(accepted) - before;
      if delay <= 0 {
        WakeIsPast(accepted, before);
        return Some(BEHIND), k;
      }
      err := env.sleep(k, delay);
      k := k + 1;
      if err.Some? {
        return;
      }
      var after := env.clock(k);
      k := k + 1;
      if after <= before {
        return Some(STUCK), k;
      }
    }
  }

  /** The state of one handshake: events so far, next moment, and the in-process table's entry
      for this account and secret, which nobody else changes while the account is held. */
  datatype Progress = Progress(trace: seq<Event>, k: nat, table: Option<int>)

  /** The larger of two optional steps: what rememberAcceptedOTPStep leaves in the table. */
  function Merge(known: Option<int>, step: int): Option<int> {
    if known.None? || step > known.value then Some(step) else known
  }

  lemma MergeIsMax(known: Option<int>, step: int)
    ensures Merge(known, step) == Some(if known.Some? then Max(known.value, step) else step)
  {
  }

  predicate AtLeast(known: Option<int>, step: int) {
    known.Some? && step <= known.value
  }

  predicate CoveredAt(table: Option<int>, trace: seq<Event>, i: int)
    requires 0 <= i < |trace|
  {
    trace[i].Accept? ==> AtLeast(table, trace[i].step)
  }

  /** Every recording in the trace is in the table. */
  ghost predicate Covers(table: Option<int>, trace: seq<Event>) {
    forall i | 0 <= i < |trace| :: CoveredAt(table, trace, i)
  }

  predicate BelowAt(trace: seq<Event>, i: int, step: int)
    requires 0 <= i < |trace|
  {
    trace[i].Accept? ==> trace[i].step < step
  }

  ghost predicate NewAt(known: Option<int>, trace: seq<Event>, j: int)
    requires 0 <= j < |trace|
  {
    trace[j].Submit? ==>
      && (known.Some? ==> trace[j].step > known.value)
      && forall i | 0 <= i < j :: BelowAt(trace, i, trace[j].step)
  }

  /** Every submission is above everything known at the start and recorded before it. */
  ghost predicate NoReplay(known: Option<int>, trace: seq<Event>) {
    forall j | 0 <= j < |trace| :: NewAt(known, trace, j)
  }

  /** Event `i` is a success, and the request just before it was answered with a 2xx at moment `k`. */
  predicate Granted(env: Env, trace: seq<Event>, i: nat, k: nat) {
    && 0 < i < |trace| && k > 0
    && trace[i - 1].at == env.clock(k - 1) && trace[i].at >= env.clock(k)
    && env.reply(k).Answer? && 200 <= env.reply(k).status < 300
    && (match trace[i]
        case PasswordOk(_) => trace[i - 1].Password?
        case Accept(_, step) => trace[i - 1].Submit? && trace[i - 1].step == step
        case Impersonated(_) => trace[i - 1].Impersonate?
        case _ => false)
  }

  predicate Succeeds(e: Event) {
    e.PasswordOk? || e.Accept? || e.Impersonated?
  }

  ghost predicate GrantedAt(env: Env, trace: seq<Event>, i: int)
    requires 0 <= i < |trace|
  {
    Succeeds(trace[i]) ==> exists k: nat :: Granted(env, trace, i, k)
  }

  /** No stage counts as passed without such an answer. */
  ghost predicate AllGranted(env: Env, trace: seq<Event>) {
    forall i | 0 <= i < |trace| :: GrantedAt(env, trace, i)
  }

  lemma GrantsGrow(env: Env, trace: seq<Event>, e: Event)
    requires AllGranted(env, trace) && GrantedAt(env, trace + [e], |trace|)
    ensures AllGranted(env, trace + [e])
  {
    var after := trace + [e];
    forall i | 0 <= i < |after|
      ensures GrantedAt(env, after, i)
    {
      if i < |trace| && Succeeds(after[i]) {
        assert GrantedAt(env, trace, i);
        var k: nat :| Granted(env, trace, i, k);
        assert Granted(env, after, i, k);
      }
    }
  }

  lemma SubmissionsGrow(known: Option<int>, trace: seq<Event>, e: Event)
    requires NoReplay(known, trace) && NewAt(known, trace + [e], |trace|)
    ensures NoReplay(known, trace + [e])
  {
    var after := trace + [e];
    forall j | 0 <= j < |trace|
      ensures NewAt(known, after, j)
    {
      assert NewAt(known, trace, j);
      forall i | 0 <= i < j && after[j].Submit?
        ensures BelowAt(after, i, after[j].step)
      {
        assert BelowAt(trace, i, trace[j].step);
      }
    }
  }

  lemma RecordsGrow(table: Option<int>, trace: seq<Event>, e: Event, table': Option<int>)
    requires Covers(table, trace) && CoveredAt(table', trace + [e], |trace|)
    requires table.Some? ==> AtLeast(table', table.value)
    ensures Covers(table', trace + [e])
  {
    forall i | 0 <= i < |trace|
      ensures CoveredAt(table', trace + [e], i)
    {
      assert CoveredAt(table, trace, i);
    }
  }

  /** A handshake or login so far: the protocol has been followed from `m0` to `m`, no known
      step was replayed, and every recording is remembered. */
  ghost predicate Follows(cfg: Config, env: Env, m0: Monitor, known: Option<int>, p: Progress, m: Monitor) {
    && m0.clock >= 0
    && Run(cfg, m0, p.trace) == Some(m)
    && m.clock <= env.clock(p.k)
    && AboveFloor(m)
    && NoReplay(known, p.trace)
    && Covers(p.table, p.trace)
    && (known.Some? ==> AtLeast(p.table, known.value))
    && FloorKnows(m, p.table)
    && AllGranted(env, p.trace)
  }

  /** Between the read and the next recording the floor is the whole table. */
  ghost predicate FloorKnows(m: Monitor, table: Option<int>) {
    m.pc.Floored? || m.pc.Passed? || m.pc.PasswordSent? || m.pc.LoggedIn? || m.pc.Submitted? ==>
      m.pc.floor == table
  }

  /** Adding an event the monitor accepts. */
  lemma Emit(cfg: Config, env: Env, m0: Monitor, known: Option<int>, p: Progress, m: Monitor, e: Event,
             p': Progress)
    requires Sane(env) && Follows(cfg, env, m0, known, p, m)
    requires Advance(cfg, m, e).Some? && p'.trace == p.trace + [e] && e.at <= env.clock(p'.k)
    requires if e.Accept? then p'.table == Merge(p.table, e.step)
             else if e.Floor? then e.known == p'.table && (p.table.Some? ==> AtLeast(p'.table, p.table.value))
             else p'.table == p.table
    requires GrantedAt(env, p'.trace, |p.trace|)
    ensures Follows(cfg, env, m0, known, p', Advance(cfg, m, e).value)
  {
    GrantsGrow(env, p.trace, e);
    RunSnoc(cfg, m0, p.trace, e);
    AdvanceKeepsAboveFloor(cfg, m, e);
    var m' := Advance(cfg, m, e).value;
    StepMonotone(m.clock, e.at);
    RecordsGrow(p.table, p.trace, e, p'.table);
    if e.Submit? {
      assert AboveFloor(m') && m'.pc.Submitted? && m'.pc.floor == p.table;
      forall i | 0 <= i < |p.trace|
        ensures BelowAt(p'.trace, i, e.step)
      {
        assert CoveredAt(p.table, p.trace, i);
      }
    }
    SubmissionsGrow(known, p.trace, e);
  }

  /** The next event, other than a read, happens before moment `k`. */
  method Happen(cfg: Config, env: Env, ghost m0: Monitor, ghost known: Option<int>, p0: Progress,
                ghost start: Monitor, e: Event, k: nat)
    returns (p: Progress, ghost m: Monitor)
    requires Sane(env) && Follows(cfg, env, m0, known, p0, start) && !e.Floor?
    requires Advance(cfg, start, e).Some? && e.at <= env.clock(k)
    requires GrantedAt(env, p0.trace + [e], |p0.trace|)
    ensures p == Progress(p0.trace + [e], k, if e.Accept? then Merge(p0.table, e.step) else p0.table)
    ensures Some(m) == Advance(cfg, start, e) && Follows(cfg, env, m0, known, p, m)
  {
    p := Progress(p0.trace + [e], k, if e.Accept? then Merge(p0.table, e.step) else p0.table);
    m := Advance(cfg, start, e).value;
    Emit(cfg, env, m0, known, p0, start, e, p);
  }

  /** Time may pass between events. */
  lemma Idle(cfg: Config, env: Env, m0: Monitor, known: Option<int>, p: Progress, m: Monitor, k: nat)
    requires Sane(env) && Follows(cfg, env, m0, known, p, m) && k >= p.k
    ensures Follows(cfg, env, m0, known, p.(k := k), m)
  {
  }

  /** The error of a store operation on the accepted step: an ended context stays one, anything
      else fails closed as a storage error. */
  function StoreError(e: Err): Err {
    if IsEnded(e) then e else Storage(e)
  }

  /** A failed disk is a storage failure at every stage, whatever the error wraps; an ended context is
      not, and stays recognizable. */
  lemma {:induction false} StoreFailureKind(stage: Stage, e: Err)
    requires AsAuth(e).None?
    ensures !IsEnded(e) ==> Classify(stage, StoreError(e)).kind == StorageFailure
    ensures IsEnded(e) ==> Classify(stage, StoreError(e)) == Classify(stage, e) && IsEnded(Classify(stage, e))
  {
    ClassifyKeepsEnded(stage, e);
  }

  predicate Success(r: Reply) {
    r.Answer? && 200 <= r.status <= 299
  }

  /** The error doJSON makes of a reply that is not a 2xx. */
  function ReplyError(r: Reply): Err {
    if r.NoAnswer? then r.err else Response(r.status, r.body, r.retryAfter)
  }

  /** The error carries the whole reply: the failure to get an answer, or the answer's status, body and
      Retry-After. */
  predicate Carries(e: Err, r: Reply) {
    match r
    case NoAnswer(failure) => e == failure
    case Answer(status, body, retryAfter) => e == Response(status, body, retryAfter)
  }

  function ReadError(cfg: Config, env: Env, k: nat): Option<Err> {
    if env.ended(k).Some? then env.ended(k)
    else if cfg.store && env.stored(k + 1).Unread? then Some(StoreError(env.stored(k + 1).err))
    else None
  }

  /** The step to get past: the larger of the remembered and the stored one. */
  function FloorOf(cfg: Config, env: Env, p: Progress): Option<int> {
    if cfg.store && env.stored(p.k + 1).Read? && env.stored(p.k + 1).step.Some?
    then Merge(p.table, env.stored(p.k + 1).step.value)
    else p.table
  }

  function Refusal(r: Reply): Option<Err> {
    if Success(r) then None else Some(ReplyError(r))
  }

  /** The reply at moment `k` is not a 2xx, and answers the latest event of the protocol, a request
      sent at the moment before. */
  predicate Refused(env: Env, m: Monitor, k: nat, raw: Err) {
    k > 0 && m.clock == env.clock(k - 1) && Refusal(env.reply(k)) == Some(raw)
  }

  /** An OTP rejection other than a rate limit earns one submission in the next window. */
  predicate Retriable(err: Option<Err>) {
    && err.Some?
    && !IsRateLimited(err.value)
    && AsApi(err.value).Some? && AsApi(err.value).value.status == 401
  }

  /** Such a rejection came `ago` moments before. */
  predicate RejectedAgo(env: Env, k: nat, ago: nat) {
    k >= ago && Retriable(Refusal(env.reply(k - ago)))
  }

  /** What waitForNextWindow sleeps when it reads the clock at moment `k` and again after: until one
      second into the next step. */
  function UntilNextWindow(env: Env, k: nat): int {
    (env.clock(k) / 1_000_000_000 / 30 * 30 + 31) * 1_000_000_000 - env.clock(k + 1)
  }

  lemma WindowIsWake(env: Env, k: nat)
    requires Sane(env)
    ensures UntilNextWindow(env, k) == WakeTime(StepOf(env.clock(k))) - env.clock(k + 1)
  {
  }

  /** What went wrong at the last moment before `end`, by the place the attempt has come to: an ended
      context, a failed read, sleep, code or save, a clock that stood still, or a reply that is not a
      2xx, of which an OTP rejection that earns another submission is not the end. */
  predicate Cause(cfg: Config, env: Env, m: Monitor, end: nat, raw: Err) {
    end > 0
    && var k := end - 1;
    match m.pc
    case Started =>
      || env.ended(k) == Some(raw)
      || (cfg.store && env.stored(k).Unread? && raw == StoreError(env.stored(k).err))
    case Floored(floor) => env.ended(k) == Some(raw) || (floor.Some? && CannotWait(env, floor.value, 0, k, raw))
    case PasswordSent(_) => Refused(env, m, k, raw)
    case LoggedIn(_) => env.code(k) == Some(raw)
    case Submitted(_, tries, _) =>
      || (Refused(env, m, k, raw) && (tries == 1 ==> !Retriable(Some(raw))))
      || (tries == 1 && k >= 3 && env.sleep(k, UntilNextWindow(env, k - 2)) == Some(raw) && RejectedAgo(env, k, 3))
      || (tries == 1 && env.code(k) == Some(raw) && RejectedAgo(env, k, 4))
    case Spent(_) => cfg.store && env.persist(k).Some? && raw == StoreError(env.persist(k).value)
    case ImpersonateSent => Refused(env, m, k, raw)
    case _ => false
  }

  /** The first half of beforeHandshake: read the accepted step and merge the stored one. */
  method ReadFloor(cfg: Config, env: Env, ghost m0: Monitor, ghost known: Option<int>, p0: Progress,
                   ghost start: Monitor)
    returns (err: Option<Err>, p: Progress, ghost m: Monitor)
    requires Sane(env) && Follows(cfg, env, m0, known, p0, start) && start.pc.Started?
    ensures Follows(cfg, env, m0, known, p, m)
    ensures m.attempts == start.attempts && m.notBefore == start.notBefore && p.k > p0.k
    ensures if err.None? then m.pc.Floored? && m.clock == env.clock(p.k) else m.pc.Started?
    ensures err == ReadError(cfg, env, p0.k)
    ensures if err.None? then p.table == FloorOf(cfg, env, p0) && p.trace == p0.trace + [Floor(env.clock(p.k), p.table)]
            else p.table == p0.table && p.trace == p0.trace
    ensures err.None? <==>
              env.ended(p0.k).None? && (cfg.store ==> env.stored(p0.k + 1).Read?)
    ensures err.None? ==>
              && (p0.table.Some? ==> AtLeast(p.table, p0.table.value))
              && (cfg.store && env.stored(p0.k + 1).step.Some? ==> AtLeast(p.table, env.stored(p0.k + 1).step.value))
              && (p.table == p0.table || (cfg.store && p.table == env.stored(p0.k + 1).step))
    ensures err.Some? ==>
              err.value == if env.ended(p0.k).Some? then env.ended(p0.k).value
                           else if IsEnded(env.stored(p0.k + 1).err) then env.stored(p0.k + 1).err
                           else Storage(env.stored(p0.k + 1).err)
    ensures Plain(err) && (err.Some? ==> Cause(cfg, env, m, p.k, err.value))
  {
    var k := p0.k + 1;
    err := env.ended(p0.k);
    var floor := p0.table;
    if err.None? && cfg.store {
      var stored := env.stored(k);
      k := k + 1;
      if stored.Unread? {
        err := Some(StoreError(stored.err));
      } else if stored.step.Some? && (floor.None? || stored.step.value > floor.value) {
        floor := stored.step;
      }
    }
    if err.Some? {
      p, m := p0.(k := k), start;
      return;
    }
    ghost var read := Floor(env.clock(k), floor);
    p, m := Progress(p0.trace + [Floor(env.clock(k), floor)], k, floor), Advance(cfg, start, read).value;
    Emit(cfg, env, m0, known, p0, start, read, p);
  }

  /** The wait of the second half, when the clock is read at moment `start`: none if the present step
      is past the floor already. */
  method AwaitFloor(env: Env, start: nat, floor: Option<int>) returns (err: Option<Err>, at: int, k: nat)
    requires Sane(env)
    ensures k > start + 1 && env.clock(start) <= at <= env.clock(k)
    ensures err.None? && floor.Some? ==> StepOf(at) > floor.value
    ensures err.Some? ==>
              env.ended(k - 1) == err || (floor.Some? && CannotWait(env, floor.value, start, k - 1, err.value))
    ensures Plain(err)
  {
    at, k := env.clock(start), start + 1;
    if floor.Some? && StepOf(at) <= floor.value {
      err, k := WaitForAccepted(env, k, floor.value);
      at := env.clock(k - 1);
    } else {
      err := env.ended(k);
      k := k + 1;
    }
  }

  /** The second half: wait until the current step is past the floor. */
  method PassFloor(cfg: Config, env: Env, ghost m0: Monitor, ghost known: Option<int>, p0: Progress,
                   ghost start: Monitor)
    returns (err: Option<Err>, p: Progress, ghost m: Monitor)
    requires Sane(env) && Follows(cfg, env, m0, known, p0, start)
    requires start.pc.Floored? && start.clock == env.clock(p0.k)
    ensures Follows(cfg, env, m0, known, p, m)
    ensures m.attempts == start.attempts && m.notBefore == start.notBefore && p.k > p0.k
    ensures if err.None? then m.pc.Passed? else m.pc.Floored?
    ensures p.table == p0.table
    ensures err.None? ==> exists at ::
              && p.trace == p0.trace + [Pass(at)] && at <= env.clock(p.k)
              && (p.table.Some? ==> at >= 0 && StepOf(at) > p.table.value)
    ensures err.Some? ==> p.trace == p0.trace
    ensures Plain(err) && (err.Some? ==> Cause(cfg, env, m, p.k, err.value))
  {
    var at, k;
    err, at, k := AwaitFloor(env, p0.k, p0.table);
    if err.Some? {
      p, m := p0.(k := k), start;
      return;
    }
    p, m := Happen(cfg, env, m0, known, p0, start, Pass(at), k);
  }

  /** The password stage. */
  method SendPassword(cfg: Config, env: Env, ghost m0: Monitor, ghost known: Option<int>, p0: Progress,
                      ghost start: Monitor)
    returns (err: Option<Err>, p: Progress, ghost m: Monitor)
    requires Sane(env) && Follows(cfg, env, m0, known, p0, start) && start.pc.Passed?
    ensures Follows(cfg, env, m0, known, p, m)
    ensures m.attempts == start.attempts && m.notBefore == start.notBefore && p.k > p0.k
    ensures if err.None? then m.pc.LoggedIn? else m.pc.PasswordSent?
    ensures err.None? <==> env.reply(p0.k + 1).Answer? && 200 <= env.reply(p0.k + 1).status < 300
    ensures err.Some? ==> Carries(err.value, env.reply(p0.k + 1))
    ensures p.table == p0.table
    ensures p.trace == p0.trace + [Password(env.clock(p0.k))]
                       + if err.None? then [PasswordOk(env.clock(p0.k + 1))] else []
    ensures Plain(err) && (err.Some? ==> Cause(cfg, env, m, p.k, err.value))
  {
    p, m := Happen(cfg, env, m0, known, p0, start, Password(env.clock(p0.k)), p0.k + 1);
    var reply := env.reply(p.k);
    if !Success(reply) {
      p := p.(k := p.k + 1);
      return Some(ReplyError(reply)), p, m;
    }
    err := None;
    assert Granted(env, p.trace + [PasswordOk(env.clock(p.k))], |p.trace|, p.k);
    p, m := Happen(cfg, env, m0, known, p, m, PasswordOk(env.clock(p.k)), p.k + 1);
  }

  /** Recording an accepted step: always in the process, then in the store if there is one. */
  method Record(cfg: Config, env: Env, ghost m0: Monitor, ghost known: Option<int>, p0: Progress,
                ghost start: Monitor, step: int)
    returns (err: Option<Err>, p: Progress, ghost m: Monitor)
    requires Sane(env) && Follows(cfg, env, m0, known, p0, start)
    requires start.pc.Submitted? && start.pc.step == step
    requires p0.trace != [] && p0.k > 1 && p0.trace[|p0.trace| - 1] == Submit(env.clock(p0.k - 2), step)
    requires env.reply(p0.k - 1).Answer? && 200 <= env.reply(p0.k - 1).status < 300
    ensures Follows(cfg, env, m0, known, p, m)
    ensures m.attempts == start.attempts && m.notBefore == start.notBefore && p.k > p0.k
    ensures if err.None? then m.pc == (if cfg.store then Persisted(step) else Spent(step))
            else m.pc.Spent? && AsApi(err.value).None?
    ensures err.Some? <==> cfg.store && env.persist(p0.k + 1).Some?
    ensures err.Some? ==>
              err.value == if IsEnded(env.persist(p0.k + 1).value) then env.persist(p0.k + 1).value
                           else Storage(env.persist(p0.k + 1).value)
    ensures p.table == Merge(p0.table, step)
    ensures p.trace == p0.trace + [Accept(env.clock(p0.k), step)]
                       + if cfg.store && err.None? then [Persist(env.clock(p0.k + 1), step)] else []
    ensures Plain(err) && (err.Some? ==> Cause(cfg, env, m, p.k, err.value))
  {
    assert Granted(env, p0.trace + [Accept(env.clock(p0.k), step)], |p0.trace|, p0.k - 1);
    p, m := Happen(cfg, env, m0, known, p0, start, Accept(env.clock(p0.k), step), p0.k + 1);
    err := None;
    if cfg.store {
      err, p, m := SaveStep(cfg, env, m0, known, p, m, step);
    }
  }

  /** The accepted step is written to the store. */
  method SaveStep(cfg: Config, env: Env, ghost m0: Monitor, ghost known: Option<int>, p0: Progress,
                  ghost start: Monitor, step: int)
    returns (err: Option<Err>, p: Progress, ghost m: Monitor)
    requires Sane(env) && Follows(cfg, env, m0, known, p0, start) && cfg.store && start.pc == Spent(step)
    ensures Follows(cfg, env, m0, known, p, m) && p.k == p0.k + 1 && p.table == p0.table
    ensures m.attempts == start.attempts && m.notBefore == start.notBefore
    ensures if err.None? then m.pc == Persisted(step) else m.pc == start.pc && AsApi(err.value).None?
    ensures err == if env.persist(p0.k).Some? then Some(StoreError(env.persist(p0.k).value)) else None
    ensures p.trace == p0.trace + if err.None? then [Persist(env.clock(p0.k), step)] else []
    ensures Plain(err)
  {
    var failed := env.persist(p0.k);
    if failed.Some? {
      Idle(cfg, env, m0, known, p0, start, p0.k + 1);
      p, m := p0.(k := p0.k + 1), start;
      return Some(StoreError(failed.value)), p, m;
    }
    err := None;
    p, m := Happen(cfg, env, m0, known, p0, start, Persist(env.clock(p0.k), step), p0.k + 1);
  }

  /** The stage an attempt that got this far fails in. */
  function StageAt(pc: Pc): Stage {
    match pc
    case LoggedIn(_) => OtpVerification
    case Submitted(_, _, _) => OtpVerification
    case Spent(_) => OtpVerification
    case Persisted(_) => OtpVerification
    case ImpersonateSent => Impersonation
    case _ => Stage.Login
  }

  /** The stage is read off the events of the attempt: none is behind it in the login stage, the
      password only, or the code too, in the OTP stage, and in the impersonation stage everything but
      the impersonation itself, which has been asked for. */
  lemma {:induction false} StageExact(cfg: Config, m0: Monitor, trace: seq<Event>)
    requires m0.clock >= 0 && m0.pc.Between? && Run(cfg, m0, trace).Some? && trace != []
    requires var m := Run(cfg, m0, trace).value; !m.pc.Between? && !Complete(cfg, m)
    ensures var stage := StageAt(Run(cfg, m0, trace).value.pc);
            && (stage == Stage.Login <==> Milestones(trace) == [])
            && (stage == Impersonation <==> trace[|trace| - 1].Impersonate?)
            && (stage == Impersonation ==> Milestones(trace) == AllStages(cfg.(impersonate := false)))
            && stage != SessionRecovery
  {
    MilestonesBehind(cfg, m0, trace);
    var front := trace[..|trace| - 1];
    assert trace == front + [trace[|trace| - 1]];
    RunSplit(cfg, m0, front, [trace[|trace| - 1]]);
  }

  /** A submission of the code of a moment. */
  function SubmitAt(env: Env, k: nat): Event
    requires env.clock(k) >= 0
  {
    Submit(env.clock(k), StepOf(env.clock(k)))
  }

  /** A code is computed for the present moment and submitted. */
  method SendCode(cfg: Config, env: Env, ghost m0: Monitor, ghost known: Option<int>, p0: Progress,
                  ghost start: Monitor)
    returns (err: Option<Err>, p: Progress, ghost m: Monitor)
    requires Sane(env) && Follows(cfg, env, m0, known, p0, start)
    requires start.pc.LoggedIn? || (start.pc.Submitted? && start.pc.tries == 1)
    ensures Follows(cfg, env, m0, known, p, m)
    ensures m.attempts == start.attempts && m.notBefore == start.notBefore && p.k > p0.k && p.table == p0.table
    ensures if env.code(p0.k).Some? then err == env.code(p0.k) && p.trace == p0.trace && p.k == p0.k + 1 && m == start
            else && err == Refusal(env.reply(p0.k + 1)) && p.k == p0.k + 2
                 && (err.None? <==> env.reply(p0.k + 1).Answer? && 200 <= env.reply(p0.k + 1).status < 300)
                 && (err.Some? ==> Carries(err.value, env.reply(p0.k + 1)))
                 && p.trace == p0.trace + [SubmitAt(env, p0.k)]
                 && m.pc.Submitted? && m.pc.step == StepOf(env.clock(p0.k)) && m.clock == env.clock(p0.k)
                 && m.pc.tries == (if start.pc.LoggedIn? then 1 else 2)
    ensures Plain(err) && (Retriable(err) <==> env.code(p0.k).None? && Rejected(env, p0.k))
    ensures err.Some? && start.pc.LoggedIn? && !Retriable(err) ==> Cause(cfg, env, m, p.k, err.value)
    ensures err.Some? && env.code(p0.k).None? ==> Refused(env, m, p.k - 1, err.value)
  {
    var usedAt := env.clock(p0.k);
    err := env.code(p0.k);
    if err.Some? {
      p, m := p0.(k := p0.k + 1), start;
      return;
    }
    p, m := Happen(cfg, env, m0, known, p0, start, Submit(usedAt, StepOf(usedAt)), p0.k + 1);
    var reply := env.reply(p.k);
    p := p.(k := p.k + 1);
    err := if Success(reply) then None else Some(ReplyError(reply));
  }

  /** The OTP stage, `verify` of the handshake: the step recorded on success is the one of the
      instant the code was computed for, whenever the reply arrives. */
  method Verify(cfg: Config, env: Env, ghost m0: Monitor, ghost known: Option<int>, p0: Progress,
                ghost start: Monitor)
    returns (err: Option<Err>, p: Progress, ghost m: Monitor)
    requires Sane(env) && Follows(cfg, env, m0, known, p0, start)
    requires start.pc.LoggedIn? || (start.pc.Submitted? && start.pc.tries == 1)
    ensures Follows(cfg, env, m0, known, p, m)
    ensures m.attempts == start.attempts && m.notBefore == start.notBefore && p.k > p0.k && !m.pc.Between?
    ensures if err.None? then (if cfg.store then m.pc.Persisted? else m.pc.Spent?) else StageAt(m.pc) == OtpVerification
    ensures err.Some? && AsApi(err.value).Some? ==> m.pc.Submitted? && (start.pc.LoggedIn? ==> m.pc.tries == 1)
    ensures env.code(p0.k).Some? ==>
              err == env.code(p0.k) && p.trace == p0.trace && p.table == p0.table && p.k == p0.k + 1 && m == start
    ensures env.code(p0.k).None? && !Success(env.reply(p0.k + 1)) ==>
              && err == Refusal(env.reply(p0.k + 1)) && p.k == p0.k + 2 && p.table == p0.table
              && p.trace == p0.trace + [SubmitAt(env, p0.k)]
              && m.pc.Submitted? && m.pc.tries == (if start.pc.LoggedIn? then 1 else 2)
              && Refused(env, m, p.k - 1, err.value)
    ensures Retriable(err) <==> env.code(p0.k).None? && Rejected(env, p0.k)
    ensures p0.trace <= p.trace && (env.code(p0.k).None? ==> p0.trace + [SubmitAt(env, p0.k)] <= p.trace)
    ensures err.Some? && start.pc.LoggedIn? && !Retriable(err) ==> Cause(cfg, env, m, p.k, err.value)
    ensures env.code(p0.k).None? && Success(env.reply(p0.k + 1)) ==>
              && p.table == Merge(p0.table, StepOf(env.clock(p0.k)))
              && (err.Some? ==> Cause(cfg, env, m, p.k, err.value))
              && p0.trace + [SubmitAt(env, p0.k), Accept(env.clock(p0.k + 2), StepOf(env.clock(p0.k)))] <= p.trace
    ensures Plain(err)
  {
    var step := StepOf(env.clock(p0.k));
    err, p, m := SendCode(cfg, env, m0, known, p0, start);
    if err.None? {
      err, p, m := Record(cfg, env, m0, known, p, m, step);
    }
  }

  /** The impersonation stage. */
  method SendImpersonate(cfg: Config, env: Env, ghost m0: Monitor, ghost known: Option<int>, p0: Progress,
                         ghost start: Monitor)
    returns (err: Option<Err>, p: Progress, ghost m: Monitor)
    requires Sane(env) && Follows(cfg, env, m0, known, p0, start)
    requires cfg.impersonate && if cfg.store then start.pc.Persisted? else start.pc.Spent?
    ensures Follows(cfg, env, m0, known, p, m)
    ensures m.attempts == start.attempts && m.notBefore == start.notBefore && p.k > p0.k
    ensures if err.None? then m.pc.ImpersonateDone? else m.pc.ImpersonateSent?
    ensures err.None? <==> env.reply(p0.k + 1).Answer? && 200 <= env.reply(p0.k + 1).status < 300
    ensures err.Some? ==> Carries(err.value, env.reply(p0.k + 1))
    ensures p.table == p0.table
    ensures p.trace == p0.trace + [Impersonate(env.clock(p0.k))]
                       + if err.None? then [Impersonated(env.clock(p0.k + 1))] else []
    ensures Plain(err) && (err.Some? ==> Cause(cfg, env, m, p.k, err.value))
  {
    p, m := Happen(cfg, env, m0, known, p0, start, Impersonate(env.clock(p0.k)), p0.k + 1);
    var reply := env.reply(p.k);
    if !Success(reply) {
      p := p.(k := p.k + 1);
      return Some(ReplyError(reply)), p, m;
    }
    err := None;
    assert Granted(env, p.trace + [Impersonated(env.clock(p.k))], |p.trace|, p.k);
    p, m := Happen(cfg, env, m0, known, p, m, Impersonated(env.clock(p.k)), p.k + 1);
  }

  /** The reply to the submission of a moment earns another one. */
  predicate Rejected(env: Env, k: nat) {
    Retriable(Refusal(env.reply(k + 1)))
  }

  /** After a wait begun at moment `k` that goes well, the code of the moment after it is submitted;
      nothing else is. */
  ghost predicate Resubmitted(env: Env, before: seq<Event>, k: nat, after: seq<Event>)
    requires Sane(env)
  {
    if env.sleep(k + 2, UntilNextWindow(env, k)).None? && env.code(k + 3).None?
    then before + [SubmitAt(env, k + 3)] <= after
    else before == after
  }

  /** The texts of a rate limit, in any case. */
  predicate SpeaksOfLimit(body: string) {
    Contains(Lower(body), "too many") || Contains(Lower(body), "wait a minute") || Contains(Lower(body), "rate limit")
  }

  /** The reply that earns another submission is a 401 that says nothing of a rate limit. */
  lemma RejectedExact(env: Env, k: nat)
    requires Sane(env)
    ensures Rejected(env, k) <==>
              && env.reply(k + 1).Answer? && env.reply(k + 1).status == 401
              && !SpeaksOfLimit(env.reply(k + 1).body)
  {
  }

  /** waitForNextWindow: it sleeps until one second into the next step. */
  method AwaitWindow(env: Env, k: nat) returns (err: Option<Err>)
    requires Sane(env)
    ensures err == env.sleep(k + 2, (env.clock(k) / 1_000_000_000 / 30 * 30 + 31) * 1_000_000_000 - env.clock(k + 1))
    ensures err == env.sleep(k + 2, UntilNextWindow(env, k)) && Plain(err)
  {
    WindowIsWake(env, k);
    err := env.sleep(k + 2, WakeTime(StepOf(env.clock(k))) - env.clock(k + 1));
  }

  /** waitForNextWindow, two clock reads and a sleep, and then a code for the moment reached. */
  method VerifyAgain(cfg: Config, env: Env, ghost m0: Monitor, ghost known: Option<int>, p0: Progress,
                     ghost start: Monitor)
    returns (err: Option<Err>, p: Progress, ghost m: Monitor)
    requires Sane(env) && Follows(cfg, env, m0, known, p0, start) && start.pc.Submitted? && start.pc.tries == 1
    ensures Follows(cfg, env, m0, known, p, m)
    ensures m.attempts == start.attempts && m.notBefore == start.notBefore && p.k > p0.k && !m.pc.Between?
    ensures if err.None? then (if cfg.store then m.pc.Persisted? else m.pc.Spent?) else StageAt(m.pc) == OtpVerification
    ensures var slept := env.sleep(p0.k + 2, UntilNextWindow(env, p0.k)); if slept.Some? then err == slept
            else env.code(p0.k + 3).Some? ==> err == env.code(p0.k + 3)
    ensures p0.trace <= p.trace && Resubmitted(env, p0.trace, p0.k, p.trace)
    ensures Plain(err)
    ensures err.Some? && p0.k > 0 && Retriable(Refusal(env.reply(p0.k - 1))) ==> Cause(cfg, env, m, p.k, err.value)
  {
    err := AwaitWindow(env, p0.k);
    Idle(cfg, env, m0, known, p0, start, p0.k + 3);
    p, m := p0.(k := p0.k + 3), start;
    if err.None? {
      err, p, m := Verify(cfg, env, m0, known, p, m);
    }
  }

  /** The OTP stage: a code that is rejected with a 401, which is not a rate limit, earns one
      more submission; nothing else does. */
  method VerifyTwice(cfg: Config, env: Env, ghost m0: Monitor, ghost known: Option<int>, p0: Progress,
                     ghost start: Monitor)
    returns (err: Option<Err>, p: Progress, ghost m: Monitor)
    requires Sane(env) && Follows(cfg, env, m0, known, p0, start) && start.pc.LoggedIn?
    ensures Follows(cfg, env, m0, known, p, m)
    ensures m.attempts == start.attempts && m.notBefore == start.notBefore && p.k > p0.k && !m.pc.Between?
    ensures if err.None? then (if cfg.store then m.pc.Persisted? else m.pc.Spent?) else StageAt(m.pc) == OtpVerification
    ensures env.code(p0.k).Some? ==> err == env.code(p0.k) && p.trace == p0.trace
    ensures env.code(p0.k).None? ==> p0.trace + [SubmitAt(env, p0.k)] <= p.trace
    ensures env.code(p0.k).None? && env.reply(p0.k + 1).Answer? && env.reply(p0.k + 1).status == 401
            && !SpeaksOfLimit(env.reply(p0.k + 1).body) ==>
              Resubmitted(env, p0.trace + [SubmitAt(env, p0.k)], p0.k + 2, p.trace)
    ensures env.code(p0.k).None? && !Success(env.reply(p0.k + 1)) && !Rejected(env, p0.k) ==>
              err == Refusal(env.reply(p0.k + 1)) && p.trace == p0.trace + [SubmitAt(env, p0.k)]
    ensures Plain(err) && (err.Some? ==> Cause(cfg, env, m, p.k, err.value))
  {
    RejectedExact(env, p0.k);
    err, p, m := Verify(cfg, env, m0, known, p0, start);
    if Retriable(err) {
      ghost var once, k := p.trace, p.k;
      assert k == p0.k + 2 && once == p0.trace + [SubmitAt(env, p0.k)];
      err, p, m := VerifyAgain(cfg, env, m0, known, p, m);
      assert Resubmitted(env, once, k, p.trace);
    }
  }

  /** The beginning of a handshake, up to the password stage. */
  method BeforeOtp(cfg: Config, env: Env, ghost m0: Monitor, ghost known: Option<int>, p0: Progress,
                   ghost start: Monitor)
    returns (err: Option<Err>, p: Progress, ghost m: Monitor)
    requires Sane(env) && Follows(cfg, env, m0, known, p0, start) && start.pc.Started?
    ensures Follows(cfg, env, m0, known, p, m)
    ensures m.attempts == start.attempts && m.notBefore == start.notBefore && p.k > p0.k && !m.pc.Between?
    ensures if err.None? then m.pc.LoggedIn? else StageAt(m.pc) == Stage.Login
    ensures p0.trace <= p.trace
    ensures ReadError(cfg, env, p0.k).Some? ==> err == ReadError(cfg, env, p0.k) && p.trace == p0.trace
    ensures err.None? ==> p.table == FloorOf(cfg, env, p0)
    ensures Plain(err) && (err.Some? ==> Cause(cfg, env, m, p.k, err.value))
  {
    err, p, m := ReadFloor(cfg, env, m0, known, p0, start);
    if err.None? {
      err, p, m := PassFloor(cfg, env, m0, known, p, m);
    }
    if err.None? {
      err, p, m := SendPassword(cfg, env, m0, known, p, m);
    }
  }

  /** The error of an attempt that ended before moment `end`: what went wrong there, classified with
      the stage the attempt was in. It is recognized as an ended context, or as a rate limit, exactly
      if that is what went wrong, and asks for the delay that asked for. */
  ghost predicate FailedWith(cfg: Config, env: Env, m: Monitor, end: nat, e: Err) {
    exists raw :: Cause(cfg, env, m, end, raw) && ClassifiedAs(m.pc, raw, e)
  }

  predicate ClassifiedAs(pc: Pc, raw: Err, e: Err) {
    && AsAuth(raw).None? && e == Classify(StageAt(pc), raw) && (IsEnded(e) <==> IsEnded(raw))
    && (IsRateLimited(e) <==> IsRateLimited(raw)) && RetryAfter(e) == RetryAfter(raw)
  }

  lemma Classified(cfg: Config, env: Env, m: Monitor, end: nat, raw: Err)
    requires Plain(Some(raw)) && Cause(cfg, env, m, end, raw)
    ensures FailedWith(cfg, env, m, end, Classify(StageAt(m.pc), raw))
  {
    ClassifyKeepsEnded(StageAt(m.pc), raw);
    ClassifyIsTransparent(StageAt(m.pc), StageAt(m.pc), raw);
    assert ClassifiedAs(m.pc, raw, Classify(StageAt(m.pc), raw));
  }

  /** The attempt ended with the reply of moment `end - 1`, an answer of the server that is rate
      limited, classified with the stage; it answers the latest request, sent at the moment before. */
  predicate LimitedBy(env: Env, m: Monitor, end: nat, e: Err) {
    && end > 0 && env.reply(end - 1).Answer? && IsRateLimited(ReplyError(env.reply(end - 1)))
    && Refused(env, m, end - 1, ReplyError(env.reply(end - 1)))
    && e == Classify(StageAt(m.pc), ReplyError(env.reply(end - 1)))
    && RetryAfter(e) == RetryAfter(ReplyError(env.reply(end - 1)))
  }

  /** Only an answer of the server makes an attempt rate limited. */
  lemma LimitIsAnswer(cfg: Config, env: Env, m: Monitor, end: nat, e: Err)
    requires Sane(env) && FailedWith(cfg, env, m, end, e) && IsRateLimited(e)
    ensures LimitedBy(env, m, end, e)
  {
    var raw :| Cause(cfg, env, m, end, raw) && ClassifiedAs(m.pc, raw, e);
    assert AsApi(raw).Some?;
    assert Refused(env, m, end - 1, raw);
  }

  /** And an answer that is a 429 or speaks of a rate limit always does. */
  lemma AnswerIsLimit(cfg: Config, env: Env, m: Monitor, end: nat, e: Err)
    requires Sane(env) && FailedWith(cfg, env, m, end, e) && end > 0 && env.reply(end - 1).Answer?
    requires m.pc.PasswordSent? || m.pc.ImpersonateSent? || (m.pc.Submitted? && m.pc.tries == 2)
    requires env.reply(end - 1).status == 429 || SpeaksOfLimit(env.reply(end - 1).body)
    ensures IsRateLimited(e)
  {
    var raw :| Cause(cfg, env, m, end, raw) && ClassifiedAs(m.pc, raw, e);
  }

  /** The stages of a handshake, up to the first that fails. */
  method Stages(cfg: Config, env: Env, ghost m0: Monitor, ghost known: Option<int>, p0: Progress,
                ghost start: Monitor)
    returns (stage: Stage, err: Option<Err>, p: Progress, ghost m: Monitor)
    requires Sane(env) && Follows(cfg, env, m0, known, p0, start) && start.pc.Started?
    ensures Follows(cfg, env, m0, known, p, m)
    ensures m.attempts == start.attempts && m.notBefore == start.notBefore && p.k > p0.k && !m.pc.Between?
    ensures p0.trace <= p.trace && Plain(err)
    ensures if err.None? then Complete(cfg, m) else stage == StageAt(m.pc) && Cause(cfg, env, m, p.k, err.value)
  {
    stage := Stage.Login;
    err, p, m := BeforeOtp(cfg, env, m0, known, p0, start);
    if err.None? {
      stage := OtpVerification;
      err, p, m := VerifyTwice(cfg, env, m0, known, p, m);
    }
    if err.None? && cfg.impersonate {
      stage := Impersonation;
      err, p, m := SendImpersonate(cfg, env, m0, known, p, m);
    }
  }

  /** One handshake. Success means every configured stage was answered with a 2xx, in order. */
  method Handshake(cfg: Config, env: Env, ghost m0: Monitor, ghost known: Option<int>, p0: Progress,
                   ghost start: Monitor)
    returns (err: Option<Err>, p: Progress, ghost m: Monitor)
    requires Sane(env) && Follows(cfg, env, m0, known, p0, start)
    requires start.pc.Between? && start.attempts < cfg.max
    requires start.attempts > 0 ==> !Pending(start.notBefore, env.clock(p0.k))
    ensures Follows(cfg, env, m0, known, p, m)
    ensures m.attempts == start.attempts + 1 && m.notBefore == start.notBefore && !m.pc.Between? && p.k > p0.k
    ensures err.None? ==> Complete(cfg, m)
    ensures p0.trace + [Start(env.clock(p0.k))] <= p.trace
    ensures forall i | |p0.trace| <= i < |p.trace| :: !p.trace[i].Limited?
    ensures err.Some? ==> FailedWith(cfg, env, m, p.k, err.value)
  {
    p, m := Happen(cfg, env, m0, known, p0, start, Start(env.clock(p0.k)), p0.k + 1);
    var stage: Stage;
    stage, err, p, m := Stages(cfg, env, m0, known, p, m);
    if err.Some? {
      Classified(cfg, env, m, p.k, err.value);
      err := Some(Classify(stage, err.value));
    }
    OneAttempt(cfg, m0, p0.trace, p.trace, start, m);
  }

  /** In the events of one attempt that has not ended there is no rate-limited ending. */
  lemma {:induction false} OneAttempt(cfg: Config, m0: Monitor, before: seq<Event>, after: seq<Event>, start: Monitor,
                                      m: Monitor)
    requires m0.clock >= 0 && before <= after && Run(cfg, m0, before) == Some(start) && Run(cfg, m0, after) == Some(m)
    requires start.pc.Between? && !m.pc.Between? && m.attempts == start.attempts + 1
    ensures forall i | |before| <= i < |after| :: !after[i].Limited?
  {
    var rest := after[|before|..];
    assert after == before + rest;
    RunSplit(cfg, m0, before, rest);
    AttemptsBegun(cfg, start, rest);
    forall i | |before| <= i < |after|
      ensures !after[i].Limited?
    {
      assert after[i] == rest[i - |before|];
    }
  }

  /** The delay the loop chooses after a rate-limited attempt. */
  function ChosenDelay(env: Env, k: nat, cause: Err, attempt: nat): (delay: int)
    requires Sane(env)
    ensures DelayFor(cause, attempt, delay)
  {
    if RetryAfter(cause) > 0 then RetryAfter(cause) else env.jitter(k, Backoff.Capped(attempt))
  }

  /** authErrorStage, on the classified errors the loop sees. */
  function StageOf(e: Err): Stage {
    if AsAuth(e).Some? && AsAuth(e).value.Auth? then AsAuth(e).value.stage else Stage.Login
  }

  /** A rate-limited attempt ends: the deadline goes into `notBefore`. */
  method EndLimited(cfg: Config, env: Env, ghost m0: Monitor, ghost known: Option<int>, p0: Progress,
                    ghost start: Monitor, cause: Err, attempt: nat)
    returns (delay: int, notBefore: Stamp, p: Progress, ghost m: Monitor)
    requires Sane(env) && Follows(cfg, env, m0, known, p0, start)
    requires !start.pc.Between? && start.attempts == attempt + 1 && IsRateLimited(cause)
    ensures Follows(cfg, env, m0, known, p, m)
    ensures m.pc.Between? && m.attempts == attempt + 1 && m.notBefore == notBefore
    ensures DelayFor(cause, attempt, delay) && p.trace == p0.trace + [Limited(env.clock(p0.k), cause, delay)]
    ensures notBefore == Some(env.clock(p0.k) + delay) && p.k == p0.k + 1
  {
    delay := ChosenDelay(env, p0.k, cause, attempt);
    notBefore := Some(env.clock(p0.k) + delay);
    p, m := Happen(cfg, env, m0, known, p0, start, Limited(env.clock(p0.k), cause, delay), p0.k + 1);
  }

  /** Event `i` is the end of an attempt, at moment `end`, that was rate limited by an answer of the
      server at the moment before. */
  ghost predicate EndedByServer(cfg: Config, env: Env, m0: Monitor, trace: seq<Event>, i: nat, end: nat)
    requires m0.clock >= 0
  {
    && i < |trace| && trace[i].Limited? && trace[i].at == env.clock(end)
    && Run(cfg, m0, trace[..i]).Some? && LimitedBy(env, Run(cfg, m0, trace[..i]).value, end, trace[i].cause)
  }

  /** Every rate-limited ending in the trace is one the server made, at a moment of this call: the
      delay that is waited out is the one its answer asked for, if it asked for any. */
  ghost predicate ServerLimits(cfg: Config, env: Env, m0: Monitor, start: nat, p: Progress)
    requires m0.clock >= 0
  {
    forall i | 0 <= i < |p.trace| :: LimitedAt(cfg, env, m0, start, p, i)
  }

  ghost predicate LimitedAt(cfg: Config, env: Env, m0: Monitor, start: nat, p: Progress, i: int)
    requires m0.clock >= 0 && 0 <= i < |p.trace|
  {
    p.trace[i].Limited? ==> exists end: nat | start <= end < p.k :: EndedByServer(cfg, env, m0, p.trace, i, end)
  }

  /** The event ends an attempt at moment `end` because of the answer at the moment before, to the
      latest request: no 2xx, but a 429 or a text that speaks of a rate limit. The event's cause
      carries that answer, and its delay is the Retry-After of the answer if there is one, else 61
      seconds if the text asks to wait a minute, else the jittered backoff of the attempt. */
  predicate WaitsAsAsked(env: Env, m: Monitor, end: nat, e: Event)
    requires e.Limited?
  {
    && end > 1 && e.at == env.clock(end) && m.clock == env.clock(end - 2) && m.attempts > 0
    && env.reply(end - 1).Answer?
    && var r := env.reply(end - 1);
    && AsApi(e.cause) == Some(Api(r.status, r.body)) && !(200 <= r.status < 300)
    && (r.status == 429 || SpeaksOfLimit(r.body))
    && if r.retryAfter > 0 then e.delay == r.retryAfter
       else if Contains(Lower(r.body), "wait a minute") then e.delay == 61_000_000_000
       else Backoff.Jittered(Backoff.Capped(m.attempts - 1), e.delay)
  }

  /** Every rate-limited ending in the trace is one the server asked for, at a moment of this call. */
  ghost predicate AsksAnswered(cfg: Config, env: Env, m0: Monitor, start: nat, p: Progress)
    requires m0.clock >= 0
  {
    forall i | 0 <= i < |p.trace| :: AskedAt(cfg, env, m0, start, p, i)
  }

  ghost predicate AskedAt(cfg: Config, env: Env, m0: Monitor, start: nat, p: Progress, i: int)
    requires m0.clock >= 0 && 0 <= i < |p.trace|
  {
    p.trace[i].Limited? ==>
      && Run(cfg, m0, p.trace[..i]).Some?
      && exists end: nat | start <= end < p.k :: WaitsAsAsked(env, Run(cfg, m0, p.trace[..i]).value, end, p.trace[i])
  }

  lemma LimitAsks(env: Env, m: Monitor, end: nat, e: Event)
    requires e.Limited? && LimitedBy(env, m, end, e.cause) && e.at == env.clock(end)
    requires m.attempts > 0 && DelayFor(e.cause, m.attempts - 1, e.delay)
    ensures WaitsAsAsked(env, m, end, e)
  {
  }

  lemma {:induction false} LimitsAsk(cfg: Config, env: Env, m0: Monitor, start: nat, p: Progress)
    requires m0.clock >= 0 && Run(cfg, m0, p.trace).Some? && ServerLimits(cfg, env, m0, start, p)
    ensures AsksAnswered(cfg, env, m0, start, p)
  {
    forall i | 0 <= i < |p.trace|
      ensures AskedAt(cfg, env, m0, start, p, i)
    {
      if p.trace[i].Limited? {
        RunAt(cfg, m0, p.trace, i);
        assert LimitedAt(cfg, env, m0, start, p, i);
        var end: nat :| start <= end < p.k && EndedByServer(cfg, env, m0, p.trace, i, end);
        LimitAsks(env, Run(cfg, m0, p.trace[..i]).value, end, p.trace[i]);
      }
    }
  }

  /** No request of the rest of the login is sent before the end of a rate-limited attempt plus the
      Retry-After of the answer that ended it, or 61 seconds if its text asks to wait a minute. */
  lemma {:induction false} RetryAfterHonoured(cfg: Config, env: Env, m0: Monitor, start: nat, p: Progress,
                                              i: nat, j: nat)
    requires m0.clock >= 0 && Run(cfg, m0, p.trace).Some? && AsksAnswered(cfg, env, m0, start, p)
    requires i < j < |p.trace| && p.trace[i].Limited? && IsRequest(p.trace[j])
    ensures Run(cfg, m0, p.trace[..i]).Some?
    ensures exists end: nat | start <= end < p.k ::
              && WaitsAsAsked(env, Run(cfg, m0, p.trace[..i]).value, end, p.trace[i])
              && var r := env.reply(end - 1);
              && (r.retryAfter > 0 ==> p.trace[j].at >= env.clock(end) + r.retryAfter)
              && (r.retryAfter <= 0 && Contains(Lower(r.body), "wait a minute") ==>
                    p.trace[j].at >= env.clock(end) + 61_000_000_000)
  {
    NoRequestBeforeDeadline(cfg, m0, p.trace, i, j);
    assert AskedAt(cfg, env, m0, start, p, i);
    var end: nat :| start <= end < p.k
                    && WaitsAsAsked(env, Run(cfg, m0, p.trace[..i]).value, end, p.trace[i]);
  }

  /** A further attempt keeps that. */
  lemma LimitsGrow(cfg: Config, env: Env, m0: Monitor, start: nat, p0: Progress, p: Progress)
    requires m0.clock >= 0 && ServerLimits(cfg, env, m0, start, p0) && p0.trace <= p.trace && start <= p0.k < p.k
    requires forall i | |p0.trace| <= i < |p.trace| && p.trace[i].Limited? ::
               EndedByServer(cfg, env, m0, p.trace, i, p.k - 1)
    ensures ServerLimits(cfg, env, m0, start, p)
  {
    forall i | 0 <= i < |p.trace|
      ensures LimitedAt(cfg, env, m0, start, p, i)
    {
      if i < |p0.trace| && p.trace[i].Limited? {
        assert LimitedAt(cfg, env, m0, start, p0, i);
        var end: nat :| start <= end < p0.k && EndedByServer(cfg, env, m0, p0.trace, i, end);
        assert p.trace[..i] == p0.trace[..i];
        assert EndedByServer(cfg, env, m0, p.trace, i, end);
      }
    }
  }

  /** The error of a login that did not get to its next attempt: a rate limit of the stage that was
      limited; recognized as an ended context exactly if an ended context interrupted the sleep. */
  predicate GaveUpWaiting(env: Env, p: Progress, e: Err) {
    && p.trace != [] && p.trace[|p.trace| - 1].Limited? && p.k > 0
    && e.Auth? && e.kind == RateLimited && e.delay > 0
    && p.trace[|p.trace| - 1].cause.Auth? && e.stage == p.trace[|p.trace| - 1].cause.stage
    && var slept := env.sleep(p.k - 1, p.trace[|p.trace| - 1].delay);
    && (IsEnded(e) <==> slept.Some? && IsEnded(slept.value))
  }

  /** What a login that came to `m` returns: nothing, with every stage behind it and `notBefore` clear;
      what went wrong in an attempt that was not rate limited; the rate limit of its last attempt; or
      why it did not wait for the next one. */
  ghost predicate Returns(cfg: Config, env: Env, m: Monitor, err: Option<Err>, notBefore: Stamp, p: Progress) {
    1 <= m.attempts <= cfg.max
    && match err
       case None => Complete(cfg, m) && notBefore == None
       case Some(e) =>
         && notBefore == m.notBefore
         && if !m.pc.Between? then !IsRateLimited(e) && FailedWith(cfg, env, m, p.k, e)
            else if m.attempts == cfg.max then
              p.trace != [] && p.trace[|p.trace| - 1].Limited? && e == p.trace[|p.trace| - 1].cause
            else GaveUpWaiting(env, p, e)
  }

  /** One attempt of the loop: a handshake, and the deadline if it was rate limited. */
  method Attempt(cfg: Config, env: Env, ghost m0: Monitor, ghost known: Option<int>, p0: Progress,
                 ghost start: Monitor, ghost begin: nat, attempt: nat)
    returns (err: Option<Err>, delay: int, notBefore: Stamp, p: Progress, ghost m: Monitor)
    requires Sane(env) && Follows(cfg, env, m0, known, p0, start)
    requires begin <= p0.k && ServerLimits(cfg, env, m0, begin, p0)
    requires start.pc.Between? && start.attempts == attempt < cfg.max
    requires attempt > 0 ==> !Pending(start.notBefore, env.clock(p0.k))
    ensures Follows(cfg, env, m0, known, p, m) && m.attempts == attempt + 1
    ensures m.pc.Between? <==> err.Some? && IsRateLimited(err.value)
    ensures !m.pc.Between? ==> Returns(cfg, env, m, err, if err.None? then None else start.notBefore, p)
    ensures m.pc.Between? && attempt == cfg.max - 1 ==> Returns(cfg, env, m, err, notBefore, p)
    ensures p.k > p0.k && ServerLimits(cfg, env, m0, begin, p)
    ensures m.pc.Between? ==>
              && delay > 0 && notBefore == m.notBefore && notBefore.Some?
              && p.trace != [] && p.trace[|p.trace| - 1].Limited? && p.trace[|p.trace| - 1].cause == err.value
              && p.trace[|p.trace| - 1].delay == delay && err.value.Auth? && !IsEnded(err.value)
  {
    delay, notBefore := 0, None;
    err, p, m := Handshake(cfg, env, m0, known, p0, start);
    LimitsGrow(cfg, env, m0, begin, p0, p);
    if err.Some? && IsRateLimited(err.value) {
      delay, notBefore, p, m := EndAttempt(cfg, env, m0, known, p, m, begin, err.value, attempt);
    }
  }

  /** The end of an attempt that an answer of the server rate limited. */
  method EndAttempt(cfg: Config, env: Env, ghost m0: Monitor, ghost known: Option<int>, p0: Progress,
                    ghost start: Monitor, ghost begin: nat, cause: Err, attempt: nat)
    returns (delay: int, notBefore: Stamp, p: Progress, ghost m: Monitor)
    requires Sane(env) && Follows(cfg, env, m0, known, p0, start)
    requires begin <= p0.k && ServerLimits(cfg, env, m0, begin, p0)
    requires !start.pc.Between? && start.attempts == attempt + 1
    requires IsRateLimited(cause) && FailedWith(cfg, env, start, p0.k, cause)
    ensures Follows(cfg, env, m0, known, p, m) && p.k > p0.k && ServerLimits(cfg, env, m0, begin, p)
    ensures m.pc.Between? && m.attempts == attempt + 1 && m.notBefore == notBefore && notBefore.Some?
    ensures delay > 0 && p.trace == p0.trace + [Limited(env.clock(p0.k), cause, delay)]
    ensures cause.Auth? && !IsEnded(cause)
  {
    LimitIsAnswer(cfg, env, start, p0.k, cause);
    delay, notBefore, p, m := EndLimited(cfg, env, m0, known, p0, start, cause, attempt);
    if RetryAfter(cause) <= 0 {
      Backoff.JitterBounds(attempt, delay);
    }
    assert p.trace[..|p0.trace|] == p0.trace;
    LimitsGrow(cfg, env, m0, begin, p0, p);
  }

  /** The wait before a retry. It succeeds only past the deadline; a sleep interrupted by an ended
      context gives an error that is recognized as such. */
  method WaitForRetry(env: Env, start: nat, cause: Err, delay: int, notBefore: int)
    returns (err: Option<Err>, k: nat)
    requires delay > 0
    ensures k == start + 1
    ensures err.None? <==> env.sleep(start, delay).None? && env.clock(k) >= notBefore
    ensures err.Some? ==>
              && err.value.Auth? && err.value.stage == StageOf(cause) && err.value.kind == RateLimited
              && err.value.delay == if env.sleep(start, delay).Some? then delay else notBefore - env.clock(k)
    ensures err.Some? ==> err.value.delay > 0
    ensures err.Some? ==>
              (IsEnded(err.value) <==>
                 IsEnded(cause) || (env.sleep(start, delay).Some? && IsEnded(env.sleep(start, delay).value)))
  {
    var woken := env.sleep(start, delay);
    k := start + 1;
    if woken.Some? {
      return Some(Auth(StageOf(cause), RateLimited, Some(Joined(cause, woken.value)), delay)), k;
    }
    var remaining := notBefore - env.clock(k);
    if remaining > 0 {
      return Some(Auth(StageOf(cause), RateLimited, Some(cause), remaining)), k;
    }
    err := None;
  }

  lemma LimitsStay(cfg: Config, env: Env, m0: Monitor, start: nat, p0: Progress, k: nat)
    requires m0.clock >= 0 && ServerLimits(cfg, env, m0, start, p0) && start <= p0.k < k
    ensures ServerLimits(cfg, env, m0, start, p0.(k := k))
  {
    LimitsGrow(cfg, env, m0, start, p0, p0.(k := k));
  }

  /** The wait of a login that was rate limited. */
  method AwaitRetry(cfg: Config, env: Env, ghost m0: Monitor, ghost known: Option<int>, p0: Progress,
                    ghost m: Monitor, ghost begin: nat, cause: Err, delay: int, notBefore: int)
    returns (err: Option<Err>, p: Progress)
    requires Sane(env) && Follows(cfg, env, m0, known, p0, m) && delay > 0
    requires begin <= p0.k && ServerLimits(cfg, env, m0, begin, p0)
    requires p0.trace != [] && p0.trace[|p0.trace| - 1].Limited? && p0.trace[|p0.trace| - 1].cause == cause
    requires p0.trace[|p0.trace| - 1].delay == delay
    requires cause.Auth? && !IsEnded(cause)
    requires m.pc.Between? && 1 <= m.attempts < cfg.max && m.notBefore == Some(notBefore)
    ensures p == p0.(k := p.k) && Follows(cfg, env, m0, known, p, m)
    ensures p.k > p0.k && ServerLimits(cfg, env, m0, begin, p)
    ensures err.None? ==> env.clock(p.k) >= notBefore
    ensures err.Some? ==> Returns(cfg, env, m, err, Some(notBefore), p)
  {
    var k: nat;
    err, k := WaitForRetry(env, p0.k, cause, delay, notBefore);
    p := p0.(k := k);
    Idle(cfg, env, m0, known, p0, m, k);
    LimitsStay(cfg, env, m0, begin, p0, k);
  }

  lemma Begins(cfg: Config, env: Env, start: nat, known: Option<int>, before: Stamp)
    requires Sane(env)
    ensures var m0 := Begin(env.clock(start), before); var p := Progress([], start, known);
            Follows(cfg, env, m0, known, p, m0) && ServerLimits(cfg, env, m0, start, p)
  {
  }

  /** refresher.login, entered with the account held. `known` is the step remembered for this
      account and secret, `before` the refresher's notBefore. It returns the error of the last
      attempt, if any, and the new notBefore.

      Whatever the environment does: the events follow the protocol; success means the last
      attempt completed every stage, and clears notBefore; a failed call leaves in notBefore
      the deadline of the last rate-limited attempt; an attempt that no answer of the server
      rate limited is never retried and gives what went wrong as the error, and one that was is
      the last only for want of attempts or of waiting; the wait is what the answer asked for, or
      else the backoff; no step known at the start or accepted on the way is submitted; and
      every accepted step is remembered. */
  method Login(cfg: Config, env: Env, start: nat, known: Option<int>, before: Stamp)
    returns (err: Option<Err>, notBefore: Stamp, p: Progress)
    requires Sane(env) && cfg.max >= 1
    ensures Run(cfg, Begin(env.clock(start), before), p.trace).Some?
    ensures Returns(cfg, env, Run(cfg, Begin(env.clock(start), before), p.trace).value, err, notBefore, p)
    ensures ServerLimits(cfg, env, Begin(env.clock(start), before), start, p)
    ensures AsksAnswered(cfg, env, Begin(env.clock(start), before), start, p) && AllGranted(env, p.trace)
    ensures NoReplay(known, p.trace) && Covers(p.table, p.trace)
    ensures known.Some? ==> AtLeast(p.table, known.value)
  {
    ghost var m0 := Begin(env.clock(start), before);
    ghost var m := m0;
    p, notBefore := Progress([], start, known), before;
    Begins(cfg, env, start, known, before);
    var attempt := 0;
    while true
      invariant 0 <= attempt < cfg.max
      invariant Follows(cfg, env, m0, known, p, m)
      invariant m.pc.Between? && m.attempts == attempt && m.notBefore == notBefore
      invariant attempt > 0 ==> !Pending(notBefore, env.clock(p.k))
      invariant p.k >= start && ServerLimits(cfg, env, m0, start, p)
      decreases cfg.max - attempt
    {
      var delay, deadline;
      err, delay, deadline, p, m := Attempt(cfg, env, m0, known, p, m, start, attempt);
      LimitsAsk(cfg, env, m0, start, p);
      if err.None? {
        return None, None, p;
      }
      var cause := err.value;
      if !IsRateLimited(cause) {
        return;
      }
      notBefore := deadline;
      if attempt == cfg.max - 1 {
        return;
      }
      err, p := AwaitRetry(cfg, env, m0, known, p, m, start, cause, delay, notBefore.value);
      LimitsAsk(cfg, env, m0, start, p);
      if err.Some? {
        return;
      }
      attempt := attempt + 1;
    }
  }
}

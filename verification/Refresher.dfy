/** session.go: the refresher's shared fields and each critical section on them, first as
    functions of the fields, then as the methods of the object, proved equal to them. Module
    RefresherRuns interleaves these sections. */
module Refresher {
  import opened Prelude
  import opened AuthErrors

  /** A cookie jar, by identity, and a `done` channel, by identity. */
  type Jar = nat
  type Chan = nat

  const COOLDOWN: int := 30_000_000_000

  datatype Core = Core(
    generation: nat,
    jar: Jar,
    inFlight: Option<Chan>,
    lastErr: Option<Err>,
    lastFailureAt: Stamp,
    notBefore: Stamp)

  /** What `refresh` does after its first critical section. */
  datatype Decision = Newer | Join(done: Chan) | Refuse(err: Err) | Recover

  /** `refresh` up to starting a worker. The code reads the clock once per test; a run that
      reads different instants decides as one that reads the instant of the deciding test. */
  function Decide(core: Core, seen: nat, now: int): Decision {
    if core.generation != seen then Newer
    else if core.inFlight.Some? then Join(core.inFlight.value)
    else if Pending(core.notBefore, now) then
      if core.lastErr.Some? then Refuse(core.lastErr.value)
      else Refuse(Auth(SessionRecovery, RateLimited, None, core.notBefore.value - now))
    else if core.lastErr.Some? && core.lastFailureAt.Some? && now - core.lastFailureAt.value < COOLDOWN then
      Refuse(core.lastErr.value)
    else Recover
  }

  /** When a caller is refused: its session is the current one, nobody is at work on it, and the
      deadline is to come or the last failure less than 30 seconds old. It is told the remembered
      error, or without one how long the deadline is off. */
  lemma RefusalExact(core: Core, seen: nat, now: int)
    ensures Decide(core, seen, now).Refuse? <==>
              && core.generation == seen && core.inFlight.None?
              && (|| (core.notBefore.Some? && core.notBefore.value > now)
                  || (core.lastErr.Some? && core.lastFailureAt.Some?
                      && now < core.lastFailureAt.value + 30_000_000_000))
    ensures Decide(core, seen, now).Refuse? ==>
              Decide(core, seen, now).err == if core.lastErr.Some? then core.lastErr.value
                                             else Auth(SessionRecovery, RateLimited, None, core.notBefore.value - now)
    ensures Decide(core, seen, now).Recover? ==> core.generation == seen && core.inFlight.None?
    ensures Decide(core, seen, now).Newer? <==> core.generation != seen
  {
  }

  function Entered(core: Core, seen: nat, now: int, spare: Chan): Core {
    if Decide(core, seen, now).Recover? then core.(inFlight := Some(spare)) else core
  }

  /** The end of a recovery that produced a jar. */
  function Published(core: Core, jar: Jar, next: nat): Core {
    Core(next, jar, None, None, None, None)
  }

  /** The end of a recovery that failed. */
  function Failed(core: Core, err: Err, now: int): Core {
    core.(inFlight := None, lastErr := Some(err), lastFailureAt := Some(now))
  }

  /** Whether noteIneffective reserves the slot. */
  predicate MayReserve(core: Core, generation: nat) {
    core.generation == generation && core.inFlight.None?
  }

  /** How persistIneffective ends: the marker applies; the store holds another generation; or
      the store failed. */
  datatype Verdict = Applied | Skipped | Errored(err: Err)

  function Marked(core: Core, verdict: Verdict, failure: Err, started: int): Core {
    match verdict
    case Applied =>
      core.(inFlight := None, lastErr := Some(failure), lastFailureAt := Some(started),
            notBefore := Some(started + COOLDOWN))
    case Skipped => core.(inFlight := None, lastErr := None)
    case Errored(err) => core.(inFlight := None, lastErr := Some(err))
  }

  /** The generation `recover` saves after a login: above what it saw and what it loaded. */
  function NextGeneration(seen: nat, loaded: nat): nat {
    if loaded >= seen + 1 then loaded + 1 else seen + 1
  }

  class Refresher {
    var generation: nat
    var jar: Jar
    var inFlight: Option<Chan>
    var lastErr: Option<Err>
    var lastFailureAt: Stamp
    var notBefore: Stamp

    function View(): Core
      reads this
    {
      Core(generation, jar, inFlight, lastErr, lastFailureAt, notBefore)
    }

    /** The end of `initialize`: a session under its generation. Only a restored session
        writes notBefore. */
    constructor (jar: Jar, generation: nat, notBefore: Stamp)
      ensures View() == Core(generation, jar, None, None, None, notBefore)
    {
      this.jar, this.generation, this.notBefore := jar, generation, notBefore;
      inFlight, lastErr, lastFailureAt := None, None, None;
    }

    method Snapshot() returns (generation: nat, jar: Jar)
      ensures generation == this.generation && jar == this.jar
    {
      generation, jar := this.generation, this.jar;
    }

    /** The first section of `refresh`; `spare` is the channel made for a new worker. */
    method Enter(seen: nat, now: int, spare: Chan) returns (decision: Decision)
      modifies this`inFlight
      ensures decision == Decide(old(View()), seen, now)
      ensures View() == Entered(old(View()), seen, now, spare)
      ensures decision.Newer? <==> generation != seen
      ensures decision.Join? <==> generation == seen && old(inFlight).Some?
      ensures decision.Join? ==> old(inFlight) == Some(decision.done)
      ensures decision.Refuse? <==>
                && generation == seen && old(inFlight).None?
                && (|| (notBefore.Some? && notBefore.value > now)
                    || (lastErr.Some? && lastFailureAt.Some? && now < lastFailureAt.value + 30_000_000_000))
      ensures decision.Refuse? ==>
                decision.err == if lastErr.Some? then lastErr.value
                                else Auth(SessionRecovery, RateLimited, None, notBefore.value - now)
      ensures inFlight == if decision.Recover? then Some(spare) else old(inFlight)
    {
      if generation != seen {
        return Newer;
      }
      if inFlight.Some? {
        return Join(inFlight.value);
      }
      if notBefore.Some? && notBefore.value - now > 0 {
        if lastErr.None? {
          return Refuse(Auth(SessionRecovery, RateLimited, None, notBefore.value - now));
        }
        return Refuse(lastErr.value);
      }
      if lastErr.Some? && lastFailureAt.Some? && now - lastFailureAt.value < COOLDOWN {
        return Refuse(lastErr.value);
      }
      inFlight := Some(spare);
      return Recover;
    }

    /** The section that ends a recovery: either everything or only the failure is written. */
    method Finish(outcome: Option<Err>, jar: Jar, next: nat, now: int)
      modifies this
      ensures outcome.None? ==> View() == Published(old(View()), jar, next)
      ensures outcome.Some? ==> View() == Failed(old(View()), outcome.value, now)
      ensures inFlight.None? && lastErr == outcome
      ensures outcome.None? ==>
                this.jar == jar && generation == next && lastFailureAt.None? && notBefore.None?
      ensures outcome.Some? ==>
                && this.jar == old(this.jar) && generation == old(generation)
                && lastFailureAt == Some(now) && notBefore == old(notBefore)
    {
      lastErr := outcome;
      if outcome.None? {
        this.jar := jar;
        generation := next;
        lastFailureAt := None;
        notBefore := None;
      } else {
        lastFailureAt := Some(now);
      }
      inFlight := None;
    }

    /** The section of noteIneffective. */
    method Reserve(generation: nat, spare: Chan) returns (reserved: bool)
      modifies this`inFlight
      ensures reserved == MayReserve(old(View()), generation)
      ensures View() == if reserved then old(View()).(inFlight := Some(spare)) else old(View())
      ensures reserved <==> this.generation == generation && old(inFlight).None?
    {
      if this.generation != generation || inFlight.Some? {
        return false;
      }
      inFlight := Some(spare);
      return true;
    }

    /** The deferred section of persistIneffective. */
    method FinishMarker(verdict: Verdict, failure: Err, started: int)
      modifies this
      ensures View() == Marked(old(View()), verdict, failure, started)
      ensures inFlight.None? && generation == old(generation) && jar == old(jar)
      ensures lastErr == match verdict
                         case Applied => Some(failure)
                         case Skipped => None
                         case Errored(err) => Some(err)
      ensures if verdict.Applied? then lastFailureAt == Some(started) && notBefore == Some(started + 30_000_000_000)
              else lastFailureAt == old(lastFailureAt) && notBefore == old(notBefore)
    {
      match verdict {
        case Applied =>
          lastErr := Some(failure);
          lastFailureAt := Some(started);
          notBefore := Some(started + COOLDOWN);
        case Skipped =>
          lastErr := None;
        case Errored(err) =>
          lastErr := Some(err);
      }
      inFlight := None;
    }

    /** The sections of `login` on notBefore: a rate-limited attempt sets it, success clears it. */
    method SetNotBefore(stamp: Stamp)
      modifies this`notBefore
      ensures View() == old(View()).(notBefore := stamp)
    {
      notBefore := stamp;
    }
  }
}

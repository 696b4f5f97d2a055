/** otp_coordination.go: the process-wide coordination object, its table of accepted TOTP
    steps, and the wait for a step that is not known to be spent. */
module OtpCoordination {
  import opened Prelude
  import OtpLocks

  type StateId = string

  const STEP_SECONDS: int := 30
  const SECOND: int := 1_000_000_000

  /** The RFC 6238 counter of an instant in nanoseconds since the epoch: `Unix() / 30`. */
  function StepOf(at: int): int
    requires at >= 0
  {
    at / SECOND / STEP_SECONDS
  }

  /** The first instant after step `step` at which a waiter wakes: one second into the next. */
  function WakeTime(step: int): int {
    ((step + 1) * STEP_SECONDS + 1) * SECOND
  }

  /** Step `n` is the 30 seconds from `30 * n` seconds on, and its waiters wake one second after its
      end. */
  lemma StepExact(at: int, n: int)
    requires at >= 0
    ensures StepOf(at) == n <==> n * 30_000_000_000 <= at < (n + 1) * 30_000_000_000
    ensures WakeTime(n) == (n + 1) * 30_000_000_000 + 1_000_000_000
  {
    var seconds := at / SECOND;
    assert seconds * SECOND <= at < (seconds + 1) * SECOND;
  }

  lemma StepMonotone(a: int, b: int)
    requires 0 <= a <= b
    ensures StepOf(a) <= StepOf(b)
  {
    assert a / SECOND <= b / SECOND;
  }

  lemma WakeIsPast(step: int, at: int)
    requires step >= 0 && at >= WakeTime(step)
    ensures StepOf(at) > step
  {
    assert at / SECOND >= (step + 1) * STEP_SECONDS + 1;
  }

  /** The wait for the next step, and one second into it, never takes longer. */
  const NEXT_WINDOW: int := 31_000_000_000

  lemma NextWindowIsPast(at: int)
    requires at >= 0
    ensures at < WakeTime(StepOf(at)) <= at + NEXT_WINDOW
    ensures StepOf(at + NEXT_WINDOW) > StepOf(at)
  {
    WakeIsPast(StepOf(at), at + NEXT_WINDOW);
  }

  /** A table of max-merge registers: each holds the largest step it was ever given. */
  function Remembered<K>(accepted: map<K, int>, id: K, step: int): (after: map<K, int>)
    ensures after.Keys == accepted.Keys + {id}
    ensures after[id] == if id in accepted then Max(accepted[id], step) else step
    ensures forall other | other in accepted && other != id :: after[other] == accepted[other]
  {
    if id !in accepted || step > accepted[id] then accepted[id := step] else accepted
  }

  class OtpAccountLock {
    var tokens: nat
    var users: nat
    ghost const name: OtpLocks.LockId

    constructor (ghost name: OtpLocks.LockId)
      ensures tokens == 1 && users == 0 && this.name == name
    {
      tokens, users, this.name := 1, 0, name;
    }
  }

  ghost function Names(locks: map<OtpLocks.Identity, OtpAccountLock>): map<OtpLocks.Identity, OtpLocks.LockId> {
    map id | id in locks :: locks[id].name
  }

  lemma NamesOfUpdate(locks: map<OtpLocks.Identity, OtpAccountLock>, id: OtpLocks.Identity, l: OtpAccountLock)
    ensures Names(locks[id := l]) == Names(locks)[id := l.name]
    ensures Names(locks - {id}) == Names(locks) - {id}
  {
  }

  class Coordination {
    var locks: map<OtpLocks.Identity, OtpAccountLock>
    var accepted: map<StateId, int>
    /** Every lock object created so far, in order of creation. */
    ghost var objects: seq<OtpAccountLock>

    ghost predicate Valid()
      reads this, objects
    {
      && (forall i | 0 <= i < |objects| :: objects[i].name == i)
      && (forall id | id in locks :: locks[id] in objects)
    }

    /** The abstract table: locks by name, counters by name. */
    ghost function View(): OtpLocks.Table
      reads this, objects
      requires Valid()
    {
      OtpLocks.Table(
        Names(locks),
        map i: nat | i < |objects| :: OtpLocks.Lock(objects[i].tokens, objects[i].users))
    }

    constructor ()
      ensures Valid() && View() == OtpLocks.Table(map[], map[]) && accepted == map[]
    {
      locks, accepted, objects := map[], map[], [];
    }

    /** The first critical section of acquireOTPAccount. */
    method Enter(id: OtpLocks.Identity) returns (l: OtpAccountLock)
      requires Valid()
      modifies this`locks, this`objects, objects
      ensures Valid() && l in objects && old(objects) <= objects
      ensures id in old(View()).locks ==> old(View()).locks[id] in old(View()).heap
      ensures View() == OtpLocks.Register(old(View()), id, |old(objects)|)
      ensures l.name == OtpLocks.LockFor(old(View()), id, |old(objects)|)
    {
      if id in locks {
        l := locks[id];
        Use(l);
      } else {
        l := CreateFor(id);
      }
    }

    method CreateFor(id: OtpLocks.Identity) returns (l: OtpAccountLock)
      requires Valid() && id !in locks
      modifies this`locks, this`objects
      ensures Valid() && objects == old(objects) + [l] && l.name == |old(objects)|
      ensures View() == OtpLocks.Register(old(View()), id, |old(objects)|)
    {
      l := Create();
      Install(id, l);
    }

    method Install(id: OtpLocks.Identity, l: OtpAccountLock)
      requires Valid() && l in objects
      modifies this`locks
      ensures Valid() && objects == old(objects)
      ensures View() == old(View()).(locks := old(View()).locks[id := l.name])
    {
      NamesOfUpdate(locks, id, l);
      locks := locks[id := l];
    }

    method Use(l: OtpAccountLock)
      requires Valid() && l in objects
      modifies l`users
      ensures Valid()
      ensures View() == old(View()).(heap := old(View()).heap[l.name := OtpLocks.Lock(l.tokens, old(l.users) + 1)])
    {
      l.users := l.users + 1;
    }

    /** A new lock object with its token in the channel and its first user. */
    method Create() returns (l: OtpAccountLock)
      requires Valid()
      modifies this`objects
      ensures Valid() && objects == old(objects) + [l] && l.name == |old(objects)| && fresh(l)
      ensures View() == old(View()).(heap := old(View()).heap[l.name := OtpLocks.Lock(1, 1)])
    {
      l := new OtpAccountLock(|objects|);
      l.users := l.users + 1;
      objects := objects + [l];
    }

    /** The section that drops one user, run after a cancellation or a release. */
    method Leave(id: OtpLocks.Identity, l: OtpAccountLock)
      requires Valid() && l in objects && l.users > 0
      modifies this`locks, l
      ensures Valid() && objects == old(objects) && accepted == old(accepted)
      ensures View() == OtpLocks.Deregister(old(View()), id, l.name)
    {
      l.users := l.users - 1;
      if l.users == 0 {
        NamesOfUpdate(locks, id, l);
        locks := locks - {id};
      }
      assert View().heap == old(View().heap)[l.name := OtpLocks.Lock(l.tokens, l.users)];
    }

    /** Receiving from the semaphore channel, when it is not empty. */
    method Receive(l: OtpAccountLock)
      requires Valid() && l in objects && l.tokens > 0
      modifies l
      ensures Valid() && View() == OtpLocks.Take(old(View()), l.name)
    {
      l.tokens := l.tokens - 1;
    }

    /** Sending the token back. */
    method Send(l: OtpAccountLock)
      requires Valid() && l in objects
      modifies l
      ensures Valid() && View() == OtpLocks.Give(old(View()), l.name)
    {
      l.tokens := l.tokens + 1;
    }

    method AcceptedStep(id: StateId) returns (known: Option<int>)
      ensures known == if id in accepted then Some(accepted[id]) else None
    {
      known := if id in accepted then Some(accepted[id]) else None;
    }

    method Remember(id: StateId, step: int)
      requires Valid()
      modifies this`accepted
      ensures Valid() && View() == old(View()) && accepted == Remembered(old(accepted), id, step)
      ensures accepted.Keys == old(accepted).Keys + {id}
      ensures accepted[id] == if id in old(accepted) then Max(old(accepted)[id], step) else step
      ensures forall other | other in old(accepted) && other != id :: accepted[other] == old(accepted)[other]
    {
      if id !in accepted || step > accepted[id] {
        accepted := accepted[id := step];
      }
    }
  }
}

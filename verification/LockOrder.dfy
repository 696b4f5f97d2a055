/** Deadlock freedom across everything one goroutine can wait for while it holds something: the
    package login call, a refresher's in-flight slot, the account's OS lock, the account
    semaphore, and the mutexes, in that order. */
module LockOrder {

  type Id = nat

  datatype Resource =
    | LoginCall(key: Id)
    | Flight(refresher: Id)
    | OsLock(dir: Id, account: Id)
    | Semaphore(proc: Id, account: Id)
    | Mutex(mutex: Id)

  function Rank(r: Resource): nat {
    match r
    case LoginCall(_) => 0
    case Flight(_) => 1
    case OsLock(_, _) => 2
    case Semaphore(_, _) => 3
    case Mutex(_) => 4
  }

  /** `Await` blocks until nobody holds the resource, without taking it: a waiter on a `done`
      channel. */
  datatype Action = Acquire(r: Resource) | Release(r: Resource) | Await(r: Resource)

  datatype Thread = Thread(program: seq<Action>, pc: nat)

  function HeldAfter(program: seq<Action>, n: nat): set<Resource>
    requires n <= |program|
  {
    if n == 0 then {}
    else
      var before := HeldAfter(program, n - 1);
      match program[n - 1]
      case Acquire(r) => before + {r}
      case Release(r) => before - {r}
      case Await(_) => before
  }

  /** Blocking actions ask for more than everything held, and nothing is held at the end. */
  ghost predicate Disciplined(program: seq<Action>) {
    && (forall n | 0 <= n < |program| && !program[n].Release? ::
          forall h | h in HeldAfter(program, n) :: Rank(h) < Rank(program[n].r))
    && HeldAfter(program, |program|) == {}
  }

  // ----- the paths goroutines take -----

  /** What a goroutine does on one path through the code. A path that returns early is one with
      less in it; deferred releases happen on every path. A wait that is given up because its
      context ended is left out: whoever is about to give up can always take that step. */
  datatype Path =
    | Nothing
    | Then(first: Path, second: Path)
    /** A mutex taken and given back on the way. */
    | Section(mutex: Id)
    /** Taken, and given back by a deferred release. */
    | Within(r: Resource, body: Path)
    /** A call or an in-flight slot: created free, given back inside a section of a mutex. */
    | Owning(r: Resource, body: Path, mutex: Id)
    | Waiting(r: Resource)

  function Actions(p: Path): seq<Action> {
    match p
    case Nothing => []
    case Then(a, b) => Actions(a) + Actions(b)
    case Section(m) => [Acquire(Mutex(m)), Release(Mutex(m))]
    case Within(r, body) => [Acquire(r)] + Actions(body) + [Release(r)]
    case Owning(r, body, m) => [Acquire(r)] + Actions(body) + [Acquire(Mutex(m)), Release(r), Release(Mutex(m))]
    case Waiting(r) => [Await(r)]
  }

  /** Any number of mutex sections. */
  predicate Sections(p: Path) {
    match p
    case Nothing => true
    case Section(_) => true
    case Then(a, b) => Sections(a) && Sections(b)
    case _ => false
  }

  /** `refresher.login`: the coordination table and the refresher's own mutex are taken for
      sections only, before, during and after holding the account semaphore: to register and
      leave, to read and record accepted steps in any number of attempts, to set `notBefore`. */
  predicate LoginPath(p: Path) {
    if p.Then? then LoginPath(p.first) && LoginPath(p.second)
    else if p.Within? then p.r.Semaphore? && Sections(p.body)
    else Sections(p)
  }

  /** `initialize` and `recover`, with a store under the account's OS lock or without one: a
      session is restored, or refused, or made by a login and saved. */
  predicate SessionPath(p: Path) {
    if p.Then? then SessionPath(p.first) && SessionPath(p.second)
    else if p.Within? && p.r.OsLock? then LoginPath(p.body)
    else LoginPath(p)
  }

  /** What a goroutine may do while it holds nothing, any number of times and in any order: make
      or restore a session; recover; mark a session ineffective; wait for either worker, as
      requests do; wait for a pending login call; lead one. A login that may be shared has no
      store. */
  predicate GoroutinePath(p: Path) {
    if p.Then? then GoroutinePath(p.first) && GoroutinePath(p.second)
    else if p.Owning? then (p.r.Flight? && SessionPath(p.body)) || (p.r.LoginCall? && LoginPath(p.body))
    else if p.Waiting? then p.r.Flight? || p.r.LoginCall?
    else SessionPath(p)
  }

  ghost predicate IsProgram(program: seq<Action>) {
    exists p: Path :: GoroutinePath(p) && program == Actions(p)
  }

  // ----- composing discipline -----

  /** Running a part while `held` is held: discipline relative to it, and what is held after. */
  ghost predicate Runs(held: set<Resource>, part: seq<Action>, after: set<Resource>)
    decreases |part|
  {
    if part == [] then after == held
    else
      && (!part[0].Release? ==> forall h | h in held :: Rank(h) < Rank(part[0].r))
      && Runs(Step(held, part[0]), part[1..], after)
  }

  function Step(held: set<Resource>, a: Action): set<Resource> {
    match a
    case Acquire(r) => held + {r}
    case Release(r) => held - {r}
    case Await(_) => held
  }

  lemma {:induction false} RunsAppend(held: set<Resource>, a: seq<Action>, mid: set<Resource>, b: seq<Action>,
                                      after: set<Resource>)
    requires Runs(held, a, mid) && Runs(mid, b, after)
    ensures Runs(held, a + b, after)
    decreases |a|
  {
    if a == [] {
      assert a + b == b;
    } else {
      assert (a + b)[1..] == a[1..] + b;
      RunsAppend(Step(held, a[0]), a[1..], mid, b, after);
    }
  }

  /** A part that runs from nothing to nothing is a disciplined program. */
  lemma {:induction false} RunsDisciplined(program: seq<Action>, n: nat)
    requires n <= |program| && Runs(HeldAfter(program, n), program[n..], {})
    ensures forall k | n <= k < |program| && !program[k].Release? ::
              forall h | h in HeldAfter(program, k) :: Rank(h) < Rank(program[k].r)
    ensures HeldAfter(program, |program|) == {}
    decreases |program| - n
  {
    if n < |program| {
      assert program[n..][1..] == program[n + 1..];
      assert HeldAfter(program, n + 1) == Step(HeldAfter(program, n), program[n]);
      RunsDisciplined(program, n + 1);
    }
  }

  /** Everything held has a lower rank. */
  ghost predicate Below(held: set<Resource>, rank: nat) {
    forall h | h in held :: Rank(h) < rank
  }

  lemma {:induction false} SectionRuns(held: set<Resource>, m: Id)
    requires Below(held, 4)
    ensures Runs(held, Actions(Section(m)), held)
  {
    var part := Actions(Section(m));
    assert part[1..] == [Release(Mutex(m))] && part[1..][1..] == [];
    assert Step(Step(held, part[0]), part[1]) == held;
    assert Runs(held, [], held);
    assert Runs(Step(held, part[0]), part[1..], held);
  }

  /** Holding a new resource of a rank above everything held around a part. */
  lemma {:induction false} HoldingRuns(held: set<Resource>, r: Resource, part: seq<Action>)
    requires Below(held, Rank(r)) && Runs(held + {r}, part, held + {r})
    ensures Runs(held, [Acquire(r)] + part + [Release(r)], held)
  {
    var release := [Release(r)];
    assert release[1..] == [] && Step(held + {r}, release[0]) == held;
    assert Runs(held, [], held);
    assert Runs(held + {r}, release, held);
    RunsAppend(held + {r}, part, held + {r}, release, held);
    var whole := [Acquire(r)] + (part + release);
    assert whole[1..] == part + release;
    assert whole == [Acquire(r)] + part + [Release(r)];
  }

  /** Giving back a low-ranked resource inside a mutex section, as closing a channel is. */
  lemma {:induction false} ClosingRuns(held: set<Resource>, r: Resource, m: Id)
    requires Below(held + {r}, 4) && r !in held
    ensures Runs(held + {r}, [Acquire(Mutex(m)), Release(r), Release(Mutex(m))], held)
  {
    var part := [Acquire(Mutex(m)), Release(r), Release(Mutex(m))];
    assert part[1..] == [Release(r), Release(Mutex(m))];
    assert part[1..][1..] == [Release(Mutex(m))] && part[1..][1..][1..] == [];
    var h1 := held + {r} + {Mutex(m)};
    var h2 := held + {Mutex(m)};
    assert Mutex(m) !in held;
    assert h1 - {r} == h2 && h2 - {Mutex(m)} == held;
    assert Runs(held, [], held);
    assert Runs(h2, [Release(Mutex(m))], held);
    assert Runs(h1, part[1..], held);
  }

  /** The same, with the release inside a closing section. */
  lemma {:induction false} OwningRuns(held: set<Resource>, r: Resource, part: seq<Action>, m: Id)
    requires Below(held, Rank(r)) && Rank(r) < 4 && Runs(held + {r}, part, held + {r})
    ensures Runs(held, [Acquire(r)] + part + [Acquire(Mutex(m)), Release(r), Release(Mutex(m))], held)
  {
    var closing := [Acquire(Mutex(m)), Release(r), Release(Mutex(m))];
    ClosingRuns(held, r, m);
    RunsAppend(held + {r}, part, held + {r}, closing, held);
    var whole := [Acquire(r)] + (part + closing);
    assert whole[1..] == part + closing && Step(held, whole[0]) == held + {r};
    assert whole == [Acquire(r)] + part + closing;
  }

  lemma {:induction false} WaitingRuns(held: set<Resource>, r: Resource)
    requires Below(held, Rank(r))
    ensures Runs(held, [Await(r)], held)
  {
    assert [Await(r)][1..] == [];
    assert Runs(held, [], held);
  }

  // ----- every path is disciplined -----

  /** Everything a path asks for has at least the given rank, and what it asks for while it holds
      something ranks above that. */
  predicate Ranked(p: Path, rank: nat) {
    match p
    case Nothing => true
    case Then(a, b) => Ranked(a, rank) && Ranked(b, rank)
    case Section(_) => rank <= 4
    case Within(r, body) => rank <= Rank(r) && Ranked(body, Rank(r) + 1)
    case Owning(r, body, _) => rank <= Rank(r) < 4 && Ranked(body, Rank(r) + 1)
    case Waiting(r) => rank <= Rank(r)
  }

  lemma {:induction false} RankedRuns(held: set<Resource>, p: Path, rank: nat)
    requires Below(held, rank) && Ranked(p, rank)
    ensures Runs(held, Actions(p), held)
    decreases p
  {
    match p
    case Nothing => assert Runs(held, [], held);
    case Then(a, b) =>
      RankedRuns(held, a, rank);
      RankedRuns(held, b, rank);
      RunsAppend(held, Actions(a), held, Actions(b), held);
    case Section(m) => SectionRuns(held, m);
    case Within(r, body) =>
      RankedRuns(held + {r}, body, Rank(r) + 1);
      HoldingRuns(held, r, Actions(body));
    case Owning(r, body, m) =>
      RankedRuns(held + {r}, body, Rank(r) + 1);
      OwningRuns(held, r, Actions(body), m);
    case Waiting(r) => WaitingRuns(held, r);
  }

  lemma {:induction false} SectionsRanked(p: Path, rank: nat)
    requires Sections(p) && rank <= 4
    ensures Ranked(p, rank)
  {
    match p
    case Then(a, b) =>
      SectionsRanked(a, rank);
      SectionsRanked(b, rank);
    case _ =>
  }

  lemma {:induction false} LoginPathRanked(p: Path, rank: nat)
    requires LoginPath(p) && rank <= 3
    ensures Ranked(p, rank)
  {
    if p.Then? {
      LoginPathRanked(p.first, rank);
      LoginPathRanked(p.second, rank);
    } else if p.Within? {
      SectionsRanked(p.body, 4);
    } else {
      SectionsRanked(p, rank);
    }
  }

  lemma {:induction false} SessionPathRanked(p: Path, rank: nat)
    requires SessionPath(p) && rank <= 2
    ensures Ranked(p, rank)
  {
    if p.Then? {
      SessionPathRanked(p.first, rank);
      SessionPathRanked(p.second, rank);
    } else if p.Within? && p.r.OsLock? {
      LoginPathRanked(p.body, 3);
    } else {
      LoginPathRanked(p, rank);
    }
  }

  lemma {:induction false} GoroutinePathRanked(p: Path)
    requires GoroutinePath(p)
    ensures Ranked(p, 0)
  {
    if p.Then? {
      GoroutinePathRanked(p.first);
      GoroutinePathRanked(p.second);
    } else if p.Owning? && p.r.Flight? {
      SessionPathRanked(p.body, 2);
    } else if p.Owning? {
      LoginPathRanked(p.body, 1);
    } else if !p.Waiting? {
      SessionPathRanked(p, 0);
    }
  }

  /** Every goroutine, on every path, asks only for more than it holds, and ends with nothing. */
  lemma ProgramsDisciplined(program: seq<Action>)
    requires IsProgram(program)
    ensures Disciplined(program)
  {
    var p: Path :| GoroutinePath(p) && program == Actions(p);
    GoroutinePathRanked(p);
    RankedRuns({}, p, 0);
    assert program[0..] == program;
    RunsDisciplined(program, 0);
  }

  // ----- no deadlock -----

  type Tid = nat

  /** Every thread is on one of the paths and stands somewhere on it. */
  ghost predicate Sound(threads: map<Tid, Thread>) {
    Placed(threads) && forall t | t in threads :: IsProgram(threads[t].program)
  }

  ghost predicate Placed(threads: map<Tid, Thread>) {
    forall t | t in threads :: threads[t].pc <= |threads[t].program|
  }

  predicate Unfinished(th: Thread) {
    th.pc < |th.program|
  }

  function Held(th: Thread): set<Resource>
    requires th.pc <= |th.program|
  {
    HeldAfter(th.program, th.pc)
  }

  /** The thread's next action can be taken now. */
  ghost predicate CanStep(threads: map<Tid, Thread>, t: Tid)
    requires Placed(threads) && t in threads
  {
    && Unfinished(threads[t])
    && var a := threads[t].program[threads[t].pc];
       a.Release? || forall u | u in threads :: a.r !in Held(threads[u])
  }

  /** What a thread asks for next, or the top of the order when it only releases. */
  function NextRank(th: Thread): nat
    requires Unfinished(th)
  {
    var a := th.program[th.pc];
    if a.Release? then 5 else Rank(a.r)
  }

  /** Whoever holds something is unfinished, and asks for more than it holds. */
  lemma HolderClimbs(th: Thread, r: Resource)
    requires th.pc <= |th.program| && Disciplined(th.program) && r in Held(th)
    ensures Unfinished(th) && NextRank(th) > Rank(r)
  {
  }

  /** From any unfinished thread the chain of holders climbs in rank and ends at one that can
      step. */
  lemma {:induction false} ChainEnds(threads: map<Tid, Thread>, t: Tid)
    requires Placed(threads) && forall u | u in threads :: Disciplined(threads[u].program)
    requires t in threads && Unfinished(threads[t])
    ensures exists u | u in threads :: CanStep(threads, u)
    decreases 5 - NextRank(threads[t])
  {
    if !CanStep(threads, t) {
      var r := threads[t].program[threads[t].pc].r;
      var u :| u in threads && r in Held(threads[u]);
      HolderClimbs(threads[u], r);
      ChainEnds(threads, u);
    }
  }

  /** Whatever the number of goroutines and however far each has got, in any processes, some
      unfinished one can always take its next step. */
  lemma NoDeadlock(threads: map<Tid, Thread>, t: Tid)
    requires Sound(threads) && t in threads && Unfinished(threads[t])
    ensures exists u | u in threads :: CanStep(threads, u)
  {
    forall u | u in threads
      ensures Disciplined(threads[u].program)
    {
      ProgramsDisciplined(threads[u].program);
    }
    ChainEnds(threads, t);
  }
}

/** session.go: Login's package cache. Callers with the same credentials share one login: the
    first becomes the leader, the others wait for its call and look again. Any number of
    callers, with contexts that may end at any moment. */
module LoginCache {
  import opened Prelude
  import opened AuthErrors

  type Tid = nat
  type CallId = nat
  type Key = nat
  type Client = nat

  /** What a caller returns: a client, its own context error, the error of its own login, or the
      error of a call it waited for. A leader that panics returns nothing. */
  datatype Result =
    | Served(client: Client)
    | Gone(own: Err)
    | Failed(error: Err)
    | Shared(error: Err, call: CallId)
    | Panicked

  datatype Pc = Looking | Awaiting(call: CallId) | Leading(call: CallId) | Returned(result: Result)

  /** `ended` is the context error, once the context has ended. */
  datatype Thread = Thread(key: Key, ended: Option<Err>, pc: Pc)

  /** How a leader's login ends; a panic leaves neither client nor error. */
  datatype Outcome = Success(client: Client) | Failure(error: Err) | Panic

  /** The fields of a sessionCacheCall, once closed, and the outcome it stands for. */
  datatype Closed = Closed(err: Option<Err>, ownerEnded: Option<Err>, outcome: Outcome)

  datatype State = State(cache: map<Key, Client>, calls: map<Key, CallId>, closed: map<CallId, Closed>,
                         threads: map<Tid, Thread>)

  datatype Step =
    | Call(t: Tid, key: Key)
    | End(t: Tid, deadline: bool)
    | Look(t: Tid, spare: CallId)
    | Wake(t: Tid)
    | Leave(t: Tid)
    | Finish(t: Tid, outcome: Outcome)

  ghost predicate Unused(s: State, c: CallId) {
    && c !in s.closed && c !in s.calls.Values
    && forall t | t in s.threads :: s.threads[t].pc != Leading(c) && s.threads[t].pc != Awaiting(c)
  }

  ghost predicate Enabled(s: State, step: Step) {
    match step
    case Call(t, _) => t !in s.threads
    case End(t, _) => t in s.threads && s.threads[t].ended.None?
    case Look(t, spare) => t in s.threads && s.threads[t].pc.Looking? && Unused(s, spare)
    case Wake(t) => t in s.threads && s.threads[t].pc.Awaiting? && s.threads[t].pc.call in s.closed
    case Leave(t) => t in s.threads && s.threads[t].pc.Awaiting? && s.threads[t].ended.Some?
    case Finish(t, _) => t in s.threads && s.threads[t].pc.Leading?
  }

  function Goto(s: State, t: Tid, pc: Pc): State
    requires t in s.threads
  {
    s.(threads := s.threads[t := s.threads[t].(pc := pc)])
  }

  /** What a waiter does once the call it waited for is closed. */
  function AfterWait(th: Thread, call: CallId, c: Closed): Pc {
    if th.ended.Some? then Returned(Gone(th.ended.value))
    else if c.err.Some? then
      if c.ownerEnded.Some? && IsEnded(c.err.value) then Looking else Returned(Shared(c.err.value, call))
    else Looking
  }

  ghost function Apply(s: State, step: Step): State
    requires Enabled(s, step)
  {
    match step
    case Call(t, key) => s.(threads := s.threads[t := Thread(key, None, Looking)])
    case End(t, deadline) => s.(threads := s.threads[t := s.threads[t].(ended := Some(Ended(deadline)))])
    case Look(t, spare) =>
      var key := s.threads[t].key;
      if key in s.cache then Goto(s, t, Returned(Served(s.cache[key])))
      else if key in s.calls then Goto(s, t, Awaiting(s.calls[key]))
      else Goto(s, t, Leading(spare)).(calls := s.calls[key := spare])
    case Wake(t) => Goto(s, t, AfterWait(s.threads[t], s.threads[t].pc.call, s.closed[s.threads[t].pc.call]))
    case Leave(t) => Goto(s, t, Returned(Gone(s.threads[t].ended.value)))
    case Finish(t, outcome) =>
      var th := s.threads[t];
      var err := if outcome.Failure? then Some(outcome.error) else None;
      var result := match outcome
                    case Success(client) => Served(client)
                    case Failure(error) => Failed(error)
                    case Panic => Panicked;
      Goto(s, t, Returned(result)).(
        cache := if outcome.Success? then s.cache[th.key := outcome.client] else s.cache,
        calls := s.calls - {th.key},
        closed := s.closed[th.pc.call := Closed(err, th.ended, outcome)])
  }

  /** Step `i` was enabled and led to the next state. */
  ghost predicate Stepped(run: seq<State>, steps: seq<Step>, i: nat)
    requires i < |steps| && |run| == |steps| + 1
  {
    Enabled(run[i], steps[i]) && run[i + 1] == Apply(run[i], steps[i])
  }

  ghost predicate IsRun(run: seq<State>, steps: seq<Step>) {
    && |run| == |steps| + 1 && run[0] == State(map[], map[], map[], map[])
    && forall i | 0 <= i < |steps| :: Stepped(run, steps, i)
  }

  /** Step `i` of a run. */
  ghost predicate StepAt(run: seq<State>, steps: seq<Step>, i: nat) {
    IsRun(run, steps) && i < |steps| && Stepped(run, steps, i)
  }

  // ----- the invariant -----

  /** A leader is registered under its key, and its key is not cached yet. */
  ghost predicate LeadersRegistered(s: State) {
    forall t | t in s.threads && s.threads[t].pc.Leading? ::
      && s.threads[t].key in s.calls && s.calls[s.threads[t].key] == s.threads[t].pc.call
      && s.threads[t].key !in s.cache && s.threads[t].pc.call !in s.closed
  }

  /** No call has two leaders. */
  ghost predicate LeadersApart(s: State) {
    forall t, u | t in s.threads && u in s.threads && s.threads[t].pc.Leading? && s.threads[u].pc.Leading? ::
      s.threads[t].pc.call == s.threads[u].pc.call ==> t == u
  }

  /** An open call has a leader: the thread that will close it. */
  ghost predicate Led(s: State, key: Key, call: CallId) {
    exists t | t in s.threads :: s.threads[t].key == key && s.threads[t].pc == Leading(call)
  }

  ghost predicate CallsLed(s: State) {
    forall key | key in s.calls :: Led(s, key, s.calls[key])
  }

  /** A waiter waits for a closed call or for the open call of its key. */
  ghost predicate WaitersSound(s: State) {
    forall t | t in s.threads && s.threads[t].pc.Awaiting? ::
      || s.threads[t].pc.call in s.closed
      || (s.threads[t].key in s.calls && s.calls[s.threads[t].key] == s.threads[t].pc.call)
  }

  /** A client that was returned is the cached one. */
  ghost predicate ServedCached(s: State) {
    forall t | t in s.threads && s.threads[t].pc.Returned? && s.threads[t].pc.result.Served? ::
      s.threads[t].key in s.cache && s.cache[s.threads[t].key] == s.threads[t].pc.result.client
  }

  /** The error a waiter was given is that of the call it waited for, and is no sign of an ended
      context if the leader's context had ended. */
  predicate Unpoisoned(s: State, e: Err, call: CallId) {
    call in s.closed && s.closed[call].outcome == Failure(e) && !(IsEnded(e) && s.closed[call].ownerEnded.Some?)
  }

  ghost predicate SharedSound(s: State) {
    forall t | t in s.threads && s.threads[t].pc.Returned? && s.threads[t].pc.result.Shared? ::
      Unpoisoned(s, s.threads[t].pc.result.error, s.threads[t].pc.result.call)
  }

  /** A closed call carries an error exactly if its login failed with it. */
  ghost predicate ClosedSound(s: State) {
    forall c | c in s.closed ::
      s.closed[c].err == if s.closed[c].outcome.Failure? then Some(s.closed[c].outcome.error) else None
  }

  ghost predicate Inv(s: State) {
    && LeadersRegistered(s) && LeadersApart(s) && CallsLed(s)
    && WaitersSound(s) && ServedCached(s) && ClosedSound(s) && SharedSound(s)
  }

  lemma StepKeepsLeaders(s: State, step: Step)
    requires LeadersRegistered(s) && LeadersApart(s) && Enabled(s, step)
    ensures LeadersRegistered(Apply(s, step))
  {
  }

  lemma StepKeepsLeadersApart(s: State, step: Step)
    requires LeadersApart(s) && Enabled(s, step)
    ensures LeadersApart(Apply(s, step))
  {
  }

  lemma StepKeepsLed(s: State, step: Step)
    requires Inv(s) && Enabled(s, step)
    ensures CallsLed(Apply(s, step))
  {
    var s' := Apply(s, step);
    forall key | key in s'.calls
      ensures Led(s', key, s'.calls[key])
    {
      if key in s.calls {
        var t :| t in s.threads && s.threads[t].key == key && s.threads[t].pc == Leading(s.calls[key]);
        assert t in s'.threads && s'.threads[t].pc == Leading(s'.calls[key]);
      } else {
        assert s'.threads[step.t].pc == Leading(s'.calls[key]);
      }
    }
  }

  lemma StepKeepsWaiters(s: State, step: Step)
    requires LeadersRegistered(s) && WaitersSound(s) && Enabled(s, step)
    ensures WaitersSound(Apply(s, step))
  {
  }

  lemma StepKeepsServed(s: State, step: Step)
    requires LeadersRegistered(s) && ServedCached(s) && Enabled(s, step)
    ensures ServedCached(Apply(s, step))
  {
  }

  lemma StepKeepsClosed(s: State, step: Step)
    requires ClosedSound(s) && Enabled(s, step)
    ensures ClosedSound(Apply(s, step))
  {
  }

  lemma StepKeepsShared(s: State, step: Step)
    requires LeadersRegistered(s) && ClosedSound(s) && SharedSound(s) && Enabled(s, step)
    ensures SharedSound(Apply(s, step))
  {
  }

  lemma {:induction false} RunKeepsInv(run: seq<State>, steps: seq<Step>, i: nat)
    requires IsRun(run, steps) && i < |run|
    ensures Inv(run[i])
  {
    if i > 0 {
      RunKeepsInv(run, steps, i - 1);
      assert Stepped(run, steps, i - 1);
      StepKeepsLeaders(run[i - 1], steps[i - 1]);
      StepKeepsLeadersApart(run[i - 1], steps[i - 1]);
      StepKeepsLed(run[i - 1], steps[i - 1]);
      StepKeepsWaiters(run[i - 1], steps[i - 1]);
      StepKeepsServed(run[i - 1], steps[i - 1]);
      StepKeepsClosed(run[i - 1], steps[i - 1]);
      StepKeepsShared(run[i - 1], steps[i - 1]);
    }
  }

  // ----- guarantees -----

  /** At most one caller leads the login of a key at a time. */
  lemma OneLeader(run: seq<State>, steps: seq<Step>, i: nat, t: Tid, u: Tid)
    requires IsRun(run, steps) && i < |run| && t in run[i].threads && u in run[i].threads
    requires run[i].threads[t].pc.Leading? && run[i].threads[u].pc.Leading?
    requires run[i].threads[t].key == run[i].threads[u].key
    ensures t == u
  {
    RunKeepsInv(run, steps, i);
  }

  /** The cache entry of a key is written at most once in a run. */
  lemma {:induction false} CachedOnce(run: seq<State>, steps: seq<Step>, i: nat, j: nat, key: Key)
    requires IsRun(run, steps) && i <= j < |run| && key in run[i].cache
    ensures key in run[j].cache && run[j].cache[key] == run[i].cache[key]
  {
    if i < j {
      CachedOnce(run, steps, i, j - 1, key);
      RunKeepsInv(run, steps, j - 1);
      assert Stepped(run, steps, j - 1);
    }
  }

  /** All successful calls with one key, at whatever times of the run, return one client. */
  lemma OneClient(run: seq<State>, steps: seq<Step>, i: nat, j: nat, t: Tid, u: Tid, a: Client, b: Client)
    requires IsRun(run, steps) && i <= j < |run| && t in run[i].threads && u in run[j].threads
    requires run[i].threads[t].key == run[j].threads[u].key
    requires run[i].threads[t].pc == Returned(Served(a)) && run[j].threads[u].pc == Returned(Served(b))
    ensures a == b
  {
    RunKeepsInv(run, steps, i);
    RunKeepsInv(run, steps, j);
    CachedOnce(run, steps, i, j, run[i].threads[t].key);
  }

  /** No caller ever returns a cancellation that came from another caller's ended context: the
      error of a call it waited for is either no sign of an ended context, or the leader's context
      was alive when the call was closed. */
  lemma WaiterNotPoisoned(run: seq<State>, steps: seq<Step>, i: nat, t: Tid, e: Err, call: CallId)
    requires IsRun(run, steps) && i < |run| && t in run[i].threads
    requires run[i].threads[t].pc == Returned(Shared(e, call))
    ensures Unpoisoned(run[i], e, call)
  {
    RunKeepsInv(run, steps, i);
  }

  /** And a waiter whose own context is alive shares every other error, and looks again exactly if
      the login succeeded, panicked, or was given up because the leader's context ended. */
  lemma WaiterSharesOrLooks(run: seq<State>, steps: seq<Step>, i: nat, t: Tid)
    requires StepAt(run, steps, i) && steps[i] == Wake(t) && run[i].threads[t].ended.None?
    ensures var call := run[i].threads[t].pc.call; var outcome := run[i].closed[call].outcome;
            var shares := outcome.Failure? && !(IsEnded(outcome.error) && run[i].closed[call].ownerEnded.Some?);
            run[i + 1].threads[t].pc == if shares then Returned(Shared(outcome.error, call)) else Looking
  {
    RunKeepsInv(run, steps, i);
  }

  /** A waiter whose own context has ended returns its own error, whatever came of the login, whether it
      wakes or leaves. */
  lemma WaiterGoesWithItsContext(run: seq<State>, steps: seq<Step>, i: nat, t: Tid)
    requires StepAt(run, steps, i) && (steps[i] == Wake(t) || steps[i] == Leave(t))
    requires run[i].threads[t].ended.Some?
    ensures run[i + 1].threads[t].pc == Returned(Gone(run[i].threads[t].ended.value))
  {
  }

  /** A blocked waiter is never abandoned: its call is closed, or a leader is still at work on
      it. */
  lemma WaiterHasLeader(run: seq<State>, steps: seq<Step>, i: nat, t: Tid)
    requires IsRun(run, steps) && i < |run| && t in run[i].threads && run[i].threads[t].pc.Awaiting?
    ensures Enabled(run[i], Wake(t))
            || exists u | u in run[i].threads :: run[i].threads[u].pc == Leading(run[i].threads[t].pc.call)
  {
    RunKeepsInv(run, steps, i);
    var s := run[i];
    if s.threads[t].pc.call !in s.closed {
      assert Led(s, s.threads[t].key, s.threads[t].pc.call);
    }
  }

  // ----- where a result comes from -----

  /** Step `j` ended the login of thread `u`. */
  ghost predicate Finished(run: seq<State>, steps: seq<Step>, j: nat, u: Tid, outcome: Outcome)
    requires j < |steps| < |run|
  {
    steps[j] == Finish(u, outcome) && u in run[j].threads && run[j].threads[u].pc.Leading?
  }

  /** Every cached client comes from a login of its key that succeeded. */
  lemma {:induction false} CachedWasMade(run: seq<State>, steps: seq<Step>, i: nat, key: Key) returns (j: nat, u: Tid)
    requires IsRun(run, steps) && i < |run| && key in run[i].cache
    ensures j < i && Finished(run, steps, j, u, Success(run[i].cache[key])) && run[j].threads[u].key == key
  {
    if i == 0 {
      assert false;
    } else {
      assert Stepped(run, steps, i - 1);
      if key in run[i - 1].cache && run[i - 1].cache[key] == run[i].cache[key] {
        j, u := CachedWasMade(run, steps, i - 1, key);
      } else {
        j, u := i - 1, steps[i - 1].t;
      }
    }
  }

  /** Every closed call is closed by its leader with the outcome of that login, and with the state of
      the leader's own context then. */
  lemma {:induction false} ClosedWasLed(run: seq<State>, steps: seq<Step>, i: nat, call: CallId)
    returns (j: nat, u: Tid)
    requires IsRun(run, steps) && i < |run| && call in run[i].closed
    ensures j < i && Finished(run, steps, j, u, run[i].closed[call].outcome)
    ensures run[j].threads[u].pc == Leading(call) && run[i].closed[call].ownerEnded == run[j].threads[u].ended
  {
    if i == 0 {
      assert false;
    } else {
      assert Stepped(run, steps, i - 1);
      if call in run[i - 1].closed && run[i - 1].closed[call] == run[i].closed[call] {
        j, u := ClosedWasLed(run, steps, i - 1, call);
      } else {
        j, u := i - 1, steps[i - 1].t;
      }
    }
  }

  /** What a caller returns is its own: a client that a login of its key made; its own context's
      error, when that has ended; the very error of its own login; or, if it waited, that of the
      login it waited for. */
  ghost predicate ComesFrom(run: seq<State>, steps: seq<Step>, i: nat, t: Tid, result: Result)
    requires IsRun(run, steps) && i < |run| && t in run[i].threads
  {
    match result
    case Served(client) =>
      exists j: nat, u: Tid ::
        j < i && Finished(run, steps, j, u, Success(client)) && run[j].threads[u].key == run[i].threads[t].key
    case Gone(own) => run[i].threads[t].ended == Some(own) && IsEnded(own)
    case Failed(error) => exists j: nat :: j < i && Finished(run, steps, j, t, Failure(error))
    case Shared(error, call) =>
      exists j: nat, u: Tid ::
        j < i && Finished(run, steps, j, u, Failure(error)) && run[j].threads[u].pc == Leading(call)
    case Panicked => exists j: nat :: j < i && Finished(run, steps, j, t, Panic)
  }

  lemma {:induction false} EndedIsEnded(run: seq<State>, steps: seq<Step>, i: nat, t: Tid)
    requires IsRun(run, steps) && i < |run| && t in run[i].threads && run[i].threads[t].ended.Some?
    ensures IsEnded(run[i].threads[t].ended.value)
  {
    if i > 0 {
      assert Stepped(run, steps, i - 1);
      if t in run[i - 1].threads && run[i - 1].threads[t].ended.Some? {
        EndedIsEnded(run, steps, i - 1, t);
      }
    }
  }

  lemma ReturnStep(s: State, step: Step, t: Tid, result: Result)
    requires Inv(s) && Enabled(s, step)
    requires t in Apply(s, step).threads && Apply(s, step).threads[t].pc == Returned(result)
    requires t !in s.threads || s.threads[t].pc != Returned(result)
    ensures t in s.threads && Apply(s, step).threads[t] == s.threads[t].(pc := Returned(result))
    ensures match result
            case Served(client) =>
              || (step == Finish(t, Success(client)) && s.threads[t].pc.Leading?)
              || (s.threads[t].key in s.cache && s.cache[s.threads[t].key] == client)
            case Gone(own) => s.threads[t].ended == Some(own)
            case Failed(error) => step == Finish(t, Failure(error)) && s.threads[t].pc.Leading?
            case Shared(error, call) => call in s.closed && s.closed[call].outcome == Failure(error)
            case Panicked => step == Finish(t, Panic) && s.threads[t].pc.Leading?
  {
  }

  lemma FirstReturn(run: seq<State>, steps: seq<Step>, i: nat, t: Tid, result: Result)
    requires StepAt(run, steps, i) && t in run[i + 1].threads && run[i + 1].threads[t].pc == Returned(result)
    requires t !in run[i].threads || run[i].threads[t].pc != Returned(result)
    ensures ComesFrom(run, steps, i + 1, t, result)
  {
    RunKeepsInv(run, steps, i);
    ReturnStep(run[i], steps[i], t, result);
    match result
    case Served(client) =>
      if steps[i] == Finish(t, Success(client)) {
        assert Finished(run, steps, i, t, Success(client));
      } else {
        var j, u := CachedWasMade(run, steps, i, run[i].threads[t].key);
      }
    case Gone(own) => EndedIsEnded(run, steps, i, t);
    case Failed(error) => assert Finished(run, steps, i, t, Failure(error));
    case Shared(error, call) =>
      var j, u := ClosedWasLed(run, steps, i, call);
    case Panicked => assert Finished(run, steps, i, t, Panic);
  }

  lemma LaterReturn(run: seq<State>, steps: seq<Step>, i: nat, t: Tid, result: Result)
    requires StepAt(run, steps, i) && t in run[i].threads && run[i].threads[t].pc == Returned(result)
    requires ComesFrom(run, steps, i, t, result)
    ensures t in run[i + 1].threads && run[i + 1].threads[t].pc == Returned(result)
    ensures ComesFrom(run, steps, i + 1, t, result)
  {
    assert run[i + 1].threads[t].key == run[i].threads[t].key;
  }

  /** Over any run every result comes from where it should. */
  lemma {:induction false} ResultsExact(run: seq<State>, steps: seq<Step>, i: nat, t: Tid, result: Result)
    requires IsRun(run, steps) && i < |run| && t in run[i].threads && run[i].threads[t].pc == Returned(result)
    ensures ComesFrom(run, steps, i, t, result)
  {
    if i == 0 {
      assert false;
    } else {
      assert Stepped(run, steps, i - 1);
      if t in run[i - 1].threads && run[i - 1].threads[t].pc == Returned(result) {
        ResultsExact(run, steps, i - 1, t, result);
        LaterReturn(run, steps, i - 1, t, result);
      } else {
        FirstReturn(run, steps, i - 1, t, result);
      }
    }
  }
}

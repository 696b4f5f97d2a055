/** Runs of the recovery protocol (module RefresherRuns) that do what its theorems leave open:
    each lemma extends any reachable state of its kind to a run that shows the exception. */
module RefresherWitnesses {
  import opened Prelude
  import opened AuthErrors
  import opened Refresher
  import opened RefresherRuns
  import LP = LoginProtocol
  import OtpCoordination

  /** The state a run has come to. */
  function Now(run: seq<State>): State
    requires run != []
  {
    run[|run| - 1]
  }

  ghost predicate Extends(run: seq<State>, steps: seq<Step>, run': seq<State>, steps': seq<Step>) {
    IsRun(run', steps') && run <= run' && steps <= steps'
  }

  lemma Push(run: seq<State>, steps: seq<Step>, step: Step) returns (run': seq<State>, steps': seq<Step>)
    requires IsRun(run, steps) && Enabled(Now(run), step)
    ensures Extends(run, steps, run', steps') && Now(run') == Apply(Now(run), step)
    ensures run' == run + [Now(run')] && steps' == steps + [step]
  {
    run', steps' := run + [Apply(Now(run), step)], steps + [step];
    forall i | 0 <= i < |steps'|
      ensures Stepped(run', steps', i)
    {
      assert i < |steps| ==> Stepped(run, steps, i);
    }
  }

  /** The present OTP step is not spent. */
  predicate OtpReady(s: State) {
    s.clock >= 0 && (s.spent.Some? ==> OtpCoordination.StepOf(s.clock) > s.spent.value)
  }

  /** A recovery may start at once. */
  predicate Idle(s: State) {
    Decide(s.core, s.core.generation, s.clock).Recover? && PassesStore(s) && !s.shut
  }

  /** And its login need not wait. */
  predicate Ready(s: State) {
    Idle(s) && OtpReady(s)
  }

  /** The clock moves on, and with it nothing else. */
  lemma Pause(run: seq<State>, steps: seq<Step>, length: int) returns (run': seq<State>, steps': seq<Step>)
    requires IsRun(run, steps) && length >= 0
    ensures Extends(run, steps, run', steps')
    ensures var s := Now(run);
            && Now(run') == s.(clock := s.clock + length)
            && (OtpReady(s) ==> OtpReady(Now(run'))) && (PassesStore(s) ==> PassesStore(Now(run')))
  {
    if OtpReady(Now(run)) {
      OtpCoordination.StepMonotone(Now(run).clock, Now(run).clock + length);
    }
    run', steps' := Push(run, steps, Tick(Now(run).clock + length));
  }

  // ----- a login inside a recovery -----

  function SpentAll(spent: Option<int>, events: seq<LP.Event>): Option<int>
    decreases |events|
  {
    if events == [] then spent else SpentAll(SpentAfter(spent, events[0]), events[1..])
  }

  predicate FloorsFit(spent: Option<int>, events: seq<LP.Event>)
    decreases |events|
  {
    events != [] ==> FloorFits(spent, events[0]) && FloorsFit(SpentAfter(spent, events[0]), events[1..])
  }

  /** Events that are neither a read nor an acceptance leave the known step alone. */
  lemma {:induction false} SpentStays(spent: Option<int>, events: seq<LP.Event>)
    requires forall i | 0 <= i < |events| :: !events[i].Floor? && !events[i].Accept?
    ensures SpentAll(spent, events) == spent && FloorsFit(spent, events)
    decreases |events|
  {
    if events != [] {
      SpentStays(spent, events[1..]);
    }
  }

  lemma {:induction false} PasswordSpends(at: int, spent: Option<int>)
    ensures var events := LP.UpToPassword(at, spent); SpentAll(spent, events) == spent && FloorsFit(spent, events)
  {
    var events := LP.UpToPassword(at, spent);
    assert events[1..][0] == LP.Floor(at, spent);
    SpentStays(spent, events[1..][1..]);
  }

  lemma {:induction false} RestSpends(cfg: LP.Config, at: int, step: int, spent: Option<int>)
    requires spent.Some? ==> step > spent.value
    ensures var events := LP.Rest(cfg, at, step); SpentAll(spent, events) == Some(step) && FloorsFit(spent, events)
  {
    var events := LP.Rest(cfg, at, step);
    var second := events[1..];
    var third := second[1..];
    SpentStays(Some(step), LP.AfterAccept(cfg, at, step));
    assert third[0] == LP.Accept(at, step) && third[1..] == LP.AfterAccept(cfg, at, step);
    assert SpentAll(spent, third) == Some(step) && FloorsFit(spent, third);
    assert SpentAll(spent, second) == Some(step) && FloorsFit(spent, second);
  }

  /** The worker after some more events of its login. */
  function LoggedFurther(s: State, c: Chan, events: seq<LP.Event>): State
    requires LogsIn(s, c) && s.workers[c].phase.m.clock >= 0 && LP.Run(s.cfg, s.workers[c].phase.m, events).Some?
  {
    var w := s.workers[c].phase;
    SetPhase(s, c, Logging(LP.Run(s.cfg, w.m, events).value, w.h.(trace := w.h.trace + events))).(
      spent := SpentAll(s.spent, events))
  }

  /** One event, and then the rest. */
  lemma {:induction false} OneFurther(s: State, c: Chan, events: seq<LP.Event>, next: LP.Monitor)
    requires LogsIn(s, c) && s.workers[c].phase.m.clock >= 0 && LP.Run(s.cfg, s.workers[c].phase.m, events).Some?
    requires events != [] && !events[0].Limited? && events[0].at == s.clock
    requires LP.Advance(s.cfg, s.workers[c].phase.m, events[0]) == Some(next)
    ensures var s1 := Apply(s, Do(c, events[0], next));
            && LogsIn(s1, c) && s1.workers[c].phase.m == next && s1.cfg == s.cfg && s1.clock == s.clock
            && s1.account == s.account && s1.entry == s.entry && s1.shut == s.shut
            && s1.spent == SpentAfter(s.spent, events[0])
            && LoggedFurther(s1, c, events[1..]) == LoggedFurther(s, c, events)
  {
    var w := s.workers[c].phase;
    var s1 := Apply(s, Do(c, events[0], next));
    assert w.h.trace + [events[0]] + events[1..] == w.h.trace + events;
    assert LoggedFurther(s1, c, events[1..]).workers == LoggedFurther(s, c, events).workers;
  }

  lemma {:induction false} DoAll(run: seq<State>, steps: seq<Step>, c: Chan, events: seq<LP.Event>)
    returns (run': seq<State>, steps': seq<Step>)
    requires IsRun(run, steps)
    requires var s := Now(run);
             && LogsIn(s, c) && s.workers[c].phase.m.clock >= 0 && PassesStore(s) && !s.shut
             && LP.PlainAt(events, s.clock) && LP.Run(s.cfg, s.workers[c].phase.m, events).Some?
             && FloorsFit(s.spent, events)
    ensures Extends(run, steps, run', steps') && Now(run') == LoggedFurther(Now(run), c, events)
    decreases |events|
  {
    var s := Now(run);
    var w := s.workers[c].phase;
    if events == [] {
      run', steps' := run, steps;
      assert w.h.trace + [] == w.h.trace;
      assert LoggedFurther(s, c, events).workers == s.workers;
    } else {
      var next := LP.Advance(s.cfg, w.m, events[0]).value;
      OneFurther(s, c, events, next);
      run', steps' := Push(run, steps, Do(c, events[0], next));
      run', steps' := DoAll(run', steps', c, events[1..]);
    }
  }

  /** The recovery has just sent a password. */
  predicate Sending(s: State, c: Chan) {
    && LogsIn(s, c) && PassesStore(s) && OtpReady(s) && !s.shut
    && s.workers[c].phase.m.pc.PasswordSent? && s.workers[c].phase.m.clock == s.clock
    && s.workers[c].phase.m.attempts > 0
  }

  /** The attempts a recovery has begun. */
  function Attempts(s: State, c: Chan): nat
    requires LogsIn(s, c)
  {
    s.workers[c].phase.m.attempts
  }

  /** Nothing has changed about the workers but the phase of one recovery. */
  predicate OnlyPhase(s: State, s': State, c: Chan) {
    && Recovers(s, c) && Recovers(s', c)
    && s'.workers == s.workers[c := Recovering(s.workers[c].seen, s'.workers[c].phase)]
  }

  /** A request loses the current session and starts a recovery. */
  function Started(s: State, t: Tid, c: Chan): State {
    Seat(s, t, Waiting(c, s.core.generation)).(
      core := s.core.(inFlight := Some(c)), workers := s.workers[c := NewRecovery(s, s.core.generation)])
  }

  lemma Start(run: seq<State>, steps: seq<Step>, t: Tid, c: Chan) returns (run': seq<State>, steps': seq<Step>)
    requires IsRun(run, steps) && Idle(Now(run)) && Free(Now(run), t) && Unused(Now(run), c)
    ensures Extends(run, steps, run', steps') && Now(run') == Started(Now(run), t, c)
  {
    var s := Now(run);
    run', steps' := Push(run, steps, Capture(t));
    run', steps' := Push(run', steps', Refresh(t, c));
    assert Now(run').threads == Started(s, t, c).threads;
  }

  /** An attempt begins and its password is sent. */
  lemma NextAttempt(run: seq<State>, steps: seq<Step>, c: Chan) returns (run': seq<State>, steps': seq<Step>)
    requires IsRun(run, steps)
    requires var s := Now(run);
             && LogsIn(s, c) && PassesStore(s) && OtpReady(s) && !s.shut
             && var m := s.workers[c].phase.m;
             && m.pc.Between? && m.attempts < s.cfg.max && 0 <= m.clock <= s.clock
             && (m.attempts > 0 ==> !Pending(m.notBefore, s.clock))
    ensures Extends(run, steps, run', steps')
    ensures var s := Now(run); var s' := Now(run');
            && Sending(s', c) && Attempts(s', c) == Attempts(s, c) + 1
            && OnlyPhase(s, s', c) && s' == s.(workers := s'.workers)
  {
    var s := Now(run);
    LP.PasswordReached(s.cfg, s.workers[c].phase.m, s.clock, s.spent);
    PasswordSpends(s.clock, s.spent);
    run', steps' := DoAll(run, steps, c, LP.UpToPassword(s.clock, s.spent));
    assert Now(run').workers == s.workers[c := Now(run').workers[c]];
  }

  /** A request loses the current session, and the recovery sends its password. */
  lemma SendPassword(run: seq<State>, steps: seq<Step>, t: Tid, c: Chan) returns (run': seq<State>, steps': seq<Step>)
    requires IsRun(run, steps) && Ready(Now(run)) && Free(Now(run), t) && Unused(Now(run), c)
    ensures Extends(run, steps, run', steps')
    ensures var s := Now(run); var s' := Now(run');
            && Sending(s', c) && Attempts(s', c) == 1 && s' == Started(s, t, c).(workers := s'.workers)
            && s'.workers == s.workers[c := Recovering(s.core.generation, s'.workers[c].phase)]
  {
    RunKeepsConfig(run, steps);
    run', steps' := Start(run, steps, t, c);
    run', steps' := NextAttempt(run', steps', c);
  }

  lemma RunKeepsConfig(run: seq<State>, steps: seq<Step>)
    requires IsRun(run, steps)
    ensures Now(run).cfg == run[0].cfg && Now(run).cfg.max >= 1 && Now(run).clock >= 0
  {
    RunKeepsInv(run, steps, |steps|);
  }

  /** The login goes well. */
  lemma FinishStages(run: seq<State>, steps: seq<Step>, c: Chan) returns (run': seq<State>, steps': seq<Step>)
    requires IsRun(run, steps) && Sending(Now(run), c)
    ensures Extends(run, steps, run', steps')
    ensures var s := Now(run); var s' := Now(run');
            && LogsIn(s', c) && LP.Complete(s.cfg, s'.workers[c].phase.m) && OnlyPhase(s, s', c)
            && s' == s.(spent := Some(OtpCoordination.StepOf(s.clock)), workers := s'.workers)
  {
    var s := Now(run);
    LP.RestCompletes(s.cfg, s.workers[c].phase.m, s.clock);
    RestSpends(s.cfg, s.clock, OtpCoordination.StepOf(s.clock), s.spent);
    run', steps' := DoAll(run, steps, c, LP.Rest(s.cfg, s.clock, OtpCoordination.StepOf(s.clock)));
    assert Now(run').workers == s.workers[c := Now(run').workers[c]];
  }

  /** The recovery has a jar. */
  lemma FinishLogin(run: seq<State>, steps: seq<Step>, c: Chan, jar: Jar)
    returns (run': seq<State>, steps': seq<Step>)
    requires IsRun(run, steps) && Sending(Now(run), c) && jar !in Now(run).genuine
    ensures Extends(run, steps, run', steps')
    ensures var s := Now(run); var s' := Now(run');
            && s' == s.(core := s.core.(notBefore := None), genuine := s'.genuine,
                        spent := Some(OtpCoordination.StepOf(s.clock)),
                        workers := s.workers[c := Recovering(s.workers[c].seen, Got(jar))])
            && s'.genuine.Keys == s.genuine.Keys + {jar}
  {
    run', steps' := FinishStages(run, steps, c);
    run', steps' := Push(run', steps', LoggedIn(c, jar));
    assert Now(run').workers == Now(run).workers[c := Recovering(Now(run).workers[c].seen, Got(jar))];
  }

  /** The recovery publishes. */
  lemma PublishSession(run: seq<State>, steps: seq<Step>, c: Chan) returns (run': seq<State>, steps': seq<Step>)
    requires IsRun(run, steps) && Recovers(Now(run), c) && Now(run).workers[c].phase.Got?
    ensures Extends(run, steps, run', steps')
    ensures var s := Now(run); var s' := Now(run'); var g := s'.core.generation;
            && g > s.core.generation && s'.core == Published(s.core, s.workers[c].phase.jar, g)
            && s' == s.(core := s'.core, workers := s.workers - {c}, closed := s.closed + {c}, entry := None,
                        stored := Some(g), last := Some(DidPublish))
  {
    var s := Now(run);
    RunKeepsInv(run, steps, |steps|);
    run', steps' := Push(run, steps, Publish(c, if s.cfg.store then s.core.generation else 0));
  }

  /** Its thread learns of it and replays its request. */
  lemma Replay(run: seq<State>, steps: seq<Step>, t: Tid) returns (run': seq<State>, steps': seq<Step>)
    requires IsRun(run, steps)
    requires var s := Now(run);
             t in s.threads && s.threads[t].Waiting? && s.threads[t].done in s.closed && s.core.lastErr.None?
    ensures Extends(run, steps, run', steps')
    ensures var s := Now(run); Now(run') == s.(threads := s.threads[t := Replaying(s.core.generation)])
  {
    var s := Now(run);
    run', steps' := Push(run, steps, Wake(t));
    run', steps' := Push(run', steps', Recapture(t));
    assert Now(run').threads == s.threads[t := Replaying(s.core.generation)];
  }

  /** The state once thread `t` is replaying on a session published by worker `c`. */
  predicate Replayed(s: State, s': State, t: Tid, c: Chan, jar: Jar) {
    var g := s'.core.generation;
    && s.clock >= 0 && g > s.core.generation && s'.core == Core(g, jar, None, None, None, None)
    && s' == s.(core := s'.core, closed := s.closed + {c}, threads := s.threads[t := Replaying(g)],
                spent := Some(OtpCoordination.StepOf(s.clock)), entry := None, stored := Some(g),
                last := Some(DidPublish), genuine := s'.genuine)
    && s'.genuine.Keys == s.genuine.Keys + {jar}
  }

  /** From every reachable state in which a recovery may start and log in, one can publish a new
      session on which a request is replayed, at the same time. */
  lemma ReachReplay(run: seq<State>, steps: seq<Step>, t: Tid, c: Chan, jar: Jar)
    returns (run': seq<State>, steps': seq<Step>)
    requires IsRun(run, steps) && Ready(Now(run)) && jar !in Now(run).genuine
    requires Free(Now(run), t) && Unused(Now(run), c)
    ensures Extends(run, steps, run', steps') && Replayed(Now(run), Now(run'), t, c, jar)
  {
    run', steps' := SendPassword(run, steps, t, c);
    run', steps' := FinishLogin(run', steps', c, jar);
    run', steps' := PublishAndReplay(run', steps', t, c, jar);
    assert Now(run').threads == Now(run).threads[t := Replaying(Now(run').core.generation)];
    assert Now(run').workers == Now(run).workers;
  }

  lemma PublishAndReplay(run: seq<State>, steps: seq<Step>, t: Tid, c: Chan, jar: Jar)
    returns (run': seq<State>, steps': seq<Step>)
    requires IsRun(run, steps)
    requires var s := Now(run);
             && Recovers(s, c) && s.workers[c].phase == Got(jar)
             && t in s.threads && s.threads[t].Waiting? && s.threads[t].done == c
    ensures Extends(run, steps, run', steps')
    ensures var s := Now(run); var s' := Now(run'); var g := s'.core.generation;
            && g > s.core.generation && s'.core == Core(g, jar, None, None, None, None)
            && s' == s.(core := s'.core, workers := s.workers - {c}, closed := s.closed + {c}, entry := None,
                        stored := Some(g), last := Some(DidPublish), threads := s.threads[t := Replaying(g)])
  {
    run', steps' := PublishSession(run, steps, c);
    run', steps' := Replay(run', steps', t);
  }

  // ----- nil without a newer session -----

  /** A replay reports its session, and a request that has lost the same one waits for the
      marker. */
  lemma JoinMarker(run: seq<State>, steps: seq<Step>, t: Tid, u: Tid, failure: Err, c: Chan, d: Chan)
    returns (run': seq<State>, steps': seq<Step>)
    requires IsRun(run, steps)
    requires var s := Now(run);
             && s.core.inFlight.None? && t != u && Free(s, u) && c != d && Unused(s, c) && Unused(s, d)
             && t in s.threads && s.threads[t] == Replaying(s.core.generation)
    ensures Extends(run, steps, run', steps')
    ensures var s := Now(run);
            Now(run') == s.(core := s.core.(inFlight := Some(c)),
                            workers := s.workers[c := Marking(s.core.generation, failure, None)],
                            threads := s.threads[u := Waiting(c, s.core.generation)] - {t})
  {
    var s := Now(run);
    run', steps' := Push(run, steps, Capture(u));
    run', steps' := Push(run', steps', Note(t, failure, c));
    run', steps' := Push(run', steps', Refresh(u, d));
    assert Now(run').threads == s.threads[u := Waiting(c, s.core.generation)] - {t};
  }

  predicate JustSpent(s: State) {
    s.clock >= 0 && s.spent == Some(OtpCoordination.StepOf(s.clock))
  }

  /** A login of another process that goes well at once. */
  function GoodLogin(cfg: LP.Config, at: int, known: Option<int>): Handshake
    requires at >= 0
  {
    Handshake(LP.Begin(at, None), LP.UpToPassword(at, known) + LP.Rest(cfg, at, OtpCoordination.StepOf(at)))
  }

  lemma GoodLoginCompletes(cfg: LP.Config, at: int, known: Option<int>)
    requires at >= 0 && cfg.max >= 1 && (known.Some? ==> OtpCoordination.StepOf(at) > known.value)
    ensures Completed(cfg, GoodLogin(cfg, at, known))
  {
    var begin := LP.Begin(at, None);
    var sent := LP.Monitor(LP.PasswordSent(known), 1, at, None);
    var rest := LP.Rest(cfg, at, OtpCoordination.StepOf(at));
    LP.PasswordReached(cfg, begin, at, known);
    LP.RestCompletes(cfg, sent, at);
    LP.RunSplit(cfg, begin, LP.UpToPassword(at, known), rest);
    assert ComesTo(cfg, GoodLogin(cfg, at, known), LP.Run(cfg, sent, rest).value);
  }

  /** When there is a new OTP step, another process logs in and saves its session under the next
      generation. */
  lemma OtherRecovers(run: seq<State>, steps: seq<Step>, theirs: Jar)
    returns (run': seq<State>, steps': seq<Step>)
    requires IsRun(run, steps)
    requires Now(run).cfg.store && theirs !in Now(run).genuine && JustSpent(Now(run))
    ensures Extends(run, steps, run', steps')
    ensures var s := Now(run); var s' := Now(run');
            s' == s.(clock := s.clock + OtpCoordination.NEXT_WINDOW, genuine := s'.genuine, entry := None,
                     stored := Some(s.core.generation + 1))
  {
    var s := Now(run);
    RunKeepsConfig(run, steps);
    OtpCoordination.NextWindowIsPast(s.clock);
    var later := s.clock + OtpCoordination.NEXT_WINDOW;
    GoodLoginCompletes(s.cfg, later, s.spent);
    run', steps' := Pause(run, steps, OtpCoordination.NEXT_WINDOW);
    run', steps' := OtherSaves(run', steps', theirs, GoodLogin(s.cfg, later, s.spent), s.core.generation + 1);
  }

  lemma OtherSaves(run: seq<State>, steps: seq<Step>, theirs: Jar, h: Handshake, generation: nat)
    returns (run': seq<State>, steps': seq<Step>)
    requires IsRun(run, steps)
    requires Now(run).cfg.store && theirs !in Now(run).genuine && Completed(Now(run).cfg, h)
    ensures Extends(run, steps, run', steps')
    ensures var s := Now(run);
            Now(run') == s.(genuine := s.genuine[theirs := h], entry := None, stored := Some(generation))
  {
    run', steps' := Push(run, steps, OtherLogin(theirs, h));
    run', steps' := Push(run', steps', OtherEntry(None, Some(generation)));
  }

  /** While the marker waits for the account lock another process logs in and saves its session;
      the marker finds that generation in the store, and its waiter wakes. */
  lemma SkipAndWake(run: seq<State>, steps: seq<Step>, u: Tid, c: Chan, theirs: Jar)
    returns (run': seq<State>, steps': seq<Step>)
    requires IsRun(run, steps)
    requires var s := Now(run);
             && s.cfg.store && theirs !in s.genuine && JustSpent(s)
             && Marks(s, c) && s.workers[c].started.None? && s.workers[c].generation == s.core.generation
             && u in s.threads && s.threads[u] == Waiting(c, s.core.generation)
    ensures Extends(run, steps, run', steps') && |steps'| > |steps|
    ensures var s := run'[|steps'| - 1]; var step := steps'[|steps'| - 1];
            && step == Wake(u) && ReturnsNil(s, step) && s.threads[u].seen == s.core.generation
            && s.stored == Some(s.core.generation + 1)
  {
    run', steps' := Push(run, steps, MarkerStart(c));
    run', steps' := OtherRecovers(run', steps', theirs);
    run', steps' := EndAndWake(run', steps', u, c);
  }

  /** A marker finds another generation in the store, and its waiter wakes. */
  lemma EndAndWake(run: seq<State>, steps: seq<Step>, u: Tid, c: Chan) returns (run': seq<State>, steps': seq<Step>)
    requires IsRun(run, steps) && Enabled(Now(run), MarkerEnd(c, Skipped, false))
    requires u in Now(run).threads && Now(run).threads[u] == Waiting(c, Now(run).core.generation)
    ensures Extends(run, steps, run', steps') && |steps'| > |steps|
    ensures var s := run'[|steps'| - 1]; var step := steps'[|steps'| - 1];
            && step == Wake(u) && ReturnsNil(s, step) && s.threads[u].seen == s.core.generation
            && s.stored == Now(run).stored && s.core.generation == Now(run).core.generation
  {
    run', steps' := Push(run, steps, MarkerEnd(c, Skipped, false));
    run', steps' := Push(run', steps', Wake(u));
  }

  /** The exception of NilMeansNewer is always within reach: in every reachable state of a
      store-backed refresher in which a recovery may start and log in, one request can recover and be
      replayed in vain while another has lost the new session too; before the replay's marker gets
      the account lock another process logs in and saves; and the other request's `refresh`
      returns nil on the session it had. How that process comes to save is
      SharedWitnesses.MarkerFindsNewer. */
  lemma NilWithoutNewer(run: seq<State>, steps: seq<Step>, t: Tid, u: Tid, failure: Err,
                        c: Chan, d: Chan, e: Chan, mine: Jar, theirs: Jar)
    returns (run': seq<State>, steps': seq<Step>)
    requires IsRun(run, steps) && Ready(Now(run)) && Now(run).cfg.store
    requires t != u && Free(Now(run), t) && Free(Now(run), u)
    requires mine != theirs && mine !in Now(run).genuine && theirs !in Now(run).genuine
    requires c != d && c != e && d != e && Unused(Now(run), c) && Unused(Now(run), d) && Unused(Now(run), e)
    ensures Extends(run, steps, run', steps') && |steps'| > |steps|
    ensures var s := run'[|steps'| - 1]; var step := steps'[|steps'| - 1];
            && step == Wake(u) && ReturnsNil(s, step) && s.threads[u].seen == s.core.generation
            && s.stored == Some(s.core.generation + 1)
  {
    run', steps' := ReachReplay(run, steps, t, c, mine);
    assert theirs !in Now(run').genuine.Keys;
    run', steps' := JoinMarker(run', steps', t, u, failure, d, e);
    run', steps' := SkipAndWake(run', steps', u, d, theirs);
  }

  // ----- server deadlines missed -----

  /** The earliest instant after a marker at which nothing the client knows of keeps it from a
      login. */
  function Opening(s: State, started: int, saved: bool): int {
    var own := Max(s.clock, started + COOLDOWN);
    var account := if s.account.Some? then Max(own, s.account.value) else own;
    if !saved && s.entry.Some? then Max(account, s.entry.value) else account
  }

  /** The marker of a client that is not closed is about to overtake a server deadline of the
      current generation, and the store holds no deadline as late. */
  ghost predicate AboutToOvertake(s: State, c: Chan, saved: bool, deadline: int) {
    && Enabled(s, MarkerEnd(c, Applied, saved)) && !s.shut
    && (s.core.generation, deadline) in Overtaken(s, s.workers[c].started.value)
    && !Held(s, deadline) && (s.cfg.store && !saved ==> !Reaches(s.entry, deadline))
  }

  lemma EndMarker(run: seq<State>, steps: seq<Step>, c: Chan, saved: bool, deadline: int)
    returns (run': seq<State>, steps': seq<Step>)
    requires IsRun(run, steps) && AboutToOvertake(Now(run), c, saved, deadline)
    ensures Extends(run, steps, run', steps') && Idle(Now(run')) && Now(run').clock < deadline
    ensures var s := Now(run); var s' := Now(run');
            && s'.core.generation == s.core.generation && s'.limits == s.limits && s'.threads == s.threads
            && s'.workers == s.workers - {c} && s'.closed == s.closed + {c}
  {
    var opening := Opening(Now(run), Now(run).workers[c].started.value, saved);
    RunKeepsStoreless(run, steps, |steps|);
    OpensInTime(Now(run), c, saved, deadline);
    run', steps' := Mark(run, steps, c, saved);
    run', steps' := Push(run', steps', Tick(opening));
  }

  lemma OpensInTime(s: State, c: Chan, saved: bool, deadline: int)
    requires AboutToOvertake(s, c, saved, deadline) && (!s.cfg.store ==> s.account.None? && s.entry.None?)
    ensures Opening(s, s.workers[c].started.value, saved) < deadline
  {
  }

  /** The marker ends: until its opening, and no longer, the client keeps from a login. */
  lemma Mark(run: seq<State>, steps: seq<Step>, c: Chan, saved: bool) returns (run': seq<State>, steps': seq<Step>)
    requires IsRun(run, steps) && Enabled(Now(run), MarkerEnd(c, Applied, saved))
    ensures Extends(run, steps, run', steps')
    ensures var s := Now(run); var s' := Now(run'); var started := s.workers[c].started.value;
            && s'.core == Marked(s.core, Applied, s.workers[c].failure, started) && s'.clock == s.clock
            && s'.limits == s.limits && s'.threads == s.threads && s'.shut == s.shut
            && s'.workers == s.workers - {c} && s'.closed == s.closed + {c}
            && s.clock <= Opening(s, started, saved) && PassesStore(s'.(clock := Opening(s, started, saved)))
  {
    RunKeepsStoreless(run, steps, |steps|);
    run', steps' := Push(run, steps, MarkerEnd(c, Applied, saved));
  }

  /** A request loses the session and its recovery begins an attempt. */
  lemma FirstAttempt(run: seq<State>, steps: seq<Step>, v: Tid, d: Chan)
    returns (run': seq<State>, steps': seq<Step>)
    requires IsRun(run, steps) && Idle(Now(run)) && Free(Now(run), v) && Unused(Now(run), d)
    ensures Extends(run, steps, run', steps') && |steps'| > |steps|
    ensures var s := run'[|steps'| - 1]; var step := steps'[|steps'| - 1];
            && step.Do? && step.e.Start? && s.clock == Now(run).clock
            && s.core.generation == Now(run).core.generation && s.limits == Now(run).limits
  {
    RunKeepsConfig(run, steps);
    run', steps' := Start(run, steps, v, d);
    run', steps' := BeginAttempt(run', steps', d);
  }

  lemma BeginAttempt(run: seq<State>, steps: seq<Step>, d: Chan) returns (run': seq<State>, steps': seq<Step>)
    requires IsRun(run, steps)
    requires var s := Now(run);
             && LogsIn(s, d) && PassesStore(s) && s.clock >= 0 && s.cfg.max >= 1
             && s.workers[d].phase.m == LP.Begin(s.clock, s.core.notBefore)
    ensures Extends(run, steps, run', steps') && run' == run + [Now(run')]
    ensures |steps'| == |steps| + 1 && steps'[|steps|].Do? && steps'[|steps|].e.Start?
  {
    var s := Now(run);
    var start := LP.Start(s.clock);
    run', steps' := Push(run, steps, Do(d, start, LP.Advance(s.cfg, s.workers[d].phase.m, start).value));
  }

  /** The other half of NoRequestBeforeLimit: in such a state the run goes on to a login that begins
      before the server's deadline. */
  lemma OvertakenIsMissed(run: seq<State>, steps: seq<Step>, c: Chan, saved: bool, deadline: int, v: Tid, d: Chan)
    returns (run': seq<State>, steps': seq<Step>)
    requires IsRun(run, steps) && AboutToOvertake(Now(run), c, saved, deadline)
    requires Free(Now(run), v) && c != d && Unused(Now(run), d)
    ensures Extends(run, steps, run', steps') && |steps'| > |steps|
    ensures var s := run'[|steps'| - 1]; var step := steps'[|steps'| - 1];
            && step.Do? && step.e.Start? && s.clock < deadline
            && s.core.generation == Now(run).core.generation && s.limits == Now(run).limits
  {
    run', steps' := EndMarker(run, steps, c, saved, deadline);
    run', steps' := FirstAttempt(run', steps', v, d);
  }

  /** A reply with status 429 and a Retry-After. */
  function TooMany(delay: int): Err {
    Response(429, "", delay)
  }

  /** The event is one the protocol allows in every attempt. */
  lemma LimitAllowed(cfg: LP.Config, m: LP.Monitor, delay: int)
    requires delay > 0 && m.clock >= 0 && !m.pc.Between? && m.attempts > 0
    ensures LP.Advance(cfg, m, LP.Limited(m.clock, TooMany(delay), delay))
            == Some(LP.Monitor(LP.Between, m.attempts, m.clock, Some(m.clock + delay)))
  {
  }

  /** The server limits the attempt under way. */
  lemma Limit(run: seq<State>, steps: seq<Step>, c: Chan, delay: int) returns (run': seq<State>, steps': seq<Step>)
    requires IsRun(run, steps) && Sending(Now(run), c) && delay > 0
    ensures Extends(run, steps, run', steps')
    ensures var s := Now(run); var s' := Now(run');
            && LogsIn(s', c) && OnlyPhase(s, s', c)
            && s'.workers[c].phase.m == LP.Monitor(LP.Between, Attempts(s, c), s.clock, Some(s.clock + delay))
            && s' == s.(core := s.core.(notBefore := Some(s.clock + delay)), workers := s'.workers,
                        limits := s.limits + {(s.core.generation, s.clock + delay)})
  {
    var s := Now(run);
    var m := s.workers[c].phase.m;
    LimitAllowed(s.cfg, m, delay);
    var next := LP.Monitor(LP.Between, m.attempts, m.clock, Some(m.clock + delay));
    run', steps' := Push(run, steps, Do(c, LP.Limited(s.clock, TooMany(delay), delay), next));
  }

  /** What the attempts of one recovery do to the state before the last one ends. */
  predicate OnlyLimited(s: State, s': State, c: Chan) {
    && OnlyPhase(s, s', c) && s.limits <= s'.limits
    && s' == s.(core := s.core.(notBefore := s'.core.notBefore), clock := s'.clock, workers := s'.workers,
                limits := s'.limits)
  }

  /** The server limits an attempt for a second, and the next one begins after it. */
  lemma TryAgain(run: seq<State>, steps: seq<Step>, c: Chan) returns (run': seq<State>, steps': seq<Step>)
    requires IsRun(run, steps) && Sending(Now(run), c) && Attempts(Now(run), c) < Now(run).cfg.max
    ensures Extends(run, steps, run', steps')
    ensures var s := Now(run); var s' := Now(run');
            && Sending(s', c) && Attempts(s', c) == Attempts(s, c) + 1 && OnlyLimited(s, s', c)
            && s'.clock == s.clock + OtpCoordination.SECOND
  {
    run', steps' := Limit(run, steps, c, OtpCoordination.SECOND);
    run', steps' := Pause(run', steps', OtpCoordination.SECOND);
    run', steps' := NextAttempt(run', steps', c);
  }

  /** And so on, to the last attempt of the login. */
  lemma {:induction false} TryToTheLast(run: seq<State>, steps: seq<Step>, c: Chan)
    returns (run': seq<State>, steps': seq<Step>)
    requires IsRun(run, steps) && Sending(Now(run), c) && Attempts(Now(run), c) <= Now(run).cfg.max
    ensures Extends(run, steps, run', steps')
    ensures var s := Now(run); var s' := Now(run');
            && Sending(s', c) && Attempts(s', c) == s.cfg.max && OnlyLimited(s, s', c)
            && s'.clock == s.clock + (s.cfg.max - Attempts(s, c)) * OtpCoordination.SECOND
    decreases Now(run).cfg.max - Attempts(Now(run), c)
  {
    if Attempts(Now(run), c) == Now(run).cfg.max {
      run', steps' := run, steps;
    } else {
      run', steps' := TryAgain(run, steps, c);
      run', steps' := TryToTheLast(run', steps', c);
    }
  }

  /** What a recovery that spent its last attempt gives up with: the server's limit, or with a
      store the error of the save of its deadline. */
  function GivenUp(s: State, delay: int): Err {
    if s.cfg.store then Other("account retry") else Classify(AuthErrors.Login, TooMany(delay))
  }

  /** After its last attempt the recovery gives up; with a store, its deadline does not get there. */
  lemma GiveUpUnsaved(run: seq<State>, steps: seq<Step>, c: Chan, err: Err)
    returns (run': seq<State>, steps': seq<Step>)
    requires IsRun(run, steps) && LogsIn(Now(run), c) && Attempts(Now(run), c) == Now(run).cfg.max
    ensures Extends(run, steps, run', steps')
    ensures var s := Now(run);
            Now(run') == s.(core := Failed(s.core, err, s.clock), workers := s.workers - {c}, closed := s.closed + {c},
                            last := Some(DidFail(err)), failures := s.failures + {(s.core.generation, s.clock)})
  {
    run', steps' := Push(run, steps, GiveUp(c, err, false));
  }

  /** What a recovery of worker `c`, started by thread `u`, leaves behind when its last attempt was
      limited for `delay`. */
  predicate Limited(s: State, s': State, u: Tid, c: Chan, delay: int) {
    && s'.clock == s.clock + (s.cfg.max - 1) * OtpCoordination.SECOND
    && s'.core == s.core.(lastErr := Some(GivenUp(s, delay)), lastFailureAt := Some(s'.clock),
                          notBefore := Some(s'.clock + delay))
    && s' == s.(core := s'.core, clock := s'.clock, closed := s.closed + {c}, last := Some(DidFail(GivenUp(s, delay))),
                threads := s.threads[u := Waiting(c, s.core.generation)],
                limits := s'.limits, failures := s'.failures)
    && (s.core.generation, s'.clock + delay) in s'.limits
  }

  /** A recovery is rate limited in all its attempts, for a second in all but the last, and gives
      up. */
  lemma RateLimitedRecovery(run: seq<State>, steps: seq<Step>, u: Tid, c: Chan, delay: int)
    returns (run': seq<State>, steps': seq<Step>)
    requires IsRun(run, steps) && Ready(Now(run)) && Free(Now(run), u) && Unused(Now(run), c) && delay > 0
    ensures Extends(run, steps, run', steps') && Limited(Now(run), Now(run'), u, c, delay)
  {
    RunKeepsConfig(run, steps);
    run', steps' := SendPassword(run, steps, u, c);
    run', steps' := TryToTheLast(run', steps', c);
    run', steps' := LimitLast(run', steps', c, delay);
    assert Now(run').workers == Now(run).workers;
  }

  lemma LimitLast(run: seq<State>, steps: seq<Step>, c: Chan, delay: int) returns (run': seq<State>, steps': seq<Step>)
    requires IsRun(run, steps) && Sending(Now(run), c) && Attempts(Now(run), c) == Now(run).cfg.max && delay > 0
    ensures Extends(run, steps, run', steps')
    ensures var s := Now(run); var s' := Now(run');
            && s'.core == s.core.(inFlight := None, lastErr := Some(GivenUp(s, delay)), lastFailureAt := Some(s.clock),
                                  notBefore := Some(s.clock + delay))
            && s' == s.(core := s'.core, workers := s.workers - {c}, closed := s.closed + {c},
                        last := Some(DidFail(GivenUp(s, delay))), limits := s'.limits, failures := s'.failures)
            && (s.core.generation, s.clock + delay) in s'.limits
  {
    run', steps' := Limit(run, steps, c, delay);
    run', steps' := GiveUpUnsaved(run', steps', c, GivenUp(Now(run), delay));
    assert Now(run').workers == Now(run).workers - {c};
  }

  /** A replay of the current session is reported and its marker begins. */
  lemma BeginMarker(run: seq<State>, steps: seq<Step>, t: Tid, failure: Err, c: Chan)
    returns (run': seq<State>, steps': seq<Step>)
    requires IsRun(run, steps)
    requires var s := Now(run);
             && s.core.inFlight.None? && Unused(s, c) && t in s.threads && s.threads[t] == Replaying(s.core.generation)
    ensures Extends(run, steps, run', steps')
    ensures var s := Now(run);
            Now(run') == s.(core := s.core.(inFlight := Some(c)), threads := s.threads - {t},
                            workers := s.workers[c := Marking(s.core.generation, failure, Some(s.clock))])
  {
    run', steps' := Push(run, steps, Note(t, failure, c));
    run', steps' := Push(run', steps', MarkerStart(c));
  }

  /** A session is published and replayed, and there is a new OTP step. */
  lemma ReachLater(run: seq<State>, steps: seq<Step>, t: Tid, c: Chan, jar: Jar)
    returns (run': seq<State>, steps': seq<Step>)
    requires IsRun(run, steps) && Ready(Now(run)) && jar !in Now(run).genuine
    requires Free(Now(run), t) && Unused(Now(run), c)
    ensures Extends(run, steps, run', steps') && Ready(Now(run'))
    ensures var s := Now(run); var s' := Now(run');
            && s'.clock == s.clock + OtpCoordination.NEXT_WINDOW && Replayed(s, s'.(clock := s.clock), t, c, jar)
  {
    OtpCoordination.NextWindowIsPast(Now(run).clock);
    run', steps' := ReachReplay(run, steps, t, c, jar);
    run', steps' := Push(run', steps', Tick(Now(run).clock + OtpCoordination.NEXT_WINDOW));
  }

  /** Thread `t` replays on a session newer than the one of `s`, which is also the one stored; the
      server has limited the recovery of worker `d` at this generation for `delay` from now. */
  predicate ReplayedAndLimited(s: State, s': State, t: Tid, d: Chan, delay: int) {
    var g := s'.core.generation;
    && g > s.core.generation && s'.core.inFlight.None? && s'.stored == Some(g)
    && (g, s'.clock + delay) in s'.limits && t in s'.threads && s'.threads[t] == Replaying(g)
    && !s'.shut && !Reaches(s'.account, s'.clock + delay) && s'.workers == s.workers
  }

  lemma LimitedAfterReplay(s: State, s1: State, s2: State, t: Tid, u: Tid, c: Chan, d: Chan, jar: Jar, delay: int)
    requires Replayed(s, s1.(clock := s.clock), t, c, jar) && s1.clock >= s.clock && Limited(s1, s2, u, d, delay)
    requires t != u && !s.shut && delay > 0 && s.cfg.max >= 1 && !Reaches(s.account, s1.clock + delay)
    ensures ReplayedAndLimited(s, s2, t, d, delay) && s2.closed == s.closed + {c, d}
    ensures forall v | v != t && v != u && Free(s, v) :: Free(s2, v)
  {
  }

  /** A session is published and replayed, and a while later, when there is a new OTP step, the
      recovery of another request that loses the session is rate limited. */
  lemma ReachLimit(run: seq<State>, steps: seq<Step>, t: Tid, u: Tid, c: Chan, d: Chan, jar: Jar, delay: int)
    returns (run': seq<State>, steps': seq<Step>)
    requires IsRun(run, steps) && Ready(Now(run)) && delay > 0 && jar !in Now(run).genuine
    requires t != u && Free(Now(run), t) && Free(Now(run), u)
    requires c != d && Unused(Now(run), c) && Unused(Now(run), d)
    ensures Extends(run, steps, run', steps') && ReplayedAndLimited(Now(run), Now(run'), t, d, delay)
    ensures Now(run').closed == Now(run).closed + {c, d}
    ensures forall v | v != t && v != u && Free(Now(run), v) :: Free(Now(run'), v)
  {
    RunKeepsConfig(run, steps);
    RunKeepsStoreless(run, steps, |steps|);
    run', steps' := ReachLater(run, steps, t, c, jar);
    var s1 := Now(run');
    run', steps' := RateLimitedRecovery(run', steps', u, d, delay);
    LimitedAfterReplay(Now(run), s1, Now(run'), t, u, c, d, jar, delay);
  }

  /** The replay proves ineffective, and its marker is about to overtake that deadline. */
  lemma OvertakeLimit(run: seq<State>, steps: seq<Step>, t: Tid, failure: Err, e: Chan, delay: int)
    returns (run': seq<State>, steps': seq<Step>)
    requires IsRun(run, steps) && delay > COOLDOWN
    requires var s := Now(run);
             && s.core.inFlight.None? && Unused(s, e) && t in s.threads && s.threads[t] == Replaying(s.core.generation)
             && (s.core.generation, s.clock + delay) in s.limits && !s.shut
             && s.stored == Some(s.core.generation) && !Reaches(s.account, s.clock + delay)
    ensures Extends(run, steps, run', steps') && AboutToOvertake(Now(run'), e, true, Now(run).clock + delay)
    ensures var s := Now(run); var s' := Now(run');
            && s'.core.generation == s.core.generation && s'.closed == s.closed
            && s'.workers.Keys == s.workers.Keys + {e}
            && forall v | v != t && Free(s, v) :: Free(s', v)
  {
    run', steps' := BeginMarker(run, steps, t, failure, e);
  }

  /** This happens from every reachable state in which a recovery may start and log in, without a
      store or when saving the account deadline fails: a recovery publishes a session; a request
      that loses the new session starts another one, which the server limits in all its attempts
      and at last tells to wait longer than the cooldown; the replay of the first request proves
      ineffective, and its marker overtakes the server's deadline; and the next login at that
      generation begins before it. */
  lemma ServerDeadlineMissed(run: seq<State>, steps: seq<Step>, t: Tid, u: Tid, v: Tid, failure: Err,
                             c: Chan, d: Chan, e: Chan, f: Chan, jar: Jar, delay: int)
    returns (run': seq<State>, steps': seq<Step>, deadline: int)
    requires IsRun(run, steps) && Ready(Now(run)) && delay > COOLDOWN && jar !in Now(run).genuine
    requires t != u && t != v && u != v && Free(Now(run), t) && Free(Now(run), u) && Free(Now(run), v)
    requires c != d && c != e && c != f && d != e && d != f && e != f
    requires Unused(Now(run), c) && Unused(Now(run), d) && Unused(Now(run), e) && Unused(Now(run), f)
    ensures Extends(run, steps, run', steps') && |steps'| > |steps|
    ensures var s := run'[|steps'| - 1]; var step := steps'[|steps'| - 1];
            && step.Do? && step.e.Start? && s.clock < deadline
            && s.core.generation > Now(run).core.generation && (s.core.generation, deadline) in s.limits
  {
    run', steps' := ReachLimit(run, steps, t, u, c, d, jar, delay);
    deadline := Now(run').clock + delay;
    run', steps' := OvertakeLimit(run', steps', t, failure, e, delay);
    run', steps' := OvertakenIsMissed(run', steps', e, true, deadline, v, f);
  }
}

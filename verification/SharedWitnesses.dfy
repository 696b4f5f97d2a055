/** Runs of the shared store (module SharedStore) that show what its theorems leave open: a
    deadline that is missed because an earlier marker was saved on top, and generations that
    disagree because a key was used with two credential fingerprints. */
module SharedWitnesses {
  import opened Prelude
  import opened SharedStore
  import OtpCoordination
  import Refresher

  /** The fingerprint of each key. */
  type Naming = Key -> Fingerprint

  /** The state a run has come to. */
  function Now(run: seq<State>): State
    requires run != []
  {
    run[|run| - 1]
  }

  ghost predicate Extends(run: seq<State>, steps: seq<Step>, run': seq<State>, steps': seq<Step>) {
    AnyRun(run', steps') && run <= run' && steps <= steps'
  }

  /** Each key that was used with its one fingerprint still is. */
  ghost predicate Keeps(steps: seq<Step>, steps': seq<Step>, fp: Naming) {
    forall key :: OneFingerprint(steps, key, fp(key)) ==> OneFingerprint(steps', key, fp(key))
  }

  lemma Push(run: seq<State>, steps: seq<Step>, fp: Naming, step: Step)
    returns (run': seq<State>, steps': seq<Step>)
    requires AnyRun(run, steps) && Enabled(Now(run), step)
    ensures Extends(run, steps, run', steps') && Now(run') == Apply(Now(run), step)
    ensures run' == run + [Now(run')] && steps' == steps + [step]
    ensures (step.Join? ==> step.fingerprint == fp(step.key)) ==> Keeps(steps, steps', fp)
  {
    run', steps' := run + [Apply(Now(run), step)], steps + [step];
    forall i | 0 <= i < |steps'|
      ensures Stepped(run', steps', i)
    {
      assert i < |steps| ==> Stepped(run, steps, i);
    }
  }

  /** An entry with a session. */
  function Stores(fingerprint: Fingerprint, login: Login, expires: int, generation: nat): Entry {
    Entry(fingerprint, Some(Session(login, expires)), generation, None)
  }

  // ----- tasks from start to end -----

  /** A client waiting for the lock gets it and reads. */
  lemma LockAndRead(run: seq<State>, steps: seq<Step>, fp: Naming, c: Cid)
    returns (run': seq<State>, steps': seq<Step>)
    requires AnyRun(run, steps)
    requires var s := Now(run); s.lock.None? && c in s.clients && s.clients[c].at.Waiting?
    ensures Extends(run, steps, run', steps') && Keeps(steps, steps', fp)
    ensures var s := Now(run); var cl := s.clients[c];
            Now(run') == s.(lock := Some(c), clients := s.clients[c := cl.(at := Decide(s, cl, true))])
  {
    run', steps' := Push(run, steps, fp, Lock(c));
    var s := Now(run');
    run', steps' := Push(run', steps', fp, Read(c, true));
    assert Decide(s, s.clients[c], true) == Decide(Now(run), Now(run).clients[c], true);
    assert Now(run').clients ==
           Now(run).clients[c := Now(run).clients[c].(at := Decide(Now(run), Now(run).clients[c], true))];
  }

  /** A client that may log in does so, saves its session and has it to publish. */
  lemma LogInAndSave(run: seq<State>, steps: seq<Step>, fp: Naming, c: Cid, login: Login, expires: int)
    returns (run': seq<State>, steps': seq<Step>)
    requires AnyRun(run, steps)
    requires var s := Now(run); c in s.clients && s.clients[c].at.LoggingIn? && !s.clients[c].task.Mark?
    requires expires > Now(run).clock
    ensures Extends(run, steps, run', steps') && Keeps(steps, steps', fp)
    ensures var s := Now(run); var cl := s.clients[c];
            var next := NextGeneration(cl.task, cl.at.loaded);
            Now(run') == s.(clients := s.clients[c := cl.(at := Settled(next, login))],
                            entries := s.entries[cl.key := Stores(cl.fingerprint, login, expires, next)],
                            names := s.names[(cl.key, next) := login])
  {
    run', steps' := Push(run, steps, fp, LoginOk(c, login));
    run', steps' := Push(run', steps', fp, SaveSession(c, expires, Works));
    assert Now(run').clients == Now(run).clients[c := Now(run').clients[c]];
  }

  /** The end of an initialization that has a session. */
  lemma FinishInit(run: seq<State>, steps: seq<Step>, fp: Naming, c: Cid)
    returns (run': seq<State>, steps': seq<Step>)
    requires AnyRun(run, steps)
    requires var s := Now(run);
             s.lock == Some(c) && c in s.clients && s.clients[c].at.Settled? && s.clients[c].task.Init?
    ensures Extends(run, steps, run', steps') && Keeps(steps, steps', fp)
    ensures var s := Now(run); var cl := s.clients[c];
            Now(run') == s.(lock := None,
                            clients := s.clients[c := cl.(generation := cl.at.generation, login := cl.at.session,
                                                          recovered := false, at := Idle)])
  {
    run', steps' := Push(run, steps, fp, Publish(c));
    run', steps' := Push(run', steps', fp, Unlock(c));
    assert Now(run').clients == Now(run).clients[c := Now(run').clients[c]];
  }

  /** The end of a recovery that has a session. */
  lemma FinishRecovery(run: seq<State>, steps: seq<Step>, fp: Naming, c: Cid)
    returns (run': seq<State>, steps': seq<Step>)
    requires AnyRun(run, steps)
    requires var s := Now(run);
             s.lock == Some(c) && c in s.clients && s.clients[c].at.Settled? && s.clients[c].task.Recover?
    ensures Extends(run, steps, run', steps') && Keeps(steps, steps', fp)
    ensures var s := Now(run); var cl := s.clients[c];
            Now(run') == s.(lock := None,
                            clients := s.clients[c := cl.(generation := cl.at.generation, login := cl.at.session,
                                                          recovered := true, at := Idle)])
  {
    run', steps' := Push(run, steps, fp, Unlock(c));
    run', steps' := Push(run', steps', fp, Publish(c));
    assert Now(run').clients == Now(run).clients[c := Now(run').clients[c]];
  }

  /** A client after it has joined and asked for its first session. */
  lemma Arrive(run: seq<State>, steps: seq<Step>, fp: Naming, c: Cid, key: Key, fingerprint: Fingerprint)
    returns (run': seq<State>, steps': seq<Step>)
    requires AnyRun(run, steps) && c !in Now(run).clients
    ensures Extends(run, steps, run', steps')
    ensures fp(key) == fingerprint ==> Keeps(steps, steps', fp)
    ensures var s := Now(run);
            Now(run') == s.(clients := s.clients[c := Client(key, fingerprint, 0, 0, false, Init, Waiting)])
  {
    run', steps' := Push(run, steps, fp, Join(c, key, fingerprint));
    run', steps' := Push(run', steps', fp, Begin(c, Init));
    assert Now(run').clients == Now(run).clients[c := Client(key, fingerprint, 0, 0, false, Init, Waiting)];
  }

  /** A new client finds nothing it can read, logs in and stores generation 1. */
  lemma InitByLogin(run: seq<State>, steps: seq<Step>, fp: Naming, c: Cid, key: Key,
                    fingerprint: Fingerprint, login: Login, expires: int)
    returns (run': seq<State>, steps': seq<Step>)
    requires AnyRun(run, steps)
    requires var s := Now(run);
             && s.lock.None? && c !in s.clients && !Pending(s.retry, s.clock) && expires > s.clock
             && (key in s.entries ==> s.entries[key].fingerprint != fingerprint)
    ensures Extends(run, steps, run', steps')
    ensures fp(key) == fingerprint ==> Keeps(steps, steps', fp)
    ensures var s := Now(run);
            Now(run') == s.(clients := s.clients[c := Client(key, fingerprint, 1, login, false, Init, Idle)],
                            entries := s.entries[key := Stores(fingerprint, login, expires, 1)],
                            names := s.names[(key, 1) := login])
  {
    run', steps' := Arrive(run, steps, fp, c, key, fingerprint);
    run', steps' := LockAndRead(run', steps', fp, c);
    run', steps' := LogInAndSave(run', steps', fp, c, login, expires);
    run', steps' := FinishInit(run', steps', fp, c);
    assert Now(run').clients == Now(run).clients[c := Client(key, fingerprint, 1, login, false, Init, Idle)];
  }

  /** A new client restores the stored session. */
  lemma InitByRestore(run: seq<State>, steps: seq<Step>, fp: Naming, c: Cid, key: Key)
    returns (run': seq<State>, steps': seq<Step>)
    requires AnyRun(run, steps)
    requires var s := Now(run);
             && s.lock.None? && c !in s.clients && key in s.entries && s.entries[key].session.Some?
             && s.clock < s.entries[key].session.value.expires
    ensures Extends(run, steps, run', steps')
    ensures fp(key) == Now(run).entries[key].fingerprint ==> Keeps(steps, steps', fp)
    ensures var s := Now(run); var e := s.entries[key];
            var cl := Client(key, e.fingerprint, e.generation, e.session.value.login, false, Init, Idle);
            Now(run') == s.(clients := s.clients[c := cl])
  {
    var e := Now(run).entries[key];
    run', steps' := Arrive(run, steps, fp, c, key, e.fingerprint);
    run', steps' := LockAndRead(run', steps', fp, c);
    run', steps' := FinishInit(run', steps', fp, c);
    assert Now(run').clients == Now(run).clients[c := Now(run').clients[c]];
  }

  /** A client recovers from the stored generation by a login of its own. */
  lemma RecoverByLogin(run: seq<State>, steps: seq<Step>, fp: Naming, c: Cid, login: Login, expires: int)
    returns (run': seq<State>, steps': seq<Step>)
    requires AnyRun(run, steps)
    requires var s := Now(run);
             && s.lock.None? && c in s.clients && s.clients[c].at.Idle? && !Pending(s.retry, s.clock)
             && expires > s.clock
             && var cl := s.clients[c];
             && cl.generation > 0 && cl.key in s.entries && s.entries[cl.key].fingerprint == cl.fingerprint
             && s.entries[cl.key].generation == cl.generation && s.entries[cl.key].retryNotBefore.None?
    ensures Extends(run, steps, run', steps') && Keeps(steps, steps', fp)
    ensures var s := Now(run); var cl := s.clients[c]; var g := cl.generation;
            var now := cl.(generation := g + 1, login := login, recovered := true, task := Recover(g), at := Idle);
            Now(run') == s.(clients := s.clients[c := now],
                            entries := s.entries[cl.key := Stores(cl.fingerprint, login, expires, g + 1)],
                            names := s.names[(cl.key, g + 1) := login])
  {
    run', steps' := Push(run, steps, fp, Begin(c, Recover(Now(run).clients[c].generation)));
    run', steps' := LockAndRead(run', steps', fp, c);
    run', steps' := LogInAndSave(run', steps', fp, c, login, expires);
    run', steps' := FinishRecovery(run', steps', fp, c);
    assert Now(run').clients == Now(run).clients[c := Now(run').clients[c]];
  }

  /** A client recovers by restoring a newer stored session. */
  lemma RecoverByRestore(run: seq<State>, steps: seq<Step>, fp: Naming, c: Cid)
    returns (run': seq<State>, steps': seq<Step>)
    requires AnyRun(run, steps)
    requires var s := Now(run);
             && s.lock.None? && c in s.clients && s.clients[c].at.Idle?
             && var cl := s.clients[c];
             && cl.generation > 0 && cl.key in s.entries && s.entries[cl.key].fingerprint == cl.fingerprint
             && s.entries[cl.key].generation > cl.generation && s.entries[cl.key].session.Some?
             && s.clock < s.entries[cl.key].session.value.expires
    ensures Extends(run, steps, run', steps') && Keeps(steps, steps', fp)
    ensures var s := Now(run); var cl := s.clients[c]; var e := s.entries[cl.key];
            var now := cl.(generation := e.generation, login := e.session.value.login, recovered := true,
                           task := Recover(cl.generation), at := Idle);
            Now(run') == s.(clients := s.clients[c := now])
  {
    run', steps' := Push(run, steps, fp, Begin(c, Recover(Now(run).clients[c].generation)));
    run', steps' := LockAndRead(run', steps', fp, c);
    run', steps' := FinishRecovery(run', steps', fp, c);
    assert Now(run').clients == Now(run).clients[c := Now(run').clients[c]];
  }

  // ----- a marker's deadline missed -----

  /** A marker is saved and its lock released. */
  lemma MarkAndUnlock(run: seq<State>, steps: seq<Step>, fp: Naming, c: Cid)
    returns (run': seq<State>, steps': seq<Step>)
    requires AnyRun(run, steps) && Enabled(Now(run), SaveMark(c, Works)) && Now(run).lock == Some(c)
    ensures Extends(run, steps, run', steps') && Keeps(steps, steps', fp)
    ensures Now(run') == Move(Apply(Now(run), SaveMark(c, Works)), c, Idle).(lock := None)
  {
    run', steps' := Push(run, steps, fp, SaveMark(c, Works));
    run', steps' := Push(run', steps', fp, Unlock(c));
  }

  /** A client asks for a session, its first or a new one, and reads the store at once. */
  lemma AskAndRead(run: seq<State>, steps: seq<Step>, fp: Naming, c: Cid)
    returns (run': seq<State>, steps': seq<Step>)
    requires AnyRun(run, steps)
    requires var s := Now(run); s.lock.None? && c in s.clients && s.clients[c].at.Idle?
    ensures Extends(run, steps, run', steps') && Keeps(steps, steps', fp)
    ensures var s := Now(run); var cl := s.clients[c].(task := Asks(s.clients[c]));
            Now(run') == s.(lock := Some(c), clients := s.clients[c := cl.(at := Decide(s, cl, true))])
  {
    var s := Now(run);
    run', steps' := Push(run, steps, fp, Begin(c, Asks(s.clients[c])));
    run', steps' := LockAndRead(run', steps', fp, c);
    var cl := s.clients[c].(task := Asks(s.clients[c]));
    assert Decide(s, cl, true) == Decide(s.(clients := s.clients[c := cl.(at := Waiting)]), cl.(at := Waiting), true);
    assert Now(run').clients == s.clients[c := cl.(at := Decide(s, cl, true))];
  }

  /** What a client that needs a session asks for. */
  function Asks(c: Client): Task {
    if c.generation == 0 then Init else Recover(c.generation)
  }

  /** The proviso of NoHandshakeBeforeMarkDeadline is needed: markers compute their deadline
      before they have the lock. Whenever a marker is about to replace a deadline that is still
      to come after its own, another process can go on to a handshake before the replaced
      deadline. */
  lemma EarlierMarkLowersDeadline(run: seq<State>, steps: seq<Step>, fp: Naming, c: Cid, e: Cid, until: int)
    returns (run': seq<State>, steps': seq<Step>)
    requires AnyRun(run, steps)
    requires var s := Now(run);
             && Enabled(s, SaveMark(c, Works)) && s.lock == Some(c)
             && s.entries[s.clients[c].key].retryNotBefore == Some(until)
             && e in s.clients && s.clients[e].at.Idle? && s.clients[e].key == s.clients[c].key
             && Max(s.clock, s.clients[c].task.deadline) < until
             && !Pending(s.retry, Max(s.clock, s.clients[c].task.deadline))
    ensures Extends(run, steps, run', steps') && Keeps(steps, steps', fp)
    ensures var s' := Now(run');
            && e in s'.clients && s'.clients[e].at.LoggingIn? && s'.clock < until
            && s'.clients[e].key == Now(run).clients[e].key
  {
    var at := Max(Now(run).clock, Now(run).clients[c].task.deadline);
    run', steps' := MarkAndUnlock(run, steps, fp, c);
    run', steps' := Push(run', steps', fp, Tick(at));
    run', steps' := AskAndRead(run', steps', fp, e);
  }

  /** Two clients of a key find the same stored generation ineffective, the second one
      nanosecond later. */
  lemma TwoMarkersBegin(run: seq<State>, steps: seq<Step>, fp: Naming, c: Cid, d: Cid)
    returns (run': seq<State>, steps': seq<Step>)
    requires AnyRun(run, steps)
    requires var s := Now(run);
             && c in s.clients && d in s.clients && c != d && s.clients[c].at.Idle? && s.clients[d].at.Idle?
             && s.clients[c].generation > 0 && s.clients[d].generation > 0
             && s.clients[c].recovered && s.clients[d].recovered
    ensures Extends(run, steps, run', steps') && Keeps(steps, steps', fp)
    ensures var s := Now(run); var deadline := s.clock + Refresher.COOLDOWN;
            var first := s.clients[c].(task := Mark(s.clients[c].generation, deadline), at := Waiting);
            var second := s.clients[d].(task := Mark(s.clients[d].generation, deadline + 1), at := Waiting);
            Now(run') == s.(clock := s.clock + 1, clients := s.clients[c := first][d := second])
  {
    var s := Now(run);
    run', steps' := Push(run, steps, fp, Begin(c, Mark(s.clients[c].generation, s.clock + Refresher.COOLDOWN)));
    run', steps' := Push(run', steps', fp, Tick(s.clock + 1));
    run', steps' := Push(run', steps', fp, Begin(d, Mark(s.clients[d].generation, s.clock + 1 + Refresher.COOLDOWN)));
  }

  /** Two idle clients have recovered to the stored generation of a key, whose cookies are good
      for a while, and a third client of the key is idle. */
  predicate Shared(s: State, c: Cid, d: Cid, e: Cid) {
    && c != d && c != e && d != e
    && s.lock.None? && c in s.clients && d in s.clients && e in s.clients
    && s.clients[c].at.Idle? && s.clients[d].at.Idle? && s.clients[e].at.Idle?
    && s.clients[c].recovered && s.clients[d].recovered
    && s.clients[c].key == s.clients[d].key == s.clients[e].key
    && s.clients[c].fingerprint == s.clients[d].fingerprint
    && s.clients[c].generation == s.clients[d].generation > 0
    && s.clients[c].key in s.entries && s.entries[s.clients[c].key].fingerprint == s.clients[c].fingerprint
    && s.entries[s.clients[c].key].generation == s.clients[c].generation
    && s.entries[s.clients[c].key].session.Some?
    && s.entries[s.clients[c].key].session.value.expires > s.clock + 1
    && !Pending(s.retry, s.clock)
  }

  /** Both clients' markers begin; the one that began second saves its deadline first. */
  lemma SecondMarkerFirst(run: seq<State>, steps: seq<Step>, fp: Naming, c: Cid, d: Cid, e: Cid)
    returns (run': seq<State>, steps': seq<Step>)
    requires AnyRun(run, steps) && Shared(Now(run), c, d, e)
    ensures Extends(run, steps, run', steps') && Keeps(steps, steps', fp)
    ensures var s := Now(run); var s' := Now(run'); var key := s.clients[c].key; var g := s.clients[c].generation;
            && s'.clock == s.clock + 1 && s'.lock.None? && s'.retry == s.retry
            && key in s'.entries
            && s'.entries[key] == s.entries[key].(session := None,
                                                  retryNotBefore := Some(s.clock + 1 + Refresher.COOLDOWN))
            && c in s'.clients
            && s'.clients[c] == s.clients[c].(task := Mark(g, s.clock + Refresher.COOLDOWN), at := Waiting)
            && e in s'.clients && s'.clients[e] == s.clients[e]
  {
    run', steps' := TwoMarkersBegin(run, steps, fp, c, d);
    run', steps' := LockAndRead(run', steps', fp, d);
    run', steps' := MarkAndUnlock(run', steps', fp, d);
  }

  /** In such a state a deadline is saved with the cleared generation, the marker that began
      before it saves an earlier one on top, and the third client starts a handshake before the
      deadline saved first. */
  lemma MarkDeadlineMissed(run: seq<State>, steps: seq<Step>, fp: Naming, c: Cid, d: Cid, e: Cid)
    returns (run': seq<State>, steps': seq<Step>, i: nat)
    requires AnyRun(run, steps) && Shared(Now(run), c, d, e)
    ensures Extends(run, steps, run', steps') && |steps| <= i < |run'|
    ensures Keeps(steps, steps', fp)
    ensures var s' := Now(run'); var key := Now(run).clients[c].key;
            && key in run'[i].entries && run'[i].entries[key].session.None? && run'[i].entries[key].retryNotBefore.Some?
            && e in s'.clients && s'.clients[e].at.LoggingIn? && s'.clients[e].key == key
            && s'.clock < run'[i].entries[key].retryNotBefore.value
  {
    run', steps' := SecondMarkerFirst(run, steps, fp, c, d, e);
    i := |run'| - 1;
    ghost var s1 := Now(run');
    run', steps' := LockAndRead(run', steps', fp, c);
    run', steps' := EarlierMarkLowersDeadline(run', steps', fp, c, e, Now(run).clock + 1 + Refresher.COOLDOWN);
    assert run'[i] == s1;
  }

  /** Such states are within reach of every state with a free lock, no account deadline to wait
      for and an unused key: one client logs in, a second restores its session, the first
      recovers by a login when there is a new OTP step, the second by restoring that session, and
      a third arrives. */
  lemma ReachShared(run: seq<State>, steps: seq<Step>, fp: Naming, c: Cid, d: Cid, e: Cid, key: Key,
                    fingerprint: Fingerprint)
    returns (run': seq<State>, steps': seq<Step>)
    requires AnyRun(run, steps) && c != d && c != e && d != e
    requires var s := Now(run);
             && s.lock.None? && key !in s.entries && !Pending(s.retry, s.clock)
             && c !in s.clients && d !in s.clients && e !in s.clients
    ensures Extends(run, steps, run', steps') && Shared(Now(run'), c, d, e)
    ensures fp(key) == fingerprint ==> Keeps(steps, steps', fp)
  {
    var later := Now(run).clock + OtpCoordination.NEXT_WINDOW;
    var expires := later + 2;
    run', steps' := InitByLogin(run, steps, fp, c, key, fingerprint, 1, expires);
    run', steps' := InitByRestore(run', steps', fp, d, key);
    run', steps' := Push(run', steps', fp, Tick(later));
    run', steps' := RecoverByLogin(run', steps', fp, c, 2, expires);
    run', steps' := RecoverByRestore(run', steps', fp, d);
    run', steps' := Push(run', steps', fp, Join(e, key, fingerprint));
  }

  // ----- a marker that finds another generation -----

  /** Why a marker can be skipped (RefresherWitnesses.NilWithoutNewer): in any state in which two
      idle clients have the stored generation, the first one from a recovery, its marker can
      begin when there is a new OTP step, the other client recover by a login before the marker
      has the lock, and the marker find the other's generation and end without a trace. */
  lemma MarkerFindsNewer(run: seq<State>, steps: seq<Step>, fp: Naming, c: Cid, d: Cid, login: Login, expires: int)
    returns (run': seq<State>, steps': seq<Step>)
    requires AnyRun(run, steps) && c != d
    requires var s := Now(run);
             && s.lock.None? && c in s.clients && d in s.clients && s.clients[c].at.Idle? && s.clients[d].at.Idle?
             && s.clients[c].recovered && s.clients[c].key == s.clients[d].key
             && s.clients[c].generation == s.clients[d].generation > 0
             && s.clients[c].key in s.entries
             && s.clients[d].fingerprint == s.entries[s.clients[c].key].fingerprint
             && s.clients[c].fingerprint == s.clients[d].fingerprint
             && s.entries[s.clients[c].key].generation == s.clients[c].generation
             && s.entries[s.clients[c].key].retryNotBefore.None?
             && !Pending(s.retry, s.clock) && expires > s.clock + OtpCoordination.NEXT_WINDOW
    ensures Extends(run, steps, run', steps') && Keeps(steps, steps', fp)
    ensures var s := Now(run); var s' := Now(run'); var key := s.clients[c].key;
            && c in s'.clients && s'.clients[c].task.Mark? && s'.clients[c].at.Closing?
            && s'.clients[c].generation == s'.clients[c].task.seen == s.clients[c].generation
            && Stored(s', key) == s.clients[c].generation + 1
            && s'.entries[key] == Stores(s.clients[c].fingerprint, login, expires, s.clients[c].generation + 1)
  {
    var s := Now(run);
    var g := s.clients[c].generation;
    var later := s.clock + OtpCoordination.NEXT_WINDOW;
    run', steps' := Push(run, steps, fp, Tick(later));
    run', steps' := Push(run', steps', fp, Begin(c, Mark(g, later + Refresher.COOLDOWN)));
    run', steps' := RecoverByLogin(run', steps', fp, d, login, expires);
    run', steps' := LockAndRead(run', steps', fp, c);
  }

  // ----- two fingerprints -----

  /** With two credential fingerprints a generation of a key no longer names one login: from every
      state with a free lock and no account deadline to wait for, two clients that log in under
      an unused key, one OTP step apart, hold generation 1 of it for two logins at the same
      time, whose cookies are good. */
  lemma TwoFingerprintsDisagree(run: seq<State>, steps: seq<Step>, c: Cid, d: Cid, key: Key,
                                mine: Fingerprint, theirs: Fingerprint, a: Login, b: Login, expires: int)
    returns (run': seq<State>, steps': seq<Step>)
    requires AnyRun(run, steps) && c != d && mine != theirs && a != b
    requires var s := Now(run);
             && s.lock.None? && key !in s.entries && !Pending(s.retry, s.clock) && c !in s.clients && d !in s.clients
             && expires > s.clock + OtpCoordination.NEXT_WINDOW
    ensures Extends(run, steps, run', steps')
    ensures Shows(Now(run'), key, 1, a) && Shows(Now(run'), key, 1, b)
  {
    run', steps' := InitByLogin(run, steps, _ => mine, c, key, mine, a, expires);
    run', steps' := Push(run', steps', _ => mine, Tick(Now(run).clock + OtpCoordination.NEXT_WINDOW));
    run', steps' := InitByLogin(run', steps', _ => mine, d, key, theirs, b, expires);
    assert Now(run').clients[c].login == a && Now(run').clients[d].login == b;
  }
}

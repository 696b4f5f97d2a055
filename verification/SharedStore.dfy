/** The session store shared by many processes: `initialize`, `recover` and
    `persistIneffective` as transactions under the account's OS lock, interleaved without
    bound, with crashes and failing saves.

    The state is one account in one directory: its session entries by key (one per
    impersonation target and endpoint spelling), its retry register, and its lock. A client is
    one refresher; module RefresherRuns shows that it runs one task at a time, for its current
    generation. */
module SharedStore {
  import opened Prelude
  import Refresher

  type Key = nat
  type Fingerprint = string
  type Login = nat
  type Cid = nat

  /** The cookies of one login, until they expire. */
  datatype Session = Session(login: Login, expires: int)

  /** What coordination reads of a SessionRecord. */
  datatype Entry = Entry(fingerprint: Fingerprint, session: Option<Session>, generation: nat, retryNotBefore: Stamp)

  /** `Load`: only an expired record comes back along with its error. */
  datatype Loaded = NotFound | Mismatch | Expired(entry: Entry) | Found(entry: Entry)

  function Load(entries: map<Key, Entry>, key: Key, fingerprint: Fingerprint, now: int): Loaded {
    if key !in entries then NotFound
    else
      var e := entries[key];
      if e.fingerprint != fingerprint then Mismatch
      else if e.session.Some? && e.session.value.expires <= now then Expired(e)
      else Found(e)
  }

  /** The record variable after `Load`, the zero record on other errors. */
  function Record(loaded: Loaded, fingerprint: Fingerprint): Entry {
    match loaded
    case Found(e) => e
    case Expired(e) => e
    case _ => Entry(fingerprint, None, 0, None)
  }

  /** What a client does under the lock: the initial session, a recovery of generation `seen`,
      or marking `seen` ineffective until `deadline`. */
  datatype Task = Init | Recover(seen: nat) | Mark(seen: nat, deadline: int)

  /** How far it is. `Settled` has a session to publish; `Closing` only has to unlock. */
  datatype Place =
    | Idle
    | Waiting
    | Locked
    | LoggingIn(loaded: nat)
    | Saving(loaded: nat, made: Login)
    | Clearing
    | Settled(generation: nat, session: Login)
    | Closing

  /** A refresher: its generation, 0 before the first, the login behind it, and whether it came
      from a recovery. Only such a generation can be found ineffective, because a request is
      replayed after a recovery only (RefresherRuns.MarksRecoveredSessions). */
  datatype Client = Client(key: Key, fingerprint: Fingerprint, generation: nat, login: Login, recovered: bool,
                           task: Task, at: Place)

  /** History: the login each generation of a key names, the account deadlines persisted, and
      the generations whose cookies a marker cleared. */
  datatype State = State(
    clock: int,
    entries: map<Key, Entry>,
    retry: Stamp,
    lock: Option<Cid>,
    clients: map<Cid, Client>,
    names: map<(Key, nat), Login>,
    limits: set<int>,
    cleared: set<(Key, nat)>)

  /** A save may succeed, fail without effect, or replace the file and still report failure.
      Cookies that have expired are never saved. */
  datatype Disk = Works | Fails | FailsLate

  /** `Read` covers everything from `Load` to the next decision; `valid` is the answer of the
      probe of a restored session. */
  datatype Step =
    | Tick(to: int)
    | Join(c: Cid, key: Key, fingerprint: Fingerprint)
    | Begin(c: Cid, task: Task)
    | Lock(c: Cid)
    | Read(c: Cid, valid: bool)
    | LoginOk(c: Cid, login: Login)
    | LoginLimited(c: Cid, deadline: int, disk: Disk)
    | SaveSession(c: Cid, expires: int, disk: Disk)
    | SaveMark(c: Cid, disk: Disk)
    | GiveUp(c: Cid)
    | Publish(c: Cid)
    | Unlock(c: Cid)
    | Crash(c: Cid)

  /** Without a session to restore, `initialize` and `recover` refuse before a stored deadline
      and otherwise log in above the loaded generation. */
  function LogInUnlessTooEarly(s: State, record: Entry): Place {
    if Pending(record.retryNotBefore, s.clock) || Pending(s.retry, s.clock) then Closing
    else LoggingIn(record.generation)
  }

  /** The decision once the store has been read. */
  function Decide(s: State, c: Client, valid: bool): Place {
    var loaded := Load(s.entries, c.key, c.fingerprint, s.clock);
    var record := Record(loaded, c.fingerprint);
    var restorable := loaded.Found? && record.session.Some?;
    match c.task
    case Init =>
      if restorable && valid then Settled(record.generation, record.session.value.login)
      else LogInUnlessTooEarly(s, record)
    case Recover(seen) =>
      if restorable && record.generation > seen then Settled(record.generation, record.session.value.login)
      else LogInUnlessTooEarly(s, record)
    case Mark(seen, _) =>
      if loaded.Found? && record.generation == seen then Clearing else Closing
  }

  /** The generation under which a new login is saved. */
  function NextGeneration(task: Task, loaded: nat): nat
    requires !task.Mark?
  {
    if task.Init? then loaded + 1 else Refresher.NextGeneration(task.seen, loaded)
  }

  predicate At(s: State, c: Cid) {
    c in s.clients
  }

  predicate MayBegin(s: State, c: Client, task: Task) {
    match task
    case Init => c.generation == 0
    case Recover(seen) => c.generation == seen && seen > 0
    case Mark(seen, deadline) =>
      c.generation == seen && seen > 0 && c.recovered && deadline == s.clock + Refresher.COOLDOWN
  }

  predicate Enabled(s: State, step: Step) {
    match step
    case Tick(to) => to >= s.clock
    case Join(c, _, _) => c !in s.clients
    case Begin(c, task) => At(s, c) && s.clients[c].at.Idle? && MayBegin(s, s.clients[c], task)
    case Lock(c) => At(s, c) && s.clients[c].at.Waiting? && s.lock.None?
    case Read(c, _) => At(s, c) && s.clients[c].at.Locked?
    case LoginOk(c, _) => At(s, c) && s.clients[c].at.LoggingIn?
    case LoginLimited(c, deadline, _) => At(s, c) && s.clients[c].at.LoggingIn? && deadline > s.clock
    case SaveSession(c, expires, disk) =>
      && At(s, c) && s.clients[c].at.Saving? && !s.clients[c].task.Mark?
      && (!disk.Fails? ==> expires > s.clock)
    case SaveMark(c, _) =>
      At(s, c) && s.clients[c].at.Clearing? && s.clients[c].task.Mark? && s.clients[c].key in s.entries
    case GiveUp(c) => At(s, c) && !s.clients[c].at.Idle? && !s.clients[c].at.Settled? && !s.clients[c].at.Closing?
    case Publish(c) =>
      At(s, c) && s.clients[c].at.Settled? && (s.clients[c].task.Init? <==> s.lock == Some(c))
    case Unlock(c) =>
      && At(s, c) && s.lock == Some(c)
      && (s.clients[c].at.Closing? || (s.clients[c].at.Settled? && s.clients[c].task.Recover?))
    case Crash(c) => At(s, c)
  }

  function Move(s: State, c: Cid, at: Place): State
    requires c in s.clients
  {
    s.(clients := s.clients[c := s.clients[c].(at := at)])
  }

  function Apply(s: State, step: Step): State
    requires Enabled(s, step)
  {
    match step
    case Tick(to) => s.(clock := to)
    case Join(c, key, fingerprint) =>
      s.(clients := s.clients[c := Client(key, fingerprint, 0, 0, false, Init, Idle)])
    case Begin(c, task) => s.(clients := s.clients[c := s.clients[c].(task := task, at := Waiting)])
    case Lock(c) => Move(s, c, Locked).(lock := Some(c))
    case Read(c, valid) => Move(s, c, Decide(s, s.clients[c], valid))
    case LoginOk(c, login) => Move(s, c, Saving(s.clients[c].at.loaded, login))
    case LoginLimited(c, deadline, disk) =>
      if disk.Fails? then Move(s, c, Closing)
      else Move(s, c, Closing).(retry := Later(s.retry, Some(deadline)), limits := s.limits + {deadline})
    case SaveSession(c, expires, disk) =>
      var cl := s.clients[c];
      var next := NextGeneration(cl.task, cl.at.loaded);
      var login := cl.at.made;
      if disk.Fails? then Move(s, c, Closing)
      else
        Move(s, c, if disk.Works? then Settled(next, login) else Closing).(
          entries := s.entries[cl.key := Entry(cl.fingerprint, Some(Session(login, expires)), next, None)],
          names := s.names[(cl.key, next) := login])
    case SaveMark(c, disk) =>
      var cl := s.clients[c];
      if disk.Fails? then Move(s, c, Closing)
      else
        Move(s, c, Closing).(
          entries := s.entries[cl.key := s.entries[cl.key].(session := None, retryNotBefore := Some(cl.task.deadline))],
          cleared := s.cleared + {(cl.key, cl.task.seen)})
    case GiveUp(c) => Move(s, c, if s.clients[c].at.Waiting? then Idle else Closing)
    case Publish(c) =>
      var cl := s.clients[c];
      s.(clients := s.clients[c := cl.(generation := cl.at.generation, login := cl.at.session,
                                       recovered := cl.task.Recover?,
                                       at := if cl.task.Init? then Closing else Idle)])
    case Unlock(c) =>
      Move(s, c, if s.clients[c].at.Settled? then s.clients[c].at else Idle).(lock := None)
    case Crash(c) => s.(clients := s.clients - {c}, lock := if s.lock == Some(c) then None else s.lock)
  }

  /** Step `i` was enabled and led to the next state. */
  ghost predicate Stepped(run: seq<State>, steps: seq<Step>, i: nat)
    requires i < |steps| && |run| == |steps| + 1
  {
    Enabled(run[i], steps[i]) && run[i + 1] == Apply(run[i], steps[i])
  }

  /** A run from an empty directory. */
  ghost predicate AnyRun(run: seq<State>, steps: seq<Step>) {
    && |run| == |steps| + 1
    && run[0] == State(run[0].clock, map[], None, None, map[], map[], {}, {})
    && forall i | 0 <= i < |steps| :: Stepped(run, steps, i)
  }

  /** Step `i` of a run. */
  ghost predicate AnyStepAt(run: seq<State>, steps: seq<Step>, i: nat) {
    AnyRun(run, steps) && i < |steps| && Stepped(run, steps, i)
  }

  /** The key is used with one credential fingerprint. */
  ghost predicate OneFingerprint(steps: seq<Step>, key: Key, fp: Fingerprint) {
    forall i | 0 <= i < |steps| && steps[i].Join? && steps[i].key == key :: steps[i].fingerprint == fp
  }

  ghost predicate IsRun(run: seq<State>, steps: seq<Step>, key: Key, fp: Fingerprint) {
    AnyRun(run, steps) && OneFingerprint(steps, key, fp)
  }

  /** Step `i` of a run in which the key has one fingerprint. */
  ghost predicate StepAt(run: seq<State>, steps: seq<Step>, key: Key, fp: Fingerprint, i: nat) {
    AnyStepAt(run, steps, i) && OneFingerprint(steps, key, fp)
  }

  // ----- lock, deadlines and places -----

  function Stored(s: State, key: Key): nat {
    if key in s.entries then s.entries[key].generation else 0
  }

  /** The entry a client can read, the zero record if there is none or a foreign one. */
  function Own(s: State, c: Client): Entry {
    if c.key in s.entries && s.entries[c.key].fingerprint == c.fingerprint then s.entries[c.key]
    else Entry(c.fingerprint, None, 0, None)
  }

  predicate UnderLock(c: Client) {
    match c.at
    case Idle => false
    case Waiting => false
    case Settled(_, _) => c.task.Init?
    case _ => true
  }

  ghost predicate LockHeld(s: State) {
    && (forall c | c in s.clients && UnderLock(s.clients[c]) :: s.lock == Some(c))
    && (s.lock.Some? ==> s.lock.value in s.clients && !s.clients[s.lock.value].at.Idle?
                         && !s.clients[s.lock.value].at.Waiting?)
  }

  ghost predicate LimitsKept(s: State) {
    forall d | d in s.limits :: s.retry.Some? && d <= s.retry.value
  }

  /** What a client's place says of the directory. */
  predicate PlaceOk(s: State, c: Client) {
    && (!c.at.Idle? && c.task.Recover? ==> c.task.seen == c.generation > 0)
    && (match c.at
        case LoggingIn(loaded) =>
          && !c.task.Mark? && loaded == Own(s, c).generation
          && !Pending(s.retry, s.clock) && !Pending(Own(s, c).retryNotBefore, s.clock)
        case Saving(loaded, _) => !c.task.Mark? && loaded == Own(s, c).generation
        case Clearing =>
          && c.task.Mark? && c.key in s.entries && s.entries[c.key].fingerprint == c.fingerprint
          && s.entries[c.key].generation == c.task.seen
        case Settled(g, _) => !c.task.Mark? && (c.task.Recover? ==> g > c.task.seen)
        case _ => true)
  }

  /** Holds in every run, with whatever fingerprints. */
  ghost predicate Inv(s: State) {
    LockHeld(s) && LimitsKept(s) && forall c | c in s.clients :: PlaceOk(s, s.clients[c])
  }

  lemma StepKeepsLock(s: State, step: Step)
    requires LockHeld(s) && Enabled(s, step)
    ensures LockHeld(Apply(s, step))
  {
  }

  /** Who holds the lock is the only one whose place depends on the directory. */
  lemma OthersIndifferent(s: State, c: Cid, d: Cid)
    requires LockHeld(s) && s.lock == Some(c) && d in s.clients && d != c
    ensures !s.clients[d].at.LoggingIn? && !s.clients[d].at.Saving? && !s.clients[d].at.Clearing?
  {
  }

  /** The steps that write to the directory. */
  predicate Writes(step: Step) {
    step.SaveSession? || step.SaveMark? || step.LoginLimited?
  }

  lemma WriterHasLock(s: State, step: Step)
    requires LockHeld(s) && Enabled(s, step) && Writes(step)
    ensures s.lock == Some(step.c)
  {
  }

  lemma QuietStep(s: State, step: Step)
    requires Enabled(s, step) && !Writes(step)
    ensures var s' := Apply(s, step);
            && s'.entries == s.entries && s'.retry == s.retry && s'.names == s.names
            && s'.limits == s.limits && s'.cleared == s.cleared && s'.clock >= s.clock
  {
  }

  /** A step's own client. */
  lemma StepKeepsSelf(s: State, step: Step)
    requires Inv(s) && Enabled(s, step) && !step.Tick? && step.c in Apply(s, step).clients
    ensures PlaceOk(Apply(s, step), Apply(s, step).clients[step.c])
  {
    if step.c in s.clients {
      assert PlaceOk(s, s.clients[step.c]);
    }
  }

  lemma StepKeepsOther(s: State, step: Step, d: Cid)
    requires Inv(s) && Enabled(s, step) && d in Apply(s, step).clients && (!step.Tick? ==> step.c != d)
    ensures d in s.clients && Apply(s, step).clients[d] == s.clients[d] && PlaceOk(Apply(s, step), s.clients[d])
  {
    assert d in s.clients && PlaceOk(s, s.clients[d]);
    if Writes(step) {
      WriterHasLock(s, step);
      OthersIndifferent(s, step.c, d);
    } else {
      QuietStep(s, step);
    }
  }

  lemma StepKeepsInv(s: State, step: Step)
    requires Inv(s) && Enabled(s, step)
    ensures Inv(Apply(s, step))
  {
    var s' := Apply(s, step);
    StepKeepsLock(s, step);
    if !Writes(step) {
      QuietStep(s, step);
    }
    forall d | d in s'.clients
      ensures PlaceOk(s', s'.clients[d])
    {
      if !step.Tick? && step.c == d {
        StepKeepsSelf(s, step);
      } else {
        StepKeepsOther(s, step, d);
      }
    }
  }

  lemma {:induction false} RunKeepsInv(run: seq<State>, steps: seq<Step>, i: nat)
    requires AnyRun(run, steps) && i < |run|
    ensures Inv(run[i])
  {
    if i > 0 {
      RunKeepsInv(run, steps, i - 1);
      assert Stepped(run, steps, i - 1);
      StepKeepsInv(run[i - 1], steps[i - 1]);
    }
  }

  lemma {:induction false} HistoryGrows(run: seq<State>, steps: seq<Step>, i: nat, j: nat)
    requires AnyRun(run, steps) && i <= j < |run|
    ensures run[i].limits <= run[j].limits && run[i].cleared <= run[j].cleared && run[i].clock <= run[j].clock
  {
    if i < j {
      HistoryGrows(run, steps, i, j - 1);
      assert Stepped(run, steps, j - 1);
    }
  }

  /** While any process of any target, with whatever credentials, is in a login, the time is past
      every account deadline that any process, alive or dead, has persisted at any earlier point
      of the run: none of its requests is early. */
  lemma NoRequestBeforeAccountDeadline(run: seq<State>, steps: seq<Step>, i: nat, j: nat, c: Cid, deadline: int)
    requires AnyRun(run, steps) && i <= j < |run|
    requires c in run[j].clients && run[j].clients[c].at.LoggingIn? && deadline in run[i].limits
    ensures run[j].clock >= deadline
  {
    RunKeepsInv(run, steps, j);
    HistoryGrows(run, steps, i, j);
    assert PlaceOk(run[j], run[j].clients[c]);
  }

  /** The step saves a marker on the key. */
  predicate Marks(s: State, step: Step, key: Key) {
    Enabled(s, step) && step.SaveMark? && !step.disk.Fails? && s.clients[step.c].key == key
  }

  /** Over any run, whatever happened between the report of an ineffective replay and its save: a
      marker clears the entry of its own key and fingerprint only, and only while the generation
      stored there is the one reported. */
  lemma MarksOwnGeneration(run: seq<State>, steps: seq<Step>, i: nat, key: Key)
    requires AnyStepAt(run, steps, i) && Marks(run[i], steps[i], key)
    ensures Stored(run[i], key) == run[i].clients[steps[i].c].task.seen == Stored(run[i + 1], key)
    ensures run[i].entries[key].fingerprint == run[i].clients[steps[i].c].fingerprint
    ensures forall other | other != key ::
              other in run[i + 1].entries <==> other in run[i].entries
    ensures forall other | other != key && other in run[i].entries ::
              run[i + 1].entries[other] == run[i].entries[other]
  {
    RunKeepsInv(run, steps, i);
    assert PlaceOk(run[i], run[i].clients[steps[i].c]);
  }

  /** A marker whose generation is not the stored one, or whose fingerprint is not that of the
      entry, ends without a trace in the directory: no step it takes touches entries or
      deadlines, and its read ends it. */
  lemma LateMarkHarmless(run: seq<State>, steps: seq<Step>, i: nat, c: Cid)
    requires AnyStepAt(run, steps, i) && !steps[i].Tick? && !steps[i].Join? && steps[i].c == c
    requires run[i].clients[c].task.Mark? && Own(run[i], run[i].clients[c]).generation != run[i].clients[c].task.seen
    ensures run[i + 1].entries == run[i].entries && run[i + 1].retry == run[i].retry
    ensures steps[i].Read? ==> run[i + 1].clients[c].at.Closing?
  {
    RunKeepsInv(run, steps, i);
    MarkOffClearing(run[i], steps[i], c);
  }

  lemma MarkOffClearing(s: State, step: Step, c: Cid)
    requires Enabled(s, step) && !step.Tick? && !step.Join? && step.c == c && PlaceOk(s, s.clients[c])
    requires s.clients[c].task.Mark? && Own(s, s.clients[c]).generation != s.clients[c].task.seen
    ensures Apply(s, step).entries == s.entries && Apply(s, step).retry == s.retry
    ensures step.Read? ==> Apply(s, step).clients[c].at.Closing?
  {
  }

  // ----- names of generations -----

  /** `g` names `login` at `key`, and is not above what is stored. */
  predicate Names(s: State, key: Key, g: nat, login: Login) {
    (key, g) in s.names && s.names[(key, g)] == login && key in s.entries && g <= s.entries[key].generation
  }

  /** What a client of the key has in use, or is about to, is named. */
  predicate ClientNamed(s: State, key: Key, fp: Fingerprint, c: Client) {
    c.key == key ==>
      && c.fingerprint == fp
      && (c.generation > 0 ==> Names(s, key, c.generation, c.login))
      && (c.at.Settled? ==> Names(s, key, c.at.generation, c.at.session))
  }

  predicate EntryNamed(s: State, key: Key, fp: Fingerprint) {
    key in s.entries ==>
      && s.entries[key].fingerprint == fp
      && (s.entries[key].session.Some? ==> Names(s, key, s.entries[key].generation, s.entries[key].session.value.login))
  }

  ghost predicate HistoryOk(s: State, key: Key) {
    && (forall g | (key, g) in s.names :: key in s.entries && g <= s.entries[key].generation)
    && (forall g | (key, g) in s.cleared ::
          && key in s.entries && g <= s.entries[key].generation
          && (g == s.entries[key].generation ==> s.entries[key].session.None?))
  }

  /** Holds in runs in which the key has one fingerprint. */
  ghost predicate Named(s: State, key: Key, fp: Fingerprint) {
    EntryNamed(s, key, fp) && HistoryOk(s, key) && forall c | c in s.clients :: ClientNamed(s, key, fp, s.clients[c])
  }

  predicate JoinsWith(step: Step, key: Key, fp: Fingerprint) {
    step.Join? && step.key == key ==> step.fingerprint == fp
  }

  /** A save lands exactly one above the stored generation. */
  lemma SaveLandsAbove(s: State, fp: Fingerprint, c: Cid)
    requires Inv(s) && c in s.clients && s.clients[c].at.Saving? && Named(s, s.clients[c].key, fp)
    ensures !s.clients[c].task.Mark?
    ensures NextGeneration(s.clients[c].task, s.clients[c].at.loaded) == Stored(s, s.clients[c].key) + 1
  {
    assert PlaceOk(s, s.clients[c]) && ClientNamed(s, s.clients[c].key, fp, s.clients[c]);
  }

  /** One step: the stored generation of a key stays, or a save of a new login puts it exactly
      one higher; and what a generation already names it keeps naming. */
  lemma StepRaisesByOne(s: State, key: Key, fp: Fingerprint, step: Step)
    requires Inv(s) && Named(s, key, fp) && Enabled(s, step)
    ensures var s' := Apply(s, step);
            && Stored(s', key) == (if step.SaveSession? && !step.disk.Fails? && s.clients[step.c].key == key
                                   then Stored(s, key) + 1 else Stored(s, key))
            && (key in s.entries ==> key in s'.entries)
            && forall g | (key, g) in s.names :: (key, g) in s'.names && s'.names[(key, g)] == s.names[(key, g)]
  {
    if step.SaveSession? && s.clients[step.c].key == key {
      SaveLandsAbove(s, fp, step.c);
    }
  }

  /** Names stay when the directory is left alone or grows. */
  lemma NamesStay(s: State, key: Key, fp: Fingerprint, step: Step, g: nat, login: Login)
    requires Inv(s) && Named(s, key, fp) && Enabled(s, step) && Names(s, key, g, login)
    ensures Names(Apply(s, step), key, g, login)
  {
    StepRaisesByOne(s, key, fp, step);
  }

  lemma StaysNamed(s: State, key: Key, fp: Fingerprint, step: Step, cl: Client)
    requires Inv(s) && Named(s, key, fp) && Enabled(s, step) && ClientNamed(s, key, fp, cl)
    ensures ClientNamed(Apply(s, step), key, fp, cl)
  {
    if cl.key == key {
      if cl.generation > 0 {
        NamesStay(s, key, fp, step, cl.generation, cl.login);
      }
      if cl.at.Settled? {
        NamesStay(s, key, fp, step, cl.at.generation, cl.at.session);
      }
    }
  }

  lemma StepKeepsSelfNamed(s: State, key: Key, fp: Fingerprint, step: Step)
    requires Inv(s) && Named(s, key, fp) && Enabled(s, step) && JoinsWith(step, key, fp)
    requires !step.Tick? && step.c in Apply(s, step).clients
    ensures ClientNamed(Apply(s, step), key, fp, Apply(s, step).clients[step.c])
  {
    if !step.Join? {
      StaysNamed(s, key, fp, step, s.clients[step.c]);
    }
  }

  lemma StepKeepsClientNamed(s: State, key: Key, fp: Fingerprint, step: Step, d: Cid)
    requires Inv(s) && Named(s, key, fp) && Enabled(s, step) && JoinsWith(step, key, fp)
    requires d in Apply(s, step).clients
    ensures ClientNamed(Apply(s, step), key, fp, Apply(s, step).clients[d])
  {
    if !step.Tick? && step.c == d {
      StepKeepsSelfNamed(s, key, fp, step);
    } else {
      StepKeepsOther(s, step, d);
      StaysNamed(s, key, fp, step, s.clients[d]);
    }
  }

  lemma StepKeepsHistoryOk(s: State, key: Key, fp: Fingerprint, step: Step)
    requires Inv(s) && Named(s, key, fp) && Enabled(s, step)
    ensures EntryNamed(Apply(s, step), key, fp) && HistoryOk(Apply(s, step), key)
  {
    if !Writes(step) {
      QuietStep(s, step);
    } else {
      assert PlaceOk(s, s.clients[step.c]) && ClientNamed(s, key, fp, s.clients[step.c]);
      StepRaisesByOne(s, key, fp, step);
    }
  }

  lemma StepKeepsNamed(s: State, key: Key, fp: Fingerprint, step: Step)
    requires Inv(s) && Named(s, key, fp) && Enabled(s, step) && JoinsWith(step, key, fp)
    ensures Named(Apply(s, step), key, fp)
  {
    StepKeepsHistoryOk(s, key, fp, step);
    forall d | d in Apply(s, step).clients
      ensures ClientNamed(Apply(s, step), key, fp, Apply(s, step).clients[d])
    {
      StepKeepsClientNamed(s, key, fp, step, d);
    }
  }

  lemma {:induction false} RunKeepsNamed(run: seq<State>, steps: seq<Step>, key: Key, fp: Fingerprint, i: nat)
    requires IsRun(run, steps, key, fp) && i < |run|
    ensures Inv(run[i]) && Named(run[i], key, fp)
  {
    RunKeepsInv(run, steps, i);
    if i > 0 {
      RunKeepsNamed(run, steps, key, fp, i - 1);
      assert Stepped(run, steps, i - 1);
      StepKeepsNamed(run[i - 1], key, fp, steps[i - 1]);
    }
  }

  // ----- generation agreement -----

  /** Over any run the stored generation of a key never decreases and names persist. */
  lemma {:induction false} GenerationsGrow(run: seq<State>, steps: seq<Step>, key: Key, fp: Fingerprint, i: nat, j: nat)
    requires IsRun(run, steps, key, fp) && i <= j < |run|
    ensures Stored(run[i], key) <= Stored(run[j], key)
    ensures forall g | (key, g) in run[i].names ::
              (key, g) in run[j].names && run[j].names[(key, g)] == run[i].names[(key, g)]
  {
    if i < j {
      GenerationsGrow(run, steps, key, fp, i, j - 1);
      RunKeepsNamed(run, steps, key, fp, j - 1);
      assert Stepped(run, steps, j - 1);
      StepRaisesByOne(run[j - 1], key, fp, steps[j - 1]);
    }
  }

  predicate Holds(c: Client, key: Key, g: nat, login: Login) {
    c.key == key && c.generation == g > 0 && c.login == login
  }

  /** Somewhere, in a process or in the directory, generation `g` of the key is the session of
      `login`. */
  ghost predicate Shows(s: State, key: Key, g: nat, login: Login) {
    || (exists c | c in s.clients :: Holds(s.clients[c], key, g, login))
    || (key in s.entries && s.entries[key].session.Some? && s.entries[key].generation == g
        && s.entries[key].session.value.login == login)
  }

  lemma ShownIsNamed(s: State, key: Key, fp: Fingerprint, g: nat, login: Login)
    requires Named(s, key, fp) && Shows(s, key, g, login)
    ensures Names(s, key, g, login)
  {
    if c :| c in s.clients && Holds(s.clients[c], key, g, login) {
      assert ClientNamed(s, key, fp, s.clients[c]);
    } else {
      assert EntryNamed(s, key, fp);
    }
  }

  /** Equal generations of a key that has one fingerprint denote the same login, in whatever
      process or file and at whatever times of the run they are seen, and are never above the
      stored one. Other keys may be used with any fingerprints. */
  lemma GenerationsAgree(run: seq<State>, steps: seq<Step>, key: Key, fp: Fingerprint, i: nat, j: nat,
                         g: nat, a: Login, b: Login)
    requires IsRun(run, steps, key, fp) && i <= j < |run|
    requires Shows(run[i], key, g, a) && Shows(run[j], key, g, b)
    ensures a == b && g <= Stored(run[j], key)
  {
    RunKeepsNamed(run, steps, key, fp, i);
    RunKeepsNamed(run, steps, key, fp, j);
    ShownIsNamed(run[i], key, fp, g, a);
    ShownIsNamed(run[j], key, fp, g, b);
    GenerationsGrow(run, steps, key, fp, i, j);
  }

  // ----- what is restored, and when a login is needed -----

  /** The entry can be restored by a client that reads it now: it is the client's own, and its cookies
      are there and have not expired. */
  predicate Restorable(s: State, c: Client) {
    && c.key in s.entries && s.entries[c.key].fingerprint == c.fingerprint && s.entries[c.key].session.Some?
    && s.clock < s.entries[c.key].session.value.expires
  }

  /** Nothing the client can read asks it to wait: neither the account deadline nor the deadline of
      its own entry, expired or not, is to come. */
  predicate MayLogIn(s: State, c: Client) {
    && (s.retry.Some? ==> s.retry.value <= s.clock)
    && (c.key in s.entries && s.entries[c.key].fingerprint == c.fingerprint ==>
          s.entries[c.key].retryNotBefore.Some? ==> s.entries[c.key].retryNotBefore.value <= s.clock)
  }

  /** What a client that asks for a session comes to. It restores the stored one exactly if that is
      restorable and, to begin with, the probe found it alive, or, to recover, it is newer than the
      one lost; so a session the probe found dead is never published. Otherwise it logs in, above the
      stored generation of its own, exactly if nothing asks it to wait. */
  lemma SessionExact(s: State, c: Cid, valid: bool)
    requires Enabled(s, Read(c, valid)) && !s.clients[c].task.Mark?
    ensures var cl := s.clients[c]; var at := Apply(s, Read(c, valid)).clients[c].at;
            var restores := Restorable(s, cl)
                            && if cl.task.Init? then valid else s.entries[cl.key].generation > cl.task.seen;
            && (at.Settled? <==> restores)
            && (at.Settled? ==> at.generation == s.entries[cl.key].generation
                                && at.session == s.entries[cl.key].session.value.login)
            && (at.LoggingIn? <==> !restores && MayLogIn(s, cl)) && (at.Closing? <==> !restores && !MayLogIn(s, cl))
            && (at.LoggingIn? ==> at.loaded == Own(s, cl).generation)
  {
  }

  /** What a marker comes to: it clears the entry exactly if that is its own, its cookies, if any,
      have not expired, and its generation is the one reported. */
  lemma MarkExact(s: State, c: Cid, valid: bool)
    requires Enabled(s, Read(c, valid)) && s.clients[c].task.Mark?
    ensures var cl := s.clients[c]; var at := Apply(s, Read(c, valid)).clients[c].at;
            && (at.Clearing? <==>
                  && cl.key in s.entries && s.entries[cl.key].fingerprint == cl.fingerprint
                  && (s.entries[cl.key].session.Some? ==> s.clock < s.entries[cl.key].session.value.expires)
                  && s.entries[cl.key].generation == cl.task.seen)
            && (at.Clearing? || at.Closing?)
  {
  }

  /** A session that was saved is what any client with its credentials restores next, until its
      cookies expire: when it starts, if the probe finds the session alive, or when it recovers from
      an older one. */
  lemma SavedIsRestored(s: State, c: Cid, expires: int, disk: Disk, d: Client, now: int, valid: bool)
    requires Enabled(s, SaveSession(c, expires, disk)) && !disk.Fails? && now < expires
    requires d.key == s.clients[c].key && d.fingerprint == s.clients[c].fingerprint
    requires if d.task.Init? then valid
             else d.task.Recover? && d.task.seen < NextGeneration(s.clients[c].task, s.clients[c].at.loaded)
    ensures var s' := Apply(s, SaveSession(c, expires, disk)).(clock := now);
            Decide(s', d, valid)
            == Settled(NextGeneration(s.clients[c].task, s.clients[c].at.loaded), s.clients[c].at.made)
  {
  }

  /** And a save clears the deadline of the entry: nothing but the account deadline asks anybody to
      wait who uses the key after it. */
  lemma SavedClears(s: State, c: Cid, expires: int, disk: Disk, d: Client)
    requires Enabled(s, SaveSession(c, expires, disk)) && !disk.Fails? && d.key == s.clients[c].key
    ensures var s' := Apply(s, SaveSession(c, expires, disk));
            MayLogIn(s', d) <==> (s.retry.Some? ==> s.retry.value <= s.clock)
  {
  }

  // ----- ineffective generations -----

  /** Once a marker has cleared a generation, no process ever restores it from the store. */
  lemma ClearedNeverRestored(run: seq<State>, steps: seq<Step>, fp: Fingerprint,
                             i: nat, j: nat, c: Cid, valid: bool, g: nat)
    requires AnyStepAt(run, steps, j) && i <= j && steps[j] == Read(c, valid)
    requires OneFingerprint(steps, run[j].clients[c].key, fp)
    requires (run[j].clients[c].key, g) in run[i].cleared && run[j + 1].clients[c].at.Settled?
    ensures run[j + 1].clients[c].at.generation > g
  {
    RunKeepsNamed(run, steps, run[j].clients[c].key, fp, j);
    HistoryGrows(run, steps, i, j);
  }

  /** The key's cookies are cleared, with a deadline no earlier than the given one. */
  predicate ClearedUntil(s: State, key: Key, deadline: int) {
    && key in s.entries && s.entries[key].session.None?
    && s.entries[key].retryNotBefore.Some? && s.entries[key].retryNotBefore.value >= deadline
  }

  /** No client of the key is in a handshake or has come out of one. */
  ghost predicate Restful(s: State, key: Key) {
    forall c | c in s.clients && s.clients[c].key == key :: !s.clients[c].at.LoggingIn? && !s.clients[c].at.Saving?
  }

  /** What a marker's save leaves behind: at its generation the entry stays cleared for good, and
      until its deadline it stays so whatever happens, and nobody logs in. */
  ghost predicate Rests(s: State, key: Key, generation: nat, deadline: int) {
    && Stored(s, key) >= generation
    && (Stored(s, key) == generation || s.clock < deadline ==> ClearedUntil(s, key, deadline))
    && (s.clock < deadline ==> Restful(s, key))
  }

  lemma MarkRests(s: State, step: Step, key: Key)
    requires Inv(s) && Marks(s, step, key)
    ensures Rests(Apply(s, step), key, Stored(s, key), s.clients[step.c].task.deadline)
  {
    WriterHasLock(s, step);
    forall d | d in s.clients && d != step.c
      ensures !s.clients[d].at.LoggingIn? && !s.clients[d].at.Saving?
    {
      OthersIndifferent(s, step.c, d);
    }
  }

  lemma StepKeepsRestful(s: State, key: Key, fp: Fingerprint, step: Step, deadline: int)
    requires Named(s, key, fp) && Enabled(s, step) && s.clock < deadline && ClearedUntil(s, key, deadline)
    requires Restful(s, key)
    ensures Restful(Apply(s, step), key)
  {
    if step.Read? {
      assert ClientNamed(s, key, fp, s.clients[step.c]);
    }
  }

  lemma StepKeepsCleared(s: State, key: Key, step: Step, deadline: int)
    requires Enabled(s, step) && ClearedUntil(s, key, deadline)
    requires Marks(s, step, key) ==> s.clients[step.c].task.deadline >= deadline
    requires !(step.SaveSession? && !step.disk.Fails? && s.clients[step.c].key == key)
    ensures ClearedUntil(Apply(s, step), key, deadline)
  {
  }

  lemma StepKeepsRests(s: State, key: Key, fp: Fingerprint, step: Step, generation: nat, deadline: int)
    requires Inv(s) && Named(s, key, fp) && Enabled(s, step) && Rests(s, key, generation, deadline)
    requires Marks(s, step, key) ==> s.clients[step.c].task.deadline >= deadline
    ensures Rests(Apply(s, step), key, generation, deadline)
  {
    var s' := Apply(s, step);
    assert s'.clock >= s.clock;
    StepRaisesByOne(s, key, fp, step);
    if step.SaveSession? && !step.disk.Fails? && s.clients[step.c].key == key {
      assert s.clock >= deadline;
    } else if Stored(s, key) == generation || s.clock < deadline {
      StepKeepsCleared(s, key, step, deadline);
      if s.clock < deadline {
        StepKeepsRestful(s, key, fp, step, deadline);
      }
    }
  }

  /** Step `i` saves a marker with the given deadline on the key. */
  ghost predicate MarksWith(run: seq<State>, steps: seq<Step>, i: nat, key: Key, deadline: int)
    requires i < |steps| < |run|
  {
    Marks(run[i], steps[i], key) && run[i].clients[steps[i].c].task.deadline == deadline
  }

  /** No marker with an earlier deadline is saved on the key between two points of the run. */
  ghost predicate NoEarlierMark(run: seq<State>, steps: seq<Step>, i: nat, j: nat, key: Key, deadline: int)
    requires j <= |steps| < |run|
  {
    forall k | i < k < j && Marks(run[k], steps[k], key) :: run[k].clients[steps[k].c].task.deadline >= deadline
  }

  /** After a marker saved `deadline`, and as long as no marker that began earlier is saved on
      top: the entry stays cleared and keeps a deadline at least as late until then, and also
      later while its generation stays; and until then no process using the key is in a
      handshake or has come out of one. */
  lemma {:induction false} MarkDeadlineStays(run: seq<State>, steps: seq<Step>, key: Key, fp: Fingerprint,
                                             i: nat, j: nat, deadline: int)
    requires IsRun(run, steps, key, fp) && i < j < |run|
    requires MarksWith(run, steps, i, key, deadline) && NoEarlierMark(run, steps, i, j, key, deadline)
    ensures Rests(run[j], key, Stored(run[i], key), deadline)
  {
    RunKeepsNamed(run, steps, key, fp, j - 1);
    assert Stepped(run, steps, j - 1);
    if j == i + 1 {
      MarkRests(run[i], steps[i], key);
    } else {
      assert NoEarlierMark(run, steps, i, j - 1, key, deadline);
      MarkDeadlineStays(run, steps, key, fp, i, j - 1, deadline);
      StepKeepsRests(run[j - 1], key, fp, steps[j - 1], Stored(run[i], key), deadline);
    }
  }

  /** No process using the key is in a handshake before the deadline saved with a cleared
      generation, as long as no marker that began earlier is saved on top of it. */
  lemma NoHandshakeBeforeMarkDeadline(run: seq<State>, steps: seq<Step>, key: Key, fp: Fingerprint,
                                      i: nat, j: nat, deadline: int, c: Cid)
    requires IsRun(run, steps, key, fp) && i < j < |run|
    requires MarksWith(run, steps, i, key, deadline) && NoEarlierMark(run, steps, i, j, key, deadline)
    requires c in run[j].clients && run[j].clients[c].key == key && run[j].clients[c].at.LoggingIn?
    ensures run[j].clock >= deadline
  {
    MarkDeadlineStays(run, steps, key, fp, i, j, deadline);
  }

  // ----- credential changes -----

  /** Outside that hypothesis a marker's deadline binds nobody with another fingerprint: over an
      entry that is not its own, a client that needs a session goes on to a handshake exactly if
      no account deadline is to come. */
  lemma ForeignFingerprintLogsIn(s: State, c: Cid, valid: bool)
    requires Enabled(s, Read(c, valid)) && !s.clients[c].task.Mark?
    requires var cl := s.clients[c]; cl.key in s.entries && s.entries[cl.key].fingerprint != cl.fingerprint
    ensures Apply(s, Read(c, valid)).clients[c].at.LoggingIn? <==> !Pending(s.retry, s.clock)
  {
  }

  /** Outside the hypothesis of one fingerprint per key. A client about to log in, to initialize
      or to recover, saves its session under the generation it chooses from what it loaded; this
      lowers the stored generation exactly if the entry has another fingerprint and a generation
      above that choice, which is then 1, or one above the generation recovered from. */
  lemma ForeignFingerprintRestarts(s: State, c: Cid, valid: bool, login: Login, expires: int)
    requires Enabled(s, Read(c, valid)) && Apply(s, Read(c, valid)).clients[c].at.LoggingIn? && expires > s.clock
    ensures var cl := s.clients[c]; !cl.task.Mark?
    ensures var s1 := Apply(s, Read(c, valid)); Enabled(s1, LoginOk(c, login))
    ensures var s2 := Apply(Apply(s, Read(c, valid)), LoginOk(c, login)); Enabled(s2, SaveSession(c, expires, Works))
    ensures var cl := s.clients[c];
            var s1 := Apply(s, Read(c, valid));
            var s3 := Apply(Apply(s1, LoginOk(c, login)), SaveSession(c, expires, Works));
            var chosen := NextGeneration(cl.task, s1.clients[c].at.loaded);
            var foreign := cl.key in s.entries && s.entries[cl.key].fingerprint != cl.fingerprint;
            && Stored(s3, cl.key) == chosen
            && (Stored(s3, cl.key) < Stored(s, cl.key) <==> foreign && Stored(s, cl.key) > chosen)
            && (foreign ==> chosen == if cl.task.Init? then 1 else cl.task.seen + 1)
  {
  }
}

/** account_retry.go: account-wide retry deadlines and accepted OTP steps, kept in the session
    store under reserved keys, and the reach of the account lock over all of them. */
module AccountRetry {
  import opened Prelude
  import opened SessionStore
  import Endpoints
  import OtpCoordination

  const RETRY_TARGET: string := [NUL] + "cloudsigma-account-retry-v1"
  const OTP_TARGET: string := [NUL] + "cloudsigma-accepted-otp-v1:"

  function RetryKey(k: SessionKey): SessionKey {
    SessionKey(Endpoints.Normal(k.endpoint), NormalUser(k.username), RETRY_TARGET, "account-retry-v1")
  }

  function LegacyRetryKey(k: SessionKey): SessionKey {
    SessionKey(k.endpoint, k.username, RETRY_TARGET, "account-retry-v1")
  }

  function OtpKey(k: SessionKey, binding: string): SessionKey {
    SessionKey(Endpoints.Normal(k.endpoint), NormalUser(k.username), OTP_TARGET + binding, "accepted-otp-v1")
  }

  const EMPTY: SessionRecord := SessionRecord(0, "", "", "", "", [], 0, None, 0, "")

  function RetryRecord(deadline: Stamp): SessionRecord {
    EMPTY.(retryNotBefore := deadline)
  }

  function StepRecord(step: int, binding: string): SessionRecord {
    EMPTY.(acceptedStep := step, binding := binding)
  }

  /** The error of a load, if any; an expired record is an error here. */
  function LoadError(l: Loaded): Option<StoreErr> {
    match l
    case Fresh(_) => None
    case Stale(_) => Some(SessionExpired)
    case Failed(error) => Some(error)
  }

  /** The deadline under one key: a missing entry has none, other errors are errors. */
  function DeadlineAt(entries: Entries, k: SessionKey, now: int): Result<Stamp, StoreErr> {
    match Get(entries, k, now)
    case Fresh(r) => Ok(r.retryNotBefore)
    case Stale(_) => Err(SessionExpired)
    case Failed(error) => if error.NotFound? then Ok(None) else Err(error)
  }

  predicate SpelledNormally(k: SessionKey) {
    k.endpoint == Endpoints.Normal(k.endpoint) && k.username == NormalUser(k.username)
  }

  /** The spelling's own entry, unless it is the canonical one. */
  function LegacyOf(k: SessionKey): Option<SessionKey> {
    if SpelledNormally(k) then None else Some(LegacyRetryKey(k))
  }

  /** The later of the canonical entry and the legacy one. */
  function LoadBoth(entries: Entries, canonical: SessionKey, legacy: Option<SessionKey>, now: int)
    : Result<Stamp, StoreErr>
  {
    match DeadlineAt(entries, canonical, now)
    case Err(error) => Err(error)
    case Ok(deadline) =>
      if legacy.None? then Ok(deadline)
      else
        match DeadlineAt(entries, legacy.value, now)
        case Err(error) => Err(error)
        case Ok(older) => Ok(Later(deadline, older))
  }

  /** loadAccountRetry. */
  function LoadRetry(entries: Entries, k: SessionKey, now: int): Result<Stamp, StoreErr> {
    LoadBoth(entries, RetryKey(k), LegacyOf(k), now)
  }

  /** What saveAccountRetry writes, if it gets to write. */
  function ToSave(entries: Entries, canonical: SessionKey, legacy: Option<SessionKey>, deadline: Stamp, now: int)
    : Result<Stamp, StoreErr>
    requires deadline.Some?
  {
    match LoadBoth(entries, canonical, legacy, now)
    case Err(error) => Err(error)
    case Ok(previous) => Ok(Later(deadline, previous))
  }

  /** loadAcceptedOTPStep. */
  function LoadStep(entries: Entries, k: SessionKey, binding: string, now: int): Result<Option<int>, StoreErr> {
    StepAt(entries, OtpKey(k, binding), binding, now)
  }

  /** The step under one key. */
  function StepAt(entries: Entries, key: SessionKey, binding: string, now: int): Result<Option<int>, StoreErr> {
    match Get(entries, key, now)
    case Fresh(r) => if r.binding != binding then Err(Corrupt) else Ok(Some(r.acceptedStep))
    case Stale(_) => Err(SessionExpired)
    case Failed(error) => if error.NotFound? then Ok(None) else Err(error)
  }

  /** The deadline of a record that can be used now under the key; none if there is no record. */
  ghost predicate Kept(entries: Entries, k: SessionKey, now: int, deadline: Stamp) {
    && Addressable(k)
    && if EntryName(k) in entries
       then GoodRecord(k, entries[EntryName(k)], now) && deadline == entries[EntryName(k)].retryNotBefore
       else deadline == None
  }

  lemma KeptExact(entries: Entries, k: SessionKey, now: int)
    ensures DeadlineAt(entries, k, now).Ok? ==> Kept(entries, k, now, DeadlineAt(entries, k, now).value)
    ensures forall deadline | Kept(entries, k, now, deadline) :: DeadlineAt(entries, k, now) == Ok(deadline)
  {
    if Addressable(k) && EntryName(k) in entries {
      RecordExact(k, entries[EntryName(k)], now);
    }
  }

  /** What a load gives: the deadline of the canonical entry and, for another spelling, that of its own
      entry, whichever is later; and it works if each entry is missing or good. */
  lemma LoadExact(entries: Entries, k: SessionKey, now: int, canonical: Stamp, own: Stamp)
    requires Kept(entries, RetryKey(k), now, canonical)
    requires SpelledNormally(k) ==> own == None
    requires !SpelledNormally(k) ==> Kept(entries, LegacyRetryKey(k), now, own)
    ensures LoadRetry(entries, k, now).Ok?
    ensures var deadline := LoadRetry(entries, k, now).value;
            && (deadline == canonical || deadline == own)
            && (canonical.Some? ==> deadline.Some? && deadline.value >= canonical.value)
            && (own.Some? ==> deadline.Some? && deadline.value >= own.value)
  {
    KeptExact(entries, RetryKey(k), now);
    KeptExact(entries, LegacyRetryKey(k), now);
  }

  /** A load of a step gives the step of a good record with the right secret; none exactly if there is
      no record; and any other record is an error, also a good one that names another secret. */
  lemma StepLoadExact(entries: Entries, key: SessionKey, binding: string, now: int)
    ensures var loaded := StepAt(entries, key, binding, now); var name := EntryName(key);
            && (loaded == Ok(None) <==> Addressable(key) && name !in entries)
            && (loaded.Ok? && loaded.value.Some? <==>
                  && Addressable(key) && name in entries && GoodRecord(key, entries[name], now)
                  && entries[name].binding == binding)
            && (loaded.Ok? && loaded.value.Some? ==> loaded.value.value == entries[name].acceptedStep)
  {
    if Addressable(key) && EntryName(key) in entries {
      RecordExact(key, entries[EntryName(key)], now);
      NeverNotFound(key, entries[EntryName(key)], now);
    }
  }

  /** Metadata is nothing but a deadline, or a step and its secret. */
  lemma MetadataExact(deadline: Stamp, step: int, binding: string)
    ensures RetryRecord(deadline) == SessionRecord(0, "", "", "", "", [], 0, deadline, 0, "")
    ensures StepRecord(step, binding) == SessionRecord(0, "", "", "", "", [], 0, None, step, binding)
  {
  }

  method LoadAccountRetry(store: FileSessionStore, k: SessionKey, now: int) returns (r: Result<Stamp, StoreErr>)
    ensures r == LoadRetry(store.entries, k, now)
  {
    var canonical := store.Load(RetryKey(k), now);
    var deadline := None;
    if canonical.Fresh? {
      deadline := canonical.record.retryNotBefore;
    } else if canonical != Failed(NotFound) {
      return Err(LoadError(canonical).value);
    }
    if k.endpoint == Endpoints.Normal(k.endpoint) && k.username == NormalUser(k.username) {
      return Ok(deadline);
    }
    var legacy := store.Load(LegacyRetryKey(k), now);
    if legacy == Failed(NotFound) {
      return Ok(deadline);
    }
    if !legacy.Fresh? {
      return Err(LoadError(legacy).value);
    }
    if legacy.record.retryNotBefore.Some?
       && (deadline.None? || legacy.record.retryNotBefore.value > deadline.value) {
      deadline := legacy.record.retryNotBefore;
    }
    return Ok(deadline);
  }

  method SaveAccountRetry(store: FileSessionStore, k: SessionKey, deadline: Stamp, now: int, disk: Disk)
    returns (error: Option<StoreErr>)
    modifies store
    ensures deadline.None? ==> error.None? && store.entries == old(store.entries)
    ensures deadline.Some? && ToSave(old(store.entries), RetryKey(k), LegacyOf(k), deadline, now).Err? ==>
              error.Some? && store.entries == old(store.entries)
    ensures deadline.Some? && ToSave(old(store.entries), RetryKey(k), LegacyOf(k), deadline, now).Ok? ==>
              var kept := ToSave(old(store.entries), RetryKey(k), LegacyOf(k), deadline, now).value;
              && (error.None? <==> disk.Works?)
              && store.entries == if disk.FailsEarly? then old(store.entries)
                                  else Put(old(store.entries), RetryKey(k), RetryRecord(kept))
  {
    if deadline.None? {
      return None;
    }
    var previous := LoadAccountRetry(store, k, now);
    if previous.Err? {
      return Some(previous.error);
    }
    var later := deadline;
    if previous.value.Some? && previous.value.value > deadline.value {
      later := previous.value;
    }
    Savable(store.entries, RetryKey(k), LegacyOf(k), later, now, now);
    error := store.Save(RetryKey(k), RetryRecord(later), now, disk);
  }

  method LoadAcceptedOtpStep(store: FileSessionStore, k: SessionKey, binding: string, now: int)
    returns (r: Result<Option<int>, StoreErr>)
    ensures r == LoadStep(store.entries, k, binding, now)
  {
    var loaded := store.Load(OtpKey(k, binding), now);
    if loaded == Failed(NotFound) {
      return Ok(None);
    }
    if !loaded.Fresh? {
      return Err(LoadError(loaded).value);
    }
    if loaded.record.binding != binding {
      return Err(Corrupt);
    }
    return Ok(Some(loaded.record.acceptedStep));
  }

  method SaveAcceptedOtpStep(store: FileSessionStore, k: SessionKey, binding: string, step: int, now: int, disk: Disk)
    returns (error: Option<StoreErr>)
    modifies store
    ensures LoadStep(old(store.entries), k, binding, now).Err? ==> error.Some? && store.entries == old(store.entries)
    ensures LoadStep(old(store.entries), k, binding, now).Ok? ==>
              var kept := StepToSave(old(store.entries), k, binding, step, now);
              if PutError(OtpKey(k, binding), StepRecord(kept, binding), now).Some? || disk.FailsEarly?
              then error.Some? && store.entries == old(store.entries)
              else (error.None? <==> disk.Works?)
                   && store.entries == Put(old(store.entries), OtpKey(k, binding), StepRecord(kept, binding))
  {
    var previous := LoadAcceptedOtpStep(store, k, binding, now);
    if previous.Err? {
      return Some(previous.error);
    }
    var kept := step;
    if previous.value.Some? && previous.value.value > step {
      kept := previous.value.value;
    }
    error := store.Save(OtpKey(k, binding), StepRecord(kept, binding), now, disk);
  }

  function StepToSave(entries: Entries, k: SessionKey, binding: string, step: int, now: int): int
    requires LoadStep(entries, k, binding, now).Ok?
  {
    KeptStep(LoadStep(entries, k, binding, now).value, step)
  }

  function KeptStep(previous: Option<int>, step: int): int {
    if previous.Some? && previous.value > step then previous.value else step
  }

  /** A successful load shows that the canonical key can be used, and then a deadline can be
      saved under it at any time. */
  lemma Savable(entries: Entries, canonical: SessionKey, legacy: Option<SessionKey>, deadline: Stamp,
                loadedAt: int, now: int)
    requires LoadBoth(entries, canonical, legacy, loadedAt).Ok? && deadline.Some?
    ensures Addressable(canonical) && PutError(canonical, RetryRecord(deadline), now).None?
  {
    assert canonical.fingerprint != "";
  }

  // ----- max-merge registers -----

  /** Two spellings of one account. */
  predicate SameAccount(a: SessionKey, b: SessionKey) {
    Endpoints.Normal(a.endpoint) == Endpoints.Normal(b.endpoint) && NormalUser(a.username) == NormalUser(b.username)
  }

  /** `b` is at least as late as `a`. */
  predicate NoEarlier(a: Stamp, b: Stamp) {
    a.Some? ==> b.Some? && a.value <= b.value
  }

  /** A load does not depend on the time, except that it can expire. */
  lemma SameDeadline(entries: Entries, k: SessionKey, now: int, later: int)
    requires DeadlineAt(entries, k, now).Ok? && DeadlineAt(entries, k, later).Ok?
    ensures DeadlineAt(entries, k, now) == DeadlineAt(entries, k, later)
  {
  }

  lemma SavedDeadlineAt(entries: Entries, canonical: SessionKey, kept: Stamp, now: int)
    requires kept.Some? && PutError(canonical, RetryRecord(kept), now).None?
    ensures DeadlineAt(Put(entries, canonical, RetryRecord(kept)), canonical, now) == Ok(kept)
  {
    SavedStaysReadable(entries, canonical, RetryRecord(kept), now, now);
  }

  /** Entries of other spellings are not the canonical one. */
  predicate Apart(canonical: SessionKey, legacy: Option<SessionKey>) {
    legacy.Some? ==> legacy.value.endpoint != canonical.endpoint || legacy.value.username != canonical.username
  }

  /** What a load gives after a deadline has been stored under the canonical key. */
  lemma LoadAfterSave(entries: Entries, canonical: SessionKey, kept: Stamp, legacy: Option<SessionKey>, now: int)
    requires kept.Some? && Addressable(canonical) && PutError(canonical, RetryRecord(kept), now).None?
    requires Apart(canonical, legacy)
    ensures LoadBoth(Put(entries, canonical, RetryRecord(kept)), canonical, legacy, now) ==
            if legacy.None? then Ok(kept)
            else match DeadlineAt(entries, legacy.value, now)
                 case Err(error) => Err(error)
                 case Ok(older) => Ok(Later(kept, older))
  {
    SavedDeadlineAt(entries, canonical, kept, now);
    if legacy.Some? && ValidKey(legacy.value) {
      SavedElsewhere(entries, canonical, RetryRecord(kept), legacy.value, now);
    }
  }

  /** One call of saveAccountRetry that loaded successfully and wrote: the canonical key, the
      legacy key of the spelling used, the deadline and the time. */
  datatype Saving = Saving(canonical: SessionKey, legacy: Option<SessionKey>, deadline: Stamp, now: int)

  predicate Writes(entries: Entries, save: Saving) {
    save.deadline.Some? && ToSave(entries, save.canonical, save.legacy, save.deadline, save.now).Ok?
  }

  function After(entries: Entries, save: Saving): Entries
    requires Writes(entries, save)
  {
    Put(entries, save.canonical,
        RetryRecord(ToSave(entries, save.canonical, save.legacy, save.deadline, save.now).value))
  }

  /** After a deadline has been saved under one spelling, a load under any spelling of the
      account, canonical or with a legacy entry of its own, gives at least that deadline and at
      least what it gave before; and it fails only where the legacy entry already made it
      fail. */
  lemma SavedDeadlineHolds(entries: Entries, save: Saving, legacy: Option<SessionKey>, now: int)
    requires Writes(entries, save) && Apart(save.canonical, legacy)
    ensures var after := LoadBoth(After(entries, save), save.canonical, legacy, now);
            var before := LoadBoth(entries, save.canonical, legacy, now);
            && (after.Err? ==> legacy.Some? && DeadlineAt(entries, legacy.value, now).Err?)
            && (after.Ok? ==> NoEarlier(save.deadline, after.value))
            && (after.Ok? && before.Ok? ==> NoEarlier(before.value, after.value))
  {
    var kept := ToSave(entries, save.canonical, save.legacy, save.deadline, save.now).value;
    Savable(entries, save.canonical, save.legacy, kept, save.now, now);
    LoadAfterSave(entries, save.canonical, kept, legacy, now);
    if LoadBoth(entries, save.canonical, legacy, now).Ok? {
      SameDeadline(entries, save.canonical, save.now, now);
    }
  }

  /** The same, in terms of two spellings: LoadRetry under the second is LoadBoth with the first
      one's canonical key. */
  lemma SpellingsShare(k: SessionKey, other: SessionKey)
    requires SameAccount(k, other)
    ensures RetryKey(other) == RetryKey(k) && Apart(RetryKey(k), LegacyOf(other))
    ensures forall entries, now ::
              LoadRetry(entries, other, now) == LoadBoth(entries, RetryKey(k), LegacyOf(other), now)
  {
  }

  lemma SavedStepAt(entries: Entries, key: SessionKey, binding: string, kept: int, now: int, later: int)
    requires PutError(key, StepRecord(kept, binding), now).None? && binding != ""
    ensures StepAt(Put(entries, key, StepRecord(kept, binding)), key, binding, later) == Ok(Some(kept))
  {
    var r := Filled(key, StepRecord(kept, binding));
    assert RecordError(key, r, later).None?;
  }

  /** Spellings of one account share the entries of accepted steps. */
  lemma SpellingsShareSteps(k: SessionKey, other: SessionKey, binding: string)
    requires SameAccount(k, other)
    ensures OtpKey(other, binding) == OtpKey(k, binding)
  {
  }

  // ----- everything a directory is written with -----

  /** A write that reaches the directory: a session or marker record; a deadline of any account;
      an accepted step of any account and secret. */
  datatype Write =
    | Session(key: SessionKey, record: SessionRecord)
    | Deadline(save: Saving)
    | Accepted(key: SessionKey, binding: string, step: int, now: int)

  predicate RetryEntry(k: SessionKey) {
    k.impersonate == RETRY_TARGET && k.fingerprint == "account-retry-v1"
  }

  predicate StepEntry(k: SessionKey, binding: string) {
    k.impersonate == OTP_TARGET + binding && k.fingerprint == "accepted-otp-v1"
  }

  /** A session's target is a user's identifier; only the reserved ones begin with a NUL. */
  predicate SessionEntry(k: SessionKey) {
    k.impersonate == "" || k.impersonate[0] != NUL
  }

  /** The write gets to happen. */
  predicate Fits(entries: Entries, w: Write) {
    match w
    case Session(key, _) => ValidKey(key) && SessionEntry(key)
    case Deadline(save) =>
      RetryEntry(save.canonical) && (save.legacy.Some? ==> RetryEntry(save.legacy.value)) && Writes(entries, save)
    case Accepted(key, binding, step, now) =>
      && StepEntry(key, binding) && binding != "" && StepAt(entries, key, binding, now).Ok?
      && PutError(key, StepRecord(KeptStep(StepAt(entries, key, binding, now).value, step), binding), now).None?
  }

  function Written(entries: Entries, w: Write): Entries
    requires Fits(entries, w)
  {
    match w
    case Session(key, record) => Put(entries, key, record)
    case Deadline(save) => After(entries, save)
    case Accepted(key, binding, step, now) =>
      Put(entries, key, StepRecord(KeptStep(StepAt(entries, key, binding, now).value, step), binding))
  }

  /** The directory over any sequence of writes. */
  ghost predicate History(states: seq<Entries>, writes: seq<Write>) {
    && |states| == |writes| + 1
    && forall i | 0 <= i < |writes| :: WrittenAt(states, writes, i)
  }

  ghost predicate WrittenAt(states: seq<Entries>, writes: seq<Write>, i: nat)
    requires i < |writes| && |states| == |writes| + 1
  {
    Fits(states[i], writes[i]) && states[i + 1] == Written(states[i], writes[i])
  }

  /** What every write keeps lasts. */
  lemma {:induction false} Lasts(states: seq<Entries>, i: nat, j: nat, p: Entries -> bool)
    requires i <= j < |states| && p(states[i])
    requires forall k | i <= k < j && p(states[k]) :: p(states[k + 1])
    ensures p(states[j])
  {
    if i < j {
      Lasts(states, i, j - 1, p);
    }
  }

  /** The key a write goes to. */
  function Target(w: Write): SessionKey {
    if w.Deadline? then w.save.canonical else w.key
  }

  lemma TargetsApart(binding: string, other: string)
    ensures RETRY_TARGET[0] == NUL && (OTP_TARGET + binding)[0] == NUL && RETRY_TARGET != OTP_TARGET + binding
    ensures OTP_TARGET + binding == OTP_TARGET + other <==> binding == other
  {
    assert RETRY_TARGET[15] == 'o' && (OTP_TARGET + binding)[15] == 'e';
    assert (OTP_TARGET + binding)[|OTP_TARGET|..] == binding && (OTP_TARGET + other)[|OTP_TARGET|..] == other;
  }

  /** A write to another key leaves what is loaded under this one. */
  lemma WrittenElsewhere(entries: Entries, w: Write, key: SessionKey, now: int)
    requires Fits(entries, w)
    requires Target(w).endpoint != key.endpoint || Target(w).username != key.username
             || Target(w).impersonate != key.impersonate
    ensures Get(Written(entries, w), key, now) == Get(entries, key, now)
  {
    if ValidKey(key) {
      match w
      case Session(target, record) => SavedElsewhere(entries, target, record, key, now);
      case Deadline(save) =>
        var kept := ToSave(entries, save.canonical, save.legacy, save.deadline, save.now).value;
        Savable(entries, save.canonical, save.legacy, kept, save.now, now);
        SavedElsewhere(entries, save.canonical, RetryRecord(kept), key, now);
      case Accepted(target, binding, step, at) =>
        SavedElsewhere(entries, target, StepRecord(KeptStep(StepAt(entries, target, binding, at).value, step), binding),
                       key, now);
    }
  }

  // ----- deadlines over a history -----

  predicate SameEntry(a: SessionKey, b: SessionKey) {
    a.endpoint == b.endpoint && a.username == b.username && a.impersonate == b.impersonate
  }

  /** The deadline just saved is there, at least as late as it was asked to be and as it was. */
  lemma DeadlineSaved(entries: Entries, save: Saving, now: int)
    requires Writes(entries, save)
    ensures DeadlineAt(After(entries, save), save.canonical, now).Ok?
    ensures var kept := DeadlineAt(After(entries, save), save.canonical, now).value;
            && NoEarlier(save.deadline, kept)
            && (DeadlineAt(entries, save.canonical, now).Ok? ==>
                  NoEarlier(DeadlineAt(entries, save.canonical, now).value, kept))
  {
    var kept := ToSave(entries, save.canonical, save.legacy, save.deadline, save.now).value;
    Savable(entries, save.canonical, save.legacy, kept, save.now, now);
    SavedDeadlineAt(entries, save.canonical, kept, now);
    if DeadlineAt(entries, save.canonical, now).Ok? {
      SameDeadline(entries, save.canonical, save.now, now);
    }
  }

  /** What is kept under a key is at least the bound. */
  predicate HasDeadline(entries: Entries, key: SessionKey, bound: Stamp, now: int) {
    DeadlineAt(entries, key, now).Ok? && NoEarlier(bound, DeadlineAt(entries, key, now).value)
  }

  /** No write lowers a deadline, under whatever key it is kept. */
  lemma WriteKeepsDeadline(entries: Entries, w: Write, key: SessionKey, bound: Stamp, now: int)
    requires Fits(entries, w) && RetryEntry(key) && HasDeadline(entries, key, bound, now)
    ensures HasDeadline(Written(entries, w), key, bound, now)
  {
    if w.Deadline? && SameEntry(w.save.canonical, key) {
      DeadlineSaved(entries, w.save, now);
    } else {
      TargetsApart(if w.Accepted? then w.binding else "", "");
      WrittenElsewhere(entries, w, key, now);
    }
  }

  lemma OneWriteKeepsDeadline(states: seq<Entries>, writes: seq<Write>, i: nat, key: SessionKey, bound: Stamp, now: int)
    requires History(states, writes) && i < |writes| && RetryEntry(key) && HasDeadline(states[i], key, bound, now)
    ensures HasDeadline(states[i + 1], key, bound, now)
  {
    assert WrittenAt(states, writes, i);
    WriteKeepsDeadline(states[i], writes[i], key, bound, now);
  }

  lemma EntryNeverDecreases(states: seq<Entries>, writes: seq<Write>, i: nat, j: nat,
                            key: SessionKey, bound: Stamp, now: int)
    requires History(states, writes) && i <= j < |states| && RetryEntry(key) && HasDeadline(states[i], key, bound, now)
    ensures HasDeadline(states[j], key, bound, now)
  {
    var p := (entries: Entries) => HasDeadline(entries, key, bound, now);
    forall k | i <= k < j && p(states[k])
      ensures p(states[k + 1])
    {
      OneWriteKeepsDeadline(states, writes, k, key, bound, now);
    }
    Lasts(states, i, j, p);
  }

  lemma LoadBothMonotone(before: Entries, after: Entries, canonical: SessionKey, legacy: Option<SessionKey>, now: int)
    requires LoadBoth(before, canonical, legacy, now).Ok?
    requires HasDeadline(after, canonical, DeadlineAt(before, canonical, now).value, now)
    requires legacy.Some? ==> HasDeadline(after, legacy.value, DeadlineAt(before, legacy.value, now).value, now)
    ensures LoadBoth(after, canonical, legacy, now).Ok?
    ensures NoEarlier(LoadBoth(before, canonical, legacy, now).value, LoadBoth(after, canonical, legacy, now).value)
  {
  }

  /** A load under one spelling gives at one time what it gives at another, if it works at both. */
  lemma SameLoad(entries: Entries, k: SessionKey, now: int, later: int)
    requires LoadRetry(entries, k, now).Ok? && LoadRetry(entries, k, later).Ok?
    ensures LoadRetry(entries, k, now) == LoadRetry(entries, k, later)
  {
    SameDeadline(entries, RetryKey(k), now, later);
    if LegacyOf(k).Some? {
      SameDeadline(entries, LegacyOf(k).value, now, later);
    }
  }

  /** Whatever is written in between, what a load under one spelling gives never decreases, with
      or without a legacy entry, at whatever times the two loads are made; and a load that works
      keeps working. */
  lemma DeadlinesNeverDecrease(states: seq<Entries>, writes: seq<Write>, i: nat, j: nat, k: SessionKey,
                               now: int, later: int)
    requires History(states, writes) && i <= j < |states| && LoadRetry(states[i], k, now).Ok?
    ensures LoadRetry(states[j], k, now).Ok?
    ensures LoadRetry(states[j], k, later).Ok? ==>
              NoEarlier(LoadRetry(states[i], k, now).value, LoadRetry(states[j], k, later).value)
  {
    var canonical, legacy := RetryKey(k), LegacyOf(k);
    EntryNeverDecreases(states, writes, i, j, canonical, DeadlineAt(states[i], canonical, now).value, now);
    if legacy.Some? {
      EntryNeverDecreases(states, writes, i, j, legacy.value, DeadlineAt(states[i], legacy.value, now).value, now);
    }
    LoadBothMonotone(states[i], states[j], RetryKey(k), legacy, now);
    if LoadRetry(states[j], k, later).Ok? {
      SameLoad(states[j], k, now, later);
    }
  }

  lemma LoadedAtLeast(entries: Entries, canonical: SessionKey, legacy: Option<SessionKey>, now: int)
    requires LoadBoth(entries, canonical, legacy, now).Ok?
    ensures NoEarlier(DeadlineAt(entries, canonical, now).value, LoadBoth(entries, canonical, legacy, now).value)
  {
  }

  lemma EntryKeepsDeadline(states: seq<Entries>, writes: seq<Write>, i: nat, n: nat, now: int)
    requires History(states, writes) && i < n <= |writes| && writes[i].Deadline?
    ensures HasDeadline(states[n], writes[i].save.canonical, writes[i].save.deadline, now)
  {
    assert WrittenAt(states, writes, i);
    DeadlineSaved(states[i], writes[i].save, now);
    EntryNeverDecreases(states, writes, i + 1, n, writes[i].save.canonical, writes[i].save.deadline, now);
  }

  /** Whatever is written before, in between and after, every later load under any spelling of
      the account gives at least every deadline saved under any other. */
  lemma DeadlinesNeverForgotten(states: seq<Entries>, writes: seq<Write>, i: nat, n: nat, k: SessionKey, now: int)
    requires History(states, writes) && i < n <= |writes|
    requires writes[i].Deadline? && writes[i].save.canonical == RetryKey(k) && LoadRetry(states[n], k, now).Ok?
    ensures NoEarlier(writes[i].save.deadline, LoadRetry(states[n], k, now).value)
  {
    EntryKeepsDeadline(states, writes, i, n, now);
    LoadedAtLeast(states[n], RetryKey(k), LegacyOf(k), now);
  }

  // ----- accepted steps over a history -----

  /** A step saved under a key leaves the larger of the old and the new one there. */
  lemma SavedStepIsMax(entries: Entries, w: Write, now: int)
    requires Fits(entries, w) && w.Accepted?
    ensures var before := StepAt(entries, w.key, w.binding, w.now).value;
            StepAt(Written(entries, w), w.key, w.binding, now) ==
            Ok(Some(if before.Some? then Max(before.value, w.step) else w.step))
  {
    var kept := KeptStep(StepAt(entries, w.key, w.binding, w.now).value, w.step);
    SavedStepAt(entries, w.key, w.binding, kept, w.now, now);
  }

  lemma OtherWriteKeepsStep(entries: Entries, w: Write, key: SessionKey, binding: string, now: int)
    requires Fits(entries, w) && StepEntry(key, binding) && !(w.Accepted? && w.key == key)
    ensures StepAt(Written(entries, w), key, binding, now) == StepAt(entries, key, binding, now)
  {
    TargetsApart(binding, if w.Accepted? then w.binding else "");
    WrittenElsewhere(entries, w, key, now);
  }

  /** A key names one secret. */
  lemma OneBinding(key: SessionKey, binding: string, other: string)
    requires StepEntry(key, binding) && StepEntry(key, other)
    ensures binding == other
  {
    TargetsApart(binding, other);
  }

  /** A load does not depend on the time, except that it can expire. */
  lemma SameStep(entries: Entries, key: SessionKey, binding: string, now: int, later: int)
    requires StepAt(entries, key, binding, now).Ok? && StepAt(entries, key, binding, later).Ok?
    ensures StepAt(entries, key, binding, now) == StepAt(entries, key, binding, later)
  {
  }

  function Known<K>(register: map<K, int>, id: K): Option<int> {
    if id in register then Some(register[id]) else None
  }

  /** The directory holds the steps of a table of max-merge registers, whose places `id` names by
      the keys of their entries. */
  ghost predicate Tracks<K(!new)>(entries: Entries, register: map<K, int>, id: SessionKey -> K) {
    forall key, binding, now | StepEntry(key, binding) && StepAt(entries, key, binding, now).Ok? ::
      StepAt(entries, key, binding, now).value == Known(register, id(key))
  }

  ghost predicate Distinguishes<K(!new)>(id: SessionKey -> K) {
    forall a, b :: id(a) == id(b) ==> a == b
  }

  /** What a write means for the table. */
  function Noted<K>(register: map<K, int>, id: SessionKey -> K, w: Write): map<K, int> {
    if w.Accepted? then OtpCoordination.Remembered(register, id(w.key), w.step) else register
  }

  /** Any write does to the directory what it means for the table: an accepted step is merged
      into its own register by the maximum, and nothing else touches a register. */
  lemma WriteKeepsTracks<K(!new)>(entries: Entries, register: map<K, int>, id: SessionKey -> K, w: Write)
    requires Tracks(entries, register, id) && Distinguishes(id) && Fits(entries, w)
    ensures Tracks(Written(entries, w), Noted(register, id, w), id)
  {
    forall key, binding, now | StepEntry(key, binding) && StepAt(Written(entries, w), key, binding, now).Ok?
      ensures StepAt(Written(entries, w), key, binding, now).value == Known(Noted(register, id, w), id(key))
    {
      if w.Accepted? && w.key == key {
        OneBinding(key, binding, w.binding);
        SavedStepIsMax(entries, w, now);
        assert StepAt(entries, w.key, w.binding, w.now).Ok?;
      } else {
        OtherWriteKeepsStep(entries, w, key, binding, now);
      }
    }
  }

  function AllNoted<K>(register: map<K, int>, id: SessionKey -> K, writes: seq<Write>): map<K, int> {
    if writes == [] then register
    else Noted(AllNoted(register, id, writes[..|writes| - 1]), id, writes[|writes| - 1])
  }

  /** Over any history, whatever else is written, every load of an accepted step gives exactly
      what the table of max-merge registers holds for it. */
  lemma {:induction false} StepsAreRegisters<K(!new)>(states: seq<Entries>, writes: seq<Write>, register: map<K, int>,
                                               id: SessionKey -> K, n: nat)
    requires History(states, writes) && n <= |writes| && Distinguishes(id) && Tracks(states[0], register, id)
    ensures Tracks(states[n], AllNoted(register, id, writes[..n]), id)
  {
    if n > 0 {
      StepsAreRegisters(states, writes, register, id, n - 1);
      assert WrittenAt(states, writes, n - 1);
      WriteKeepsTracks(states[n - 1], AllNoted(register, id, writes[..n - 1]), id, writes[n - 1]);
      assert writes[..n][..n - 1] == writes[..n - 1];
    }
  }

  /** What a load of a step gives is at least the bound. */
  predicate HasStep(entries: Entries, key: SessionKey, binding: string, bound: int, now: int) {
    && StepAt(entries, key, binding, now).Ok? && StepAt(entries, key, binding, now).value.Some?
    && StepAt(entries, key, binding, now).value.value >= bound
  }

  lemma WriteKeepsStep(entries: Entries, w: Write, key: SessionKey, binding: string, bound: int, now: int)
    requires Fits(entries, w) && StepEntry(key, binding)
    requires HasStep(entries, key, binding, bound, now) || (w.Accepted? && w.key == key && w.step >= bound)
    ensures HasStep(Written(entries, w), key, binding, bound, now)
  {
    if w.Accepted? && w.key == key {
      OneBinding(key, binding, w.binding);
      SavedStepIsMax(entries, w, now);
      if HasStep(entries, key, binding, bound, now) {
        SameStep(entries, key, binding, now, w.now);
      }
    } else {
      OtherWriteKeepsStep(entries, w, key, binding, now);
    }
  }

  lemma OneWriteKeepsStep(states: seq<Entries>, writes: seq<Write>, i: nat, key: SessionKey, binding: string,
                          bound: int, now: int)
    requires History(states, writes) && i < |writes|
    requires StepEntry(key, binding) && HasStep(states[i], key, binding, bound, now)
    ensures HasStep(states[i + 1], key, binding, bound, now)
  {
    assert WrittenAt(states, writes, i);
    WriteKeepsStep(states[i], writes[i], key, binding, bound, now);
  }

  lemma StepStays(states: seq<Entries>, writes: seq<Write>, i: nat, j: nat, key: SessionKey, binding: string,
                  bound: int, now: int)
    requires History(states, writes) && i <= j < |states|
    requires StepEntry(key, binding) && HasStep(states[i], key, binding, bound, now)
    ensures HasStep(states[j], key, binding, bound, now)
  {
    var p := (entries: Entries) => HasStep(entries, key, binding, bound, now);
    forall k | i <= k < j && p(states[k])
      ensures p(states[k + 1])
    {
      OneWriteKeepsStep(states, writes, k, key, binding, bound, now);
    }
    Lasts(states, i, j, p);
  }

  /** No load ever gives less than an earlier one, at whatever times they are made, and a load
      that works keeps working. */
  lemma StepsNeverDecrease(states: seq<Entries>, writes: seq<Write>, i: nat, j: nat, k: SessionKey, binding: string,
                           now: int, later: int)
    requires History(states, writes) && i <= j < |states|
    requires LoadStep(states[i], k, binding, now).Ok? && LoadStep(states[i], k, binding, now).value.Some?
    ensures LoadStep(states[j], k, binding, now).Ok?
    ensures LoadStep(states[j], k, binding, later).Ok? ==>
              && LoadStep(states[j], k, binding, later).value.Some?
              && LoadStep(states[j], k, binding, later).value.value >= LoadStep(states[i], k, binding, now).value.value
  {
    var key := OtpKey(k, binding);
    StepStays(states, writes, i, j, key, binding, LoadStep(states[i], k, binding, now).value.value, now);
    if LoadStep(states[j], k, binding, later).Ok? {
      SameStep(states[j], key, binding, now, later);
    }
  }

  lemma EntryNeverForgotten(states: seq<Entries>, writes: seq<Write>, i: nat, n: nat, key: SessionKey,
                            binding: string, now: int)
    requires History(states, writes) && i < n <= |writes|
    requires writes[i].Accepted? && writes[i].key == key && StepEntry(key, binding)
    ensures HasStep(states[n], key, binding, writes[i].step, now)
  {
    assert WrittenAt(states, writes, i);
    WriteKeepsStep(states[i], writes[i], key, binding, writes[i].step, now);
    StepStays(states, writes, i + 1, n, key, binding, writes[i].step, now);
  }

  /** Nor less than a step saved before under any spelling, whatever is written in between. */
  lemma StepsNeverForgotten(states: seq<Entries>, writes: seq<Write>, i: nat, n: nat, k: SessionKey, other: SessionKey,
                            binding: string, now: int)
    requires History(states, writes) && i < n <= |writes| && SameAccount(k, other)
    requires writes[i].Accepted? && writes[i].key == OtpKey(other, binding)
    ensures LoadStep(states[n], k, binding, now).Ok? && LoadStep(states[n], k, binding, now).value.Some?
    ensures LoadStep(states[n], k, binding, now).value.value >= writes[i].step
  {
    SpellingsShareSteps(other, k, binding);
    EntryNeverForgotten(states, writes, i, n, OtpKey(k, binding), binding, now);
  }

  // ----- lock coverage -----

  /** The entries a client with key `k` reads or writes while it holds the account's lock. */
  predicate Reaches(k: SessionKey, entry: SessionKey, binding: string) {
    entry == k || entry == RetryKey(k) || entry == LegacyRetryKey(k) || entry == OtpKey(k, binding)
  }

  lemma ReachedValid(k: SessionKey, entry: SessionKey, binding: string)
    requires ValidKey(k) && Reaches(k, entry, binding) && ValidKey(entry) && !Endpoints.Unstable(k.endpoint)
    ensures Endpoints.Normal(entry.endpoint) == Endpoints.Normal(k.endpoint)
    ensures NormalUser(entry.username) == NormalUser(k.username)
  {
    Endpoints.NormalTwice(k.endpoint);
    NormalUserTwice(k.username);
  }

  /** Any two clients that reach one file, be it a session, a canonical or legacy retry entry or
      an accepted step, take one lock, whatever their spellings; provided neither endpoint is
      one that normalization changes twice. */
  lemma LockCovers(a: SessionKey, b: SessionKey, ea: SessionKey, eb: SessionKey, ba: string, bb: string)
    requires ValidKey(a) && ValidKey(b) && Reaches(a, ea, ba) && Reaches(b, eb, bb)
    requires ValidKey(ea) && ValidKey(eb) && EntryName(ea) == EntryName(eb)
    requires !Endpoints.Unstable(a.endpoint) && !Endpoints.Unstable(b.endpoint)
    ensures AccountLockName(a) == AccountLockName(b)
  {
    EntryNameInjective(ea, eb);
    ReachedValid(a, ea, ba);
    ReachedValid(b, eb, bb);
    AccountLockNameInjective(a, b);
  }

  /** The proviso is exact: for every valid key, the client that spells the canonical form out
      reaches the same retry entry, and takes the same lock exactly when the endpoint is not
      one of those. */
  lemma LockCoverageExact(a: SessionKey)
    requires ValidKey(a) && !Blank(Endpoints.Normal(a.endpoint))
    ensures var b := SessionKey(Endpoints.Normal(a.endpoint), NormalUser(a.username), a.impersonate, a.fingerprint);
            && ValidKey(b) && EntryName(RetryKey(a)) == EntryName(LegacyRetryKey(b))
            && (AccountLockName(a) == AccountLockName(b) <==> !Endpoints.Unstable(a.endpoint))
  {
    var b := SessionKey(Endpoints.Normal(a.endpoint), NormalUser(a.username), a.impersonate, a.fingerprint);
    NormalHasNoNul(a.endpoint);
    NormalUserKeeps(a.username);
    NormalUserTwice(a.username);
    Endpoints.NormalTwice(a.endpoint);
    AccountLockNameInjective(a, b);
  }
}

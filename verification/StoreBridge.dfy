/** What the protocols take the directory for is what the file store keeps. Loading a validated
    record from the file store (module SessionStore) and loading what the coordination protocol
    sees of it (module SharedStore) come to the same result; the accepted steps in the directory
    (module AccountRetry) are the disks of module OtpReplay; and the account deadlines in it are
    the register of module SharedStore. */
module StoreBridge {
  import opened Prelude
  import SessionStore
  import SharedStore
  import AccountRetry
  import OtpCoordination
  import OtpReplay

  /** The first expiry of a list of cookies that all have one. */
  function FirstExpiry(cookies: seq<SessionStore.SessionCookie>): int
    requires cookies != [] && forall c | c in cookies :: c.expires.Some?
  {
    var own := cookies[0].expires.value;
    if |cookies| == 1 then own
    else
      var rest := FirstExpiry(cookies[1..]);
      if own < rest then own else rest
  }

  /** A record as the protocol sees it; `login` names the login its cookies came from. */
  function Seen(r: SessionStore.SessionRecord, login: SharedStore.Login): SharedStore.Entry
    requires forall c | c in r.cookies :: c.expires.Some?
  {
    SharedStore.Entry(
      r.fingerprint,
      if r.cookies == [] then None else Some(SharedStore.Session(login, FirstExpiry(r.cookies))),
      r.generation,
      r.retryNotBefore)
  }

  lemma {:induction false} ExpiryFirst(cookies: seq<SessionStore.SessionCookie>, now: int)
    requires cookies != [] && forall c | c in cookies :: c.expires.Some?
    ensures FirstExpiry(cookies) <= now <==> exists c | c in cookies :: c.expires.value <= now
  {
    assert cookies[0] in cookies;
    assert cookies == [cookies[0]] + cookies[1..];
    if |cookies| > 1 {
      ExpiryFirst(cookies[1..], now);
    }
  }

  lemma {:induction false} ValidHaveExpiry(cookies: seq<SessionStore.SessionCookie>, t: int)
    requires SessionStore.FirstError(cookies, t).None?
    ensures forall c | c in cookies :: c.expires.Some?
  {
    if cookies != [] {
      assert cookies == [cookies[0]] + cookies[1..];
      ValidHaveExpiry(cookies[1..], t);
    }
  }

  /** For a record saved at time `t` under the owner's key, a client that shares its endpoint,
      username and target, with whatever fingerprint, loads at any later time: the file store
      reports a credential mismatch, an expired record or a fresh one exactly when the
      protocol's view does, with the same record. */
  lemma LoadsAgree(entries: SessionStore.Entries, r: SessionStore.SessionRecord, owner: SessionStore.SessionKey, t: int,
                   k: SessionStore.SessionKey, now: int, login: SharedStore.Login, name: SharedStore.Key)
    requires t <= now && SessionStore.RecordError(owner, r, t).None? && SessionStore.Addressable(k)
    requires k.endpoint == owner.endpoint && k.username == owner.username && k.impersonate == owner.impersonate
    requires SessionStore.EntryName(k) in entries && entries[SessionStore.EntryName(k)] == r
    ensures forall c | c in r.cookies :: c.expires.Some?
    ensures match SharedStore.Load(map[name := Seen(r, login)], name, k.fingerprint, now)
            case NotFound => false
            case Mismatch => SessionStore.Get(entries, k, now) == SessionStore.Failed(SessionStore.Mismatch)
            case Expired(e) => e == Seen(r, login) && SessionStore.Get(entries, k, now) == SessionStore.Stale(r)
            case Found(e) => e == Seen(r, login) && SessionStore.Get(entries, k, now) == SessionStore.Fresh(r)
  {
    ValidHaveExpiry(r.cookies, t);
    SessionStore.ErrorsAreExpiry(r.cookies, t, now);
    if r.cookies != [] {
      ExpiryFirst(r.cookies, now);
    }
  }

  // ----- accepted steps -----

  /** The step of OtpReplay writes the accepted step of thread `t`'s login to its directory,
      whether or not the save then reports success. */
  predicate Persists(s: OtpReplay.State, os: OtpReplay.Step, t: OtpReplay.Tid, step: int) {
    && OtpReplay.Enabled(s, os)
    && (|| (os.Do? && os.t == t && os.e.Persist? && os.e.step == step)
        || (os == OtpReplay.PersistLost(t) && s.threads[t].m.pc.step == step))
  }

  lemma DiskAfter(s: OtpReplay.State, os: OtpReplay.Step, t: OtpReplay.Tid, step: int)
    requires Persists(s, os, t, step) && s.threads[t].dir.Some?
    ensures OtpReplay.Apply(s, os).disks == OtpCoordination.Remembered(s.disks, OtpReplay.Disk(s.threads[t]), step)
  {
  }

  /** When a login persists a step, the save of saveAcceptedOTPStep that this is keeps directory
      and disks in agreement: what a login reads as its floor is what the directory holds. `slot`
      names the disks by the keys of the entries. */
  lemma DisksAreStored(entries: SessionStore.Entries, s: OtpReplay.State, os: OtpReplay.Step, t: OtpReplay.Tid,
                       step: int, slot: SessionStore.SessionKey -> OtpReplay.Slot, key: SessionStore.SessionKey,
                       binding: string, now: int)
    requires AccountRetry.Tracks(entries, s.disks, slot) && AccountRetry.Distinguishes(slot)
    requires Persists(s, os, t, step) && s.threads[t].dir.Some? && slot(key) == OtpReplay.Disk(s.threads[t])
    requires AccountRetry.Fits(entries, AccountRetry.Accepted(key, binding, step, now))
    ensures var written := AccountRetry.Written(entries, AccountRetry.Accepted(key, binding, step, now));
            AccountRetry.Tracks(written, OtpReplay.Apply(s, os).disks, slot)
  {
    DiskAfter(s, os, t, step);
    AccountRetry.WriteKeepsTracks(entries, s.disks, slot, AccountRetry.Accepted(key, binding, step, now));
  }

  /** And whatever else is written to the directory keeps that agreement, while every other step
      of a login leaves the disks alone. */
  lemma DisksAreLeftAlone(entries: SessionStore.Entries, s: OtpReplay.State, step: OtpReplay.Step,
                          slot: SessionStore.SessionKey -> OtpReplay.Slot, w: AccountRetry.Write)
    requires AccountRetry.Tracks(entries, s.disks, slot) && AccountRetry.Distinguishes(slot)
    requires AccountRetry.Fits(entries, w) && !w.Accepted?
    requires OtpReplay.Enabled(s, step) && !step.PersistLost? && !(step.Do? && step.e.Persist?)
    ensures AccountRetry.Tracks(AccountRetry.Written(entries, w), OtpReplay.Apply(s, step).disks, slot)
  {
    AccountRetry.WriteKeepsTracks(entries, s.disks, slot, w);
  }

  // ----- account deadlines -----

  /** The directory holds the deadline of an account: its canonical entry is that deadline, and no
      entry of an older spelling is later. */
  ghost predicate HoldsRetry(entries: SessionStore.Entries, canonical: SessionStore.SessionKey,
                             older: iset<SessionStore.SessionKey>, retry: Stamp) {
    && (forall now | AccountRetry.DeadlineAt(entries, canonical, now).Ok? ::
          AccountRetry.DeadlineAt(entries, canonical, now).value == retry)
    && (forall key, now | key in older && AccountRetry.DeadlineAt(entries, key, now).Ok? ::
          AccountRetry.NoEarlier(AccountRetry.DeadlineAt(entries, key, now).value, retry))
  }

  predicate Differ(a: SessionStore.SessionKey, b: SessionStore.SessionKey) {
    a.endpoint != b.endpoint || a.username != b.username
  }

  /** Keys of retry entries that are spelled otherwise than the canonical one. */
  ghost predicate AreOlder(older: iset<SessionStore.SessionKey>, canonical: SessionStore.SessionKey) {
    && AccountRetry.RetryEntry(canonical)
    && forall key | key in older :: AccountRetry.RetryEntry(key) && Differ(key, canonical)
  }

  /** Then every load that works gives that deadline, with or without an older entry. */
  lemma RetryIsLoaded(entries: SessionStore.Entries, canonical: SessionStore.SessionKey,
                      older: iset<SessionStore.SessionKey>, retry: Stamp,
                      legacy: Option<SessionStore.SessionKey>, now: int)
    requires HoldsRetry(entries, canonical, older, retry) && (legacy.Some? ==> legacy.value in older)
    requires AccountRetry.LoadBoth(entries, canonical, legacy, now).Ok?
    ensures AccountRetry.LoadBoth(entries, canonical, legacy, now).value == retry
  {
  }

  /** When a rate-limited login saves its deadline, under whatever spelling, the save that this is
      keeps the directory and the register of module SharedStore in agreement. */
  lemma RetryIsStored(entries: SessionStore.Entries, s: SharedStore.State, c: SharedStore.Cid, disk: SharedStore.Disk,
                      older: iset<SessionStore.SessionKey>, save: AccountRetry.Saving)
    requires HoldsRetry(entries, save.canonical, older, s.retry) && AreOlder(older, save.canonical)
    requires AccountRetry.Writes(entries, save) && (save.legacy.Some? ==> save.legacy.value in older)
    requires SharedStore.Enabled(s, SharedStore.LoginLimited(c, save.deadline.value, disk)) && !disk.Fails?
    ensures var s' := SharedStore.Apply(s, SharedStore.LoginLimited(c, save.deadline.value, disk));
            HoldsRetry(AccountRetry.After(entries, save), save.canonical, older, s'.retry)
  {
    var retry := SharedStore.Apply(s, SharedStore.LoginLimited(c, save.deadline.value, disk)).retry;
    RetryIsLoaded(entries, save.canonical, older, s.retry, save.legacy, save.now);
    var written := SessionStore.Put(entries, save.canonical, AccountRetry.RetryRecord(retry));
    assert written == AccountRetry.After(entries, save);
    forall at
      ensures AccountRetry.DeadlineAt(written, save.canonical, at) == Ok(retry)
    {
      AccountRetry.Savable(entries, save.canonical, save.legacy, retry, save.now, at);
      AccountRetry.SavedDeadlineAt(entries, save.canonical, retry, at);
    }
    forall key, at | key in older
      ensures AccountRetry.DeadlineAt(written, key, at) == AccountRetry.DeadlineAt(entries, key, at)
    {
      DeadlineElsewhere(entries, AccountRetry.Deadline(save), key, at);
    }
  }

  lemma DeadlineElsewhere(entries: SessionStore.Entries, w: AccountRetry.Write, key: SessionStore.SessionKey, at: int)
    requires AccountRetry.Fits(entries, w) && AccountRetry.RetryEntry(key)
    requires w.Deadline? ==> Differ(w.save.canonical, key)
    ensures AccountRetry.DeadlineAt(AccountRetry.Written(entries, w), key, at)
            == AccountRetry.DeadlineAt(entries, key, at)
  {
    AccountRetry.TargetsApart(if w.Accepted? then w.binding else "", "");
    AccountRetry.WrittenElsewhere(entries, w, key, at);
  }

  /** Whatever else is written to the directory keeps that agreement, while every other step of the
      processes leaves the register alone. Deadlines are written under canonical keys only, so for
      endpoints that are stable under normalization never under an older key. */
  lemma RetryIsLeftAlone(entries: SessionStore.Entries, s: SharedStore.State, step: SharedStore.Step,
                         canonical: SessionStore.SessionKey, older: iset<SessionStore.SessionKey>,
                         w: AccountRetry.Write)
    requires HoldsRetry(entries, canonical, older, s.retry) && AreOlder(older, canonical)
    requires AccountRetry.Fits(entries, w)
    requires w.Deadline? ==>
               Differ(w.save.canonical, canonical) && forall key | key in older :: Differ(w.save.canonical, key)
    requires SharedStore.Enabled(s, step) && !step.LoginLimited?
    ensures HoldsRetry(AccountRetry.Written(entries, w), canonical, older, SharedStore.Apply(s, step).retry)
  {
    var written := AccountRetry.Written(entries, w);
    forall at
      ensures AccountRetry.DeadlineAt(written, canonical, at) == AccountRetry.DeadlineAt(entries, canonical, at)
    {
      DeadlineElsewhere(entries, w, canonical, at);
    }
    forall key, at | key in older
      ensures AccountRetry.DeadlineAt(written, key, at) == AccountRetry.DeadlineAt(entries, key, at)
    {
      DeadlineElsewhere(entries, w, key, at);
    }
  }

  /** The canonical entry is the same for every spelling of an account, and an entry of another
      spelling is one of the older keys. */
  lemma SpellingsAreOlder(k: SessionStore.SessionKey, other: SessionStore.SessionKey,
                          older: iset<SessionStore.SessionKey>)
    requires AccountRetry.SameAccount(k, other) && AreOlder(older, AccountRetry.RetryKey(k))
    ensures AccountRetry.RetryKey(other) == AccountRetry.RetryKey(k)
    ensures AccountRetry.LegacyOf(other).Some? ==>
              AreOlder(older + iset{AccountRetry.LegacyOf(other).value}, AccountRetry.RetryKey(k))
  {
  }
}

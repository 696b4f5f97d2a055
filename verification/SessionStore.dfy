/** session_store.go: keys, file and lock names, validated records, and the store as a validated
    map from entry names to records. Hashing of names is injective, so a name stands for the
    text that is hashed; a file is its decoded record. */
module SessionStore {
  import opened Prelude
  import AuthErrors
  import Endpoints

  const NUL: char := '\0'

  datatype StoreErr = Unsafe | NotFound | Corrupt | Mismatch | NoExpiry | SessionExpired

  datatype SessionKey = SessionKey(endpoint: string, username: string, impersonate: string, fingerprint: string)

  // ----- names -----

  predicate IsSpace(c: char) {
    c == ' ' || '\t' <= c <= '\r'
  }

  /** Tab, line feed, vertical tab, form feed, carriage return and blank. */
  lemma SpaceExact(c: char)
    ensures IsSpace(c) <==> 9 <= c as int <= 13 || c as int == 32
  {
  }

  predicate Blank(s: string) {
    forall c | c in s :: IsSpace(c)
  }

  function TrimLeft(s: string): (r: string)
    ensures r == "" || !IsSpace(r[0])
    ensures Blank(s) <==> r == ""
    ensures |r| <= |s| && r == s[|s| - |r|..]
    decreases |s|
  {
    if s != "" && IsSpace(s[0]) then
      assert s == [s[0]] + s[1..];
      TrimLeft(s[1..])
    else s
  }

  function TrimRight(s: string): (r: string)
    ensures r == "" || !IsSpace(r[|r| - 1])
    ensures Blank(s) <==> r == ""
    ensures r <= s
    decreases |s|
  {
    if s != "" && IsSpace(s[|s| - 1]) then
      assert s == s[..|s| - 1] + [s[|s| - 1]];
      TrimRight(s[..|s| - 1])
    else s
  }

  /** strings.TrimSpace. */
  function Trimmed(s: string): string {
    TrimRight(TrimLeft(s))
  }

  /** strings.ToLower(strings.TrimSpace(username)). */
  function NormalUser(username: string): string {
    Endpoints.Lower(Trimmed(username))
  }

  /** SessionKey.validate. */
  predicate ValidKey(k: SessionKey) {
    !Blank(k.endpoint) && !Blank(k.username) && NUL !in k.username && NUL !in k.endpoint
  }

  /** The text entryPath hashes. */
  function EntryName(k: SessionKey): string {
    "entry" + [NUL] + (k.endpoint + [NUL] + (k.username + [NUL] + k.impersonate))
  }

  /** The text lockPath hashes for LockAccount. */
  function AccountLockName(k: SessionKey): string {
    "account" + [NUL] + (Endpoints.Normal(k.endpoint) + [NUL] + (NormalUser(k.username) + [NUL] + ""))
  }

  lemma JoinInjective(e: string, u: string, i: string, e': string, u': string, i': string)
    requires NUL !in e && NUL !in u && NUL !in e' && NUL !in u'
    ensures e + [NUL] + (u + [NUL] + i) == e' + [NUL] + (u' + [NUL] + i') <==> e == e' && u == u' && i == i'
  {
    Endpoints.BeforeExact(e, NUL, u + [NUL] + i);
    Endpoints.BeforeExact(e', NUL, u' + [NUL] + i');
    Endpoints.BeforeExact(u, NUL, i);
    Endpoints.BeforeExact(u', NUL, i');
  }

  lemma TailsAgree(head: string, a: string, b: string)
    ensures head + [NUL] + a == head + [NUL] + b <==> a == b
  {
    assert (head + [NUL] + a)[|head| + 1..] == a;
    assert (head + [NUL] + b)[|head| + 1..] == b;
  }

  /** Entry names are injective on valid keys, although the target may contain NULs. */
  lemma EntryNameInjective(a: SessionKey, b: SessionKey)
    requires ValidKey(a) && ValidKey(b)
    ensures EntryName(a) == EntryName(b)
            <==> a.endpoint == b.endpoint && a.username == b.username && a.impersonate == b.impersonate
  {
    TailsAgree("entry", a.endpoint + [NUL] + (a.username + [NUL] + a.impersonate),
               b.endpoint + [NUL] + (b.username + [NUL] + b.impersonate));
    JoinInjective(a.endpoint, a.username, a.impersonate, b.endpoint, b.username, b.impersonate);
  }

  lemma LowerKeeps(s: string)
    ensures NUL in Endpoints.Lower(s) <==> NUL in s
    ensures Blank(Endpoints.Lower(s)) <==> Blank(s)
  {
    Endpoints.CharsOf(s);
    forall c | c in Endpoints.Lower(s)
      ensures exists d | d in s :: AuthErrors.LowerChar(d) == c
    {
      var i :| 0 <= i < |s| && Endpoints.Lower(s)[i] == c;
      assert s[i] in s;
    }
  }

  /** Trimming leaves no space at either end, and nothing exactly of a blank string. */
  lemma TrimmedEnds(u: string)
    ensures Trimmed(u) == "" <==> Blank(u)
    ensures Trimmed(u) != "" ==> !IsSpace(Trimmed(u)[0]) && !IsSpace(Trimmed(u)[|Trimmed(u)| - 1])
    ensures forall c | c in Trimmed(u) :: c in u
  {
    var l := TrimLeft(u);
    if !Blank(u) {
      assert !IsSpace(l[0]) && l[0] in l;
      assert Trimmed(u)[0] == l[0];
    } else {
      assert l == "";
    }
  }

  lemma NothingToTrim(s: string)
    requires s != "" ==> !IsSpace(s[0]) && !IsSpace(s[|s| - 1])
    ensures Trimmed(s) == s
  {
  }

  lemma LoweredTrims(t: string)
    requires t != "" ==> !IsSpace(t[0]) && !IsSpace(t[|t| - 1])
    ensures Trimmed(Endpoints.Lower(t)) == Endpoints.Lower(t)
  {
    Endpoints.LowerChars(t);
    NothingToTrim(Endpoints.Lower(t));
  }

  lemma TrimmedBlank(u: string)
    ensures Blank(u) <==> Blank(Trimmed(u))
  {
    TrimmedEnds(u);
    if Trimmed(u) != "" {
      assert Trimmed(u)[0] in Trimmed(u);
    }
  }

  lemma NormalUserKeeps(u: string)
    ensures Blank(u) <==> Blank(NormalUser(u))
    ensures NUL !in u ==> NUL !in NormalUser(u)
  {
    TrimmedEnds(u);
    TrimmedBlank(u);
    LowerKeeps(Trimmed(u));
  }

  /** The username normal form is idempotent. */
  lemma NormalUserTwice(u: string)
    ensures NormalUser(NormalUser(u)) == NormalUser(u)
  {
    TrimmedEnds(u);
    LoweredTrims(Trimmed(u));
    Endpoints.LowerChars(Trimmed(u));
  }

  lemma {:induction false} TrimLeftExact(left: string, s: string)
    requires Blank(left) && (s != "" ==> !IsSpace(s[0]))
    ensures TrimLeft(left + s) == s
  {
    if left == "" {
      assert left + s == s;
    } else {
      assert left[0] in left && (left + s)[1..] == left[1..] + s;
      TrimLeftExact(left[1..], s);
    }
  }

  lemma {:induction false} TrimRightExact(s: string, right: string)
    requires Blank(right) && (s != "" ==> !IsSpace(s[|s| - 1]))
    ensures TrimRight(s + right) == s
    decreases |right|
  {
    if right == "" {
      assert s + right == s;
    } else {
      var front := right[..|right| - 1];
      assert right[|right| - 1] in right && (s + right)[..|s + right| - 1] == s + front;
      TrimRightExact(s, front);
    }
  }

  /** Which spellings of a username are one: those that differ in the case of letters and in the space
      around them. */
  lemma NormalUserExact(left: string, name: string, right: string)
    requires Blank(left) && Blank(right) && (name != "" ==> !IsSpace(name[0]) && !IsSpace(name[|name| - 1]))
    ensures NormalUser(left + name + right) == Endpoints.Lower(name)
  {
    if name == "" {
      assert Blank(left + name + right);
    } else {
      assert left + name + right == left + (name + right);
      TrimLeftExact(left, name + right);
      TrimRightExact(name, right);
    }
  }

  /** The endpoint normal form keeps a valid endpoint free of NULs. */
  lemma NormalHasNoNul(e: string)
    requires NUL !in e
    ensures NUL !in Endpoints.Normal(e)
  {
    match Endpoints.Parse(e)
    case Some(u) =>
      Endpoints.NormalUrlWellFormed(u);
      Endpoints.RenderPlain(Endpoints.NormalUrl(u));
    case None =>
      LowerKeeps(e);
  }

  lemma AccountLockNameInjective(a: SessionKey, b: SessionKey)
    requires ValidKey(a) && ValidKey(b)
    ensures AccountLockName(a) == AccountLockName(b)
            <==> Endpoints.Normal(a.endpoint) == Endpoints.Normal(b.endpoint)
                 && NormalUser(a.username) == NormalUser(b.username)
  {
    var ea, ua := Endpoints.Normal(a.endpoint), NormalUser(a.username);
    var eb, ub := Endpoints.Normal(b.endpoint), NormalUser(b.username);
    NormalHasNoNul(a.endpoint);
    NormalHasNoNul(b.endpoint);
    NormalUserKeeps(a.username);
    NormalUserKeeps(b.username);
    TailsAgree("account", ea + [NUL] + (ua + [NUL] + ""), eb + [NUL] + (ub + [NUL] + ""));
    JoinInjective(ea, ua, "", eb, ub, "");
  }

  // ----- cookies -----

  /** The attributes of an http.Cookie the program reads. */
  datatype HttpCookie = HttpCookie(name: string, value: string, path: string, domain: string, expires: Stamp,
                                   maxAge: int, secure: bool, httpOnly: bool, sameSite: int)

  datatype SessionCookie = SessionCookie(name: string, value: string, path: string, domain: string,
                                         hostOnly: bool, expires: Stamp, maxAge: int, secure: bool,
                                         httpOnly: bool, sameSite: int, localExpiry: bool)

  const DAY: int := 86_400_000_000_000

  predicate TokenChar(c: char) {
    || Endpoints.Letter(c) || Endpoints.Digit(c)
    || c == '!' || '#' <= c <= '\'' || c == '*' || c == '+' || c == '-' || c == '.' || c == '^' || c == '_' || c == '`'
    || c == '|' || c == '~'
  }

  /** http.Cookie.Valid on name, value and path. */
  predicate Sendable(c: SessionCookie) {
    && c.name != "" && (forall x | x in c.name :: TokenChar(x))
    && (forall x | x in c.value :: ' ' <= x <= '~' && x != '"' && x != ';' && x != '\\')
    && (forall x | x in c.path :: ' ' <= x <= '~' && x != ';')
  }

  /** validateSessionCookie. */
  function CookieError(c: SessionCookie, now: int): Option<StoreErr> {
    if c.name == "" || '\r' in c.name || '\n' in c.name || NUL in c.name then Some(Corrupt)
    else if c.expires.None? then Some(NoExpiry)
    else if c.expires.value <= now then Some(SessionExpired)
    else if c.maxAge < 0 || c.maxAge > AuthErrors.MAX_SECONDS then Some(Corrupt)
    else if !Sendable(c) then Some(Corrupt)
    else None
  }

  /** Name, value and path can be sent: the name is a token of RFC 7230, section 3.2.6. */
  predicate SendableParts(name: string, value: string, path: string) {
    && name != "" && (forall x | x in name :: Endpoints.Letter(x) || Endpoints.Digit(x) || x in "!#$%&'*+-.^_`|~")
    && (forall x | x in value :: 32 <= x as int <= 126 && x !in "\";\\")
    && (forall x | x in path :: 32 <= x as int <= 126 && x != ';')
  }

  lemma TokenExact(c: char)
    ensures TokenChar(c) <==> Endpoints.Letter(c) || Endpoints.Digit(c) || c in "!#$%&'*+-.^_`|~"
  {
  }

  lemma SendableExact(c: SessionCookie)
    ensures Sendable(c) <==> SendableParts(c.name, c.value, c.path)
    ensures Sendable(c) ==> '\r' !in c.name && '\n' !in c.name && NUL !in c.name
  {
    forall x
      ensures TokenChar(x) <==> Endpoints.Letter(x) || Endpoints.Digit(x) || x in "!#$%&'*+-.^_`|~"
    {
      TokenExact(x);
    }
  }

  /** A stored cookie is valid exactly if it can be sent, has an expiry to come and a Max-Age in
      range; and it is reported expired only for its expiry. */
  lemma ValidExact(c: SessionCookie, now: int)
    ensures CookieError(c, now).None? <==>
              && SendableParts(c.name, c.value, c.path) && 0 <= c.maxAge <= 9_223_372_036
              && c.expires.Some? && c.expires.value > now
    ensures CookieError(c, now) == Some(SessionExpired) ==> c.expires.Some? && c.expires.value <= now
  {
    SendableExact(c);
  }

  /** newSessionCookie. */
  function NewSessionCookie(c: HttpCookie, now: int, ttl: int): Result<SessionCookie, StoreErr> {
    if c.maxAge > AuthErrors.MAX_SECONDS then Err(NoExpiry)
    else if c.expires.None? && c.maxAge <= 0 && (ttl <= 0 || ttl > DAY) then Err(NoExpiry)
    else
      var expires := if c.maxAge > 0 then Some(now + c.maxAge * AuthErrors.NANOS)
                     else if c.expires.None? then Some(now + ttl)
                     else c.expires;
      var stored := SessionCookie(c.name, c.value, c.path, c.domain, false, expires, c.maxAge, c.secure,
                                  c.httpOnly, c.sameSite, c.expires.None? && c.maxAge <= 0);
      match CookieError(stored, now)
      case Some(error) => Err(error)
      case None => Ok(stored)
  }

  /** Whatever the server sent, a stored cookie expires after its receipt: at the deadline
      Max-Age gives if there is a positive one, also when Expires has passed; else at Expires;
      and without either at most a day later, marked as a local expiry. The nanoseconds of an
      accepted Max-Age fit a 64-bit duration. */
  lemma StoredExpiry(c: HttpCookie, now: int, ttl: int)
    requires NewSessionCookie(c, now, ttl).Ok?
    ensures var s := NewSessionCookie(c, now, ttl).value;
            && s.expires.Some? && s.expires.value > now && CookieError(s, now).None?
            && (c.maxAge > 0 ==> s.expires.value - now == c.maxAge * AuthErrors.NANOS <= AuthErrors.MAX_INT64)
            && (c.maxAge <= 0 && c.expires.Some? ==> s.expires == c.expires)
            && (s.localExpiry <==> c.maxAge <= 0 && c.expires.None?)
            && (s.localExpiry ==> s.expires.value == now + ttl <= now + 86_400_000_000_000)
  {
  }

  // ----- records -----

  datatype SessionRecord = SessionRecord(version: int, endpoint: string, username: string, fingerprint: string,
                                         impersonate: string, cookies: seq<SessionCookie>, generation: nat,
                                         retryNotBefore: Stamp, acceptedStep: int, binding: string)

  const MAX_STEP: int := (0x8000_0000_0000_0000 - 32) / 30

  /** maxAcceptedOTPStep is exactly the largest step whose wake-up second, one into the next
      step, fits a 64-bit Unix time. */
  lemma MaxStepExact(step: int)
    ensures step <= MAX_STEP <==> (step + 1) * 30 + 1 <= AuthErrors.MAX_INT64
  {
  }

  predicate Hex(s: string) {
    forall c | c in s :: Endpoints.Digit(c) || 'a' <= c <= 'f' || 'A' <= c <= 'F'
  }

  function FirstError(cookies: seq<SessionCookie>, now: int): (r: Option<StoreErr>)
    ensures r != Some(NotFound)
  {
    if cookies == [] then None
    else if CookieError(cookies[0], now).Some? then CookieError(cookies[0], now)
    else FirstError(cookies[1..], now)
  }

  /** validateSessionRecord. */
  function RecordError(key: SessionKey, r: SessionRecord, now: int): Option<StoreErr> {
    if r.version != 1 then Some(Corrupt)
    else if r.endpoint != key.endpoint || r.username != key.username || r.impersonate != key.impersonate then
      Some(Mismatch)
    else if r.fingerprint == "" || r.fingerprint != key.fingerprint then Some(Mismatch)
    else if r.cookies == [] && r.retryNotBefore.None? && r.binding == "" then Some(Corrupt)
    else if r.binding != "" && (|r.binding| != 64 || !(0 <= r.acceptedStep <= MAX_STEP) || !Hex(r.binding)) then
      Some(Corrupt)
    else if r.binding == "" && r.acceptedStep != 0 then Some(Corrupt)
    else FirstError(r.cookies, now)
  }

  /** A record that may be used under the key: it names the key and its credentials, is not empty, has
      an accepted step exactly with a binding of 32 bytes in hexadecimal, and every cookie is valid. */
  ghost predicate GoodRecord(key: SessionKey, r: SessionRecord, now: int) {
    && r.version == 1 && r.endpoint == key.endpoint && r.username == key.username
    && r.impersonate == key.impersonate && r.fingerprint == key.fingerprint && r.fingerprint != ""
    && (r.cookies != [] || r.retryNotBefore.Some? || r.binding != "")
    && (if r.binding == "" then r.acceptedStep == 0
        else |r.binding| == 64 && Hex(r.binding) && 0 <= r.acceptedStep <= 307_445_734_561_825_859)
    && forall c | c in r.cookies :: CookieError(c, now).None?
  }

  lemma {:induction false} FirstErrorExact(cookies: seq<SessionCookie>, now: int)
    ensures FirstError(cookies, now).None? <==> forall c | c in cookies :: CookieError(c, now).None?
    ensures FirstError(cookies, now).Some? ==>
              exists c | c in cookies :: CookieError(c, now) == FirstError(cookies, now)
  {
    if cookies != [] {
      FirstErrorExact(cookies[1..], now);
      assert cookies == [cookies[0]] + cookies[1..];
      assert cookies[0] in cookies;
    }
  }

  lemma RecordExact(key: SessionKey, r: SessionRecord, now: int)
    ensures RecordError(key, r, now).None? <==> GoodRecord(key, r, now)
    ensures RecordError(key, r, now) == Some(SessionExpired) ==> ExpiredBy(r, now)
  {
    FirstErrorExact(r.cookies, now);
  }

  predicate ExpiredBy(r: SessionRecord, now: int) {
    exists c | c in r.cookies :: c.expires.Some? && c.expires.value <= now
  }

  lemma {:induction false} ErrorsAreExpiry(cookies: seq<SessionCookie>, t: int, now: int)
    requires t <= now && FirstError(cookies, t).None?
    ensures FirstError(cookies, now) ==
            if exists c | c in cookies :: c.expires.Some? && c.expires.value <= now then Some(SessionExpired) else None
  {
    if cookies != [] {
      ErrorsAreExpiry(cookies[1..], t, now);
      assert cookies == [cookies[0]] + cookies[1..];
    }
  }

  // ----- the store -----

  type Entries = map<string, SessionRecord>

  /** `Load`: an expired record is returned along with its error, and only that one. */
  datatype Loaded = Fresh(record: SessionRecord) | Stale(record: SessionRecord) | Failed(error: StoreErr)

  predicate Addressable(k: SessionKey) {
    ValidKey(k) && !Blank(k.fingerprint)
  }

  function Get(entries: Entries, k: SessionKey, now: int): Loaded {
    if !ValidKey(k) then Failed(Unsafe)
    else if Blank(k.fingerprint) then Failed(Mismatch)
    else if EntryName(k) !in entries then Failed(NotFound)
    else
      var r := entries[EntryName(k)];
      match RecordError(k, r, now)
      case None => Fresh(r)
      case Some(SessionExpired) => Stale(r)
      case Some(error) => Failed(error)
  }

  /** The fields `Save` fills in when they are empty. */
  function Filled(k: SessionKey, r: SessionRecord): SessionRecord {
    r.(version := if r.version == 0 then 1 else r.version,
       endpoint := if r.endpoint == "" then k.endpoint else r.endpoint,
       username := if r.username == "" then k.username else r.username,
       impersonate := if r.impersonate == "" then k.impersonate else r.impersonate,
       fingerprint := if r.fingerprint == "" then k.fingerprint else r.fingerprint)
  }

  function PutError(k: SessionKey, r: SessionRecord, now: int): Option<StoreErr> {
    if !ValidKey(k) then Some(Unsafe)
    else if Blank(k.fingerprint) then Some(Mismatch)
    else RecordError(k, Filled(k, r), now)
  }

  /** An empty field of a record stands for the key's. */
  predicate Names(field: string, given: string) {
    field == "" || field == given
  }

  /** What filling in is for: `Save` rejects a record as another key's exactly if it names an
      endpoint, username, target or fingerprint that is not the key's; leaving one out is never
      a mismatch. */
  lemma FilledAgrees(k: SessionKey, r: SessionRecord, now: int)
    requires Addressable(k) && (r.version == 0 || r.version == 1)
    ensures PutError(k, r, now) != Some(Mismatch) <==>
              && Names(r.endpoint, k.endpoint) && Names(r.username, k.username)
              && Names(r.impersonate, k.impersonate) && Names(r.fingerprint, k.fingerprint)
  {
    CookiesMatch(r.cookies, now);
  }

  lemma {:induction false} CookiesMatch(cookies: seq<SessionCookie>, now: int)
    ensures FirstError(cookies, now) != Some(Mismatch)
  {
    if cookies != [] {
      CookiesMatch(cookies[1..], now);
    }
  }

  function Put(entries: Entries, k: SessionKey, r: SessionRecord): Entries {
    entries[EntryName(k) := Filled(k, r)]
  }

  /** A record accepted by `Save` at one time and loaded under the same key at any later time is
      returned as it was saved: in full while none of its cookies has expired, and along with
      the expiry error from then on. It is never reported corrupt, mismatched or missing. */
  lemma SavedStaysReadable(entries: Entries, k: SessionKey, r: SessionRecord, t: int, now: int)
    requires t <= now && PutError(k, r, t).None?
    ensures Get(Put(entries, k, r), k, now) ==
            if ExpiredBy(Filled(k, r), now) then Stale(Filled(k, r)) else Fresh(Filled(k, r))
  {
    ErrorsAreExpiry(Filled(k, r).cookies, t, now);
  }

  /** Other keys are not disturbed. */
  lemma SavedElsewhere(entries: Entries, k: SessionKey, r: SessionRecord, other: SessionKey, now: int)
    requires ValidKey(k) && ValidKey(other)
    requires k.endpoint != other.endpoint || k.username != other.username || k.impersonate != other.impersonate
    ensures Get(Put(entries, k, r), other, now) == Get(entries, other, now)
  {
    EntryNameInjective(k, other);
  }

  /** Failures of the file system during `Save`: none, before the file is replaced, or after. */
  datatype Disk = Works | FailsEarly | FailsLate

  lemma {:induction false} NeverUnsafe(cookies: seq<SessionCookie>, now: int)
    ensures FirstError(cookies, now) != Some(Unsafe)
  {
    if cookies != [] {
      NeverUnsafe(cookies[1..], now);
    }
  }

  lemma NeverNotFound(key: SessionKey, r: SessionRecord, now: int)
    ensures RecordError(key, r, now) != Some(NotFound) && RecordError(key, r, now) != Some(Unsafe)
  {
    NeverUnsafe(r.cookies, now);
  }

  /** A key that cannot be used has no endpoint or username but space, or a NUL in one of them. */
  lemma UnsafeExact(k: SessionKey)
    ensures !ValidKey(k) <==>
              || (forall c | c in k.endpoint :: IsSpace(c)) || (forall c | c in k.username :: IsSpace(c))
              || (exists c | c in k.endpoint + k.username :: c as int == 0)
  {
    assert forall c :: c in k.endpoint + k.username <==> c in k.endpoint || c in k.username;
    if !ValidKey(k) && !Blank(k.endpoint) && !Blank(k.username) {
      assert NUL in k.endpoint + k.username && NUL as int == 0;
    }
    if c :| c in k.endpoint + k.username && c as int == 0 {
      assert c == NUL;
    }
  }

  /** What a load comes to: the record as it is exactly if the key can be used and the record is good;
      an expired one only with that error; a missing one and a key that cannot be used are told from
      all others. */
  lemma GetExact(entries: Entries, k: SessionKey, now: int)
    ensures var loaded := Get(entries, k, now); var name := EntryName(k);
            && (loaded.Fresh? <==> Addressable(k) && name in entries && GoodRecord(k, entries[name], now))
            && (loaded.Fresh? || loaded.Stale? ==> name in entries && loaded.record == entries[name])
            && (loaded.Stale? ==> ExpiredBy(loaded.record, now))
            && (loaded == Failed(NotFound) <==> Addressable(k) && name !in entries)
            && (loaded == Failed(Unsafe) <==>
                  || (forall c | c in k.endpoint :: IsSpace(c)) || (forall c | c in k.username :: IsSpace(c))
                  || (exists c | c in k.endpoint + k.username :: c as int == 0))
  {
    UnsafeExact(k);
    if EntryName(k) in entries {
      RecordExact(k, entries[EntryName(k)], now);
      NeverNotFound(k, entries[EntryName(k)], now);
    }
  }

  /** The entry of the key is the given record, under the identity of the key. */
  predicate Holds(entries: Entries, k: SessionKey, record: SessionRecord) {
    && EntryName(k) in entries
    && var e := entries[EntryName(k)];
    && e.version == 1 && e.endpoint == k.endpoint && e.username == k.username && e.impersonate == k.impersonate
    && e.fingerprint == k.fingerprint && e.cookies == record.cookies && e.generation == record.generation
    && e.retryNotBefore == record.retryNotBefore && e.acceptedStep == record.acceptedStep
    && e.binding == record.binding
  }

  class FileSessionStore {
    var entries: Entries

    constructor ()
      ensures entries == map[]
    {
      entries := map[];
    }

    /** The record under the key as it is, if it is good. */
    method Load(k: SessionKey, now: int) returns (loaded: Loaded)
      ensures loaded == Get(entries, k, now)
    {
      if !ValidKey(k) {
        return Failed(Unsafe);
      }
      if Blank(k.fingerprint) {
        return Failed(Mismatch);
      }
      if EntryName(k) !in entries {
        return Failed(NotFound);
      }
      var record := entries[EntryName(k)];
      var error := RecordError(k, record, now);
      if error == Some(SessionExpired) {
        return Stale(record);
      }
      if error.Some? {
        return Failed(error.value);
      }
      return Fresh(record);
    }

    /** Empty fields of a record to be saved are taken from the key. */
    method FillIn(k: SessionKey, record: SessionRecord) returns (filled: SessionRecord)
      ensures filled == Filled(k, record)
    {
      filled := record;
      if filled.version == 0 {
        filled := filled.(version := 1);
      }
      if filled.endpoint == "" {
        filled := filled.(endpoint := k.endpoint);
      }
      if filled.username == "" {
        filled := filled.(username := k.username);
      }
      if filled.impersonate == "" {
        filled := filled.(impersonate := k.impersonate);
      }
      if filled.fingerprint == "" {
        filled := filled.(fingerprint := k.fingerprint);
      }
    }

    method Save(k: SessionKey, record: SessionRecord, now: int, disk: Disk) returns (error: Option<StoreErr>)
      modifies this
      ensures PutError(k, record, now).Some? ==> error == PutError(k, record, now) && entries == old(entries)
      ensures PutError(k, record, now).None? ==>
                && (error.None? <==> disk.Works?)
                && entries == if disk.FailsEarly? then old(entries) else Put(old(entries), k, record)
      ensures error.None? ==> Holds(entries, k, record) && GoodRecord(k, entries[EntryName(k)], now)
      ensures forall name | name != EntryName(k) ::
                (name in entries <==> name in old(entries)) && (name in entries ==> entries[name] == old(entries)[name])
    {
      RecordExact(k, Filled(k, record), now);
      if !ValidKey(k) {
        return Some(Unsafe);
      }
      if Blank(k.fingerprint) {
        return Some(Mismatch);
      }
      var filled := FillIn(k, record);
      error := RecordError(k, filled, now);
      if error.Some? {
        return;
      }
      if disk.FailsEarly? {
        return Some(Unsafe);
      }
      entries := entries[EntryName(k) := filled];
      if disk.FailsLate? {
        return Some(Unsafe);
      }
    }
  }
}

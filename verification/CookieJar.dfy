/** tracked_cookie_jar.go: the jar that remembers the attributes of the cookies it was given, so
    that they can be persisted and restored. The wrapped request-time jar is not modelled. */
module CookieJar {
  import opened Prelude
  import opened SessionStore
  import Endpoints

  datatype Key = Key(name: string, domain: string, path: string)

  type Tracked = map<Key, SessionCookie>

  /** The parts of a request URL the jar looks at. */
  datatype Origin = Origin(host: string, path: string)

  // ----- scope -----

  function TrimDot(s: string): string {
    if s != "" && s[0] == '.' then s[1..] else s
  }

  /** cookieDomain. */
  function CookieDomain(u: Option<Origin>, domain: string): string {
    if domain != "" then TrimDot(Endpoints.Lower(domain))
    else if u.None? then ""
    else Endpoints.Lower(u.value.host)
  }

  /** The index of the last slash, or -1. */
  function LastSlash(s: string): (i: int)
    ensures -1 <= i < |s| && (i >= 0 ==> s[i] == '/') && forall j | i < j < |s| :: s[j] != '/'
  {
    if s == "" then -1 else if s[|s| - 1] == '/' then |s| - 1 else LastSlash(s[..|s| - 1])
  }

  /** defaultCookiePath. */
  function DefaultPath(u: Option<Origin>): string {
    if u.None? || u.value.path == "" || u.value.path[0] != '/' then "/"
    else if LastSlash(u.value.path) > 0 then u.value.path[..LastSlash(u.value.path)]
    else "/"
  }

  /** What one cookie of a response does to the tracked map. */
  datatype Op = Ignore | Remove(key: Key) | Store(key: Key, cookie: SessionCookie)

  function KeyFor(u: Option<Origin>, c: HttpCookie): Key {
    Key(c.name, CookieDomain(u, c.domain), if c.path == "" then DefaultPath(u) else c.path)
  }

  /** A cookie removes its key if its Max-Age is negative, or if it has none and its Expires has
      passed; it is stored if it converts, and otherwise ignored, as nil is. */
  function OpOf(u: Option<Origin>, given: Option<HttpCookie>, now: int, ttl: int): Op {
    if given.None? then Ignore
    else
      var c := given.value;
      var key := KeyFor(u, c);
      if c.maxAge < 0 || (c.maxAge <= 0 && c.expires.Some? && c.expires.value <= now) then Remove(key)
      else
        match NewSessionCookie(c, now, ttl)
        case Err(_) => Ignore
        case Ok(stored) => Store(key, stored.(domain := key.domain, hostOnly := c.domain == "", path := key.path))
  }

  function Ops(u: Option<Origin>, batch: seq<Option<HttpCookie>>, now: int, ttl: int): (ops: seq<Op>)
    ensures |ops| == |batch|
    ensures forall i | 0 <= i < |batch| :: ops[i] == OpOf(u, batch[i], now, ttl)
  {
    seq(|batch|, i requires 0 <= i < |batch| => OpOf(u, batch[i], now, ttl))
  }

  // ----- two phases and one fold -----

  /** One cookie at a time, as RFC 6265 section 5.3 processes a response. */
  function Fold(m: Tracked, ops: seq<Op>): Tracked {
    if ops == [] then m
    else
      var before := Fold(m, ops[..|ops| - 1]);
      match ops[|ops| - 1]
      case Ignore => before
      case Remove(key) => before - {key}
      case Store(key, cookie) => before[key := cookie]
  }

  function Removals(m: Tracked, ops: seq<Op>): Tracked {
    if ops == [] then m
    else
      var before := Removals(m, ops[..|ops| - 1]);
      if ops[|ops| - 1].Remove? then before - {ops[|ops| - 1].key} else before
  }

  function Stores(m: Tracked, ops: seq<Op>): Tracked {
    if ops == [] then m
    else
      var before := Stores(m, ops[..|ops| - 1]);
      if ops[|ops| - 1].Store? then before[ops[|ops| - 1].key := ops[|ops| - 1].cookie] else before
  }

  /** All removals, then all stores: what SetCookies does. */
  function TwoPhase(m: Tracked, ops: seq<Op>): Tracked {
    Stores(Removals(m, ops), ops)
  }

  function Lookup(m: Tracked, key: Key): Option<SessionCookie> {
    if key in m then Some(m[key]) else None
  }

  predicate Touches(op: Op, key: Key) {
    !op.Ignore? && op.key == key
  }

  /** The last operation on a key, and the last store on it. */
  function LastOn(ops: seq<Op>, key: Key): Op {
    if ops == [] then Ignore
    else if Touches(ops[|ops| - 1], key) then ops[|ops| - 1]
    else LastOn(ops[..|ops| - 1], key)
  }

  function LastStore(ops: seq<Op>, key: Key): Op {
    if ops == [] then Ignore
    else if ops[|ops| - 1].Store? && ops[|ops| - 1].key == key then ops[|ops| - 1]
    else LastStore(ops[..|ops| - 1], key)
  }

  lemma {:induction false} FoldAt(m: Tracked, ops: seq<Op>, key: Key)
    ensures Lookup(Fold(m, ops), key) ==
            match LastOn(ops, key)
            case Ignore => Lookup(m, key)
            case Remove(_) => None
            case Store(_, cookie) => Some(cookie)
    ensures LastOn(ops, key).Ignore? || LastOn(ops, key).key == key
  {
    if ops != [] {
      FoldAt(m, ops[..|ops| - 1], key);
    }
  }

  lemma {:induction false} RemovalsAt(m: Tracked, ops: seq<Op>, key: Key)
    ensures Lookup(Removals(m, ops), key) ==
            if exists i | 0 <= i < |ops| :: ops[i] == Remove(key) then None else Lookup(m, key)
  {
    if ops != [] {
      RemovalsAt(m, ops[..|ops| - 1], key);
      if i :| 0 <= i < |ops| && ops[i] == Remove(key) {
        assert i < |ops| - 1 ==> ops[..|ops| - 1][i] == Remove(key);
      }
      assert forall i | 0 <= i < |ops| - 1 :: ops[..|ops| - 1][i] == ops[i];
    }
  }

  lemma {:induction false} StoresAt(m: Tracked, ops: seq<Op>, key: Key)
    ensures Lookup(Stores(m, ops), key) ==
            if LastStore(ops, key).Store? then Some(LastStore(ops, key).cookie) else Lookup(m, key)
    ensures LastStore(ops, key).Store? ==> LastStore(ops, key).key == key
  {
    if ops != [] {
      StoresAt(m, ops[..|ops| - 1], key);
    }
  }

  /** How the last operation, the last store and the removals of a key are related. */
  lemma {:induction false} LastCases(ops: seq<Op>, key: Key)
    ensures LastOn(ops, key).Store? ==> LastStore(ops, key) == LastOn(ops, key)
    ensures LastOn(ops, key).Remove? ==> exists i | 0 <= i < |ops| :: ops[i] == Remove(key)
    ensures LastOn(ops, key).Ignore? ==>
              !LastStore(ops, key).Store? && forall i | 0 <= i < |ops| :: ops[i] != Remove(key)
  {
    if ops != [] {
      var front := ops[..|ops| - 1];
      LastCases(front, key);
      assert forall i | 0 <= i < |front| :: ops[i] == front[i];
      if LastOn(ops, key).Remove? && LastOn(front, key) == LastOn(ops, key) && ops[|ops| - 1] != Remove(key) {
        var i :| 0 <= i < |front| && front[i] == Remove(key);
        assert ops[i] == Remove(key);
      }
    }
  }

  /** No key that is stored somewhere in the batch has a removal as its last operation. */
  ghost predicate NoStoreThenRemove(ops: seq<Op>) {
    forall key :: LastOn(ops, key).Remove? ==> !LastStore(ops, key).Store?
  }

  /** At one key the two orders agree exactly when it is not stored and removed after that. */
  lemma {:induction false} OrdersAgreeAt(m: Tracked, ops: seq<Op>, key: Key)
    ensures Lookup(TwoPhase(m, ops), key) == Lookup(Fold(m, ops), key)
            <==> !(LastOn(ops, key).Remove? && LastStore(ops, key).Store?)
  {
    FoldAt(m, ops, key);
    StoresAt(Removals(m, ops), ops, key);
    RemovalsAt(m, ops, key);
    LastCases(ops, key);
  }

  lemma SameLookups(a: Tracked, b: Tracked)
    requires forall key :: Lookup(a, key) == Lookup(b, key)
    ensures a == b
  {
    forall key | key in a.Keys + b.Keys
      ensures key in a && key in b && a[key] == b[key]
    {
      assert Lookup(a, key) == Lookup(b, key);
    }
  }

  /** Removing everything first and storing afterwards equals processing the cookies one at a
      time exactly for the batches in which no key is stored and later removed for good. For
      every other batch the result keeps a cookie the server took back. */
  lemma {:induction false} TwoPhaseIsFold(m: Tracked, ops: seq<Op>)
    ensures TwoPhase(m, ops) == Fold(m, ops) <==> NoStoreThenRemove(ops)
  {
    forall key
      ensures Lookup(TwoPhase(m, ops), key) == Lookup(Fold(m, ops), key)
              <==> !(LastOn(ops, key).Remove? && LastStore(ops, key).Store?)
    {
      OrdersAgreeAt(m, ops, key);
    }
    if NoStoreThenRemove(ops) {
      SameLookups(TwoPhase(m, ops), Fold(m, ops));
    }
  }

  /** A positive Max-Age overrides an Expires that has passed: the cookie is stored, until its
      Max-Age runs out, if it can be stored at all, and is never taken for a removal. */
  lemma MaxAgeWins(u: Option<Origin>, c: HttpCookie, now: int, ttl: int)
    requires c.maxAge > 0
    ensures OpOf(u, Some(c), now, ttl) == OpOf(u, Some(c.(expires := None)), now, ttl)
    ensures !OpOf(u, Some(c), now, ttl).Remove?
    ensures OpOf(u, Some(c), now, ttl).Store? ==>
              OpOf(u, Some(c), now, ttl).cookie.expires == Some(now + c.maxAge * 1_000_000_000)
  {
  }

  // ----- what a response means, in terms of its fields -----

  predicate IsDomain(u: Option<Origin>, given: string, domain: string) {
    if given != "" then
      var lowered := Endpoints.Lower(given);
      domain == if lowered != "" && lowered[0] == '.' then lowered[1..] else lowered
    else domain == if u.Some? then Endpoints.Lower(u.value.host) else ""
  }

  /** The directory of a request path: what comes before its last slash. */
  ghost predicate IsDirectory(path: string, directory: string) {
    if path == "" || path[0] != '/' then directory == "/"
    else exists k :: LastSlashAt(path, k) && directory == if k == 0 then "/" else path[..k]
  }

  predicate LastSlashAt(path: string, k: int) {
    0 <= k < |path| && path[k] == '/' && forall j | k < j < |path| :: path[j] != '/'
  }

  ghost predicate IsPath(u: Option<Origin>, given: string, path: string) {
    if given != "" then path == given
    else if u.None? then path == "/"
    else IsDirectory(u.value.path, path)
  }

  /** The key a cookie of a response is about. */
  ghost predicate IsAbout(u: Option<Origin>, c: HttpCookie, key: Key) {
    key.name == c.name && IsDomain(u, c.domain, key.domain) && IsPath(u, c.path, key.path)
  }

  lemma AboutExact(u: Option<Origin>, c: HttpCookie, key: Key)
    ensures IsAbout(u, c, key) <==> key == KeyFor(u, c)
  {
    if u.Some? && c.path == "" {
      var path := u.value.path;
      if path != "" && path[0] == '/' {
        assert LastSlashAt(path, LastSlash(path));
        assert forall k | LastSlashAt(path, k) :: k == LastSlash(path);
      }
    }
  }

  /** The server takes the cookie back. */
  predicate TakesBack(c: HttpCookie, now: int) {
    c.maxAge < 0 || (c.maxAge == 0 && c.expires.Some? && c.expires.value <= now)
  }

  /** It can be kept: its parts can be sent, and its expiry is given or a local one allowed. */
  predicate CanKeep(c: HttpCookie, now: int, ttl: int) {
    && !TakesBack(c, now) && SendableParts(c.name, c.value, c.path) && c.maxAge <= 9_223_372_036
    && (c.maxAge == 0 && c.expires.None? ==> 0 < ttl <= 86_400_000_000_000)
  }

  /** What is kept of it, field by field. */
  ghost predicate KeptAs(u: Option<Origin>, given: HttpCookie, now: int, ttl: int, c: SessionCookie) {
    && c.name == given.name && c.value == given.value && c.secure == given.secure
    && c.httpOnly == given.httpOnly && c.sameSite == given.sameSite && c.maxAge == given.maxAge
    && (c.hostOnly <==> given.domain == "") && IsDomain(u, given.domain, c.domain) && IsPath(u, given.path, c.path)
    && c.expires == Some(if given.maxAge > 0 then now + given.maxAge * 1_000_000_000
                         else if given.expires.Some? then given.expires.value
                         else now + ttl)
    && (c.localExpiry <==> given.maxAge <= 0 && given.expires.None?)
  }

  /** A cookie that is taken back removes its key, one that can be kept is stored under its key as it
      was given, and any other is ignored. */
  lemma OpExact(u: Option<Origin>, given: HttpCookie, now: int, ttl: int)
    ensures var op := OpOf(u, Some(given), now, ttl);
            && (op.Remove? <==> TakesBack(given, now)) && (op.Store? <==> CanKeep(given, now, ttl))
            && (op.Remove? || op.Store? ==> IsAbout(u, given, op.key))
            && (op.Store? ==> op.key == KeyOf(op.cookie) && KeptAs(u, given, now, ttl, op.cookie))
  {
    AboutExact(u, given, KeyFor(u, given));
    if !TakesBack(given, now) {
      StorableExact(given, now, ttl);
    }
  }

  lemma StorableExact(given: HttpCookie, now: int, ttl: int)
    requires !TakesBack(given, now)
    ensures NewSessionCookie(given, now, ttl).Ok? <==> CanKeep(given, now, ttl)
    ensures NewSessionCookie(given, now, ttl).Ok? ==>
              var c := NewSessionCookie(given, now, ttl).value;
              && c.name == given.name && c.value == given.value && c.secure == given.secure
              && c.httpOnly == given.httpOnly && c.sameSite == given.sameSite && c.maxAge == given.maxAge
              && c.path == given.path && c.domain == given.domain
              && c.expires == Some(if given.maxAge > 0 then now + given.maxAge * 1_000_000_000
                                   else if given.expires.Some? then given.expires.value
                                   else now + ttl)
              && (c.localExpiry <==> given.maxAge <= 0 && given.expires.None?)
  {
    var expires := if given.maxAge > 0 then Some(now + given.maxAge * 1_000_000_000)
                   else if given.expires.None? then Some(now + ttl)
                   else given.expires;
    ValidExact(SessionCookie(given.name, given.value, given.path, given.domain, false, expires, given.maxAge,
                             given.secure, given.httpOnly, given.sameSite,
                             given.expires.None? && given.maxAge <= 0), now);
  }

  /** Cookie `b` of a response is kept, or taken back, under the key. */
  ghost predicate Keeps(u: Option<Origin>, batch: seq<Option<HttpCookie>>, now: int, ttl: int, key: Key, b: int) {
    0 <= b < |batch| && batch[b].Some? && CanKeep(batch[b].value, now, ttl) && IsAbout(u, batch[b].value, key)
  }

  ghost predicate Removes(u: Option<Origin>, batch: seq<Option<HttpCookie>>, now: int, key: Key, b: int) {
    0 <= b < |batch| && batch[b].Some? && TakesBack(batch[b].value, now) && IsAbout(u, batch[b].value, key)
  }

  /** The last cookie of a response that is kept under the key. */
  ghost predicate KeepsLast(u: Option<Origin>, batch: seq<Option<HttpCookie>>, now: int, ttl: int, key: Key, b: int) {
    Keeps(u, batch, now, ttl, key, b) && forall later | later > b :: !Keeps(u, batch, now, ttl, key, later)
  }

  /** What a response makes of a key: its last cookie that can be kept there, as it was given; else
      nothing, if one of its cookies takes the key back; else what was there. */
  ghost predicate Answers(m: Tracked, after: Tracked, u: Option<Origin>, batch: seq<Option<HttpCookie>>, now: int,
                          ttl: int, key: Key) {
    && (forall b | KeepsLast(u, batch, now, ttl, key, b) ::
          key in after && KeyOf(after[key]) == key && KeptAs(u, batch[b].value, now, ttl, after[key]))
    && ((forall b :: !Keeps(u, batch, now, ttl, key, b)) ==>
          Lookup(after, key) ==
          if exists b :: Removes(u, batch, now, key, b) then None else Lookup(m, key))
  }

  lemma OpAt(u: Option<Origin>, batch: seq<Option<HttpCookie>>, now: int, ttl: int, key: Key, b: nat)
    requires b < |batch|
    ensures var op := Ops(u, batch, now, ttl)[b];
            && (op.Store? && op.key == key <==> Keeps(u, batch, now, ttl, key, b))
            && (op == Remove(key) <==> Removes(u, batch, now, key, b))
            && (op.Store? && op.key == key ==>
                  KeyOf(op.cookie) == key && KeptAs(u, batch[b].value, now, ttl, op.cookie))
  {
    if batch[b].Some? {
      OpExact(u, batch[b].value, now, ttl);
      AboutExact(u, batch[b].value, key);
    }
  }

  lemma {:induction false} LastStoreAt(ops: seq<Op>, key: Key) returns (b: nat)
    requires LastStore(ops, key).Store?
    ensures b < |ops| && ops[b] == LastStore(ops, key) && ops[b].key == key
    ensures forall later | b < later < |ops| :: !(ops[later].Store? && ops[later].key == key)
  {
    var front := ops[..|ops| - 1];
    if ops[|ops| - 1].Store? && ops[|ops| - 1].key == key {
      b := |ops| - 1;
    } else {
      b := LastStoreAt(front, key);
      assert forall i | 0 <= i < |front| :: ops[i] == front[i];
    }
  }

  lemma {:induction false} NoStoreAt(ops: seq<Op>, key: Key)
    requires !LastStore(ops, key).Store?
    ensures forall b | 0 <= b < |ops| :: !(ops[b].Store? && ops[b].key == key)
  {
    if ops != [] {
      var front := ops[..|ops| - 1];
      NoStoreAt(front, key);
      assert forall i | 0 <= i < |front| :: ops[i] == front[i];
    }
  }

  /** SetCookies does to every key what the response means for it. */
  lemma ResponseExact(m: Tracked, u: Option<Origin>, batch: seq<Option<HttpCookie>>, now: int, ttl: int, key: Key)
    ensures Answers(m, TwoPhase(m, Ops(u, batch, now, ttl)), u, batch, now, ttl, key)
  {
    var ops := Ops(u, batch, now, ttl);
    forall b: nat | b < |batch|
      ensures ops[b].Store? && ops[b].key == key <==> Keeps(u, batch, now, ttl, key, b)
      ensures ops[b] == Remove(key) <==> Removes(u, batch, now, key, b)
      ensures ops[b].Store? && ops[b].key == key ==>
                KeyOf(ops[b].cookie) == key && KeptAs(u, batch[b].value, now, ttl, ops[b].cookie)
    {
      OpAt(u, batch, now, ttl, key, b);
    }
    StoresAt(Removals(m, ops), ops, key);
    RemovalsAt(m, ops, key);
    if LastStore(ops, key).Store? {
      var last := LastStoreAt(ops, key);
      assert Keeps(u, batch, now, ttl, key, last);
      assert forall b | KeepsLast(u, batch, now, ttl, key, b) :: b == last;
    } else {
      NoStoreAt(ops, key);
    }
  }

  // ----- the jar's invariant -----

  /** The key of a tracked cookie is read off the cookie. */
  function KeyOf(c: SessionCookie): Key {
    Key(c.name, c.domain, c.path)
  }

  /** A domain that restoring leaves alone. */
  predicate NormalDomain(domain: string) {
    domain != "" && domain[0] != '.' && Endpoints.Lower(domain) == domain
  }

  predicate Keyed(m: Tracked) {
    forall key | key in m :: KeyOf(m[key]) == key
  }

  predicate Restorable(m: Tracked) {
    forall key | key in m :: NormalDomain(key.domain) && key.path != ""
  }

  lemma {:induction false} StoresKeepKeyed(m: Tracked, u: Option<Origin>, batch: seq<Option<HttpCookie>>, now: int,
                                           ttl: int, n: nat)
    requires Keyed(m) && n <= |batch|
    ensures Keyed(Stores(m, Ops(u, batch, now, ttl)[..n]))
  {
    if n > 0 {
      var ops := Ops(u, batch, now, ttl);
      assert ops[..n][..n - 1] == ops[..n - 1];
      StoresKeepKeyed(m, u, batch, now, ttl, n - 1);
    }
  }

  /** SetCookies keeps every cookie under its own key. */
  lemma TwoPhaseKeepsKeyed(m: Tracked, u: Option<Origin>, batch: seq<Option<HttpCookie>>, now: int, ttl: int)
    requires Keyed(m)
    ensures Keyed(TwoPhase(m, Ops(u, batch, now, ttl)))
  {
    var ops := Ops(u, batch, now, ttl);
    RemovalsShrink(m, ops);
    StoresKeepKeyed(Removals(m, ops), u, batch, now, ttl, |batch|);
    assert ops[..|batch|] == ops;
  }

  lemma {:induction false} RemovalsShrink(m: Tracked, ops: seq<Op>)
    ensures forall key | key in Removals(m, ops) :: key in m && Removals(m, ops)[key] == m[key]
  {
    if ops != [] {
      RemovalsShrink(m, ops[..|ops| - 1]);
    }
  }

  // ----- the order of a snapshot -----

  predicate Less(a: string, b: string) {
    if b == "" then false
    else if a == "" then true
    else if a[0] != b[0] then a[0] < b[0]
    else Less(a[1..], b[1..])
  }

  lemma {:induction false} LessTotal(a: string, b: string)
    ensures Less(a, b) || a == b || Less(b, a)
    ensures !(Less(a, b) && Less(b, a)) && (a == b ==> !Less(a, b))
  {
    if a != "" && b != "" {
      LessTotal(a[1..], b[1..]);
      assert a == [a[0]] + a[1..] && b == [b[0]] + b[1..];
    }
  }

  /** The order of strings: a proper prefix comes first, and else the first difference decides. */
  lemma {:induction false} LessExact(a: string, b: string)
    ensures Less(a, b) <==> (a < b || exists k :: DiffersAt(a, b, k) && a[k] < b[k])
  {
    if a != "" && b != "" && a[0] == b[0] {
      var x, y := a[1..], b[1..];
      LessExact(x, y);
      assert a == [a[0]] + x && b == [b[0]] + y;
      if k :| DiffersAt(x, y, k) && x[k] < y[k] {
        assert a[..k + 1] == [a[0]] + x[..k] && b[..k + 1] == [b[0]] + y[..k];
        assert DiffersAt(a, b, k + 1);
      }
      if k :| DiffersAt(a, b, k) && a[k] < b[k] {
        assert k > 0 && x[..k - 1] == a[..k][1..] && y[..k - 1] == b[..k][1..];
        assert DiffersAt(x, y, k - 1);
      }
    } else if a != "" && b != "" {
      assert DiffersAt(a, b, 0);
      assert forall k | DiffersAt(a, b, k) :: k > 0 ==> a[..k][0] == b[..k][0];
    }
  }

  predicate DiffersAt(a: string, b: string, k: int) {
    0 <= k < |a| && k < |b| && a[..k] == b[..k] && a[k] != b[k]
  }

  lemma {:induction false} LessTransitive(a: string, b: string, c: string)
    requires Less(a, b) && Less(b, c)
    ensures Less(a, c)
  {
    if a != "" && a[0] == b[0] && b[0] == c[0] {
      LessTransitive(a[1..], b[1..], c[1..]);
    }
  }

  /** By domain, then path, then name. */
  predicate Precedes(a: SessionCookie, b: SessionCookie) {
    if a.domain != b.domain then Less(a.domain, b.domain)
    else if a.path != b.path then Less(a.path, b.path)
    else Less(a.name, b.name)
  }

  lemma PrecedesTotal(a: SessionCookie, b: SessionCookie)
    ensures Precedes(a, b) || KeyOf(a) == KeyOf(b) || Precedes(b, a)
    ensures !(Precedes(a, b) && Precedes(b, a)) && (KeyOf(a) == KeyOf(b) ==> !Precedes(a, b))
  {
    LessTotal(a.domain, b.domain);
    LessTotal(a.path, b.path);
    LessTotal(a.name, b.name);
  }

  lemma PrecedesTransitive(a: SessionCookie, b: SessionCookie, c: SessionCookie)
    requires Precedes(a, b) && Precedes(b, c)
    ensures Precedes(a, c)
  {
    LessTotal(a.domain, b.domain);
    LessTotal(b.domain, c.domain);
    LessTotal(a.path, b.path);
    LessTotal(b.path, c.path);
    if a.domain != b.domain && b.domain != c.domain {
      LessTransitive(a.domain, b.domain, c.domain);
      LessTotal(a.domain, c.domain);
    } else if a.domain == b.domain == c.domain {
      if a.path != b.path && b.path != c.path {
        LessTransitive(a.path, b.path, c.path);
        LessTotal(a.path, c.path);
      } else if a.path == b.path == c.path {
        LessTransitive(a.name, b.name, c.name);
      }
    }
  }

  ghost predicate StrictlySorted(s: seq<SessionCookie>) {
    forall i, j | 0 <= i < j < |s| :: Precedes(s[i], s[j])
  }

  /** Insertion into a sorted list, before the first cookie that is not smaller. */
  function Insert(s: seq<SessionCookie>, c: SessionCookie): seq<SessionCookie> {
    if s == [] || !Precedes(s[0], c) then [c] + s else [s[0]] + Insert(s[1..], c)
  }

  lemma {:induction false} InsertKeeps(s: seq<SessionCookie>, c: SessionCookie)
    ensures forall x :: x in Insert(s, c) <==> x in s || x == c
    ensures StrictlySorted(s) && (forall x | x in s :: KeyOf(x) != KeyOf(c)) ==> StrictlySorted(Insert(s, c))
  {
    if s != [] && Precedes(s[0], c) {
      var rest := Insert(s[1..], c);
      InsertKeeps(s[1..], c);
      assert s == [s[0]] + s[1..];
      if StrictlySorted(s) && forall x | x in s :: KeyOf(x) != KeyOf(c) {
        assert forall x | x in s[1..] :: x in s;
        forall j | 0 <= j < |rest|
          ensures Precedes(s[0], rest[j])
        {
          assert rest[j] in rest;
        }
      }
    } else if s != [] {
      assert Insert(s, c) == [c] + s;
      if StrictlySorted(s) && forall x | x in s :: KeyOf(x) != KeyOf(c) {
        FirstBefore(s, c);
      }
    }
  }

  /** sort.Slice by that order, on a list whose keys are distinct. */
  function Sorted(s: seq<SessionCookie>): seq<SessionCookie> {
    if s == [] then [] else Insert(Sorted(s[..|s| - 1]), s[|s| - 1])
  }

  ghost predicate DistinctKeys(s: seq<SessionCookie>) {
    forall i, j | 0 <= i < j < |s| :: KeyOf(s[i]) != KeyOf(s[j])
  }

  lemma {:induction false} SortedSorts(s: seq<SessionCookie>)
    ensures forall x :: x in Sorted(s) <==> x in s
    ensures DistinctKeys(s) ==> StrictlySorted(Sorted(s))
  {
    if s != [] {
      var front, last := s[..|s| - 1], s[|s| - 1];
      SortedSorts(front);
      InsertKeeps(Sorted(front), last);
      assert s == front + [last];
      if DistinctKeys(s) {
        assert forall i | 0 <= i < |front| :: KeyOf(s[i]) != KeyOf(s[|s| - 1]);
        assert forall x | x in front :: KeyOf(x) != KeyOf(last);
      }
    }
  }

  lemma FirstBefore(s: seq<SessionCookie>, c: SessionCookie)
    requires s != [] && StrictlySorted(s) && !Precedes(s[0], c) && KeyOf(s[0]) != KeyOf(c)
    ensures StrictlySorted([c] + s)
  {
    PrecedesTotal(s[0], c);
    forall j | 0 <= j < |s|
      ensures Precedes(c, s[j])
    {
      if j > 0 {
        PrecedesTransitive(c, s[0], s[j]);
      }
    }
  }

  /** A strictly sorted list is determined by its elements. */
  lemma {:induction false} SortedUnique(a: seq<SessionCookie>, b: seq<SessionCookie>)
    requires StrictlySorted(a) && StrictlySorted(b) && forall x :: x in a <==> x in b
    ensures a == b
  {
    if b != [] {
      HasElement(b);
    }
    if a != [] {
      assert a[0] in a && a[0] in b;
      assert b != [] && b[0] in b && b[0] in a;
      SameFirst(a, b);
      NotInTail(a);
      NotInTail(b);
      forall x
        ensures x in a[1..] <==> x in b[1..]
      {
        assert x in a <==> x == a[0] || x in a[1..];
        assert x in b <==> x == b[0] || x in b[1..];
      }
      SortedUnique(a[1..], b[1..]);
      assert a == [a[0]] + a[1..] && b == [b[0]] + b[1..];
    }
  }

  lemma HasElement(a: seq<SessionCookie>)
    requires a != []
    ensures exists x :: x in a
  {
    assert a[0] in a;
  }

  lemma NotInTail(a: seq<SessionCookie>)
    requires a != [] && StrictlySorted(a)
    ensures a[0] !in a[1..] && StrictlySorted(a[1..])
  {
    forall i | 0 <= i < |a[1..]|
      ensures a[1..][i] != a[0]
    {
      assert Precedes(a[0], a[i + 1]);
      PrecedesTotal(a[0], a[i + 1]);
    }
  }

  lemma SameFirst(a: seq<SessionCookie>, b: seq<SessionCookie>)
    requires a != [] && b != [] && StrictlySorted(a) && StrictlySorted(b) && a[0] in b && b[0] in a
    ensures a[0] == b[0]
  {
    var i :| 0 <= i < |b| && b[i] == a[0];
    var j :| 0 <= j < |a| && a[j] == b[0];
    if i > 0 && j > 0 {
      assert Precedes(b[0], a[0]) && Precedes(a[0], b[0]);
      PrecedesTotal(a[0], b[0]);
    }
  }

  // ----- snapshots and restoring -----

  predicate Expired(c: SessionCookie, now: int) {
    c.expires.None? || c.expires.value <= now
  }

  /** The tracked cookies that have not expired. */
  function Live(m: Tracked, now: int): Tracked {
    map key | key in m && !Expired(m[key], now) :: m[key]
  }

  /** What PersistentCookies promises of its list. */
  ghost predicate IsSnapshot(list: seq<SessionCookie>, m: Tracked, now: int) {
    && StrictlySorted(list)
    && (forall c :: c in list <==> exists key | key in m :: m[key] == c && !Expired(c, now))
    && (forall c | c in list :: CookieError(c, now).None?)
  }

  function RestoredPath(c: SessionCookie): string {
    if c.path == "" then "/" else c.path
  }

  function RestoredKey(c: SessionCookie): Key {
    Key(c.name, TrimDot(Endpoints.Lower(c.domain)), RestoredPath(c))
  }

  /** The tracked map after Restore has installed a list. */
  function Installed(m: Tracked, list: seq<SessionCookie>): Tracked {
    if list == [] then m
    else
      var c := list[|list| - 1];
      Installed(m, list[..|list| - 1])[RestoredKey(c) := c.(path := RestoredPath(c))]
  }

  /** Why Restore refuses a list: the first invalid cookie, or one without a domain. */
  datatype RestoreError = Invalid(error: StoreErr) | NoDomain

  function RestoreProblem(c: SessionCookie, now: int): Option<RestoreError> {
    if CookieError(c, now).Some? then Some(Invalid(CookieError(c, now).value))
    else if TrimDot(Endpoints.Lower(c.domain)) == "" then Some(NoDomain)
    else None
  }

  /** What can be restored: a valid cookie with a domain, which is kept in lower case without a leading
      dot; an empty path becomes the root. */
  lemma RestoredExact(c: SessionCookie, now: int)
    ensures RestoreProblem(c, now).None? <==>
              && CookieError(c, now).None? && c.domain != "" && c.domain != "."
    ensures CookieError(c, now).Some? ==> RestoreProblem(c, now) == Some(Invalid(CookieError(c, now).value))
    ensures var key := RestoredKey(c);
            && key.name == c.name && (c.domain != "" ==> IsDomain(None, c.domain, key.domain))
            && key.path == if c.path == "" then "/" else c.path
  {
    var lowered := Endpoints.Lower(c.domain);
    assert |lowered| == |c.domain|;
    if |c.domain| == 1 {
      assert lowered[0] == '.' <==> c.domain[0] == '.';
      assert c.domain == [c.domain[0]];
    }
  }

  /** Whether some cookie of the list has the key. */
  ghost predicate HasKey(list: seq<SessionCookie>, key: Key) {
    exists c | c in list :: KeyOf(c) == key
  }

  lemma InstallOne(c: SessionCookie)
    requires NormalDomain(c.domain) && c.path != ""
    ensures RestoredKey(c) == KeyOf(c) && c.(path := RestoredPath(c)) == c
  {
  }

  /** Installing a list of cookies with normal domains puts each under its own key. */
  lemma {:induction false} InstalledAt(list: seq<SessionCookie>, key: Key)
    requires forall c | c in list :: NormalDomain(c.domain) && c.path != ""
    ensures key in Installed(map[], list) <==> HasKey(list, key)
    ensures key in Installed(map[], list) ==>
              Installed(map[], list)[key] in list && KeyOf(Installed(map[], list)[key]) == key
  {
    if list != [] {
      var front, c := list[..|list| - 1], list[|list| - 1];
      assert list == front + [c];
      assert c in list;
      InstalledAt(front, key);
      InstallOne(c);
      assert HasKey(list, key) <==> HasKey(front, key) || KeyOf(c) == key by {
        assert forall x :: x in list <==> x in front || x == c;
      }
    }
  }

  lemma SortedKeysDistinct(list: seq<SessionCookie>, a: SessionCookie, b: SessionCookie)
    requires StrictlySorted(list) && a in list && b in list && KeyOf(a) == KeyOf(b)
    ensures a == b
  {
    var i :| 0 <= i < |list| && list[i] == a;
    var j :| 0 <= j < |list| && list[j] == b;
    if i < j {
      assert Precedes(list[i], list[j]);
    }
    if j < i {
      assert Precedes(list[j], list[i]);
    }
    PrecedesTotal(a, b);
  }

  /** Restoring a snapshot into an empty jar brings back exactly the live cookies. */
  lemma {:induction false} RestoreSnapshot(list: seq<SessionCookie>, m: Tracked, now: int)
    requires IsSnapshot(list, m, now) && Keyed(m) && Restorable(m)
    ensures Installed(map[], list) == Live(m, now)
    ensures forall c | c in list :: RestoreProblem(c, now).None?
  {
    forall c | c in list
      ensures NormalDomain(c.domain) && c.path != ""
    {
      var key :| key in m && m[key] == c;
      assert KeyOf(m[key]) == key;
    }
    forall key
      ensures Lookup(Installed(map[], list), key) == Lookup(Live(m, now), key)
    {
      RestoredLookup(list, m, now, key);
    }
    SameLookups(Installed(map[], list), Live(m, now));
  }

  lemma {:induction false} RestoredLookup(list: seq<SessionCookie>, m: Tracked, now: int, key: Key)
    requires IsSnapshot(list, m, now) && Keyed(m) && forall c | c in list :: NormalDomain(c.domain) && c.path != ""
    ensures Lookup(Installed(map[], list), key) == Lookup(Live(m, now), key)
  {
    InstalledAt(list, key);
    if key in Live(m, now) {
      assert m[key] in list && KeyOf(m[key]) == key;
      assert HasKey(list, key);
      SortedKeysDistinct(list, m[key], Installed(map[], list)[key]);
    }
  }

  /** Persisting, restoring into an empty jar and persisting again at the same time gives the
      same list. */
  lemma {:induction false} PersistRoundTrip(list: seq<SessionCookie>, again: seq<SessionCookie>, m: Tracked, now: int)
    requires IsSnapshot(list, m, now) && Keyed(m) && Restorable(m)
    requires IsSnapshot(again, Installed(map[], list), now)
    ensures again == list
  {
    RestoreSnapshot(list, m, now);
    forall c
      ensures c in again <==> c in list
    {
      if key :| key in m && m[key] == c && !Expired(c, now) {
        assert key in Live(m, now) && Live(m, now)[key] == c;
      }
      if key :| key in Live(m, now) && Live(m, now)[key] == c {
        assert m[key] == c && !Expired(c, now);
      }
    }
    SortedUnique(again, list);
  }

  /** A history of persisting and restoring: jar `i + 1` is jar `i` persisted and restored at
      time `times[i]`. */
  ghost predicate Cycles(jars: seq<Tracked>, lists: seq<seq<SessionCookie>>, times: seq<int>) {
    && |jars| == |lists| + 1 && |times| == |lists|
    && forall i | 0 <= i < |lists| ::
         IsSnapshot(lists[i], jars[i], times[i]) && jars[i + 1] == Installed(map[], lists[i])
  }

  /** However often a jar is persisted and restored, at whatever times, no cookie appears, none
      changes, and in particular no Expires moves. */
  lemma {:induction false} CyclesNeverExtend(jars: seq<Tracked>, lists: seq<seq<SessionCookie>>, times: seq<int>,
                                             n: nat)
    requires Cycles(jars, lists, times) && n < |jars| && Keyed(jars[0]) && Restorable(jars[0])
    ensures forall key | key in jars[n] :: key in jars[0] && jars[n][key] == jars[0][key]
    ensures Keyed(jars[n]) && Restorable(jars[n])
  {
    if n > 0 {
      CyclesNeverExtend(jars, lists, times, n - 1);
      RestoreSnapshot(lists[n - 1], jars[n - 1], times[n - 1]);
    }
  }

  // ----- the whole life of the cookies -----

  /** A response is received; expired cookies are dropped while a snapshot is taken; a snapshot of
      some earlier state is restored, into a new jar or on top of this one. */
  datatype Act =
    | Receive(u: Option<Origin>, batch: seq<Option<HttpCookie>>, now: int)
    | Persist(now: int)
    | Restore(from: nat, list: seq<SessionCookie>, taken: int, anew: bool)

  ghost predicate Acted(jars: seq<Tracked>, acts: seq<Act>, i: nat, ttl: int)
    requires i < |acts| && |jars| == |acts| + 1
  {
    jars[i + 1] ==
    match acts[i]
    case Receive(u, batch, now) => TwoPhase(jars[i], Ops(u, batch, now, ttl))
    case Persist(now) => Live(jars[i], now)
    case Restore(_, list, _, anew) => Installed(if anew then map[] else jars[i], list)
  }

  /** What is restored is a snapshot of a state before. */
  ghost predicate Snapshotted(jars: seq<Tracked>, acts: seq<Act>, i: nat)
    requires i < |acts| && |jars| == |acts| + 1
  {
    acts[i].Restore? ==> acts[i].from <= i && IsSnapshot(acts[i].list, jars[acts[i].from], acts[i].taken)
  }

  ghost predicate Life(jars: seq<Tracked>, acts: seq<Act>, ttl: int) {
    && |jars| == |acts| + 1 && jars[0] == map[]
    && forall i | 0 <= i < |acts| :: Acted(jars, acts, i, ttl) && Snapshotted(jars, acts, i)
  }

  /** The cookie is cookie `b` of a response, kept as it was given. */
  ghost predicate Received(act: Act, b: nat, ttl: int, c: SessionCookie) {
    && act.Receive? && b < |act.batch| && act.batch[b].Some?
    && CanKeep(act.batch[b].value, act.now, ttl) && KeptAs(act.u, act.batch[b].value, act.now, ttl, c)
  }

  /** After a response a tracked cookie was tracked before or came with it. */
  lemma ReceivedOrKept(m: Tracked, u: Option<Origin>, batch: seq<Option<HttpCookie>>, now: int, ttl: int, key: Key)
    returns (b: nat)
    requires key in TwoPhase(m, Ops(u, batch, now, ttl))
    ensures var c := TwoPhase(m, Ops(u, batch, now, ttl))[key];
            (key in m && m[key] == c) || Received(Receive(u, batch, now), b, ttl, c)
  {
    var ops := Ops(u, batch, now, ttl);
    StoresAt(Removals(m, ops), ops, key);
    RemovalsShrink(m, ops);
    b := 0;
    if LastStore(ops, key).Store? {
      b := LastStoreAt(ops, key);
      OpAt(u, batch, now, ttl, key, b);
    }
  }

  /** A restored cookie is one of the list, with a path. */
  lemma {:induction false} InstalledOrKept(m: Tracked, list: seq<SessionCookie>, key: Key)
    requires key in Installed(m, list)
    ensures (key in m && Installed(m, list)[key] == m[key])
            || exists c :: c in list && Installed(m, list)[key] == c.(path := RestoredPath(c))
  {
    if list != [] {
      var front, c := list[..|list| - 1], list[|list| - 1];
      assert list == front + [c];
      assert c in list;
      if key != RestoredKey(c) {
        InstalledOrKept(m, front, key);
        assert forall x :: x in front ==> x in list;
      }
    }
  }

  /** After a restore a tracked cookie was tracked before or is one of those the snapshot was taken
      of. */
  lemma RestoredOrKept(m: Tracked, list: seq<SessionCookie>, source: Tracked, taken: int, key: Key)
    returns (kept: bool, origin: Key)
    requires IsSnapshot(list, source, taken) && key in Installed(m, list)
    ensures var c := Installed(m, list)[key];
            if kept then key in m && m[key] == c
            else origin in source && c == source[origin].(path := RestoredPath(source[origin]))
  {
    InstalledOrKept(m, list, key);
    kept, origin := key in m && m[key] == Installed(m, list)[key], key;
    if !kept {
      var c :| c in list && Installed(m, list)[key] == c.(path := RestoredPath(c));
      origin :| origin in source && source[origin] == c;
    }
  }

  /** In any order of responses, snapshots and restores, every tracked cookie is unchanged since
      its receipt. */
  lemma {:induction false} CookiesUnchanged(jars: seq<Tracked>, acts: seq<Act>, ttl: int, n: nat, key: Key)
    returns (j: nat, b: nat)
    requires Life(jars, acts, ttl) && n < |jars| && key in jars[n]
    ensures j < n && Received(acts[j], b, ttl, jars[n][key])
    decreases n
  {
    assert Acted(jars, acts, n - 1, ttl) && Snapshotted(jars, acts, n - 1);
    var before, act := jars[n - 1], acts[n - 1];
    match act
    case Receive(u, batch, now) =>
      b := ReceivedOrKept(before, u, batch, now, ttl, key);
      j := n - 1;
      if !Received(act, b, ttl, jars[n][key]) {
        j, b := CookiesUnchanged(jars, acts, ttl, n - 1, key);
      }
    case Persist(now) =>
      j, b := CookiesUnchanged(jars, acts, ttl, n - 1, key);
    case Restore(from, list, taken, anew) =>
      var kept, origin := RestoredOrKept(if anew then map[] else before, list, jars[from], taken, key);
      if kept {
        j, b := CookiesUnchanged(jars, acts, ttl, n - 1, key);
      } else {
        j, b := CookiesUnchanged(jars, acts, ttl, from, origin);
        assert jars[from][origin].path != "";
      }
  }

  /** So a cookie for which the server gave no expiry never outlives its receipt plus the TTL, which
      is a day at most, and no other cookie the expiry the server gave it. */
  lemma NeverOutlives(jars: seq<Tracked>, acts: seq<Act>, ttl: int, n: nat, key: Key, now: int)
    requires Life(jars, acts, ttl) && n < |jars| && key in jars[n] && !Expired(jars[n][key], now)
    ensures exists j: nat, b: nat | j < n :: Received(acts[j], b, ttl, jars[n][key]) && LivesAt(acts[j], b, ttl, now)
  {
    var j, b := CookiesUnchanged(jars, acts, ttl, n, key);
    assert LivesAt(acts[j], b, ttl, now);
  }

  /** By its response the cookie has not expired. */
  predicate LivesAt(act: Act, b: nat, ttl: int, now: int) {
    && act.Receive? && b < |act.batch| && act.batch[b].Some?
    && var given := act.batch[b].value;
    if given.maxAge > 0 then now < act.now + given.maxAge * 1_000_000_000
    else if given.expires.Some? then now < given.expires.value
    else now < act.now + ttl <= act.now + 86_400_000_000_000
  }

  // ----- the jar -----

  class TrackedCookieJar {
    var cookies: Tracked
    const ttl: int

    constructor (ttl: int)
      requires 0 < ttl <= DAY
      ensures cookies == map[] && this.ttl == ttl
    {
      cookies := map[];
      this.ttl := ttl;
    }

    /** The first loop of SetCookies: the batch is sorted into removals and stores. */
    method Classify(u: Option<Origin>, batch: seq<Option<HttpCookie>>, now: int)
      returns (removals: seq<Key>, stores: seq<(Key, SessionCookie)>)
      ensures removals == RemovalsOf(Ops(u, batch, now, ttl)) && stores == StoresOf(Ops(u, batch, now, ttl))
    {
      ghost var ops := Ops(u, batch, now, ttl);
      removals, stores := [], [];
      for i := 0 to |batch|
        invariant removals == RemovalsOf(ops[..i]) && stores == StoresOf(ops[..i])
      {
        assert ops[..i + 1][..i] == ops[..i];
        match OpOf(u, batch[i], now, ttl) {
          case Ignore =>
          case Remove(key) => removals := removals + [key];
          case Store(key, cookie) => stores := stores + [(key, cookie)];
        }
      }
      assert ops[..|batch|] == ops;
    }

    method RemoveEach(removals: seq<Key>)
      modifies this`cookies
      ensures cookies == RemoveAll(old(cookies), removals)
    {
      for i := 0 to |removals|
        invariant cookies == RemoveAll(old(cookies), removals[..i])
      {
        assert removals[..i + 1][..i] == removals[..i];
        cookies := cookies - {removals[i]};
      }
      assert removals[..|removals|] == removals;
    }

    method StoreEach(stores: seq<(Key, SessionCookie)>)
      modifies this`cookies
      ensures cookies == StoreAll(old(cookies), stores)
    {
      for i := 0 to |stores|
        invariant cookies == StoreAll(old(cookies), stores[..i])
      {
        assert stores[..i + 1][..i] == stores[..i];
        cookies := cookies[stores[i].0 := stores[i].1];
      }
      assert stores[..|stores|] == stores;
    }

    /** SetCookies: first all removals of the batch, then all stores. */
    method SetCookies(u: Option<Origin>, batch: seq<Option<HttpCookie>>, now: int)
      modifies this`cookies
      ensures cookies == TwoPhase(old(cookies), Ops(u, batch, now, ttl))
      ensures Keyed(old(cookies)) ==> Keyed(cookies)
      ensures forall key :: Answers(old(cookies), cookies, u, batch, now, ttl, key)
    {
      forall key
        ensures Answers(cookies, TwoPhase(cookies, Ops(u, batch, now, ttl)), u, batch, now, ttl, key)
      {
        ResponseExact(cookies, u, batch, now, ttl, key);
      }
      var removals, stores := Classify(u, batch, now);
      RemoveEach(removals);
      StoreEach(stores);
      RemovalsByKey(old(cookies), Ops(u, batch, now, ttl));
      StoresByKey(Removals(old(cookies), Ops(u, batch, now, ttl)), Ops(u, batch, now, ttl));
      if Keyed(old(cookies)) {
        TwoPhaseKeepsKeyed(old(cookies), u, batch, now, ttl);
      }
    }

    /** PersistentCookies: expired cookies are dropped on the way; the first invalid one aborts. */
    method PersistentCookies(now: int) returns (list: seq<SessionCookie>, error: Option<StoreErr>)
      modifies this`cookies
      ensures error.None? ==> cookies == Live(old(cookies), now)
      ensures error.None? && Keyed(old(cookies)) ==> IsSnapshot(list, old(cookies), now)
      ensures error.None? ==>
                forall key :: key in cookies <==>
                  key in old(cookies) && old(cookies)[key].expires.Some? && old(cookies)[key].expires.value > now
      ensures error.None? <==>
                forall key | key in old(cookies) ::
                  Expired(old(cookies)[key], now) || CookieError(old(cookies)[key], now).None?
      ensures error.Some? ==> list == [] && Live(cookies, now) == Live(old(cookies), now)
    {
      list, error := [], None;
      ghost var before := cookies;
      var todo := cookies.Keys;
      while todo != {}
        invariant todo <= before.Keys && error.None?
        invariant cookies == map key | key in before && (key in todo || !Expired(before[key], now)) :: before[key]
        invariant forall key | key in before && key !in todo ::
                    Expired(before[key], now) || CookieError(before[key], now).None?
        invariant Collected(list, before, todo, now)
        invariant Keyed(before) ==> DistinctKeys(list)
        decreases todo
      {
        var key :| key in todo;
        var cookie := cookies[key];
        if cookie.expires.None? || cookie.expires.value <= now {
          cookies := cookies - {key};
        } else {
          error := CookieError(cookie, now);
          if error.Some? {
            list := [];
            assert !Expired(before[key], now) && CookieError(before[key], now).Some?;
            return;
          }
          CollectOne(list, before, todo, key, now);
          list := list + [cookie];
        }
        todo := todo - {key};
      }
      SortedSorts(list);
      list := Sorted(list);
    }

    /** Restore: everything is validated before anything is installed. */
    method Restore(list: seq<SessionCookie>, now: int) returns (error: Option<RestoreError>)
      modifies this`cookies
      ensures error.None? ==> cookies == Installed(old(cookies), list)
      ensures error.Some? ==> cookies == old(cookies)
      ensures error.None? <==> forall c | c in list :: RestoreProblem(c, now).None?
      ensures error.Some? ==> exists i | 0 <= i < |list| ::
                error == RestoreProblem(list[i], now) && forall j | 0 <= j < i :: RestoreProblem(list[j], now).None?
    {
      for i := 0 to |list|
        invariant forall j | 0 <= j < i :: RestoreProblem(list[j], now).None?
      {
        error := RestoreProblem(list[i], now);
        if error.Some? {
          return;
        }
      }
      for i := 0 to |list|
        invariant cookies == Installed(old(cookies), list[..i])
      {
        assert list[..i + 1][..i] == list[..i];
        cookies := cookies[RestoredKey(list[i]) := list[i].(path := RestoredPath(list[i]))];
      }
      assert list[..|list|] == list;
      error := None;
    }
  }

  /** The list holds the unexpired cookies of the keys already visited. */
  ghost predicate Collected(list: seq<SessionCookie>, m: Tracked, todo: set<Key>, now: int) {
    && (forall c | c in list :: CookieError(c, now).None?)
    && (forall c :: c in list <==> exists key | key in m && key !in todo :: m[key] == c && !Expired(c, now))
  }

  /** Visiting one more key that has a valid cookie. */
  lemma CollectOne(list: seq<SessionCookie>, m: Tracked, todo: set<Key>, key: Key, now: int)
    requires Collected(list, m, todo, now) && key in m && key in todo && CookieError(m[key], now).None?
    ensures Collected(list + [m[key]], m, todo - {key}, now)
    ensures Keyed(m) && DistinctKeys(list) ==> DistinctKeys(list + [m[key]])
  {
    var longer := list + [m[key]];
    assert forall c :: c in longer <==> c in list || c == m[key];
    if Keyed(m) && DistinctKeys(list) {
      forall i | 0 <= i < |list|
        ensures KeyOf(longer[i]) != KeyOf(m[key])
      {
        assert list[i] in list;
      }
    }
  }

  function RemovalsOf(ops: seq<Op>): seq<Key> {
    if ops == [] then []
    else
      var op := ops[|ops| - 1];
      RemovalsOf(ops[..|ops| - 1]) + if op.Remove? then [op.key] else []
  }

  function StoresOf(ops: seq<Op>): seq<(Key, SessionCookie)> {
    if ops == [] then []
    else
      var op := ops[|ops| - 1];
      StoresOf(ops[..|ops| - 1]) + if op.Store? then [(op.key, op.cookie)] else []
  }

  function RemoveAll(m: Tracked, keys: seq<Key>): Tracked {
    if keys == [] then m else RemoveAll(m, keys[..|keys| - 1]) - {keys[|keys| - 1]}
  }

  function StoreAll(m: Tracked, stores: seq<(Key, SessionCookie)>): Tracked {
    if stores == [] then m
    else StoreAll(m, stores[..|stores| - 1])[stores[|stores| - 1].0 := stores[|stores| - 1].1]
  }

  lemma {:induction false} RemovalsByKey(m: Tracked, ops: seq<Op>)
    ensures RemoveAll(m, RemovalsOf(ops)) == Removals(m, ops)
  {
    if ops != [] {
      var front := ops[..|ops| - 1];
      RemovalsByKey(m, front);
      var keys := RemovalsOf(ops);
      if ops[|ops| - 1].Remove? {
        assert keys == RemovalsOf(front) + [ops[|ops| - 1].key];
        assert keys[..|keys| - 1] == RemovalsOf(front);
      } else {
        assert keys == RemovalsOf(front);
      }
    }
  }

  lemma {:induction false} StoresByKey(m: Tracked, ops: seq<Op>)
    ensures StoreAll(m, StoresOf(ops)) == Stores(m, ops)
  {
    if ops != [] {
      var front := ops[..|ops| - 1];
      StoresByKey(m, front);
      var all := StoresOf(ops);
      if ops[|ops| - 1].Store? {
        assert all == StoresOf(front) + [(ops[|ops| - 1].key, ops[|ops| - 1].cookie)];
        assert all[..|all| - 1] == StoresOf(front);
      } else {
        assert all == StoresOf(front);
      }
    }
  }
}

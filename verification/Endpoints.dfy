/** normalizedAuthEndpoint and the username normal form, over printable ASCII strings. A string
    with a percent sign, a bracketed host, an unbracketed host with several colons, one of < > " in
    the host, a path character that Go would escape, or a space anywhere, also in the query, counts
    here as one that does not parse; a user part is dropped, also one with a character that
    net/url refuses there. */
module Endpoints {
  import opened Prelude
  import AuthErrors

  // ----- cutting strings -----

  /** What comes before the first `c`, or everything. */
  function Before(s: string, c: char): (r: string)
    ensures c !in r && r <= s
  {
    if s == "" || s[0] == c then "" else [s[0]] + Before(s[1..], c)
  }

  /** What comes after the first `c`. */
  function After(s: string, c: char): Option<string> {
    if |Before(s, c)| == |s| then None else Some(s[|Before(s, c)| + 1..])
  }

  /** What comes after the last `c`, or everything. */
  function AfterLast(s: string, c: char): (r: string)
    ensures c !in r
  {
    if c !in s then s else AfterLast(After(s, c).value, c)
  }

  lemma {:induction false} BeforeExact(a: string, c: char, b: string)
    requires c !in a
    ensures Before(a + [c] + b, c) == a && After(a + [c] + b, c) == Some(b)
  {
    if a != "" {
      assert (a + [c] + b)[1..] == a[1..] + [c] + b;
      BeforeExact(a[1..], c, b);
    }
  }

  lemma {:induction false} BeforeAbsent(s: string, c: char)
    requires c !in s
    ensures Before(s, c) == s && After(s, c) == None
  {
    if s != "" {
      BeforeAbsent(s[1..], c);
    }
  }

  /** A string is its two parts. */
  lemma {:induction false} CutAgain(s: string, c: char)
    ensures After(s, c).Some? ==> s == Before(s, c) + [c] + After(s, c).value
    ensures After(s, c).None? ==> s == Before(s, c) && c !in s
    ensures s[..|Before(s, c)|] == Before(s, c)
  {
    if s != "" && s[0] != c {
      CutAgain(s[1..], c);
    }
  }

  /** strings.TrimRight(s, "/"). */
  function TrimSlash(s: string): (r: string)
    ensures r <= s && (r == "" || r[|r| - 1] != '/')
    ensures forall i | |r| <= i < |s| :: s[i] == '/'
  {
    if s != "" && s[|s| - 1] == '/' then TrimSlash(s[..|s| - 1]) else s
  }

  // ----- parsing -----

  predicate Letter(c: char) {
    'a' <= c <= 'z' || 'A' <= c <= 'Z'
  }

  predicate Digit(c: char) {
    '0' <= c <= '9'
  }

  predicate HostChar(c: char) {
    || Letter(c) || Digit(c)
    || c == '-' || c == '.' || c == '_' || c == '~' || c == '!' || c == '$' || c == ';' || c == '='
    || '&' <= c <= ','  // & ' ( ) * + ,
  }

  /** The characters a path keeps when it is printed. */
  predicate PathChar(c: char) {
    || Letter(c) || Digit(c)
    || c == '-' || c == '.' || c == '_' || c == '~' || c == '$' || c == '&' || c == '+' || c == ','
    || c == '/' || c == ':' || c == ';' || c == '=' || c == '@'
  }

  predicate Plain(c: char) {
    '!' <= c <= '~' && c != '%'
  }

  predicate ValidScheme(s: string) {
    s != "" && Letter(s[0]) && forall c | c in s :: Letter(c) || Digit(c) || c == '+' || c == '-' || c == '.'
  }

  /** A parsed URL without user and fragment, which normalization drops. */
  datatype Url = Url(scheme: string, host: string, port: string, path: string, query: Option<string>)

  predicate WellFormed(u: Url) {
    && ValidScheme(u.scheme)
    && (forall c | c in u.host :: HostChar(c))
    && (forall c | c in u.port :: Digit(c))
    && (u.path == "" || u.path[0] == '/') && (forall c | c in u.path :: PathChar(c))
    && (u.query.Some? ==> '#' !in u.query.value && forall c | c in u.query.value :: Plain(c))
  }

  /** The host part of what follows "scheme://", without user. */
  function HostPart(rest: string): string {
    AfterLast(Before(Before(rest, '?'), '/'), '@')
  }

  /** The pieces of what follows "scheme://", cut at a fragment. */
  function Pieces(scheme: string, rest: string): Url {
    var hier := Before(rest, '?');
    var port := if After(HostPart(rest), ':').None? then "" else After(HostPart(rest), ':').value;
    Url(scheme, Before(HostPart(rest), ':'), port, hier[|Before(hier, '/')|..], After(rest, '?'))
  }

  function Assemble(scheme: string, rest: string): Option<Url> {
    if HostPart(rest) != "" && WellFormed(Pieces(scheme, rest)) then Some(Pieces(scheme, rest)) else None
  }

  /** url.Parse, when it gives a scheme and a nonempty host. */
  function Parse(s: string): Option<Url> {
    var r := After(s, ':');
    if (exists c | c in s :: !Plain(c)) || r.None? || !("//" <= r.value) then None
    else Assemble(Before(s, ':'), Before(r.value[2..], '#'))
  }

  function HostPort(u: Url): string {
    if u.port == "" then u.host else u.host + ":" + u.port
  }

  /** URL.String. */
  function Render(u: Url): string {
    u.scheme + "://" + HostPort(u) + u.path + (if u.query.Some? then "?" + u.query.value else "")
  }

  // ----- normalization -----

  function Lower(s: string): string {
    AuthErrors.Lower(s)
  }

  function NormalUrl(u: Url): Url {
    var scheme := Lower(u.scheme);
    var port := if (scheme == "https" && u.port == "443") || (scheme == "http" && u.port == "80") then "" else u.port;
    Url(scheme, Lower(u.host), port, TrimSlash(u.path) + "/", u.query)
  }

  /** normalizedAuthEndpoint. */
  function Normal(s: string): string {
    match Parse(s)
    case Some(u) => Render(NormalUrl(u))
    case None => TrimSlash(Lower(s))
  }

  /** The endpoint has a host part, but nothing of it is left once a default or empty port is
      dropped: "https://:443/". */
  predicate HostLost(u: Url) {
    && u.host == ""
    && (|| u.port == "" || (Lower(u.scheme) == "https" && u.port == "443")
        || (Lower(u.scheme) == "http" && u.port == "80"))
  }

  predicate Hostless(s: string) {
    Parse(s).Some? && HostLost(Parse(s).value)
  }

  lemma HostLostExact(u: Url)
    ensures HostPort(NormalUrl(u)) == "" <==> HostLost(u)
  {
  }

  lemma LowerChars(s: string)
    ensures |Lower(s)| == |s| && Lower(Lower(s)) == Lower(s)
    ensures forall i | 0 <= i < |s| :: Lower(s)[i] == AuthErrors.LowerChar(s[i])
    ensures (forall c | c in s :: HostChar(c)) ==> forall c | c in Lower(s) :: HostChar(c)
    ensures ValidScheme(s) ==> ValidScheme(Lower(s))
  {
  }

  lemma {:induction false} TrimAgain(p: string)
    ensures TrimSlash(TrimSlash(p) + "/") == TrimSlash(p)
  {
    var t := TrimSlash(p);
    assert (t + "/")[..|t + "/"| - 1] == t;
  }

  lemma NormalUrlWellFormed(u: Url)
    requires WellFormed(u)
    ensures WellFormed(NormalUrl(u)) && NormalUrl(NormalUrl(u)) == NormalUrl(u)
  {
    LowerChars(u.scheme);
    LowerChars(u.host);
    TrimAgain(u.path);
    var t := TrimSlash(u.path);
    assert t == u.path[..|t|];
  }

  lemma HostPortChars(u: Url)
    requires WellFormed(u)
    ensures forall c | c in HostPort(u) :: HostChar(c) || c == ':'
  {
  }

  lemma HostPortParts(u: Url)
    requires WellFormed(u)
    ensures var hp := HostPort(u);
            && Before(hp, ':') == u.host
            && u.port == (if After(hp, ':').None? then "" else After(hp, ':').value)
            && AfterLast(hp, '@') == hp && '/' !in hp
  {
    HostPortChars(u);
    if u.port == "" {
      BeforeAbsent(u.host, ':');
    } else {
      BeforeExact(u.host, ':', u.port);
      assert u.host + ":" + u.port == u.host + [':'] + u.port;
    }
  }

  function Tail(u: Url): string {
    if u.query.Some? then "?" + u.query.value else ""
  }

  function Rest(u: Url): string {
    HostPort(u) + u.path + Tail(u)
  }

  lemma RestChars(u: Url)
    requires WellFormed(u)
    ensures forall c | c in Rest(u) :: Plain(c) && c != '#'
  {
    HostPortChars(u);
  }

  lemma RenderSplit(u: Url)
    ensures Render(u) == u.scheme + [':'] + ("//" + Rest(u)) && ("//" + Rest(u))[2..] == Rest(u)
  {
    assert Render(u) == u.scheme + "://" + Rest(u);
    assert "://" == [':'] + "//";
  }

  lemma RenderParts(u: Url)
    requires WellFormed(u)
    ensures Before(Render(u), ':') == u.scheme && After(Render(u), ':') == Some("//" + Rest(u))
    ensures Before(("//" + Rest(u))[2..], '#') == Rest(u)
  {
    RenderSplit(u);
    assert ':' !in u.scheme;
    BeforeExact(u.scheme, ':', "//" + Rest(u));
    RestChars(u);
    BeforeAbsent(Rest(u), '#');
  }

  lemma RenderPlain(u: Url)
    requires WellFormed(u)
    ensures forall c | c in Render(u) :: Plain(c)
  {
    RestChars(u);
    assert Render(u) == u.scheme + "://" + Rest(u);
  }

  /** Printing a normal URL with a host part and parsing it gives it back. */
  lemma ParseRender(u: Url)
    requires WellFormed(u) && u.path != "" && HostPort(u) != ""
    ensures Parse(Render(u)) == Some(u)
  {
    RenderParts(u);
    RenderPlain(u);
    RestParts(u);
  }

  lemma HierChars(u: Url)
    requires WellFormed(u)
    ensures '?' !in HostPort(u) + u.path && '/' !in HostPort(u)
  {
    HostPortChars(u);
  }

  lemma HierParts(u: Url)
    requires WellFormed(u) && u.path != ""
    ensures var hier := HostPort(u) + u.path;
            Before(hier, '/') == HostPort(u) && hier[|HostPort(u)|..] == u.path
  {
    var hp := HostPort(u);
    HierChars(u);
    assert u.path == ['/'] + u.path[1..];
    assert hp + u.path == hp + ['/'] + u.path[1..];
    BeforeExact(hp, '/', u.path[1..]);
  }

  lemma RestHier(u: Url)
    requires WellFormed(u) && u.path != ""
    ensures Before(Rest(u), '?') == HostPort(u) + u.path && After(Rest(u), '?') == u.query
  {
    var hier := HostPort(u) + u.path;
    HierChars(u);
    if u.query.Some? {
      assert Rest(u) == hier + ['?'] + u.query.value;
      BeforeExact(hier, '?', u.query.value);
    } else {
      assert Rest(u) == hier;
      BeforeAbsent(hier, '?');
    }
  }

  lemma RestParts(u: Url)
    requires WellFormed(u) && u.path != "" && HostPort(u) != ""
    ensures Assemble(u.scheme, Rest(u)) == Some(u)
  {
    RestHier(u);
    HierParts(u);
    HostPortParts(u);
    assert HostPart(Rest(u)) == HostPort(u);
  }

  // ----- what a URL says, and which URLs are one endpoint -----

  lemma {:induction false} BeforeBound(s: string, c: char, k: nat)
    requires k < |s| && s[k] == c
    ensures |Before(s, c)| <= k
  {
    if s[0] != c {
      BeforeBound(s[1..], c, k - 1);
    }
  }

  lemma {:induction false} AfterLastExact(a: string, c: char, b: string)
    requires c !in b
    ensures AfterLast(a + [c] + b, c) == b
    decreases |a|
  {
    var s := a + [c] + b;
    var n := |Before(s, c)|;
    BeforeBound(s, c, |a|);
    CutAgain(s, c);
    assert c in s;
    if n == |a| {
      assert After(s, c).value == b;
    } else {
      assert After(s, c).value == a[n + 1..] + [c] + b;
      AfterLastExact(a[n + 1..], c, b);
    }
  }

  /** A user part: anything up to an "@" that is no separator. */
  predicate IsUser(user: string) {
    user == "" || (user[|user| - 1] == '@' && forall c | c in user :: Plain(c) && c != '/' && c != '?' && c != '#')
  }

  lemma {:induction false} UserHost(user: string, host: string)
    requires IsUser(user) && '@' !in host
    ensures AfterLast(user + host, '@') == host
  {
    if user == "" {
      assert user + host == host;
    } else {
      assert user + host == user[..|user| - 1] + ['@'] + host;
      AfterLastExact(user[..|user| - 1], '@', host);
    }
  }

  lemma {:induction false} PathSplit(authority: string, path: string)
    requires '/' !in authority && (path == "" || path[0] == '/')
    ensures Before(authority + path, '/') == authority && (authority + path)[|authority|..] == path
  {
    if path == "" {
      assert authority + path == authority;
      BeforeAbsent(authority, '/');
    } else {
      assert authority + path == authority + ['/'] + path[1..];
      BeforeExact(authority, '/', path[1..]);
    }
  }

  /** Cutting off what a separator introduces. */
  lemma {:induction false} TailSplit(front: string, c: char, tail: Option<string>)
    requires c !in front
    ensures var s := front + if tail.Some? then [c] + tail.value else [];
            Before(s, c) == front && After(s, c) == tail
  {
    if tail.Some? {
      assert front + ([c] + tail.value) == front + [c] + tail.value;
      BeforeExact(front, c, tail.value);
    } else {
      assert front + [] == front;
      BeforeAbsent(front, c);
    }
  }

  lemma AssembleOf(u: Url, user: string, authority: string, rest: string)
    requires WellFormed(u) && IsUser(user) && HostPort(u) != "" && authority == user + HostPort(u)
    requires rest == authority + u.path + Tail(u)
    requires '/' !in authority && '?' !in authority + u.path && '@' !in HostPort(u)
    ensures Assemble(u.scheme, rest) == Some(u)
  {
    TailSplit(authority + u.path, '?', u.query);
    PathSplit(authority, u.path);
    UserHost(user, HostPort(u));
    HostPortParts(u);
    assert HostPart(rest) == HostPort(u);
  }

  lemma WrittenChars(u: Url, user: string)
    requires WellFormed(u) && IsUser(user)
    ensures '/' !in user + HostPort(u) && '?' !in user + HostPort(u) + u.path && '@' !in HostPort(u)
    ensures '#' !in user + Rest(u) && forall c | c in user + Rest(u) :: Plain(c)
  {
    HostPortChars(u);
    RestChars(u);
  }

  /** What is written after "://": a user part, the URL's own, and a fragment. */
  predicate IsWritten(u: Url, user: string, fragment: Option<string>, rest: string) {
    rest == user + Rest(u) + if fragment.Some? then ['#'] + fragment.value else []
  }

  lemma {:induction false} WrittenParts(u: Url, user: string, fragment: Option<string>, rest: string)
    requires WellFormed(u) && IsUser(user) && IsWritten(u, user, fragment, rest)
    requires fragment.Some? ==> forall c | c in fragment.value :: Plain(c)
    ensures Before(rest, '#') == user + Rest(u) && forall c | c in rest :: Plain(c)
  {
    WrittenChars(u, user);
    TailSplit(user + Rest(u), '#', fragment);
  }

  lemma SchemeSplit(scheme: string, rest: string)
    requires ValidScheme(scheme) && forall c | c in rest :: Plain(c)
    ensures var s := scheme + [':'] + ("//" + rest);
            && Before(s, ':') == scheme && After(s, ':') == Some("//" + rest) && ("//" + rest)[2..] == rest
            && forall c | c in s :: Plain(c)
  {
    assert ':' !in scheme;
    BeforeExact(scheme, ':', "//" + rest);
  }

  lemma AssembleWritten(u: Url, user: string)
    requires WellFormed(u) && HostPort(u) != "" && IsUser(user)
    ensures Assemble(u.scheme, user + Rest(u)) == Some(u)
  {
    WrittenChars(u, user);
    assert user + Rest(u) == user + HostPort(u) + u.path + Tail(u);
    AssembleOf(u, user, user + HostPort(u), user + Rest(u));
  }

  /** A URL in writing, with a user part and a fragment or without: parsing gives exactly its scheme,
      host, port, path and query, and drops the other two. */
  lemma ParseExact(u: Url, user: string, fragment: Option<string>, rest: string)
    requires WellFormed(u) && HostPort(u) != "" && IsUser(user) && IsWritten(u, user, fragment, rest)
    requires fragment.Some? ==> forall c | c in fragment.value :: Plain(c)
    ensures Parse(u.scheme + [':'] + ("//" + rest)) == Some(u)
  {
    WrittenParts(u, user, fragment, rest);
    SchemeSplit(u.scheme, rest);
    AssembleWritten(u, user);
  }

  /** The port a URL means. */
  function PortOf(u: Url): string {
    if u.port != "" then u.port
    else if Lower(u.scheme) == "https" then "443"
    else if Lower(u.scheme) == "http" then "80"
    else ""
  }

  /** Scheme and host in any case, the same port, given or by default, the same path up to slashes at
      its end, and the same query. */
  predicate SameEndpoint(u: Url, v: Url) {
    && Lower(u.scheme) == Lower(v.scheme) && Lower(u.host) == Lower(v.host) && PortOf(u) == PortOf(v)
    && TrimSlash(u.path) == TrimSlash(v.path) && u.query == v.query
  }

  lemma SameNormalUrl(u: Url, v: Url)
    ensures NormalUrl(u) == NormalUrl(v) <==> SameEndpoint(u, v)
  {
    var t, w := TrimSlash(u.path), TrimSlash(v.path);
    assert (t + "/")[..|t|] == t && (w + "/")[..|w|] == w;
  }

  /** Two URLs have one normal form exactly if they are one endpoint, unless one of them loses its
      host part. */
  lemma NormalExact(a: string, b: string)
    requires Parse(a).Some? && Parse(b).Some? && !Hostless(a) && !Hostless(b)
    ensures Normal(a) == Normal(b) <==> SameEndpoint(Parse(a).value, Parse(b).value)
  {
    NormalParses(a);
    NormalParses(b);
    SameNormalUrl(Parse(a).value, Parse(b).value);
  }

  lemma NormalParses(s: string)
    requires Parse(s).Some? && !Hostless(s)
    ensures Parse(Normal(s)) == Some(NormalUrl(Parse(s).value))
  {
    var u := Parse(s).value;
    NormalUrlWellFormed(u);
    HostLostExact(u);
    ParseRender(NormalUrl(u));
  }

  // ----- idempotence -----

  /** Appending a slash keeps a string parseable. */
  lemma SlashKeepsParse(s: string)
    requires Parse(s).Some?
    ensures Parse(s + "/").Some?
  {
    var r := After(s, ':').value;
    CutAgain(s, ':');
    assert s + "/" == Before(s, ':') + [':'] + (r + "/");
    BeforeExact(Before(s, ':'), ':', r + "/");
    assert (r + "/")[2..] == r[2..] + "/";
    AppendSlash(r[2..], '#');
    if After(r[2..], '#').None? {
      SlashKeepsAssemble(Before(s, ':'), Before(r[2..], '#'));
    }
  }

  /** A slash at the end lands in the part before the first `c` exactly when there is no `c`. */
  lemma {:induction false} AppendSlash(s: string, c: char)
    requires c != '/'
    ensures if After(s, c).None? then Before(s + "/", c) == Before(s, c) + "/" && After(s + "/", c).None?
            else Before(s + "/", c) == Before(s, c) && After(s + "/", c) == Some(After(s, c).value + "/")
  {
    CutAgain(s, c);
    if After(s, c).None? {
      BeforeAbsent(s + "/", c);
    } else {
      assert s + "/" == Before(s, c) + [c] + (After(s, c).value + "/");
      BeforeExact(Before(s, c), c, After(s, c).value + "/");
    }
  }

  lemma {:induction false} SlashAuthority(hier: string)
    ensures Before(hier + "/", '/') == Before(hier, '/')
  {
    var authority := Before(hier, '/');
    CutAgain(hier, '/');
    var tail := if After(hier, '/').Some? then After(hier, '/').value + "/" else "";
    assert hier + "/" == authority + ['/'] + tail;
    BeforeExact(authority, '/', tail);
  }

  /** What follows the host part is empty or begins with a slash. */
  lemma {:induction false} PathAfterHost(hier: string)
    ensures var path := hier[|Before(hier, '/')|..];
            && (hier + "/")[|Before(hier, '/')|..] == path + "/"
            && (path == "" || path[0] == '/')
  {
    CutAgain(hier, '/');
  }

  lemma SlashKeepsAssemble(scheme: string, rest: string)
    requires Assemble(scheme, rest).Some?
    ensures Assemble(scheme, rest + "/").Some?
  {
    AppendSlash(rest, '?');
    if After(rest, '?').None? {
      var hier := Before(rest, '?');
      SlashAuthority(hier);
      PathAfterHost(hier);
      SlashKeepsWellFormed(Assemble(scheme, rest).value);
    } else {
      QueryKeepsWellFormed(Assemble(scheme, rest).value);
    }
  }

  lemma SlashKeepsWellFormed(u: Url)
    requires WellFormed(u)
    ensures WellFormed(u.(path := u.path + "/"))
  {
  }

  lemma QueryKeepsWellFormed(u: Url)
    requires WellFormed(u) && u.query.Some?
    ensures WellFormed(u.(query := Some(u.query.value + "/")))
  {
  }

  lemma {:induction false} SlashesKeepParse(t: string, s: string)
    requires t <= s && Parse(t).Some? && forall i | |t| <= i < |s| :: s[i] == '/'
    ensures Parse(s).Some?
    decreases |s|
  {
    if |t| == |s| {
      assert t == s;
    } else {
      var p := s[..|s| - 1];
      SlashesKeepParse(t, p);
      SlashKeepsParse(p);
      assert s == p + "/";
    }
  }

  /** Lowering letters moves no separator. */
  lemma {:induction false} BeforeLower(s: string, c: char)
    requires !Letter(c)
    ensures Before(Lower(s), c) == Lower(Before(s, c))
    ensures After(Lower(s), c) == if After(s, c).None? then None else Some(Lower(After(s, c).value))
    ensures c in Lower(s) <==> c in s
  {
    if s != "" {
      assert Lower(s)[0] == AuthErrors.LowerChar(s[0]) && Lower(s)[1..] == Lower(s[1..]);
      assert s == [s[0]] + s[1..] && Lower(s) == [Lower(s)[0]] + Lower(s)[1..];
      BeforeLower(s[1..], c);
    }
  }

  lemma {:induction false} AfterLastLower(s: string, c: char)
    requires !Letter(c)
    ensures AfterLast(Lower(s), c) == Lower(AfterLast(s, c))
    decreases |s|
  {
    BeforeLower(s, c);
    if c in s {
      CutAgain(s, c);
      AfterLastLower(After(s, c).value, c);
    }
  }

  function LowerQuery(q: Option<string>): Option<string> {
    if q.None? then None else Some(Lower(q.value))
  }

  lemma WellFormedLower(u: Url)
    requires WellFormed(Url(Lower(u.scheme), Lower(u.host), Lower(u.port), Lower(u.path), LowerQuery(u.query)))
    ensures WellFormed(u)
  {
    CharsOf(u.scheme);
    CharsOf(u.host);
    CharsOf(u.port);
    CharsOf(u.path);
    if u.query.Some? {
      CharsOf(u.query.value);
    }
  }

  /** Every character has its lowered form in the lowered string. */
  lemma CharsOf(s: string)
    ensures |Lower(s)| == |s| && forall c | c in s :: AuthErrors.LowerChar(c) in Lower(s)
    ensures s != "" ==> Lower(s)[0] == AuthErrors.LowerChar(s[0])
  {
    forall c | c in s
      ensures AuthErrors.LowerChar(c) in Lower(s)
    {
      var i :| 0 <= i < |s| && s[i] == c;
      assert Lower(s)[i] == AuthErrors.LowerChar(c);
    }
  }

  function LowerUrl(u: Url): Url {
    Url(Lower(u.scheme), Lower(u.host), Lower(u.port), Lower(u.path), LowerQuery(u.query))
  }

  lemma LowerHostPart(rest: string)
    ensures HostPart(Lower(rest)) == Lower(HostPart(rest))
  {
    BeforeLower(rest, '?');
    BeforeLower(Before(rest, '?'), '/');
    AfterLastLower(Before(Before(rest, '?'), '/'), '@');
  }

  lemma LowerPieces(scheme: string, rest: string)
    ensures Pieces(Lower(scheme), Lower(rest)) == LowerUrl(Pieces(scheme, rest))
  {
    LowerHostPart(rest);
    BeforeLower(HostPart(rest), ':');
    BeforeLower(rest, '?');
    var hier := Before(rest, '?');
    BeforeLower(hier, '/');
    var n := |Before(hier, '/')|;
    assert Lower(hier)[n..] == Lower(hier[n..]);
  }

  lemma LowerAssemble(scheme: string, rest: string)
    requires Assemble(Lower(scheme), Lower(rest)).Some?
    ensures Assemble(scheme, rest).Some?
  {
    LowerPieces(scheme, rest);
    LowerHostPart(rest);
    WellFormedLower(Pieces(scheme, rest));
  }

  lemma LowerPlain(s: string)
    requires forall c | c in Lower(s) :: Plain(c)
    ensures forall c | c in s :: Plain(c)
  {
    CharsOf(s);
    forall c | c in s
      ensures Plain(c)
    {
      assert Plain(AuthErrors.LowerChar(c));
    }
  }

  lemma LowerSlashes(r: string)
    ensures "//" <= Lower(r) <==> "//" <= r
    ensures "//" <= r ==> Lower(r)[2..] == Lower(r[2..])
  {
    if |r| >= 2 {
      assert Lower(r)[0] == AuthErrors.LowerChar(r[0]) && Lower(r)[1] == AuthErrors.LowerChar(r[1]);
    }
  }

  lemma LowerParse(s: string)
    requires Parse(Lower(s)).Some?
    ensures Parse(s).Some?
  {
    BeforeLower(s, ':');
    LowerPlain(s);
    var r := After(s, ':').value;
    LowerSlashes(r);
    BeforeLower(r[2..], '#');
    LowerAssemble(Before(s, ':'), Before(r[2..], '#'));
  }

  lemma LowerPrefix(t: string, s: string)
    requires t <= Lower(s)
    ensures Lower(t) == t
  {
    assert forall i | 0 <= i < |t| :: t[i] == Lower(s)[i];
  }

  /** What does not parse stays as it is when normalized again. */
  lemma UnparsedAgain(s: string)
    requires Parse(s).None?
    ensures Normal(Normal(s)) == Normal(s)
  {
    var t := TrimSlash(Lower(s));
    if Parse(t).Some? {
      SlashesKeepParse(t, Lower(s));
      LowerParse(s);
    }
    LowerPrefix(t, s);
  }

  lemma NoHostPart(rest: string)
    requires rest != "" && rest[0] == '/'
    ensures HostPart(rest) == ""
  {
    var hier := Before(rest, '?');
    assert hier[0] == '/';
    assert Before(hier, '/') == "";
  }

  /** A printed URL without a host part no longer parses. */
  lemma HostlessUnparsed(u: Url)
    requires WellFormed(u) && HostPort(u) == "" && u.path != ""
    ensures Parse(Render(u)).None?
  {
    RenderParts(u);
    assert Rest(u)[0] == '/';
    NoHostPart(Rest(u));
  }

  predicate EndsInSlash(s: string) {
    s != "" && s[|s| - 1] == '/'
  }

  /** The second normalization would change the first one's result: the host part is lost, and
      there is no query or one that ends in a slash, or path or query have an upper-case
      letter. */
  predicate Unstable(s: string) {
    && Hostless(s)
    && var u := Parse(s).value;
       || u.query.None? || EndsInSlash(u.query.value)
       || HasUpper(u.path) || HasUpper(u.query.value)
  }

  predicate HasUpper(s: string) {
    exists c | c in s :: 'A' <= c <= 'Z'
  }

  lemma LowerFixed(s: string)
    ensures Lower(s) == s <==> !HasUpper(s)
  {
    if HasUpper(s) {
      var c :| c in s && 'A' <= c <= 'Z';
      var i :| 0 <= i < |s| && s[i] == c;
      assert Lower(s)[i] != s[i];
    } else {
      forall i | 0 <= i < |s|
        ensures Lower(s)[i] == s[i]
      {
        assert s[i] in s;
      }
    }
  }

  /** Lowering and trimming change a nonempty string exactly when it ends in a slash or has an
      upper-case letter. */
  lemma FallbackFixed(r: string)
    requires r != ""
    ensures TrimSlash(Lower(r)) == r <==> r[|r| - 1] != '/' && !HasUpper(r)
  {
    LowerFixed(r);
    CharsOf(r);
    assert |TrimSlash(Lower(r))| == |r| <==> Lower(r)[|r| - 1] != '/';
    assert Lower(r)[|r| - 1] == AuthErrors.LowerChar(r[|r| - 1]);
  }

  lemma HostedTwice(s: string)
    requires Parse(s).Some? && !Hostless(s)
    ensures Normal(Normal(s)) == Normal(s)
  {
    var u := Parse(s).value;
    NormalUrlWellFormed(u);
    HostLostExact(u);
    ParseRender(NormalUrl(u));
  }

  lemma UpperOfParts(a: string, b: string)
    ensures HasUpper(a + b) <==> HasUpper(a) || HasUpper(b)
  {
    assert forall c :: c in a + b <==> c in a || c in b;
  }

  lemma LowerHasNoUpper(s: string)
    ensures !HasUpper(Lower(s))
  {
    forall c | c in Lower(s)
      ensures !('A' <= c <= 'Z')
    {
      var i :| 0 <= i < |s| && Lower(s)[i] == c;
    }
  }

  /** Trimming slashes and adding one moves no letter. */
  lemma {:induction false} TrimKeepsUpper(p: string)
    ensures HasUpper(TrimSlash(p) + "/") <==> HasUpper(p)
  {
    var t := TrimSlash(p);
    var rest := p[|t|..];
    assert p == t + rest;
    UpperOfParts(t, rest);
    UpperOfParts(t, "/");
    assert forall i | 0 <= i < |rest| :: rest[i] == '/';
  }

  /** Where the letters of a printed URL without host part come from. */
  lemma HostlessUpper(u: Url)
    requires HostPort(u) == "" && !HasUpper(u.scheme)
    ensures HasUpper(Render(u)) <==> HasUpper(u.path) || (u.query.Some? && HasUpper(u.query.value))
  {
    assert Render(u) == u.scheme + "://" + u.path + Tail(u);
    UpperOfParts(u.scheme + "://" + u.path, Tail(u));
    UpperOfParts(u.scheme + "://", u.path);
    UpperOfParts(u.scheme, "://");
    if u.query.Some? {
      UpperOfParts("?", u.query.value);
    }
  }

  /** And where its last character comes from. */
  lemma HostlessEnd(u: Url)
    requires EndsInSlash(u.path)
    ensures Render(u) != ""
    ensures EndsInSlash(Render(u)) <==> u.query.None? || EndsInSlash(u.query.value)
  {
    var front := u.scheme + "://" + HostPort(u) + u.path;
    assert Render(u) == front + Tail(u);
    assert front[|front| - 1] == u.path[|u.path| - 1];
  }

  lemma HostlessNormal(s: string)
    requires Hostless(s)
    ensures Normal(s) != "" && (EndsInSlash(Normal(s)) || HasUpper(Normal(s)) <==> Unstable(s))
  {
    var u := Parse(s).value;
    var n := NormalUrl(u);
    HostLostExact(u);
    LowerHasNoUpper(u.scheme);
    HostlessUpper(n);
    TrimKeepsUpper(u.path);
    assert n.path[|n.path| - 1] == '/';
    HostlessEnd(n);
  }

  lemma HostlessTwice(s: string)
    requires Hostless(s)
    ensures Normal(Normal(s)) == Normal(s) <==> !Unstable(s)
  {
    var u := Parse(s).value;
    NormalUrlWellFormed(u);
    HostLostExact(u);
    HostlessUnparsed(NormalUrl(u));
    HostlessNormal(s);
    FallbackFixed(Normal(s));
  }

  /** normalizedAuthEndpoint is idempotent, except exactly for endpoints that lose their whole
      host part and have no query, one that ends in a slash, or an upper-case letter behind the
      host part: "https://:443/" becomes "https:///", which no longer parses and becomes
      "https:". */
  lemma NormalTwice(s: string)
    ensures Normal(Normal(s)) == Normal(s) <==> !Unstable(s)
  {
    if Parse(s).None? {
      UnparsedAgain(s);
    } else if Hostless(s) {
      HostlessTwice(s);
    } else {
      HostedTwice(s);
    }
  }

  const BARE: string := [':']

  lemma BarePieces(scheme: string)
    ensures HostPart(BARE) == BARE && Pieces(scheme, BARE) == Url(scheme, "", "", "", None)
  {
    BeforeAbsent(BARE, '?');
    BeforeAbsent(BARE, '/');
    BeforeExact("", ':', "");
    assert BARE == "" + [':'] + "";
  }

  lemma BareAssemble(scheme: string)
    requires ValidScheme(scheme)
    ensures Assemble(scheme, BARE) == Some(Url(scheme, "", "", "", None))
  {
    BarePieces(scheme);
  }

  lemma BareParse(scheme: string)
    requires ValidScheme(scheme)
    ensures Parse(scheme + [':'] + ("//" + BARE)) == Some(Url(scheme, "", "", "", None))
  {
    SchemeSplit(scheme, BARE);
    BeforeAbsent(BARE, '#');
    BareAssemble(scheme);
  }

  /** The exception exists for every scheme: a host part that is a bare colon. */
  lemma UnstableExamples(scheme: string)
    requires ValidScheme(scheme)
    ensures var s := scheme + [':'] + ("//" + BARE); Unstable(s) && Normal(Normal(s)) != Normal(s)
  {
    BareParse(scheme);
    NormalTwice(scheme + [':'] + ("//" + BARE));
  }
}

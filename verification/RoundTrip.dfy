/** session.go: the transport that notices a lost session, recovers and replays the request
    once. The refresher is a part of the environment here; what its calls promise is proved in
    module RefresherRuns. */
module RoundTrip {
  import opened Prelude
  import opened AuthErrors
  import Endpoints
  import Refresher

  // ----- session loss -----

  /** A response as far as the transport looks at it. `location` is the path of a Location header
      that is present and parses. */
  datatype Response = Response(status: int, location: Option<string>, body: string)

  const CLOSED := "impersonation session has been closed"
  const PEEK: nat := 4096

  function Peeked(body: string): string {
    if |body| <= PEEK then body else body[..PEEK]
  }

  /** Some segment of a path, cut at its slashes, is "login" in any case. */
  predicate HasLogin(path: string)
    decreases |path|
  {
    var rest := Endpoints.After(path, '/');
    Lower(Endpoints.Before(path, '/')) == "login" || (rest.Some? && HasLogin(rest.value))
  }

  /** isSessionLossFor. */
  predicate SessionLost(r: Response, impersonate: bool) {
    if r.status == 401 then true
    else if r.status == 403 && impersonate then Contains(Lower(Peeked(r.body)), CLOSED)
    else if r.status < 300 || r.status > 399 then false
    else r.location.Some? && HasLogin(r.location.value)
  }

  /** `path[i..j]` is a whole segment. */
  predicate Segment(path: string, i: int, j: int) {
    && 0 <= i <= j <= |path| && '/' !in path[i..j]
    && (i == 0 || path[i - 1] == '/') && (j == |path| || path[j] == '/')
  }

  predicate LoginAt(path: string, i: int, j: int) {
    Segment(path, i, j) && Lower(path[i..j]) == "login"
  }

  /** The first segment, and where every other one starts. */
  lemma {:induction false} FirstSegment(path: string)
    ensures var n := |Endpoints.Before(path, '/')|;
            && Segment(path, 0, n) && path[0..n] == Endpoints.Before(path, '/')
            && (forall k | 0 <= k < n :: path[k] != '/') && (n < |path| ==> path[n] == '/')
  {
    Endpoints.CutAgain(path, '/');
    var first := Endpoints.Before(path, '/');
    forall k | 0 <= k < |first|
      ensures path[k] != '/'
    {
      assert path[k] == first[k];
    }
  }

  lemma {:induction false} SegmentStart(path: string, i: int, j: int)
    requires Segment(path, i, j)
    ensures var n := |Endpoints.Before(path, '/')|; if i == 0 then j == n else i > n
  {
    FirstSegment(path);
    var n := |Endpoints.Before(path, '/')|;
    if i == 0 {
      assert forall k | 0 <= k < j :: path[k] == path[0..j][k];
    }
  }

  /** Later segments are those of what follows the first slash. */
  lemma LaterSegments(path: string, i: int, j: int)
    requires Endpoints.After(path, '/').Some? && i >= 0
    ensures var rest := Endpoints.After(path, '/').value; var n := |path| - |rest|;
            && 0 < n && path[n..] == rest
            && (LoginAt(rest, i, j) <==> LoginAt(path, n + i, n + j))
  {
    var rest := Endpoints.After(path, '/').value;
    var n := |path| - |rest|;
    Endpoints.CutAgain(path, '/');
    assert path[n..] == rest && path[n - 1] == '/';
    if 0 <= i <= j <= |rest| {
      assert rest[i..j] == path[n + i..n + j];
    }
  }

  ghost predicate SomeLogin(path: string) {
    exists i, j :: LoginAt(path, i, j)
  }

  lemma LoginInRest(path: string)
    requires Endpoints.After(path, '/').Some? && SomeLogin(Endpoints.After(path, '/').value)
    ensures SomeLogin(path)
  {
    var rest := Endpoints.After(path, '/').value;
    var i, j :| LoginAt(rest, i, j);
    LaterSegments(path, i, j);
    assert LoginAt(path, |path| - |rest| + i, |path| - |rest| + j);
  }

  lemma {:induction false} LoginFirstOrInRest(path: string, i: int, j: int)
    requires LoginAt(path, i, j)
    ensures Lower(Endpoints.Before(path, '/')) == "login"
            || (Endpoints.After(path, '/').Some? && SomeLogin(Endpoints.After(path, '/').value))
  {
    FirstSegment(path);
    SegmentStart(path, i, j);
    if i > 0 {
      var n := |path| - |Endpoints.After(path, '/').value|;
      LaterSegments(path, i - n, j - n);
    }
  }

  lemma {:induction false} LoginFirst(path: string)
    requires Lower(Endpoints.Before(path, '/')) == "login"
    ensures SomeLogin(path)
  {
    FirstSegment(path);
    assert LoginAt(path, 0, |Endpoints.Before(path, '/')|);
  }

  /** A Location is a login page exactly if a whole segment of its path reads "login": a longer
      word that contains it, such as "login_history", is not taken for one. */
  lemma {:induction false} LoginExact(path: string)
    ensures HasLogin(path) <==> exists i, j :: LoginAt(path, i, j)
    decreases |path|
  {
    var rest := Endpoints.After(path, '/');
    if rest.Some? {
      LoginExact(rest.value);
    }
    if HasLogin(path) {
      if Lower(Endpoints.Before(path, '/')) == "login" {
        LoginFirst(path);
      } else {
        LoginInRest(path);
      }
    } else if i, j :| LoginAt(path, i, j) {
      LoginFirstOrInRest(path, i, j);
    }
  }

  /** A response that means a lost session: a 401; a redirect whose Location has a path segment
      "login"; or, impersonating, a 403 whose first 4 KiB say that the impersonation was closed. */
  ghost predicate MeansLost(r: Response, impersonate: bool) {
    || r.status == 401
    || (300 <= r.status <= 399 && r.location.Some? && SomeLogin(r.location.value))
    || (impersonate && r.status == 403 && SaysClosed(if |r.body| <= 4096 then r.body else r.body[..4096]))
  }

  ghost predicate SaysClosed(text: string) {
    exists before, after :: Lower(text) == before + "impersonation session has been closed" + after
  }

  /** isSessionLossFor is true of these, and of no other response: no 200, no 5xx, no other 403 and no
      other redirect. */
  lemma LossExact(r: Response, impersonate: bool)
    ensures SessionLost(r, impersonate) <==> MeansLost(r, impersonate)
  {
    ContainsExact(Lower(Peeked(r.body)), CLOSED);
    if r.location.Some? {
      LoginExact(r.location.value);
    }
  }

  // ----- one request -----

  type Body = Option<string>

  /** What the transport does, in order. */
  datatype Move =
    | Snapshot(generation: nat, jar: Refresher.Jar)
    | Send(jar: Refresher.Jar, body: Body)
    | Recover(seen: nat)
    | Report(generation: nat, failure: Err)

  datatype Reply = NoAnswer(err: Err) | Answer(response: Response)

  /** The environment by moment, as in module Login. */
  datatype Env = Env(
    session: nat -> (nat, Refresher.Jar),
    reply: nat -> Reply,
    refresh: nat -> Option<Err>,
    report: nat -> Option<Err>)

  function Sends(trace: seq<Move>): nat {
    if trace == [] then 0 else Sends(trace[..|trace| - 1]) + if trace[|trace| - 1].Send? then 1 else 0
  }

  ghost predicate Recovers(trace: seq<Move>) {
    exists m | m in trace :: m.Recover?
  }

  ghost predicate Reports(trace: seq<Move>) {
    exists m | m in trace :: m.Report?
  }

  /** Every send carries the given body and the jar of the latest snapshot. */
  ghost predicate OwnSession(trace: seq<Move>, body: Body) {
    forall i | 0 <= i < |trace| && trace[i].Send? ::
      i > 0 && trace[i].body == body && trace[i - 1].Snapshot? && trace[i].jar == trace[i - 1].jar
  }

  /** The session given to `refresh`, and reported, is that of the snapshot before it. */
  ghost predicate NamesSession(trace: seq<Move>) {
    && (forall i | 0 <= i < |trace| && trace[i].Recover? ::
          i >= 2 && trace[i - 2].Snapshot? && trace[i].seen == trace[i - 2].generation)
    && (forall i | 0 <= i < |trace| && trace[i].Report? ::
          i >= 2 && trace[i - 2].Snapshot? && trace[i].generation == trace[i - 2].generation)
  }

  ghost predicate Sound(trace: seq<Move>, body: Body) {
    OwnSession(trace, body) && NamesSession(trace)
  }

  /** A move that keeps the discipline. */
  ghost predicate Fits(trace: seq<Move>, m: Move, body: Body) {
    var n := |trace|;
    match m
    case Snapshot(_, _) => true
    case Send(jar, sent) => n >= 1 && sent == body && trace[n - 1].Snapshot? && trace[n - 1].jar == jar
    case Recover(seen) => n >= 2 && trace[n - 2].Snapshot? && trace[n - 2].generation == seen
    case Report(generation, _) => n >= 2 && trace[n - 2].Snapshot? && trace[n - 2].generation == generation
  }

  lemma {:induction false} Pushed(trace: seq<Move>, m: Move, body: Body)
    requires Sound(trace, body) && Fits(trace, m, body)
    ensures Sound(trace + [m], body)
    ensures Sends(trace + [m]) == Sends(trace) + if m.Send? then 1 else 0
    ensures Recovers(trace + [m]) <==> Recovers(trace) || m.Recover?
    ensures Reports(trace + [m]) <==> Reports(trace) || m.Report?
  {
    assert (trace + [m])[..|trace|] == trace;
    assert forall x :: x in trace + [m] <==> x in trace || x == m;
  }

  /** One attempt: the session is captured and the request sent with it. */
  method Attempt(env: Env, k: nat, trace0: seq<Move>, body: Body)
    returns (generation: nat, reply: Reply, trace: seq<Move>)
    requires Sound(trace0, body)
    ensures Sound(trace, body)
    ensures trace == trace0 + [Snapshot(generation, env.session(k).1), Send(env.session(k).1, body)]
    ensures generation == env.session(k).0 && reply == env.reply(k + 1)
    ensures Sends(trace) == Sends(trace0) + 1
    ensures (Recovers(trace) <==> Recovers(trace0)) && (Reports(trace) <==> Reports(trace0))
  {
    var jar: Refresher.Jar;
    generation, jar := env.session(k).0, env.session(k).1;
    Pushed(trace0, Snapshot(generation, jar), body);
    trace := trace0 + [Snapshot(generation, jar)];
    Pushed(trace, Send(jar, body), body);
    trace := trace + [Send(jar, body)];
    reply := env.reply(k + 1);
  }

  predicate Lost(reply: Reply, impersonate: bool) {
    reply.Answer? && SessionLost(reply.response, impersonate)
  }

  /** What becomes of a reply that is not a lost session. */
  function Passed(reply: Reply): Result<Response, Err> {
    match reply
    case NoAnswer(err) => Err(err)
    case Answer(response) => Ok(response)
  }

  /** The error of a replay that lost its session as well. */
  function LossError(r: Response): Err {
    Classify(SessionRecovery, Bare(r.status, r.body))
  }

  /** What the caller gets once the session was lost: the error of the recovery; or the reply of
      the replay; or, if that is lost too, the error of reporting it, else the loss itself. */
  function AfterLoss(env: Env, impersonate: bool): Result<Response, Err> {
    if env.refresh(2).Some? then Err(env.refresh(2).value)
    else if !Lost(env.reply(4), impersonate) then Passed(env.reply(4))
    else if env.report(5).Some? then Err(env.report(5).value)
    else Err(LossError(env.reply(4).response))
  }

  /** The replay's session is reported as ineffective. */
  method Note(env: Env, trace0: seq<Move>, generation: nat, failure: Err, body: Body)
    returns (outcome: Result<Response, Err>, trace: seq<Move>)
    requires Sound(trace0, body) && Fits(trace0, Report(generation, failure), body)
    ensures Sound(trace, body) && (Recovers(trace) <==> Recovers(trace0)) && Reports(trace)
    ensures Sends(trace) == Sends(trace0)
    ensures trace == trace0 + [Report(generation, failure)]
    ensures outcome == Err(if env.report(5).Some? then env.report(5).value else failure)
  {
    Pushed(trace0, Report(generation, failure), body);
    trace := trace0 + [Report(generation, failure)];
    var unsaved := env.report(5);
    return Err(if unsaved.Some? then unsaved.value else failure), trace;
  }

  /** The second half, once the session is lost. */
  method Replay(env: Env, trace0: seq<Move>, seen: nat, body: Body, impersonate: bool)
    returns (outcome: Result<Response, Err>, trace: seq<Move>)
    requires Sound(trace0, body) && |trace0| == 2 && !Recovers(trace0) && !Reports(trace0)
    requires Fits(trace0, Recover(seen), body) && seen == env.session(0).0
    ensures Sound(trace, body) && Recovers(trace)
    ensures outcome == AfterLoss(env, impersonate)
    ensures Sends(trace) == Sends(trace0) + if env.refresh(2).None? then 1 else 0
    ensures Reports(trace) <==> env.refresh(2).None? && Lost(env.reply(4), impersonate)
    ensures env.refresh(2).None? && Lost(env.reply(4), impersonate) ==>
              trace != [] && trace[|trace| - 1] == Report(env.session(3).0, LossError(env.reply(4).response))
  {
    Pushed(trace0, Recover(seen), body);
    trace := trace0 + [Recover(seen)];
    var failed := env.refresh(2);
    if failed.Some? {
      return Err(failed.value), trace;
    }
    var generation, retried;
    generation, retried, trace := Attempt(env, 3, trace, body);
    if !Lost(retried, impersonate) {
      return Passed(retried), trace;
    }
    outcome, trace := Note(env, trace, generation, LossError(retried.response), body);
  }

  lemma Losses(env: Env, impersonate: bool)
    ensures forall k: nat | env.reply(k).Answer? ::
              && (SessionLost(env.reply(k).response, impersonate) <==> MeansLost(env.reply(k).response, impersonate))
              && var e := LossError(env.reply(k).response);
              && e.Auth? && e.stage == SessionRecovery
              && AsApi(e) == Some(Api(env.reply(k).response.status, env.reply(k).response.body))
  {
    forall k: nat | env.reply(k).Answer?
      ensures SessionLost(env.reply(k).response, impersonate) <==> MeansLost(env.reply(k).response, impersonate)
    {
      LossExact(env.reply(k).response, impersonate);
    }
  }

  /** RoundTrip. The caller never gets a response that means a lost session. The request goes out
      at most twice, with one body, each time with the cookies of the session current then; the
      second time only after a lost session and a successful recovery, and then with the session
      current after it (module RefresherRuns says when that is a newer one). A failure is reported
      exactly when the replay loses its session too, for the replay's own generation. */
  method RoundTrip(env: Env, body: Result<Body, Err>, impersonate: bool)
    returns (outcome: Result<Response, Err>, trace: seq<Move>)
    ensures outcome.Ok? ==> !MeansLost(outcome.value, impersonate)
    ensures body.Err? ==> trace == [] && outcome == Err(body.error)
    ensures body.Ok? ==> (Recovers(trace) <==> env.reply(1).Answer? && MeansLost(env.reply(1).response, impersonate))
    ensures body.Ok? && !Recovers(trace) ==>
              && Sends(trace) == 1
              && outcome == match env.reply(1) case NoAnswer(err) => Err(err) case Answer(response) => Ok(response)
    ensures body.Ok? && Recovers(trace) && env.refresh(2).Some? ==>
              Sends(trace) == 1 && outcome == Err(env.refresh(2).value)
    ensures body.Ok? && Recovers(trace) && env.refresh(2).None? ==>
              && Sends(trace) == 2
              && match env.reply(4)
                 case NoAnswer(err) => outcome == Err(err) && !Reports(trace)
                 case Answer(response) =>
                   if !MeansLost(response, impersonate) then outcome == Ok(response) && !Reports(trace)
                   else
                     && Reports(trace) && outcome.Err?
                     && if env.report(5).Some? then outcome.error == env.report(5).value
                        else outcome.error.Auth? && outcome.error.stage == SessionRecovery
                             && AsApi(outcome.error) == Some(Api(response.status, response.body))
    ensures body.Ok? ==>
              && Sound(trace, body.value)
              && (Recovers(trace) <==> Lost(env.reply(1), impersonate))
              && outcome == (if Recovers(trace) then AfterLoss(env, impersonate) else Passed(env.reply(1)))
              && Sends(trace) == (if Recovers(trace) && env.refresh(2).None? then 2 else 1)
              && (Reports(trace) <==> Sends(trace) == 2 && Lost(env.reply(4), impersonate))
              && (Reports(trace) ==>
                    trace != [] && trace[|trace| - 1] == Report(env.session(3).0, LossError(env.reply(4).response)))
  {
    if body.Err? {
      return Err(body.error), [];
    }
    Losses(env, impersonate);
    var generation, first;
    generation, first, trace := Attempt(env, 0, [], body.value);
    if !Lost(first, impersonate) {
      return Passed(first), trace;
    }
    outcome, trace := Replay(env, trace, generation, body.value, impersonate);
  }

  /** A replay that is lost again with a 401, a login redirect or, impersonating, a 403 is
      reported and returned as a lost session, unless its body speaks of a rate limit. */
  lemma LossIsClassified(r: Response, impersonate: bool)
    requires MeansLost(r, impersonate)
    ensures var e := LossError(r);
            && e.stage == SessionRecovery && AsApi(e) == Some(Api(r.status, r.body))
            && (e.kind == PersistentSessionLoss <==> !IsRateLimited(e))
            && (e.kind == RateLimited <==> IsRateLimited(e))
  {
    LossExact(r, impersonate);
    KindExact(SessionRecovery, Bare(r.status, r.body));
  }
}

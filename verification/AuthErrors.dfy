/** errors.go and isRateLimited of session.go: how a failed authentication stage is
    classified, and which delay its error carries. */
module AuthErrors {
  import opened Prelude

  datatype Stage = Login | OtpVerification | Impersonation | SessionRecovery

  datatype Kind =
    | RejectedCredentials
    | RejectedOtp
    | PermissionDenied
    | RateLimited
    | PersistentSessionLoss
    | TransportFailure
    | StorageFailure

  /** The error values that reach classification. `Response` is authAPIError around its
      APIError, `Bare` an APIError alone, `Ended` an ended context, `Storage` a cause wrapped
      with ErrOTPStateStorage, `Joined` errors.Join. Delays are in nanoseconds. */
  datatype Err =
    | Bare(status: int, body: string)
    | Response(status: int, body: string, retryAfter: int)
    | Ended(deadline: bool)
    | Other(text: string)
    | Storage(cause: Err)
    | Joined(first: Err, second: Err)
    | Auth(stage: Stage, kind: Kind, wrapped: Option<Err>, delay: int)

  datatype Api = Api(status: int, body: string)

  /** errors.As to *APIError, depth first. */
  function AsApi(e: Err): Option<Api> {
    match e
    case Bare(status, body) => Some(Api(status, body))
    case Response(status, body, _) => Some(Api(status, body))
    case Storage(cause) => AsApi(cause)
    case Joined(a, b) => if AsApi(a).Some? then AsApi(a) else AsApi(b)
    case Auth(_, _, Some(cause), _) => AsApi(cause)
    case _ => None
  }

  /** errors.As to *AuthError. */
  function AsAuth(e: Err): Option<Err> {
    match e
    case Auth(_, _, _, _) => Some(e)
    case Storage(cause) => AsAuth(cause)
    case Joined(a, b) => if AsAuth(a).Some? then AsAuth(a) else AsAuth(b)
    case _ => None
  }

  /** errors.As to *authAPIError. */
  function AsResponse(e: Err): Option<Err> {
    match e
    case Response(_, _, _) => Some(e)
    case Storage(cause) => AsResponse(cause)
    case Joined(a, b) => if AsResponse(a).Some? then AsResponse(a) else AsResponse(b)
    case Auth(_, _, Some(cause), _) => AsResponse(cause)
    case _ => None
  }

  predicate IsStorage(e: Err) {
    match e
    case Storage(_) => true
    case Joined(a, b) => IsStorage(a) || IsStorage(b)
    case Auth(_, _, Some(cause), _) => IsStorage(cause)
    case _ => false
  }

  /** errors.Is against context.Canceled or context.DeadlineExceeded. */
  predicate IsEnded(e: Err) {
    match e
    case Ended(_) => true
    case Storage(cause) => IsEnded(cause)
    case Joined(a, b) => IsEnded(a) || IsEnded(b)
    case Auth(_, _, Some(cause), _) => IsEnded(cause)
    case _ => false
  }

  function LowerChar(c: char): char {
    if 'A' <= c <= 'Z' then c - 'A' + 'a' else c
  }

  function Lower(s: string): string {
    seq(|s|, i requires 0 <= i < |s| => LowerChar(s[i]))
  }

  predicate Contains(s: string, part: string) {
    exists i | 0 <= i <= |s| :: part <= s[i..]
  }

  predicate IsRateLimited(e: Err) {
    match AsApi(e)
    case None => false
    case Some(api) =>
      || api.status == 429
      || Contains(Lower(api.body), "too many")
      || Contains(Lower(api.body), "wait a minute")
      || Contains(Lower(api.body), "rate limit")
  }

  const LOCKOUT_WAIT: int := 61_000_000_000

  /** authRetryAfter: the delay an error asks for, zero when it asks for none. */
  function RetryAfter(e: Err): int {
    var own := AsAuth(e);
    if own.Some? && own.value.Auth? && own.value.delay > 0 then own.value.delay
    else
      var response := AsResponse(e);
      if response.None? || !response.value.Response? then 0
      else if response.value.retryAfter > 0 then response.value.retryAfter
      else if Contains(Lower(response.value.body), "wait a minute") then LOCKOUT_WAIT
      else 0
  }

  function KindOf(stage: Stage, e: Err): Kind {
    if IsStorage(e) then StorageFailure
    else if IsRateLimited(e) then RateLimited
    else
      match AsApi(e)
      case None => TransportFailure
      case Some(api) =>
        if api.status >= 500 then TransportFailure
        else
          match stage
          case Login =>
            if api.status == 400 || api.status == 401 then RejectedCredentials
            else if api.status == 403 then PermissionDenied
            else TransportFailure
          case OtpVerification =>
            if api.status == 400 || api.status == 401 then RejectedOtp
            else if api.status == 403 then PermissionDenied
            else TransportFailure
          case Impersonation =>
            if api.status == 401 || api.status == 403 then PermissionDenied else TransportFailure
          case SessionRecovery =>
            if api.status == 401 || api.status == 403 || 300 <= api.status <= 399 then PersistentSessionLoss
            else TransportFailure
  }

  /** classifyAuthError on an actual error. */
  function Classify(stage: Stage, e: Err): Err {
    if AsAuth(e).Some? then AsAuth(e).value
    else Auth(stage, KindOf(stage, e), Some(e), RetryAfter(e))
  }

  // ----- texts, statuses and kinds -----

  /** Lower-casing changes the ASCII capitals, character by character, and nothing else. */
  lemma LowerExact(s: string, i: nat)
    requires i < |s|
    ensures |Lower(s)| == |s|
    ensures Lower(s)[i] as int == if 65 <= s[i] as int <= 90 then s[i] as int + 32 else s[i] as int
  {
  }

  lemma ContainsExact(s: string, part: string)
    ensures Contains(s, part) <==> exists before, after :: s == before + part + after
  {
    if Contains(s, part) {
      var i :| 0 <= i <= |s| && part <= s[i..];
      assert s == s[..i] + part + s[i + |part|..];
    }
    if before, after :| s == before + part + after {
      assert s[|before|..] == part + after;
    }
  }

  /** An answer of the server is a rate limit, before and after classification, exactly if it is a
      429 or its text says so in any case; the delay it asks for is its Retry-After, else 61 seconds
      if its text asks to wait a minute, else none. */
  lemma AnswerExact(stage: Stage, status: int, body: string, retryAfter: int)
    ensures var e := Response(status, body, retryAfter);
            && (IsRateLimited(Classify(stage, e)) <==>
                  status == 429 || Contains(Lower(body), "too many") || Contains(Lower(body), "wait a minute")
                  || Contains(Lower(body), "rate limit"))
            && RetryAfter(Classify(stage, e)) ==
               if retryAfter > 0 then retryAfter
               else if Contains(Lower(body), "wait a minute") then 61_000_000_000 else 0
  {
    var e := Response(status, body, retryAfter);
    assert AsAuth(e).None?;
    ClassifyIsTransparent(stage, stage, e);
  }

  /** Every kind, by what gives it. */
  lemma {:induction false} KindExact(stage: Stage, e: Err)
    requires AsAuth(e).None?
    ensures var kind := Classify(stage, e).kind;
            var plain := !IsStorage(e) && !IsRateLimited(e);
            var status := if AsApi(e).Some? then AsApi(e).value.status else 0;
            && (kind == StorageFailure <==> IsStorage(e))
            && (kind == RateLimited <==> !IsStorage(e) && IsRateLimited(e))
            && (kind == RejectedCredentials <==> plain && stage == Login && (status == 400 || status == 401))
            && (kind == RejectedOtp <==> plain && stage == OtpVerification && (status == 400 || status == 401))
            && (kind == PermissionDenied <==>
                  plain && ((stage == Login && status == 403) || (stage == OtpVerification && status == 403)
                            || (stage == Impersonation && (status == 401 || status == 403))))
            && (kind == PersistentSessionLoss <==>
                  plain && stage == SessionRecovery && (status == 401 || status == 403 || 300 <= status <= 399))
    ensures Classify(stage, e).stage == stage && Classify(stage, e).wrapped == Some(e)
    ensures Classify(stage, e).delay == RetryAfter(e)
  {
  }

  // ----- the login loop may decide on the classified error -----

  lemma {:induction false} AsAuthIsAuth(e: Err)
    ensures AsAuth(e).Some? ==> AsAuth(e).value.Auth?
  {
    match e
    case Storage(cause) => AsAuthIsAuth(cause);
    case Joined(a, b) => AsAuthIsAuth(a); AsAuthIsAuth(b);
    case _ =>
  }

  lemma {:induction false} AsResponseIsResponse(e: Err)
    ensures AsResponse(e).Some? ==> AsResponse(e).value.Response?
  {
    match e
    case Storage(cause) => AsResponseIsResponse(cause);
    case Joined(a, b) => AsResponseIsResponse(a); AsResponseIsResponse(b);
    case Auth(_, _, Some(cause), _) => AsResponseIsResponse(cause);
    case _ =>
  }

  /** Classification loses nothing the login loop looks at: a classified error is rate limited
      exactly when the original was, asks for the same delay, stays what it is when classified
      again at any stage, and wears the rate-limit kind exactly when the loop will retry it. */
  lemma {:induction false} ClassifyIsTransparent(stage: Stage, again: Stage, e: Err)
    requires AsAuth(e).None?
    ensures var c := Classify(stage, e);
            && (IsRateLimited(c) <==> IsRateLimited(e))
            && RetryAfter(c) == RetryAfter(e)
            && Classify(again, c) == c
            && (c.kind == RateLimited <==> IsRateLimited(e) && !IsStorage(e))
  {
    AsResponseIsResponse(e);
    var c := Classify(stage, e);
    assert AsAuth(c) == Some(c) && AsResponse(c) == AsResponse(e) && AsApi(c) == AsApi(e);
  }

  /** Where joined errors are given up for an AuthError in one of them: whether a rate limit is
      lost that way. Of two errors the first with an AuthError is kept, while the rate limit is
      read off the first with an API error. */
  predicate LosesLimit(e: Err) {
    match e
    case Storage(cause) => LosesLimit(cause)
    case Joined(a, b) =>
      if AsAuth(a).Some? then if AsApi(a).Some? then LosesLimit(a) else IsRateLimited(b)
      else if AsApi(a).Some? then AsAuth(b).Some? && IsRateLimited(a) && !IsRateLimited(AsAuth(b).value)
      else LosesLimit(b)
    case _ => false
  }

  lemma {:induction false} NoApiInside(e: Err)
    requires AsAuth(e).Some? && AsApi(e).None?
    ensures AsApi(AsAuth(e).value).None?
  {
    match e
    case Storage(cause) => NoApiInside(cause);
    case Joined(a, b) => NoApiInside(if AsAuth(a).Some? then a else b);
    case _ =>
  }

  /** An error that contains an AuthError is replaced by it. Storage wrappers around it change
      nothing; among joined errors a rate limit is lost exactly if the AuthError kept has none of
      its own and comes after an error with the limit, or before one and without any API error. */
  lemma {:induction false} ClassifyKeepsInner(stage: Stage, e: Err)
    requires AsAuth(e).Some?
    ensures IsRateLimited(e) && !IsRateLimited(Classify(stage, e)) <==> LosesLimit(e)
  {
    match e
    case Storage(cause) => ClassifyKeepsInner(stage, cause);
    case Joined(a, b) =>
      if AsAuth(a).Some? {
        if AsApi(a).Some? {
          ClassifyKeepsInner(stage, a);
        } else {
          NoApiInside(a);
        }
      } else if AsApi(a).None? {
        ClassifyKeepsInner(stage, b);
      }
    case _ =>
  }

  // ----- ended contexts -----

  lemma {:induction false} EndedInside(e: Err)
    requires AsAuth(e).Some? && IsEnded(AsAuth(e).value)
    ensures IsEnded(e)
  {
    match e
    case Storage(cause) => EndedInside(cause);
    case Joined(a, b) => EndedInside(if AsAuth(a).Some? then a else b);
    case _ =>
  }

  /** An error born of an ended context is still recognized as one after classification, unless it
      contains an AuthError that is not; and no other error ever is. */
  lemma {:induction false} ClassifyKeepsEnded(stage: Stage, e: Err)
    ensures AsAuth(e).None? ==> (IsEnded(Classify(stage, e)) <==> IsEnded(e))
    ensures IsEnded(Classify(stage, e)) ==> IsEnded(e)
  {
    if AsAuth(e).Some? && IsEnded(AsAuth(e).value) {
      EndedInside(e);
    }
  }

  // ----- Retry-After -----

  /** A trimmed header value: a decimal integer, an HTTP date, or neither. */
  datatype Header = Seconds(n: int) | Date(at: int) | Unreadable

  const MAX_INT64: int := 0x7fff_ffff_ffff_ffff
  const NANOS: int := 1_000_000_000
  const MAX_SECONDS: int := MAX_INT64 / NANOS

  function ParseRetryAfter(h: Header, now: int): int {
    match h
    case Seconds(n) => if 0 <= n <= MAX_SECONDS then n * NANOS else 0
    case Date(at) => if at - now > 0 then at - now else 0
    case Unreadable => 0
  }

  /** The delay is never negative; a number of seconds is honoured to the nanosecond exactly
      when it is nonnegative and its nanoseconds fit a 64-bit duration. */
  lemma RetryAfterExact(h: Header, now: int)
    ensures ParseRetryAfter(h, now) >= 0
    ensures h.Seconds? ==>
              (ParseRetryAfter(h, now) == h.n * NANOS <==> 0 <= h.n * NANOS <= MAX_INT64)
    ensures h.Date? ==> now + ParseRetryAfter(h, now) == Max(now, h.at)
  {
    if h.Seconds? {
      assert h.n <= MAX_SECONDS <==> h.n * NANOS <= MAX_INT64;
    }
  }
}

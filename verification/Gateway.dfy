/** The inference gateway (room/inference_gateway.py): signed routes and the upstream retry loop. */
module Gateway {
  import opened Common

  // ---- signed job routes ------------------------------------------------------------------

  // HMAC-SHA256 over an ASCII payload, as an arbitrary function to text.
  type Signer = string -> string

  datatype RouteError = BadJobId | BadProvider | NotConfigured

  datatype Route = Route(jobId: string, provider: string, signature: string)

  function RoutePayload(jobId: string, provider: string): string {
    "kata-inference-route-v1:" + (jobId + [':'] + provider)
  }

  function RouteToken(r: Route): string { r.jobId + ['~'] + (r.provider + ['~'] + r.signature) }

  function RoutePath(token: string): string { "/j/" + token + "/inference" }

  function MakeJobRouteToken(
      configured: bool, sign: Signer, jobId: string, provider: string): Result<string, RouteError> {
    if !IsJobId(jobId) then Err(BadJobId)
    else if !IsProviderId(provider) then Err(BadProvider)
    else if !configured then Err(NotConfigured)
    else Ok(RouteToken(Route(jobId, provider, sign(RoutePayload(jobId, provider)))))
  }

  // The route pattern as a relation: what its named groups may be.
  predicate Matches(path: string, r: Route) {
    && IsJobId(r.jobId) && IsProviderId(r.provider) && IsDigest(r.signature)
    && path == RoutePath(RouteToken(r))
  }

  // The token between the fixed prefix and suffix of a path.
  function TokenOf(path: string): Option<string> {
    if |path| >= 13 && path[..3] == "/j/" && path[|path| - 10..] == "/inference"
    then Some(path[3..|path| - 10]) else None
  }

  function ParseToken(token: string): Option<Route> {
    var i := Find(token, '~');
    if i == |token| then None
    else
      var rest := token[i + 1..];
      var j := Find(rest, '~');
      if j == |rest| then None
      else
        var r := Route(token[..i], rest[..j], rest[j + 1..]);
        if IsJobId(r.jobId) && IsProviderId(r.provider) && IsDigest(r.signature) then Some(r) else None
  }

  function ParseRoute(path: string): Option<Route> {
    match TokenOf(path)
    case None => None
    case Some(token) => ParseToken(token)
  }

  function ProviderFromRoute(configured: bool, sign: Signer, path: string): Option<(string, string)> {
    match ParseRoute(path)
    case None => None
    case Some(r) =>
      if configured && r.signature == sign(RoutePayload(r.jobId, r.provider)) then Some((r.jobId, r.provider)) else None
  }

  lemma TokenOfPath(token: string)
    ensures TokenOf(RoutePath(token)) == Some(token)
  {
    var path := RoutePath(token);
    assert path[..3] == "/j/" && path[|path| - 10..] == "/inference";
  }

  lemma PathOfToken(path: string)
    requires TokenOf(path).Some?
    ensures path == RoutePath(TokenOf(path).value)
  {
    assert path == path[..3] + path[3..|path| - 10] + path[|path| - 10..];
  }

  lemma ParsesItsToken(r: Route)
    requires IsJobId(r.jobId) && IsProviderId(r.provider) && IsDigest(r.signature)
    ensures ParseToken(RouteToken(r)) == Some(r)
  {
    SeparatorSplits('~', r.jobId, r.provider + ['~'] + r.signature);
    SeparatorSplits('~', r.provider, r.signature);
  }

  lemma TokenOfParse(token: string)
    requires ParseToken(token).Some?
    ensures token == RouteToken(ParseToken(token).value)
  {
    var i := Find(token, '~');
    var rest := token[i + 1..];
    var j := Find(rest, '~');
    assert rest == rest[..j] + ['~'] + rest[j + 1..];
    assert token == token[..i] + ['~'] + rest;
  }

  // Splitting at the separators is matching the pattern: every matching path has exactly one
  // decomposition, and the parser finds it.
  lemma ParseIffMatches(path: string, r: Route)
    ensures ParseRoute(path) == Some(r) <==> Matches(path, r)
  {
    if Matches(path, r) {
      TokenOfPath(RouteToken(r));
      ParsesItsToken(r);
    }
    if ParseRoute(path) == Some(r) {
      PathOfToken(path);
      TokenOfParse(TokenOf(path).value);
    }
  }

  // The room accepts a path for a pair exactly when it is the path of the token the room would
  // print for that pair: print and parse undo each other, and nothing else is accepted.
  lemma AcceptedIffPrinted(configured: bool, sign: Signer, path: string, jobId: string, provider: string)
    requires IsDigest(sign(RoutePayload(jobId, provider)))
    ensures var made := MakeJobRouteToken(configured, sign, jobId, provider);
            ProviderFromRoute(configured, sign, path) == Some((jobId, provider))
            <==> made.Ok? && path == RoutePath(made.value)
  {
    ParseIffMatches(path, Route(jobId, provider, sign(RoutePayload(jobId, provider))));
    if ParseRoute(path).Some? { ParseIffMatches(path, ParseRoute(path).value); }
  }

  // The printed text itself, and each refusal to print.
  lemma RouteIs(configured: bool, sign: Signer, jobId: string, provider: string)
    ensures match MakeJobRouteToken(configured, sign, jobId, provider)
            case Ok(token) =>
              && IsJobId(jobId) && IsProviderId(provider) && configured
              && token == jobId + "~" + provider + "~" + sign("kata-inference-route-v1:" + jobId + ":" + provider)
              && RoutePath(token) == "/j/" + token + "/inference"
            case Err(BadJobId) => !IsJobId(jobId)
            case Err(BadProvider) => IsJobId(jobId) && !IsProviderId(provider)
            case Err(NotConfigured) => IsJobId(jobId) && IsProviderId(provider) && !configured
  {
    var payload := RoutePayload(jobId, provider);
    assert payload == "kata-inference-route-v1:" + jobId + ":" + provider;
    assert RouteToken(Route(jobId, provider, sign(payload))) == jobId + "~" + provider + "~" + sign(payload);
  }

  // The signed payload determines the pair.
  lemma PayloadIsInjective(j1: string, p1: string, j2: string, p2: string)
    requires IsJobId(j1) && IsJobId(j2)
    requires RoutePayload(j1, p1) == RoutePayload(j2, p2)
    ensures j1 == j2 && p1 == p2
  {
    SeparatorSplits(':', j1, p1);
    SeparatorSplits(':', j2, p2);
    assert RoutePayload(j1, p1)[24..] == j1 + [':'] + p1;
    assert RoutePayload(j2, p2)[24..] == j2 + [':'] + p2;
  }

  // Two different payloads with one signature.
  ghost predicate Collides(sign: Signer, a: string, b: string) { a != b && sign(a) == sign(b) }

  // Short of a collision of the signer, one signature is good for one pair and one path: no token
  // can be altered to name another job or provider.
  lemma SignatureBindsOnePair(sign: Signer, path1: string, path2: string)
    requires ProviderFromRoute(true, sign, path1).Some? && ProviderFromRoute(true, sign, path2).Some?
    requires ParseRoute(path1).value.signature == ParseRoute(path2).value.signature
    ensures var a, b := ParseRoute(path1).value, ParseRoute(path2).value;
            var x, y := RoutePayload(a.jobId, a.provider), RoutePayload(b.jobId, b.provider);
            (a == b && path1 == path2) || Collides(sign, x, y)
  {
    var a, b := ParseRoute(path1).value, ParseRoute(path2).value;
    ParseIffMatches(path1, a);
    ParseIffMatches(path2, b);
    if RoutePayload(a.jobId, a.provider) == RoutePayload(b.jobId, b.provider) {
      PayloadIsInjective(a.jobId, a.provider, b.jobId, b.provider);
    }
  }

  // ---- the retry loop ---------------------------------------------------------------------

  const DEFAULT_MAX_ATTEMPTS := 2

  // An environment value read as an integer.
  datatype EnvInt = Unset | NotInteger | Integer(n: int)

  function ResolveMaxAttempts(raw: EnvInt): (n: nat)
    ensures 1 <= n <= 4
  {
    if raw.Integer? && 1 <= raw.n <= 4 then raw.n else DEFAULT_MAX_ATTEMPTS
  }

  // How one upstream request ends: a response, an HTTP error, one whose body cannot be read, no
  // connection, or some other exception, which leaves the loop without a record or a reply.
  datatype Upstream =
    | Response(status: int, tokens: int)
    | HttpError(code: int)
    | HttpErrorUnreadable(code: int)
    | NoConnection
    | Escapes

  // A retried error's body is never read.
  predicate Retryable(u: Upstream) {
    || u.NoConnection?
    || ((u.HttpError? || u.HttpErrorUnreadable?) && (u.code == 502 || u.code == 503 || u.code == 504))
  }

  // What is tried again: no connection, and the three transient HTTP errors.
  lemma RetryableIff(u: Upstream)
    ensures match u
            case NoConnection => Retryable(u)
            case HttpError(code) => Retryable(u) <==> code in {502, 503, 504}
            case HttpErrorUnreadable(code) => Retryable(u) <==> code in {502, 503, 504}
            case Response(_, _) => !Retryable(u)
            case Escapes => !Retryable(u)
  {
  }

  // A configured number from one to four is taken; anything else means two.
  lemma AttemptsAre(raw: EnvInt)
    ensures ResolveMaxAttempts(raw) == if raw in {Integer(1), Integer(2), Integer(3), Integer(4)} then raw.n else 2
  {
  }

  function Power2(n: nat): nat { if n == 0 then 1 else 2 * Power2(n - 1) }

  // The capped exponential delay after a failed attempt (1, 2, ...).
  function Delay(base: real, attempt: nat): (delay: real)
    requires attempt >= 1
    ensures 0.0 <= delay <= 5.0
  {
    var floor := if base > 0.0 then base else 0.0;
    ProductIsNonNegative(floor, Power2(attempt - 1) as real);
    var grown := floor * Power2(attempt - 1) as real;
    if grown < 5.0 then grown else 5.0
  }

  // The wait: the delay and a drawn fraction of a quarter of it.
  function Backoff(base: real, attempt: nat, draw: real): (seconds: real)
    requires attempt >= 1 && 0.0 <= draw <= 1.0
    ensures Delay(base, attempt) <= seconds <= Delay(base, attempt) * 1.25 <= 6.25
  {
    var delay := Delay(base, attempt);
    JitterBound(delay, draw);
    delay + draw * (delay * 0.25)
  }

  // From one attempt to the next the delay doubles until its cap, and it never shrinks.
  lemma DelayDoubles(base: real, attempt: nat)
    requires attempt >= 1
    ensures Delay(base, attempt + 1) == if Delay(base, attempt) < 2.5 then 2.0 * Delay(base, attempt) else 5.0
  {
    Doubles(if base > 0.0 then base else 0.0, Power2(attempt - 1) as real);
    assert Power2(attempt) as real == 2.0 * Power2(attempt - 1) as real;
  }

  // The first delay is the base, between zero and five seconds.
  lemma FirstDelayIs(base: real)
    ensures Delay(base, 1) == if base <= 0.0 then 0.0 else if base >= 5.0 then 5.0 else base
  {
    assert Power2(0) == 1;
  }

  // The jitter is a quarter of the delay at most, in proportion to the draw.
  lemma BackoffIs(base: real, attempt: nat, draw: real)
    requires attempt >= 1 && 0.0 <= draw <= 1.0
    ensures Backoff(base, attempt, draw) == Delay(base, attempt) * (1.0 + draw / 4.0)
  {
    var delay := Delay(base, attempt);
    assert draw * (delay * 0.25) == delay * (draw / 4.0);
  }

  lemma Doubles(x: real, y: real)
    ensures x * (2.0 * y) == 2.0 * (x * y)
  {
  }

  lemma JitterBound(delay: real, draw: real)
    requires 0.0 <= delay <= 5.0 && 0.0 <= draw <= 1.0
    ensures 0.0 <= draw * (delay * 0.25) <= delay * 0.25
  {
    var quarter := delay * 0.25;
    ProductIsNonNegative(draw, quarter);
    ProductIsNonNegative(1.0 - draw, quarter);
    assert (1.0 - draw) * quarter == quarter - draw * quarter;
  }

  lemma ProductIsNonNegative(x: real, y: real)
    requires x >= 0.0 && y >= 0.0
    ensures x * y >= 0.0
  {
  }

  // The attempt whose result is final: the first that is not retryable, or the last permitted.
  function FinalAttempt(results: seq<Upstream>): (k: nat)
    requires results != []
    ensures k < |results|
  {
    if |results| == 1 || !Retryable(results[0]) then 0 else 1 + FinalAttempt(results[1..])
  }

  lemma {:induction false} FinalAttemptIs(results: seq<Upstream>, k: nat)
    requires k < |results|
    requires forall i | 0 <= i < k :: Retryable(results[i])
    requires k == |results| - 1 || !Retryable(results[k])
    ensures FinalAttempt(results) == k
  {
    if k > 0 { FinalAttemptIs(results[1..], k - 1); }
  }

  // What the outcome log and the caller get for a final result.
  function RecordedAs(u: Upstream): seq<(int, int)> {
    match u
    case Response(status, tokens) => [(status, tokens)]
    case HttpError(code) => [(code, 0)]
    case HttpErrorUnreadable(code) => [(code, 0)]
    case NoConnection => [(0, 0)]
    case Escapes => []
  }

  datatype Reply = Relayed(status: int) | Made(status: int)

  function RepliedAs(u: Upstream): seq<Reply> {
    match u
    case Response(status, _) => [Relayed(status)]
    case HttpError(code) => [Relayed(code)]
    case HttpErrorUnreadable(_) => []
    case NoConnection => [Made(502)]
    case Escapes => []
  }

  // The waits a retry loop takes before its final attempt.
  function Waits(results: seq<Upstream>, base: real, draws: seq<real>): seq<real>
    requires results != [] && |results| <= |draws| && forall i | 0 <= i < |draws| :: 0.0 <= draws[i] <= 1.0
  {
    seq(FinalAttempt(results), i requires 0 <= i < FinalAttempt(results) => Backoff(base, i + 1, draws[i]))
  }

  datatype Effects = Effects(outcomes: seq<(int, int)>, replies: seq<Reply>, waits: seq<real>, calls: nat)

  // The effects of _forward.  A missing key and a provider that is not enabled are answered without
  // calling anyone.
  function ForwardEffects(hasKey: bool, enabled: bool, results: seq<Upstream>, base: real, draws: seq<real>): Effects
    requires results != [] && |results| <= |draws| && forall i | 0 <= i < |draws| :: 0.0 <= draws[i] <= 1.0
  {
    if !hasKey then Effects([(401, 0)], [Made(401)], [], 0)
    else if !enabled then Effects([(502, 0)], [Made(502)], [], 0)
    else
      var k := FinalAttempt(results);
      Effects(RecordedAs(results[k]), RepliedAs(results[k]), Waits(results, base, draws), k + 1)
  }

  // What a request that calls out does, from the upstream's results: it waits after each transient
  // one, and records and relays the status of the first that is not, or of the last permitted.
  lemma ForwardIs(results: seq<Upstream>, base: real, draws: seq<real>, k: nat)
    requires k < |results| <= |draws| && forall i | 0 <= i < |draws| :: 0.0 <= draws[i] <= 1.0
    requires (forall i | 0 <= i < k :: Retryable(results[i])) && (k == |results| - 1 || !Retryable(results[k]))
    ensures var effects := ForwardEffects(true, true, results, base, draws);
            && effects.calls == k + 1
            && |effects.waits| == k && (forall i | 0 <= i < k :: effects.waits[i] == Backoff(base, i + 1, draws[i]))
            && match results[k]
               case Response(status, tokens) =>
                 effects.outcomes == [(status, tokens)] && effects.replies == [Relayed(status)]
               case HttpError(code) => effects.outcomes == [(code, 0)] && effects.replies == [Relayed(code)]
               case HttpErrorUnreadable(code) => effects.outcomes == [(code, 0)] && effects.replies == []
               case NoConnection => effects.outcomes == [(0, 0)] && effects.replies == [Made(502)]
               case Escapes => effects.outcomes == [] && effects.replies == []
  {
    FinalAttemptIs(results, k);
  }

  // What a request that does not call out does.
  lemma EarlyAnswersAre(enabled: bool, results: seq<Upstream>, base: real, draws: seq<real>)
    requires 1 <= |results| <= |draws| && forall i | 0 <= i < |draws| :: 0.0 <= draws[i] <= 1.0
    ensures ForwardEffects(false, enabled, results, base, draws) == Effects([(401, 0)], [Made(401)], [], 0)
    ensures ForwardEffects(true, false, results, base, draws) == Effects([(502, 0)], [Made(502)], [], 0)
  {
  }

  function Total(seconds: seq<real>): real {
    if seconds == [] then 0.0 else Total(seconds[..|seconds| - 1]) + seconds[|seconds| - 1]
  }

  // One request handler and its effects: outcomes appended, replies sent, waits taken, calls made.
  class Handler {
    var outcomes: seq<(int, int)>
    var replies: seq<Reply>
    var waits: seq<real>
    var calls: nat

    constructor ()
      ensures outcomes == [] && replies == [] && waits == [] && calls == 0
    {
      outcomes, replies, waits, calls := [], [], [], 0;
    }

    method Finish(u: Upstream)
      modifies this`outcomes, this`replies
      ensures outcomes == old(outcomes) + RecordedAs(u)
      ensures replies == old(replies) + RepliedAs(u)
    {
      match u {
        case Response(status, tokens) =>
          outcomes := outcomes + [(status, tokens)];
          replies := replies + [Relayed(status)];
        case HttpError(code) =>
          outcomes := outcomes + [(code, 0)];
          replies := replies + [Relayed(code)];
        // The outcome is recorded before the body is read for the relay.
        case HttpErrorUnreadable(code) =>
          outcomes := outcomes + [(code, 0)];
        case NoConnection =>
          outcomes := outcomes + [(0, 0)];
          replies := replies + [Made(502)];
        case Escapes =>
      }
    }

    // `results` is what each permitted attempt would meet and `draws` the random fractions.
    method Retry(results: seq<Upstream>, base: real, draws: seq<real>)
      requires 1 <= |results| <= |draws| && forall i | 0 <= i < |draws| :: 0.0 <= draws[i] <= 1.0
      modifies this
      ensures var k := FinalAttempt(results);
              && calls == old(calls) + k + 1
              && outcomes == old(outcomes) + RecordedAs(results[k])
              && replies == old(replies) + RepliedAs(results[k])
              && waits == old(waits) + Waits(results, base, draws)
    {
      var attempts := |results|;
      ghost var taken := [];
      for attempt := 1 to attempts + 1
        invariant attempt <= attempts
        invariant calls == old(calls) + attempt - 1
        invariant outcomes == old(outcomes) && replies == old(replies) && waits == old(waits) + taken
        invariant |taken| == attempt - 1
        invariant forall i | 0 <= i < |taken| :: Retryable(results[i]) && taken[i] == Backoff(base, i + 1, draws[i])
      {
        var u := results[attempt - 1];
        calls := calls + 1;
        if Retryable(u) && attempt < attempts {
          var wait := Backoff(base, attempt, draws[attempt - 1]);
          waits := waits + [wait];
          taken := taken + [wait];
          continue;
        }
        FinalAttemptIs(results, attempt - 1);
        assert taken == Waits(results, base, draws);
        Finish(u);
        return;
      }
    }

    method Forward(hasKey: bool, enabled: bool, results: seq<Upstream>, base: real, draws: seq<real>)
      requires 1 <= |results| <= |draws| && forall i | 0 <= i < |draws| :: 0.0 <= draws[i] <= 1.0
      modifies this
      ensures var effects := ForwardEffects(hasKey, enabled, results, base, draws);
              && outcomes == old(outcomes) + effects.outcomes
              && replies == old(replies) + effects.replies
              && waits == old(waits) + effects.waits
              && calls == old(calls) + effects.calls
    {
      if !hasKey {
        outcomes, replies := outcomes + [(401, 0)], replies + [Made(401)];
        return;
      }
      if !enabled {
        outcomes, replies := outcomes + [(502, 0)], replies + [Made(502)];
        return;
      }
      Retry(results, base, draws);
    }
  }

  lemma {:induction false} TotalIsBounded(seconds: seq<real>)
    requires forall i | 0 <= i < |seconds| :: 0.0 <= seconds[i] <= 6.25
    ensures 0.0 <= Total(seconds) <= 6.25 * |seconds| as real
  {
    if seconds != [] { TotalIsBounded(seconds[..|seconds| - 1]); }
  }

  // Every forwarded request, whatever the configured attempts and the run of upstream results:
  // at most four calls; the final result is the first that is not transient, or the last allowed;
  // one outcome is recorded unless that result escapes the loop, and one reply sent for it unless it
  // is an error whose body cannot be read; and the waits stay within 18.75 seconds.
  lemma ForwardIsBounded(
      hasKey: bool, enabled: bool, maxAttempts: EnvInt, upstream: seq<Upstream>, base: real, draws: seq<real>)
    requires |upstream| >= 4 && |draws| >= 4 && forall i | 0 <= i < |draws| :: 0.0 <= draws[i] <= 1.0
    ensures var results := upstream[..ResolveMaxAttempts(maxAttempts)];
            var effects := ForwardEffects(hasKey, enabled, results, base, draws);
            var k := FinalAttempt(results);
            && effects.calls == (if hasKey && enabled then k + 1 else 0) <= 4
            && (forall i | 0 <= i < k :: Retryable(results[i]))
            && (!Retryable(results[k]) || k + 1 == |results|)
            && |effects.outcomes| == (if hasKey && enabled && results[k].Escapes? then 0 else 1)
            && |effects.replies| <= |effects.outcomes|
            && (|effects.replies| == |effects.outcomes| <==> !(hasKey && enabled && results[k].HttpErrorUnreadable?))
            && 0.0 <= Total(effects.waits) <= 18.75
  {
    var results := upstream[..ResolveMaxAttempts(maxAttempts)];
    FinalAttemptFacts(results);
    TotalIsBounded(Waits(results, base, draws));
  }

  // A provider that is down and cuts its error page short: two calls, one outcome, no reply.
  lemma UnreadableIsUnanswered(base: real, draw: real)
    requires 0.0 <= draw <= 1.0
    ensures var results := [HttpErrorUnreadable(503), HttpErrorUnreadable(503)];
            var effects := ForwardEffects(true, true, results, base, [draw, draw]);
            && |results| == DEFAULT_MAX_ATTEMPTS && effects.calls == 2
            && effects.outcomes == [(503, 0)] && effects.replies == []
  {
    FinalAttemptIs([HttpErrorUnreadable(503), HttpErrorUnreadable(503)], 1);
  }

  lemma {:induction false} FinalAttemptFacts(results: seq<Upstream>)
    requires results != []
    ensures var k := FinalAttempt(results);
            (forall i | 0 <= i < k :: Retryable(results[i])) && (!Retryable(results[k]) || k + 1 == |results|)
  {
    if |results| > 1 && Retryable(results[0]) {
      FinalAttemptFacts(results[1..]);
      assert forall i | 0 < i < |results| :: results[i] == results[1..][i - 1];
    }
  }
}

/** The gateway's requests and the summary the room reads back (room/inference_gateway.py), together. */
module GatewaySummary {
  import opened Common
  import opened Gateway
  import opened OutcomeLog
  import BrokerModel

  // The broker's status names and the gateway's buckets agree on a provider's code, except that the
  // broker calls every other client error bad_request (429: rate_limited) where the gateway has
  // only 400, and that a code of 0 is unreachable to the gateway alone.
  lemma StatusNamesAgree(code: int)
    ensures var b := Bucketed(EMPTY, code);
            match BrokerModel.Classify(Some(code))
            case Succeeded => b.ok == 1
            case PaymentRequired => b.paymentRequired == 1
            case Unauthorized => b.unauthorized == 1
            case RateLimited => b.other == 1 && code == 429
            case BadRequest => 400 <= code < 500 && (b.badRequest == 1 <==> code == 400)
            case ProviderError => (b.unreachable == 1 <==> code == 0) && (b.other == 1 <==> code != 0)
            case _ => false
  {
  }

  // One authenticated request for a job, with everything its retry loop meets and whether its
  // outcome can be written.
  datatype Arrival = Arrival(
    jobId: string, hasKey: bool, enabled: bool, results: seq<Upstream>, base: real, draws: seq<real>, written: bool)

  predicate Proper(a: Arrival) {
    1 <= |a.results| <= |a.draws| && forall i | 0 <= i < |a.draws| :: 0.0 <= a.draws[i] <= 1.0
  }

  function EffectsOf(a: Arrival): Effects
    requires Proper(a)
  {
    ForwardEffects(a.hasKey, a.enabled, a.results, a.base, a.draws)
  }

  function Final(a: Arrival): Upstream
    requires Proper(a)
  {
    a.results[FinalAttempt(a.results)]
  }

  // The final result is an error whose body cannot be read.
  predicate Unanswered(a: Arrival) { Proper(a) && a.hasKey && a.enabled && Final(a).HttpErrorUnreadable? }

  // There is an outcome, and it cannot be written.
  predicate Lost(a: Arrival) { Proper(a) && !a.written && !(a.hasKey && a.enabled && Final(a).Escapes?) }

  function UnansweredOf(jobId: string, arrivals: seq<Arrival>): nat {
    if arrivals == [] then 0
    else
      var n := |arrivals| - 1;
      UnansweredOf(jobId, arrivals[..n]) + (if arrivals[n].jobId == jobId && Unanswered(arrivals[n]) then 1 else 0)
  }

  function LostOf(jobId: string, arrivals: seq<Arrival>): nat {
    if arrivals == [] then 0
    else
      var n := |arrivals| - 1;
      LostOf(jobId, arrivals[..n]) + (if arrivals[n].jobId == jobId && Lost(arrivals[n]) then 1 else 0)
  }

  function Recordings(a: Arrival, outcomes: seq<(int, int)>): seq<Event> {
    seq(|outcomes|, i requires 0 <= i < |outcomes| =>
      Recorded(a.jobId, Outcome(outcomes[i].0, outcomes[i].1), a.written))
  }

  // What a series of requests, of any jobs, records.
  function Trace(arrivals: seq<Arrival>): seq<Event>
    requires forall i | 0 <= i < |arrivals| :: Proper(arrivals[i])
  {
    if arrivals == [] then []
    else
      var n := |arrivals| - 1;
      Trace(arrivals[..n]) + Recordings(arrivals[n], EffectsOf(arrivals[n]).outcomes)
  }

  // The replies a job got.
  function RepliesTo(jobId: string, arrivals: seq<Arrival>): seq<Reply>
    requires forall i | 0 <= i < |arrivals| :: Proper(arrivals[i])
  {
    if arrivals == [] then []
    else
      var n := |arrivals| - 1;
      RepliesTo(jobId, arrivals[..n]) + (if arrivals[n].jobId == jobId then EffectsOf(arrivals[n]).replies else [])
  }

  // A request sends at most as many replies as it records outcomes, at most one.  They agree in
  // status, and in number exactly if the final result is not an error with an unreadable body.
  lemma EffectsAnswer(a: Arrival)
    requires Proper(a)
    ensures var effects := EffectsOf(a);
            && |effects.replies| <= |effects.outcomes| <= 1
            && (|effects.replies| == |effects.outcomes| <==> !Unanswered(a))
            && (effects.replies != [] ==>
                  if a.hasKey && a.enabled && Final(a).NoConnection?
                  then effects.replies[0] == Made(502) && effects.outcomes[0].0 == 0
                  else effects.replies[0].status == effects.outcomes[0].0)
            && (effects.outcomes == [] <==> a.hasKey && a.enabled && Final(a).Escapes?)
  {
  }

  lemma OneBalance(a: Arrival)
    requires Proper(a)
    ensures |EffectsOf(a).outcomes| <= 1
    ensures (if a.written then |EffectsOf(a).outcomes| else 0) + (if Lost(a) then 1 else 0)
         == |EffectsOf(a).replies| + (if Unanswered(a) then 1 else 0)
  {
    EffectsAnswer(a);
  }

  lemma OneMore(before: seq<Event>, a: Arrival, outcomes: seq<(int, int)>, jobId: string)
    requires |outcomes| <= 1
    ensures |OutcomesOf(before + Recordings(a, outcomes), jobId)|
         == |OutcomesOf(before, jobId)| + (if a.jobId == jobId && a.written then |outcomes| else 0)
  {
    var recorded := Recordings(a, outcomes);
    if outcomes == [] {
      assert before + recorded == before;
    } else {
      assert (before + recorded)[..|before|] == before;
    }
  }

  lemma {:induction false} RequestsBalance(arrivals: seq<Arrival>, jobId: string)
    requires forall i | 0 <= i < |arrivals| :: Proper(arrivals[i])
    ensures |OutcomesOf(Trace(arrivals), jobId)| + LostOf(jobId, arrivals)
         == |RepliesTo(jobId, arrivals)| + UnansweredOf(jobId, arrivals)
  {
    if arrivals != [] {
      var n := |arrivals| - 1;
      RequestsBalance(arrivals[..n], jobId);
      OneArrival(arrivals[..n], arrivals[n], jobId);
      assert arrivals == arrivals[..n] + [arrivals[n]];
    }
  }

  // What one more request adds on either side.
  lemma OneArrival(arrivals: seq<Arrival>, a: Arrival, jobId: string)
    requires Proper(a) && forall i | 0 <= i < |arrivals| :: Proper(arrivals[i])
    ensures var more := arrivals + [a];
            && |OutcomesOf(Trace(more), jobId)| + LostOf(jobId, more)
               - |OutcomesOf(Trace(arrivals), jobId)| - LostOf(jobId, arrivals)
            == |RepliesTo(jobId, more)| + UnansweredOf(jobId, more)
               - |RepliesTo(jobId, arrivals)| - UnansweredOf(jobId, arrivals)
  {
    OneBalance(a);
    OneMore(Trace(arrivals), a, EffectsOf(a).outcomes, jobId);
    OneLonger(arrivals, a, jobId);
  }

  lemma OneLonger(arrivals: seq<Arrival>, a: Arrival, jobId: string)
    requires Proper(a) && forall i | 0 <= i < |arrivals| :: Proper(arrivals[i])
    ensures var more, mine := arrivals + [a], a.jobId == jobId;
            && Trace(more) == Trace(arrivals) + Recordings(a, EffectsOf(a).outcomes)
            && RepliesTo(jobId, more) == RepliesTo(jobId, arrivals) + (if mine then EffectsOf(a).replies else [])
            && LostOf(jobId, more) == LostOf(jobId, arrivals) + (if mine && Lost(a) then 1 else 0)
            && UnansweredOf(jobId, more) == UnansweredOf(jobId, arrivals) + (if mine && Unanswered(a) then 1 else 0)
  {
    assert (arrivals + [a])[..|arrivals|] == arrivals;
  }

  // The summary a job's report carries counts the replies its agent got and the requests left
  // unanswered, less the outcomes that could not be written, whatever retries happened, whatever
  // other jobs did meanwhile, and however the requests overlapped: `events` is any interleaving of
  // what they recorded.
  lemma SummaryCountsReplies(arrivals: seq<Arrival>, events: seq<Event>, jobId: string)
    requires forall i | 0 <= i < |arrivals| :: Proper(arrivals[i])
    requires multiset(events) == multiset(Trace(arrivals))
    ensures var summary := SummaryOf(FileText(AfterAll(events), jobId));
            && summary.Some?
            && summary.value.requests + LostOf(jobId, arrivals)
               == |RepliesTo(jobId, arrivals)| + UnansweredOf(jobId, arrivals)
  {
    RequestsBalance(arrivals, jobId);
    SummaryTalliesRecorded(Trace(arrivals), jobId);
    SummaryIgnoresOrder(events, Trace(arrivals), jobId);
  }

  // ---- the summary by final results -------------------------------------------------------

  // The status a request records, if any, and the tokens that count.
  function Code(a: Arrival): Option<int>
    requires Proper(a)
  {
    if !a.hasKey then Some(401)
    else if !a.enabled then Some(502)
    else match Final(a)
         case Response(status, _) => Some(status)
         case HttpError(code) => Some(code)
         case HttpErrorUnreadable(code) => Some(code)
         case NoConnection => Some(0)
         case Escapes => None
  }

  function Tokens(a: Arrival): nat
    requires Proper(a)
  {
    if a.hasKey && a.enabled && Final(a).Response? && Final(a).tokens > 0 then Final(a).tokens else 0
  }

  predicate Counts(a: Arrival, jobId: string)
    requires Proper(a)
  {
    a.jobId == jobId && a.written && Code(a).Some?
  }

  // How many written requests of a job carry a status in a range.
  function CodesIn(jobId: string, arrivals: seq<Arrival>, low: int, high: int): nat
    requires forall i | 0 <= i < |arrivals| :: Proper(arrivals[i])
  {
    if arrivals == [] then 0
    else
      var n := |arrivals| - 1;
      var a := arrivals[n];
      CodesIn(jobId, arrivals[..n], low, high) + (if Counts(a, jobId) && low <= Code(a).value < high then 1 else 0)
  }

  function CodesOf(jobId: string, arrivals: seq<Arrival>): nat
    requires forall i | 0 <= i < |arrivals| :: Proper(arrivals[i])
  {
    if arrivals == [] then 0
    else
      var n := |arrivals| - 1;
      CodesOf(jobId, arrivals[..n]) + (if Counts(arrivals[n], jobId) then 1 else 0)
  }

  function TokensOf(jobId: string, arrivals: seq<Arrival>): nat
    requires forall i | 0 <= i < |arrivals| :: Proper(arrivals[i])
  {
    if arrivals == [] then 0
    else
      var n := |arrivals| - 1;
      TokensOf(jobId, arrivals[..n]) + (if Counts(arrivals[n], jobId) then Tokens(arrivals[n]) else 0)
  }

  ghost predicate SumsUp(s: Summary, jobId: string, arrivals: seq<Arrival>)
    requires forall i | 0 <= i < |arrivals| :: Proper(arrivals[i])
  {
    && s.requests == CodesOf(jobId, arrivals) && s.tokens == TokensOf(jobId, arrivals)
    && s.ok == CodesIn(jobId, arrivals, 200, 300)
    && s.paymentRequired == CodesIn(jobId, arrivals, 402, 403)
    && s.unauthorized == CodesIn(jobId, arrivals, 401, 402) + CodesIn(jobId, arrivals, 403, 404)
    && s.badRequest == CodesIn(jobId, arrivals, 400, 401)
    && s.unreachable == CodesIn(jobId, arrivals, 0, 1)
  }

  lemma RecordingIs(a: Arrival)
    requires Proper(a)
    ensures |EffectsOf(a).outcomes| == if Code(a).Some? then 1 else 0
    ensures Code(a).Some? ==>
              var (status, tokens) := EffectsOf(a).outcomes[0];
              status == Code(a).value && Clamp(Outcome(status, tokens)) == Outcome(status, Tokens(a))
  {
  }

  lemma TallyMore(before: seq<Event>, a: Arrival, jobId: string)
    requires Proper(a)
    ensures TallyFor(before + Recordings(a, EffectsOf(a).outcomes), jobId)
         == if Counts(a, jobId) then CountedOnce(TallyFor(before, jobId), Outcome(Code(a).value, Tokens(a)))
            else TallyFor(before, jobId)
  {
    RecordingIs(a);
    var recorded := Recordings(a, EffectsOf(a).outcomes);
    if recorded == [] {
      assert before + recorded == before;
    } else {
      assert recorded == [recorded[0]];
      TallyForLast(before + recorded, jobId);
      assert (before + recorded)[..|before|] == before;
    }
  }

  lemma SumsUpMore(s: Summary, jobId: string, arrivals: seq<Arrival>, a: Arrival)
    requires Proper(a) && (forall i | 0 <= i < |arrivals| :: Proper(arrivals[i])) && SumsUp(s, jobId, arrivals)
    ensures var more := if Counts(a, jobId) then CountedOnce(s, Outcome(Code(a).value, Tokens(a))) else s;
            SumsUp(more, jobId, arrivals + [a])
  {
    assert (arrivals + [a])[..|arrivals|] == arrivals;
  }

  lemma {:induction false} TraceSumsUp(arrivals: seq<Arrival>, jobId: string)
    requires forall i | 0 <= i < |arrivals| :: Proper(arrivals[i])
    ensures SumsUp(TallyFor(Trace(arrivals), jobId), jobId, arrivals)
  {
    if arrivals != [] {
      var n := |arrivals| - 1;
      TraceSumsUp(arrivals[..n], jobId);
      TallyMore(Trace(arrivals[..n]), arrivals[n], jobId);
      SumsUpMore(TallyFor(Trace(arrivals[..n]), jobId), jobId, arrivals[..n], arrivals[n]);
      assert arrivals == arrivals[..n] + [arrivals[n]];
    }
  }

  // A job's summary, from its requests' final results: each bucket counts the written requests that
  // carry its statuses, and the tokens are those of final responses where positive.
  lemma SummaryByResult(arrivals: seq<Arrival>, events: seq<Event>, jobId: string)
    requires forall i | 0 <= i < |arrivals| :: Proper(arrivals[i])
    requires multiset(events) == multiset(Trace(arrivals))
    ensures var summary := SummaryOf(FileText(AfterAll(events), jobId));
            summary.Some? && SumsUp(summary.value, jobId, arrivals)
  {
    TraceSumsUp(arrivals, jobId);
    SummaryTalliesRecorded(Trace(arrivals), jobId);
    SummaryIgnoresOrder(events, Trace(arrivals), jobId);
  }
}

/** The broker refines a far simpler one: a token is a purse that holds the keys and the spending of
    its job directly, an open job is an account with its records, and a call that has begun is a slip
    that is torn up when its job closes.  No job objects, no second index, no job that outlives its
    place. */
module BrokerAtomic {
  import opened Common
  import opened BrokerModel
  import opened BrokerInvariant

  datatype Account = Account(keys: map<string, string>, contestant: string, records: seq<Record>)

  datatype Purse = Purse(
    jobId: string, contestant: string, role: string, expiresAt: real,
    keys: map<string, string>, used: map<string, nat>)

  // What the record of a call begun will say, but for its status.
  datatype Slip = Slip(
    jobId: string, contestant: string, taskId: string, provider: string, role: string, operation: string)

  // `begun` numbers the calls, `running` are those not ended, and `slips` those that still have a
  // job to be recorded under.
  datatype Simple = Simple(
    open: map<string, Account>, purses: map<string, Purse>,
    begun: nat, running: set<nat>, slips: map<nat, Slip>)

  const EMPTY := Simple(map[], map[], 0, {}, map[])

  // What a caller can see of one step.
  datatype Reply =
    | Silent
    | Rejected(error: ConfigError)
    | Accepted
    | Refused
    | Spending(key: string)
    | Returned
    | Records(records: seq<Record>)
    | Shows(lines: map<string, QuotaLine>)

  // ---- the simple broker ------------------------------------------------------------------

  predicate Usable(a: Simple, token: Presented, now: real) {
    token.Text? && token.text in a.purses && now <= a.purses[token.text].expiresAt
  }

  predicate Affords(ops: Operations, a: Simple, token: Presented, operation: Presented,
                    payload: Payload, overHttp: bool, now: real) {
    && Usable(a, token, now)
    && operation.Text? && operation.text in ops
    && payload.Object?
    && var spec, purse := ops[operation.text], a.purses[token.text];
       && spec.role == purse.role
       && (overHttp ==> spec.httpExposed)
       && operation.text in purse.used && purse.used[operation.text] < spec.maxCalls
       && spec.provider in purse.keys && purse.keys[spec.provider] != ""
  }

  // The end of a call, as its caller sees it.
  function Ended(outcome: Outcome): Reply { if outcome == ReturnedObject then Returned else Refused }

  function SimpleReply(ops: Operations, a: Simple, e: Event): Reply {
    match e
    case OpenJob(id, _, _) =>
      if !IsJobId(id) then Rejected(BadJobId) else if id in a.open then Rejected(AlreadyOpen) else Accepted
    case CloseJob(id) => Records(if id in a.open then a.open[id].records else [])
    case IssueToken(id, role, _, _) =>
      if !IsRole(role) then Rejected(UnknownRole) else if id !in a.open then Rejected(NotOpen) else Accepted
    case BeginCall(token, operation, payload, overHttp, now) =>
      if Affords(ops, a, token, operation, payload, overHttp, now)
      then Spending(a.purses[token.text].keys[ops[operation.text].provider]) else Refused
    case FinishCall(k, outcome) => if k in a.running then Ended(outcome) else Silent
    case ReadQuota(token, now) =>
      if !Usable(a, token, now) then Refused
      else
        var purse := a.purses[token.text];
        Shows(map n | n in ops && ops[n].role == purse.role && n in purse.used ::
                QuotaLine(purse.used[n], ops[n].maxCalls, ops[n].maxCalls - purse.used[n]))
  }

  function SimpleOpen(a: Simple, id: string, keys: map<string, string>, contestant: string): Simple {
    if !IsJobId(id) || id in a.open then a else a.(open := a.open[id := Account(keys, contestant, [])])
  }

  function SimpleClose(a: Simple, id: string): Simple {
    a.(open := a.open - {id},
       purses := map t | t in a.purses && a.purses[t].jobId != id :: a.purses[t],
       slips := map k | k in a.slips && a.slips[k].jobId != id :: a.slips[k])
  }

  function SimpleIssue(ops: Operations, a: Simple, id: string, role: string, token: string, expiresAt: real): Simple {
    if !IsRole(role) || id !in a.open then a
    else
      var account := a.open[id];
      var purse := Purse(id, account.contestant, role, expiresAt, account.keys, map n | n in ops :: 0);
      a.(purses := a.purses[token := purse])
  }

  function Spend(a: Simple, token: string, name: string, spec: OperationSpec, task: TaskField): Simple
    requires token in a.purses && name in a.purses[token].used
  {
    var purse := a.purses[token];
    var slip := Slip(purse.jobId, purse.contestant, TaskId(task), spec.provider, spec.role, name);
    a.(purses := a.purses[token := purse.(used := purse.used[name := purse.used[name] + 1])],
       begun := a.begun + 1, running := a.running + {a.begun}, slips := a.slips[a.begun := slip])
  }

  // A call whose job is gone ends without a trace.
  function SimpleFinish(a: Simple, k: nat, outcome: Outcome): Simple {
    var ended := a.(running := a.running - {k}, slips := a.slips - {k});
    if k !in a.slips || a.slips[k].jobId !in a.open then ended
    else
      var slip := a.slips[k];
      var account := a.open[slip.jobId];
      var r := Record(slip.contestant, slip.taskId, slip.provider, slip.role, slip.operation, StatusOf(outcome));
      ended.(open := a.open[slip.jobId := account.(records := account.records + [r])])
  }

  function SimpleStep(ops: Operations, a: Simple, e: Event): Simple {
    match e
    case OpenJob(id, keys, contestant) => SimpleOpen(a, id, keys, contestant)
    case CloseJob(id) => SimpleClose(a, id)
    case IssueToken(id, role, token, expiresAt) => SimpleIssue(ops, a, id, role, token, expiresAt)
    case BeginCall(token, operation, payload, overHttp, now) =>
      if !Affords(ops, a, token, operation, payload, overHttp, now) then a
      else Spend(a, token.text, operation.text, ops[operation.text], payload.task)
    case FinishCall(k, outcome) => SimpleFinish(a, k, outcome)
    case ReadQuota(_, _) => a
  }

  function SimpleReplies(ops: Operations, a: Simple, es: seq<Event>): seq<Reply>
    decreases |es|
  {
    if es == [] then [] else [SimpleReply(ops, a, es[0])] + SimpleReplies(ops, SimpleStep(ops, a, es[0]), es[1..])
  }

  // ---- the real broker, seen the same way -------------------------------------------------

  function ReplyTo(ops: Operations, s: State, e: Event): Reply {
    match e
    case OpenJob(id, _, _) =>
      if OpenCheck(s, id).Some? then Rejected(OpenCheck(s, id).value) else Accepted
    case CloseJob(id) => Records(CloseReply(s, id))
    case IssueToken(id, role, _, _) =>
      if IssueCheck(s, id, role).Some? then Rejected(IssueCheck(s, id, role).value) else Accepted
    case BeginCall(token, operation, payload, overHttp, now) =>
      var c := Admit(ops, s, token, operation, payload, overHttp, now);
      if c.Some? then Spending(c.value.key) else Refused
    case FinishCall(k, outcome) => if k in s.flights then Ended(outcome) else Silent
    case ReadQuota(token, now) =>
      var q := Quota(ops, s, token, now);
      if q.Some? then Shows(q.value) else Refused
  }

  function Replies(ops: Operations, s: State, es: seq<Event>): seq<Reply>
    decreases |es|
  {
    if es == [] then [] else [ReplyTo(ops, s, es[0])] + Replies(ops, Step(ops, s, es[0]), es[1..])
  }

  // ---- the simulation relation ------------------------------------------------------------

  // The purse holds what the job object holds for the token.
  ghost predicate PurseFits(ops: Operations, job: Instance, purse: Purse, t: string) {
    && t in job.capabilities
    && purse.jobId == job.capabilities[t].jobId
    && purse.role == job.capabilities[t].role
    && purse.expiresAt == job.capabilities[t].expiresAt
    && purse.contestant == job.contestant
    && purse.keys == job.credentials
    && forall n | n in ops :: n in purse.used && purse.used[n] == Spent(job.calls, t, n)
  }

  ghost predicate OpenMatch(s: State, a: Simple, id: string) {
    if id in s.live then
      var job := s.insts[s.live[id]];
      id in a.open && a.open[id] == Account(job.credentials, job.contestant, job.records)
    else id !in a.open
  }

  ghost predicate PurseMatch(ops: Operations, s: State, a: Simple, t: string) {
    if t in s.tokens then
      && t in a.purses && s.tokens[t] in s.live
      && PurseFits(ops, s.insts[s.live[s.tokens[t]]], a.purses[t], t)
    else t !in a.purses
  }

  function SlipOf(job: Instance, c: Call): Slip {
    Slip(job.jobId, job.contestant, TaskId(c.task), c.spec.provider, c.spec.role, c.spec.name)
  }

  // A call in flight has its slip as long as its job object is live.
  ghost predicate SlipMatch(s: State, a: Simple, k: nat) {
    if k in s.flights && IsLive(s, s.log[k].inst)
    then k in a.slips && a.slips[k] == SlipOf(s.insts[s.log[k].inst], s.log[k])
    else k !in a.slips
  }

  ghost predicate SlipsMatch(s: State, a: Simple) {
    && a.begun == |s.log| && a.running == s.flights
    && forall k: nat {:trigger SlipMatch(s, a, k)} :: SlipMatch(s, a, k)
  }

  ghost predicate Matches(ops: Operations, s: State, a: Simple) {
    && SlipsMatch(s, a)
    && (forall id {:trigger OpenMatch(s, a, id)} :: OpenMatch(s, a, id))
    && (forall t {:trigger PurseMatch(ops, s, a, t)} :: PurseMatch(ops, s, a, t))
  }

  // ---- simulation -------------------------------------------------------------------------

  // The facts about one live token that every step below needs.
  lemma TokenFacts(s: State, t: string)
    requires Indexed(s) && Minted(s) && t in s.tokens
    ensures s.tokens[t] in s.live
    ensures var job := s.insts[s.live[s.tokens[t]]];
            && IsCapabilityToken(t)
            && job.jobId == s.tokens[t]
            && t in job.capabilities
            && job.capabilities[t].token == t
            && job.capabilities[t].jobId == s.tokens[t]
  {
    assert TokenIndexed(s, t);
    var i := s.live[s.tokens[t]];
    assert JobIndexed(s, s.tokens[t]) && Holdings(s, i) && MintedBy(s, i, t);
  }

  lemma UsableIffAuthorized(ops: Operations, s: State, a: Simple, token: Presented, now: real)
    requires Indexed(s) && Minted(s) && Matches(ops, s, a)
    ensures Usable(a, token, now) <==> Authorize(s, token, now).Some?
  {
    if token.Text? {
      assert PurseMatch(ops, s, a, token.text);
      if token.text in s.tokens { TokenFacts(s, token.text); }
    }
  }

  lemma SpendAgrees(ops: Operations, s: State, a: Simple, e: Event)
    requires ValidOperations(ops) && Indexed(s) && Minted(s) && Matches(ops, s, a) && e.BeginCall?
    ensures ReplyTo(ops, s, e) == SimpleReply(ops, a, e)
  {
    UsableIffAuthorized(ops, s, a, e.token, e.now);
    if Authorize(s, e.token, e.now).Some? {
      TokenFacts(s, e.token.text);
      assert PurseMatch(ops, s, a, e.token.text);
    }
  }

  lemma QuotaAgrees(ops: Operations, s: State, a: Simple, e: Event)
    requires ValidOperations(ops) && Inv(ops, s) && Matches(ops, s, a) && e.ReadQuota?
    ensures ReplyTo(ops, s, e) == SimpleReply(ops, a, e)
  {
    UsableIffAuthorized(ops, s, a, e.token, e.now);
    if Authorize(s, e.token, e.now).Some? {
      var t := e.token.text;
      TokenFacts(s, t);
      assert PurseMatch(ops, s, a, t);
      var i := s.live[s.tokens[t]];
      forall n | n in ops ensures Spent(s.insts[i].calls, t, n) <= ops[n].maxCalls && ops[n].name == n {
        assert MeterWithin(ops, s, i, (t, n));
        assert Declare(ops[n]).Ok?;
      }
      QuotaLinesAgree(ops, s.insts[i], a.purses[t], t);
    }
  }

  lemma QuotaLinesAgree(ops: Operations, job: Instance, purse: Purse, t: string)
    requires PurseFits(ops, job, purse, t)
    requires forall n | n in ops :: Spent(job.calls, t, n) <= ops[n].maxCalls && ops[n].name == n
    ensures (map n | n in ops && ops[n].role == job.capabilities[t].role :: Line(job.calls, t, ops[n]))
         == (map n | n in ops && ops[n].role == purse.role && n in purse.used ::
               QuotaLine(purse.used[n], ops[n].maxCalls, ops[n].maxCalls - purse.used[n]))
  {
  }

  lemma RepliesAgree(ops: Operations, s: State, a: Simple, e: Event)
    requires ValidOperations(ops) && Inv(ops, s) && Matches(ops, s, a)
    ensures ReplyTo(ops, s, e) == SimpleReply(ops, a, e)
  {
    match e
    case BeginCall(_, _, _, _, _) => SpendAgrees(ops, s, a, e);
    case ReadQuota(_, _) => QuotaAgrees(ops, s, a, e);
    case OpenJob(id, _, _) => assert OpenMatch(s, a, id);
    case IssueToken(id, _, _, _) => assert OpenMatch(s, a, id);
    case CloseJob(id) => assert OpenMatch(s, a, id);
    case FinishCall(_, _) =>
  }

  lemma OpenSimulates(ops: Operations, s: State, a: Simple, e: Event)
    requires Indexed(s) && Minted(s) && Matches(ops, s, a) && e.OpenJob?
    ensures Matches(ops, Step(ops, s, e), SimpleStep(ops, a, e))
  {
    var s', a' := Step(ops, s, e), SimpleStep(ops, a, e);
    assert OpenMatch(s, a, e.jobId);
    OpenSlips(s, a, e.jobId, e.credentials, e.contestant);
    forall id ensures OpenMatch(s', a', id) { assert OpenMatch(s, a, id); }
    forall t ensures PurseMatch(ops, s', a', t) {
      assert PurseMatch(ops, s, a, t);
      if t in s.tokens { TokenFacts(s, t); }
    }
  }

  lemma OpenSlips(s: State, a: Simple, id: string, keys: map<string, string>, contestant: string)
    requires Indexed(s) && SlipsMatch(s, a) && OpenMatch(s, a, id)
    ensures SlipsMatch(Open(s, id, keys, contestant), SimpleOpen(a, id, keys, contestant))
  {
    var s', a' := Open(s, id, keys, contestant), SimpleOpen(a, id, keys, contestant);
    forall k: nat ensures SlipMatch(s', a', k) { assert SlipMatch(s, a, k); }
  }

  lemma CloseSlips(s: State, a: Simple, id: string)
    requires Indexed(s) && SlipsMatch(s, a)
    ensures SlipsMatch(Close(s, id), SimpleClose(a, id))
  {
    var s', a' := Close(s, id), SimpleClose(a, id);
    forall k: nat ensures SlipMatch(s', a', k) { assert SlipMatch(s, a, k) && JobIndexed(s, id); }
  }

  lemma IssueSlips(ops: Operations, s: State, a: Simple, id: string, role: string, token: string, expiresAt: real)
    requires SlipsMatch(s, a) && OpenMatch(s, a, id)
    ensures SlipsMatch(Issue(s, id, role, token, expiresAt), SimpleIssue(ops, a, id, role, token, expiresAt))
  {
    var s', a' := Issue(s, id, role, token, expiresAt), SimpleIssue(ops, a, id, role, token, expiresAt);
    forall k: nat ensures SlipMatch(s', a', k) { assert SlipMatch(s, a, k); }
  }

  lemma BillSlips(s: State, a: Simple, c: Call)
    requires SlipsMatch(s, a) && c.inst < |s.insts| && IsLive(s, c.inst)
    requires c.token in a.purses && c.spec.name in a.purses[c.token].used
    requires a.purses[c.token].jobId == s.insts[c.inst].jobId
    requires a.purses[c.token].contestant == s.insts[c.inst].contestant
    ensures SlipsMatch(Bill(s, c), Spend(a, c.token, c.spec.name, c.spec, c.task))
  {
    var s', a' := Bill(s, c), Spend(a, c.token, c.spec.name, c.spec, c.task);
    forall k: nat ensures SlipMatch(s', a', k) { assert SlipMatch(s, a, k); }
  }

  lemma FinishSlips(s: State, a: Simple, k: nat, outcome: Outcome)
    requires SlipsMatch(s, a)
    ensures SlipsMatch(Finish(s, k, outcome), SimpleFinish(a, k, outcome))
  {
    var s', a' := Finish(s, k, outcome), SimpleFinish(a, k, outcome);
    assert SlipMatch(s, a, k);
    forall j: nat ensures SlipMatch(s', a', j) { assert SlipMatch(s, a, j); }
  }

  lemma CloseSimulates(ops: Operations, s: State, a: Simple, e: Event)
    requires Indexed(s) && Minted(s) && Matches(ops, s, a) && e.CloseJob?
    ensures Matches(ops, Step(ops, s, e), SimpleStep(ops, a, e))
  {
    var s', a' := Step(ops, s, e), SimpleStep(ops, a, e);
    assert OpenMatch(s, a, e.jobId) && JobIndexed(s, e.jobId);
    CloseSlips(s, a, e.jobId);
    forall id ensures OpenMatch(s', a', id) { assert OpenMatch(s, a, id) && JobIndexed(s, id); }
    forall t ensures PurseMatch(ops, s', a', t) {
      assert PurseMatch(ops, s, a, t) && CapabilityIndexed(s, e.jobId, t);
      if t in s.tokens { TokenFacts(s, t); }
    }
  }

  lemma IssueSimulates(ops: Operations, s: State, a: Simple, e: Event)
    requires Inv(ops, s) && Matches(ops, s, a) && e.IssueToken? && Possible(s, e)
    ensures Matches(ops, Step(ops, s, e), SimpleStep(ops, a, e))
  {
    var s', a' := Step(ops, s, e), SimpleStep(ops, a, e);
    assert OpenMatch(s, a, e.jobId) && JobIndexed(s, e.jobId);
    IssueSlips(ops, s, a, e.jobId, e.role, e.minted, e.expiresAt);
    forall id ensures OpenMatch(s', a', id) { assert OpenMatch(s, a, id) && JobIndexed(s, id); }
    forall t ensures PurseMatch(ops, s', a', t) {
      assert PurseMatch(ops, s, a, t);
      if t == e.minted && e.jobId in s.live {
        var i := s.live[e.jobId];
        forall n ensures Spent(s.insts[i].calls, t, n) == 0 { assert MeterWithin(ops, s, i, (t, n)); }
      } else if t in s.tokens {
        TokenFacts(s, t);
      }
    }
  }

  lemma BillSimulates(ops: Operations, s: State, a: Simple, e: Event)
    requires ValidOperations(ops) && Inv(ops, s) && Matches(ops, s, a) && e.BeginCall?
    ensures Matches(ops, Step(ops, s, e), SimpleStep(ops, a, e))
  {
    SpendAgrees(ops, s, a, e);
    var admitted := Admit(ops, s, e.token, e.operation, e.payload, e.overHttp, e.now);
    if admitted.Some? {
      var c := admitted.value;
      TokenFacts(s, c.token);
      assert PurseMatch(ops, s, a, c.token);
      assert e.operation.text == c.spec.name;
      BillSlips(s, a, c);
      BillDoors(ops, s, a, c);
    }
  }

  lemma BillDoors(ops: Operations, s: State, a: Simple, c: Call)
    requires ValidOperations(ops) && Inv(ops, s) && Matches(ops, s, a)
    requires c.inst < |s.insts| && c.spec.name in ops && c.token in s.tokens
    requires s.tokens[c.token] in s.live && s.live[s.tokens[c.token]] == c.inst
    requires c.token in a.purses && c.spec.name in a.purses[c.token].used
    requires SlipsMatch(Bill(s, c), Spend(a, c.token, c.spec.name, c.spec, c.task))
    ensures Matches(ops, Bill(s, c), Spend(a, c.token, c.spec.name, c.spec, c.task))
  {
    var s', a' := Bill(s, c), Spend(a, c.token, c.spec.name, c.spec, c.task);
    forall id ensures OpenMatch(s', a', id) { assert OpenMatch(s, a, id); }
    forall t ensures PurseMatch(ops, s', a', t) {
      assert PurseMatch(ops, s, a, t);
      if t in s.tokens {
        TokenFacts(s, t);
        BillFits(ops, s, c, a.purses[t], t);
      }
    }
  }

  lemma BillFits(ops: Operations, s: State, c: Call, purse: Purse, t: string)
    requires c.inst < |s.insts| && c.spec.name in ops
    requires t in s.tokens && s.tokens[t] in s.live
    requires PurseFits(ops, s.insts[s.live[s.tokens[t]]], purse, t)
    ensures t != c.token ==> PurseFits(ops, Bill(s, c).insts[s.live[s.tokens[t]]], purse, t)
    ensures t == c.token && s.live[s.tokens[t]] == c.inst ==>
              var used := purse.used[c.spec.name := purse.used[c.spec.name] + 1];
              PurseFits(ops, Bill(s, c).insts[c.inst], purse.(used := used), t)
  {
  }

  lemma FinishSimulates(ops: Operations, s: State, a: Simple, e: Event)
    requires Indexed(s) && Minted(s) && Matches(ops, s, a) && e.FinishCall?
    ensures Matches(ops, Step(ops, s, e), SimpleStep(ops, a, e))
  {
    var s', a' := Step(ops, s, e), SimpleStep(ops, a, e);
    FinishSlips(s, a, e.call, e.outcome);
    forall id ensures OpenMatch(s', a', id) { FinishOpen(s, a, e.call, e.outcome, id); }
    forall t ensures PurseMatch(ops, s', a', t) {
      assert PurseMatch(ops, s, a, t);
      if t in s.tokens { TokenFacts(s, t); }
    }
  }

  // A record reaches the account open under its job's id only if that account is its own job's.
  lemma FinishOpen(s: State, a: Simple, k: nat, outcome: Outcome, id: string)
    requires Indexed(s) && SlipMatch(s, a, k) && forall id {:trigger OpenMatch(s, a, id)} :: OpenMatch(s, a, id)
    ensures OpenMatch(Finish(s, k, outcome), SimpleFinish(a, k, outcome), id)
  {
    assert OpenMatch(s, a, id) && JobIndexed(s, id);
    if k in a.slips {
      assert OpenMatch(s, a, a.slips[k].jobId);
    }
  }

  // One real step is one simple step.
  lemma StepSimulates(ops: Operations, s: State, a: Simple, e: Event)
    requires ValidOperations(ops) && Inv(ops, s) && Possible(s, e) && Matches(ops, s, a)
    ensures Matches(ops, Step(ops, s, e), SimpleStep(ops, a, e))
  {
    match e
    case OpenJob(_, _, _) => OpenSimulates(ops, s, a, e);
    case CloseJob(_) => CloseSimulates(ops, s, a, e);
    case IssueToken(_, _, _, _) => IssueSimulates(ops, s, a, e);
    case BeginCall(_, _, _, _, _) => BillSimulates(ops, s, a, e);
    case FinishCall(_, _) => FinishSimulates(ops, s, a, e);
    case ReadQuota(_, _) =>
  }

  lemma {:induction false} MatchingRuns(ops: Operations, s: State, a: Simple, es: seq<Event>)
    requires ValidOperations(ops) && Inv(ops, s) && PossibleRun(ops, s, es) && Matches(ops, s, a)
    ensures Replies(ops, s, es) == SimpleReplies(ops, a, es)
    decreases |es|
  {
    if es != [] {
      RepliesAgree(ops, s, a, es[0]);
      StepSimulates(ops, s, a, es[0]);
      StepKeeps(ops, s, es[0]);
      MatchingRuns(ops, Step(ops, s, es[0]), SimpleStep(ops, a, es[0]), es[1..]);
    }
  }

  // In every possible interleaving, every caller of a new broker sees exactly what the simple
  // broker would have answered: errors, keys spent, refusals, quotas, ends of calls and the records
  // a job leaves.  There a late record dies with its job's slips, so none ever shows under an id
  // opened anew.
  lemma RefinesSimpleBroker(ops: Operations, es: seq<Event>)
    requires ValidOperations(ops) && PossibleRun(ops, INITIAL, es)
    ensures Replies(ops, INITIAL, es) == SimpleReplies(ops, EMPTY, es)
  {
    InitialInv(ops);
    MatchingRuns(ops, INITIAL, EMPTY, es);
  }
}

/** What the broker guarantees over every interleaving of its steps. */
module BrokerTheorems {
  import opened Common
  import opened BrokerModel
  import opened BrokerInvariant

  // A state some possible interleaving reaches from a new broker.
  ghost predicate Reaches(ops: Operations, es: seq<Event>, s: State) {
    ValidOperations(ops) && PossibleRun(ops, INITIAL, es) && s == Run(ops, INITIAL, es)
  }

  lemma ReachedInv(ops: Operations, es: seq<Event>, s: State)
    requires Reaches(ops, es, s)
    ensures Inv(ops, s)
  {
    InitialInv(ops);
    RunKeeps(ops, INITIAL, es);
  }

  // ---- what a profile may declare ---------------------------------------------------------

  // A lowercase letter, then letters, digits or dashes, by character code.
  lemma OperationNameIs(s: string)
    ensures IsOperationName(s)
       <==> && 1 <= |s| <= 64 && 97 <= s[0] as int <= 122
            && forall i | 0 <= i < |s| :: 97 <= s[i] as int <= 122 || 48 <= s[i] as int <= 57 || s[i] as int == 45
  {
  }

  // An operation is declared exactly when its name, role, handler, ceiling and exposure all pass; it
  // is then kept as it is, and otherwise refused for the first of them that does not.
  lemma DeclaredIff(spec: OperationSpec)
    ensures var role, own := spec.role in {"agent", "evaluator"}, spec.role == "evaluator" ==> !spec.httpExposed;
            match Declare(spec)
            case Ok(kept) =>
              kept == spec && IsOperationName(spec.name) && role && spec.callable && spec.maxCalls > 0 && own
            case Err(BadName) => !IsOperationName(spec.name)
            case Err(UnknownRole) => IsOperationName(spec.name) && !role
            case Err(NoHandler) => IsOperationName(spec.name) && role && !spec.callable
            case Err(NoCalls) => IsOperationName(spec.name) && role && spec.callable && spec.maxCalls <= 0
            case Err(e) =>
              e == EvaluatorExposed && IsOperationName(spec.name) && role && spec.callable && spec.maxCalls > 0 && !own
  {
  }

  ghost predicate UniqueNames(specs: seq<OperationSpec>) {
    forall i, j | 0 <= i < j < |specs| :: specs[i].name != specs[j].name
  }

  // The table holds exactly the specs, each under its own name.
  ghost predicate TableOf(ops: Operations, specs: seq<OperationSpec>) {
    && (forall n | n in ops :: ops[n].name == n && ops[n] in specs)
    && (forall x | x in specs :: x.name in ops && ops[x.name] == x)
  }

  lemma TableGrows(ops: Operations, specs: seq<OperationSpec>, x: OperationSpec)
    requires TableOf(ops, specs) && forall y | y in specs :: y.name != x.name
    ensures TableOf(ops[x.name := x], specs + [x])
  {
  }

  lemma {:induction false} TableHoldsSpecs(specs: seq<OperationSpec>)
    requires UniqueNames(specs)
    ensures TableOf(ByName(specs), specs)
  {
    if specs != [] {
      var n := |specs| - 1;
      TableHoldsSpecs(specs[..n]);
      forall y | y in specs[..n] ensures y.name != specs[n].name {
        var i :| 0 <= i < n && specs[i] == y;
      }
      TableGrows(ByName(specs[..n]), specs[..n], specs[n]);
      assert specs == specs[..n] + [specs[n]];
    }
  }

  // A broker is refused exactly when two operations share a name; otherwise its table is valid and
  // loses none of them.
  lemma BuiltTableIsValid(specs: seq<OperationSpec>)
    requires forall x | x in specs :: Declare(x).Ok?
    ensures BuildTable(specs).Ok? <==> UniqueNames(specs)
    ensures BuildTable(specs).Ok? ==>
              ValidOperations(BuildTable(specs).value) && TableOf(BuildTable(specs).value, specs)
  {
    var names := Names(specs);
    if UniqueNames(specs) {
      assert NoRepeats(names);
      TableHoldsSpecs(specs);
    } else {
      var i, j :| 0 <= i < j < |specs| && specs[i].name == specs[j].name;
      assert names[i] == names[j];
    }
  }

  // ---- conservation -----------------------------------------------------------------------

  // Every billed call of a job object is recorded once or still in flight, operation by operation,
  // and each record carries its operation's provider and role and its job's contestant.
  lemma BilledIsRecordedOrInFlight(ops: Operations, es: seq<Event>, s: State, i: nat, operation: string)
    requires Reaches(ops, es, s) && i < |s.insts|
    ensures SumCalls(s.insts[i].calls, operation)
         == CountRecords(s.insts[i].records, operation) + |InFlight(s, i, operation)|
    ensures RecordsTrue(ops, s.insts[i])
  {
    ReachedInv(ops, es, s);
    assert Balanced(s, i, operation);
  }

  // Closing a job returns exactly the billed calls that are not in flight at that moment.
  lemma CloseReturnsSettledCalls(ops: Operations, es: seq<Event>, s: State, jobId: string, operation: string)
    requires Reaches(ops, es, s) && jobId in s.live
    ensures CountRecords(CloseReply(s, jobId), operation)
         == SumCalls(s.insts[s.live[jobId]].calls, operation) - |InFlight(s, s.live[jobId], operation)|
    ensures jobId !in Close(s, jobId).live
  {
    BilledIsRecordedOrInFlight(ops, es, s, s.live[jobId], operation);
  }

  // ---- the token index --------------------------------------------------------------------

  // The token index is the union of the live jobs' capability maps.
  lemma TokensAreTheLiveCapabilities(ops: Operations, es: seq<Event>, s: State, t: string, id: string)
    requires Reaches(ops, es, s)
    ensures (t in s.tokens && s.tokens[t] == id) <==> (id in s.live && t in s.insts[s.live[id]].capabilities)
  {
    ReachedInv(ops, es, s);
    assert TokenIndexed(s, t) && CapabilityIndexed(s, id, t);
  }

  // Some live job holds an unexpired capability under this token.
  ghost predicate HeldLive(s: State, t: string, now: real) {
    exists id | id in s.live ::
      t in s.insts[s.live[id]].capabilities && now <= s.insts[s.live[id]].capabilities[t].expiresAt
  }

  lemma AuthorizedIffHeldLive(ops: Operations, es: seq<Event>, s: State, t: string, now: real)
    requires Reaches(ops, es, s)
    ensures Authorize(s, Text(t), now).Some? <==> HeldLive(s, t, now)
  {
    ReachedInv(ops, es, s);
    if Authorize(s, Text(t), now).Some? {
      assert s.tokens[t] in s.live;
    }
    if HeldLive(s, t, now) {
      var id :| id in s.live && t in s.insts[s.live[id]].capabilities
                && now <= s.insts[s.live[id]].capabilities[t].expiresAt;
      assert CapabilityIndexed(s, id, t) && JobIndexed(s, id) && Holdings(s, s.live[id]) && MintedBy(s, s.live[id], t);
    }
  }

  // A token has the minted form exactly when it is the prefix and sixteen bytes in hexadecimal, so the
  // form check passes every token the broker draws and nothing else.
  lemma TokenFormIs(t: string)
    ensures IsCapabilityToken(t) <==> exists bs: seq<Byte> :: |bs| == 16 && t == "kcap_" + HexText(bs)
  {
    if IsCapabilityToken(t) {
      assert forall i | 0 <= i < 32 :: t[5..][i] == t[i + 5];
      var bs := HexTextOf(t[5..]);
      assert t == t[..5] + t[5..];
    }
    if bs: seq<Byte> :| |bs| == 16 && t == "kcap_" + HexText(bs) {
      HexTextIsHex(bs);
      assert t[5..] == HexText(bs) && t[..5] == "kcap_";
    }
  }

  // ---- what never changes -----------------------------------------------------------------

  ghost predicate LaterJob(s: State, s': State, i: nat)
    requires i < |s.insts| <= |s'.insts|
  {
    && s'.insts[i].jobId == s.insts[i].jobId
    && s'.insts[i].given == s.insts[i].given
    && s.insts[i].issued.Items <= s'.insts[i].issued.Items
    && (IsLive(s', i) ==> IsLive(s, i))
  }

  // Job objects keep their identity, dead ones stay dead, and the history only grows.
  ghost predicate Later(s: State, s': State) {
    && |s.insts| <= |s'.insts|
    && s.log <= s'.log
    && forall i: nat {:trigger LaterJob(s, s', i)} | i < |s.insts| :: LaterJob(s, s', i)
  }

  lemma MapGrows<K, V>(m: map<K, V>, key: K, value: V)
    requires key !in m
    ensures m.Items <= m[key := value].Items
  {
    forall item | item in m.Items ensures item in m[key := value].Items {
      assert item.0 in m[key := value] && m[key := value][item.0] == item.1;
    }
  }

  lemma StepIsLater(ops: Operations, s: State, e: Event)
    requires Inv(ops, s) && Possible(s, e)
    ensures Later(s, Step(ops, s, e))
  {
    var s' := Step(ops, s, e);
    assert |s.insts| <= |s'.insts| && s.log <= s'.log;
    forall i: nat | i < |s.insts| ensures LaterJob(s, s', i) { StepKeepsJob(ops, s, e, i); }
  }

  lemma StepKeepsJob(ops: Operations, s: State, e: Event, i: nat)
    requires i < |s.insts| && Possible(s, e) && |s.insts| <= |Step(ops, s, e).insts|
    ensures LaterJob(s, Step(ops, s, e), i)
  {
    if e.IssueToken? && IssueCheck(s, e.jobId, e.role).None? && i == s.live[e.jobId] {
      MapGrows(s.insts[i].issued, e.minted, Capability(e.minted, e.jobId, e.role, e.expiresAt));
    }
  }

  lemma {:induction false} RunIsLater(ops: Operations, s: State, es: seq<Event>)
    requires ValidOperations(ops) && Inv(ops, s) && PossibleRun(ops, s, es)
    ensures Later(s, Run(ops, s, es))
    decreases |es|
  {
    if es != [] {
      StepKeeps(ops, s, es[0]);
      StepIsLater(ops, s, es[0]);
      RunIsLater(ops, Step(ops, s, es[0]), es[1..]);
      LaterIsTransitive(s, Step(ops, s, es[0]), Run(ops, s, es));
    }
  }

  lemma LaterIsTransitive(a: State, b: State, c: State)
    requires Later(a, b) && Later(b, c)
    ensures Later(a, c)
  {
    forall i: nat | i < |a.insts| ensures LaterJob(a, c, i) { assert LaterJob(a, b, i) && LaterJob(b, c, i); }
  }

  lemma {:induction false} RunSplits(ops: Operations, s: State, es: seq<Event>, fs: seq<Event>)
    ensures Run(ops, s, es + fs) == Run(ops, Run(ops, s, es), fs)
    ensures PossibleRun(ops, s, es + fs) <==> PossibleRun(ops, s, es) && PossibleRun(ops, Run(ops, s, es), fs)
    decreases |es|
  {
    if es == [] {
      assert es + fs == fs;
    } else {
      assert (es + fs)[0] == es[0] && (es + fs)[1..] == es[1..] + fs;
      RunSplits(ops, Step(ops, s, es[0]), es[1..], fs);
    }
  }

  lemma AuthorizedByOwner(ops: Operations, s: State, t: string, now: real, i: nat)
    requires Inv(ops, s) && Authorize(s, Text(t), now).Some?
    requires i < |s.insts| && t in s.insts[i].issued
    ensures IsLive(s, i) && Authorize(s, Text(t), now).value.inst == i
  {
    var j := s.live[s.tokens[t]];
    assert JobIndexed(s, s.tokens[t]) && Holdings(s, j) && MintedBy(s, j, t);
  }

  // Once its job object is closed a token authorizes nothing ever again, though the same job id may
  // be opened anew any number of times.
  lemma ClosedTokensStayDead(
      ops: Operations, before: seq<Event>, jobId: string, after: seq<Event>, t: string, now: real)
    requires ValidOperations(ops) && PossibleRun(ops, INITIAL, before + [CloseJob(jobId)] + after)
    requires t in Run(ops, INITIAL, before).tokens && Run(ops, INITIAL, before).tokens[t] == jobId
    ensures Authorize(Run(ops, INITIAL, before + [CloseJob(jobId)] + after), Text(t), now).None?
  {
    var s := Run(ops, INITIAL, before);
    var closed := Close(s, jobId);
    assert before + [CloseJob(jobId)] + after == before + ([CloseJob(jobId)] + after);
    RunSplits(ops, INITIAL, before, [CloseJob(jobId)] + after);
    assert ([CloseJob(jobId)] + after)[1..] == after;
    ReachedInv(ops, before, s);
    StepKeeps(ops, s, CloseJob(jobId));
    RunIsLater(ops, closed, after);
    RunKeeps(ops, closed, after);
    var last := Run(ops, closed, after);
    assert TokenIndexed(s, t);
    var i := s.live[jobId];
    assert JobIndexed(s, jobId) && Holdings(s, i);
    assert t in closed.insts[i].issued && !IsLive(closed, i);
    assert LaterJob(closed, last, i);
    assert (t, closed.insts[i].issued[t]) in last.insts[i].issued.Items;
    if Authorize(last, Text(t), now).Some? {
      AuthorizedByOwner(ops, last, t, now, i);
    }
  }

  // ---- ceilings and quotas ----------------------------------------------------------------

  // In no interleaving does a (token, operation) pair start more calls than the operation allows.
  lemma StartsWithinCeiling(ops: Operations, es: seq<Event>, s: State, t: string, operation: string)
    requires Reaches(ops, es, s)
    ensures CountStarts(s.log, t, operation) <= if operation in ops then ops[operation].maxCalls else 0
  {
    ReachedInv(ops, es, s);
    if i: nat :| i < |s.insts| && t in s.insts[i].issued {
      assert MeterTrue(s, i, t, operation) && MeterWithin(ops, s, i, (t, operation));
      if operation in ops { assert Declare(ops[operation]).Ok?; }
    } else {
      forall k | 0 <= k < |s.log| ensures s.log[k].token != t { assert Justified(ops, s, s.log[k]); }
      CountStartsAbsent(s.log, t, operation);
      if operation in ops { assert Declare(ops[operation]).Ok?; }
    }
  }

  // A quota reply lists exactly the operations of the capability's role; each line counts the calls
  // really started, and used + remaining is the ceiling without the clamp at zero.
  lemma QuotaIsExact(ops: Operations, es: seq<Event>, s: State, t: string, now: real)
    requires Reaches(ops, es, s) && Authorize(s, Text(t), now).Some?
    ensures var role := Authorize(s, Text(t), now).value.capability.role;
            var q := Quota(ops, s, Text(t), now);
            && q.Some?
            && (forall n :: n in q.value <==> n in ops && ops[n].role == role)
            && forall n | n in q.value ::
                 && q.value[n].used == CountStarts(s.log, t, n)
                 && q.value[n].used + q.value[n].remaining == q.value[n].maxCalls == ops[n].maxCalls
                 && 0 <= q.value[n].remaining
  {
    ReachedInv(ops, es, s);
    var g := Authorize(s, Text(t), now).value;
    var q := Quota(ops, s, Text(t), now).value;
    assert JobIndexed(s, s.tokens[t]) && Holdings(s, g.inst) && MintedBy(s, g.inst, t);
    forall n | n in q
      ensures q[n].used == CountStarts(s.log, t, n) && q[n].used + q[n].remaining == q[n].maxCalls == ops[n].maxCalls
      ensures 0 <= q[n].remaining
    {
      assert ops[n].name == n && Declare(ops[n]).Ok?;
      assert MeterTrue(s, g.inst, t, n) && MeterWithin(ops, s, g.inst, (t, n));
    }
  }

  // A dispatch with an object payload starts a call exactly when the quota it could read at that
  // moment shows calls left, the job has a key for the operation, and HTTP callers may use it.
  lemma AdmittedIffQuotaLeft(
      ops: Operations, es: seq<Event>, s: State, t: string, operation: string, task: TaskField,
      overHttp: bool, now: real)
    requires Reaches(ops, es, s)
    ensures Admit(ops, s, Text(t), Text(operation), Object(task), overHttp, now).Some?
       <==> var q := Quota(ops, s, Text(t), now);
            && q.Some? && operation in q.value && q.value[operation].remaining > 0
            && (overHttp ==> ops[operation].httpExposed)
            && var given := s.insts[Authorize(s, Text(t), now).value.inst].given;
               ops[operation].provider in given && given[ops[operation].provider] != ""
    ensures var c := Admit(ops, s, Text(t), Text(operation), Object(task), overHttp, now);
            c.Some? ==> && c.value.token == t && c.value.spec == ops[operation]
                        && c.value.task == task && c.value.overHttp == overHttp
                        && c.value.inst == Authorize(s, Text(t), now).value.inst
  {
    ReachedInv(ops, es, s);
    if Authorize(s, Text(t), now).Some? {
      var g := Authorize(s, Text(t), now).value;
      assert JobIndexed(s, s.tokens[t]) && Holdings(s, g.inst) && MintedBy(s, g.inst, t);
      QuotaIsExact(ops, es, s, t, now);
    }
  }

  // A token or operation that is not text, or a payload that is not an object, is refused.
  lemma IllTypedIsRefused(
      ops: Operations, s: State, token: Presented, operation: Presented, payload: Payload, overHttp: bool, now: real)
    requires token.NotText? || operation.NotText? || payload.NotObject?
    ensures Admit(ops, s, token, operation, payload, overHttp, now).None?
    ensures token.NotText? ==> Quota(ops, s, token, now).None?
  {
  }

  // ---- keys and roles ---------------------------------------------------------------------

  // Every handler call ever made got the non-empty key its job object was opened with, for the
  // provider its operation declares, under a capability that job minted for the operation's role.
  lemma HandlerGetsItsJobsKey(ops: Operations, es: seq<Event>, s: State, k: nat)
    requires Reaches(ops, es, s) && k < |s.log|
    ensures Justified(ops, s, s.log[k])
  {
    ReachedInv(ops, es, s);
    assert Justified(ops, s, s.log[k]);
  }

  // What a call was started with never changes afterwards, whatever else happens: in particular
  // not when its job closes and the held keys are overwritten.
  lemma CallsAreFixed(ops: Operations, es: seq<Event>, s: State, fs: seq<Event>, k: nat)
    requires Reaches(ops, es, s) && PossibleRun(ops, s, fs) && k < |s.log|
    ensures k < |Run(ops, s, fs).log| && Run(ops, s, fs).log[k] == s.log[k]
    ensures Run(ops, s, fs).insts[s.log[k].inst].given == s.insts[s.log[k].inst].given
  {
    ReachedInv(ops, es, s);
    RunIsLater(ops, s, fs);
    assert LaterJob(s, Run(ops, s, fs), s.log[k].inst);
  }

  // A record goes to the job object its call was billed to, and to no other: not even to a live
  // job that has since been opened under the same id.
  lemma RecordGoesHome(ops: Operations, es: seq<Event>, s: State, k: nat, outcome: Outcome, j: nat)
    requires Reaches(ops, es, s) && k in s.flights && j < |s.insts|
    ensures var s' := Finish(s, k, outcome);
            var home := s.log[k].inst;
            && (j != home ==> s'.insts[j] == s.insts[j])
            && |s'.insts[home].records| == |s.insts[home].records| + 1
            && s.insts[home].records < s'.insts[home].records
            && k !in s'.flights
            && var r := s'.insts[home].records[|s.insts[home].records|];
               TrueRecord(ops, s'.insts[home], r) && r.operation == s.log[k].spec.name
               && r.status == StatusOf(outcome)
               && match s.log[k].task
                  case TaskText(x) => r.taskId == x
                  case TaskNumber(n) => ReadsAs(r.taskId, n)
                  case TaskFlag(b) => r.taskId == if b then "True" else "False"
                  case TaskOther => r.taskId == ""
  {
    ReachedInv(ops, es, s);
    assert Justified(ops, s, s.log[k]);
    TaskIdIs(s.log[k].task);
  }

  // A text task is recorded as it came, a number in its shortest decimal form, a flag by its name and
  // anything else as the empty text.
  lemma TaskIdIs(task: TaskField)
    ensures match task
            case TaskText(x) => TaskId(task) == x
            case TaskNumber(n) => ReadsAs(TaskId(task), n)
            case TaskFlag(b) => TaskId(task) == if b then "True" else "False"
            case TaskOther => TaskId(task) == ""
  {
    if task.TaskNumber? { DecimalReadsBack(task.number); }
  }

  // The recorded status, from what the handler did.
  lemma StatusIs(o: Outcome)
    ensures StatusOf(o) == Denied <==> o.RaisedDenied?
    ensures StatusOf(o) == Unreachable <==> o == Raised(None)
    ensures StatusOf(o) == PaymentRequired <==> o == Raised(Some(402))
    ensures StatusOf(o) == Unauthorized <==> o == Raised(Some(401)) || o == Raised(Some(403))
    ensures StatusOf(o) == RateLimited <==> o == Raised(Some(429))
    ensures o.Raised? && o.code.Some? && o.code.value in {401, 402, 403, 429} ==> StatusOf(o) != BadRequest
    ensures o.Raised? && o.code.Some? && o.code.value !in {401, 402, 403, 429} ==>
              (StatusOf(o) == BadRequest <==> 400 <= o.code.value < 500)
    ensures StatusOf(o) == ProviderError <==> o.Raised? && o.code.Some?
                                              && !(200 <= o.code.value < 300) && !(400 <= o.code.value < 500)
  {
  }

  // Every handler call made through HTTP runs an agent operation under an agent capability.
  lemma HttpCallsAreAgentCalls(ops: Operations, es: seq<Event>, s: State, k: nat)
    requires Reaches(ops, es, s) && k < |s.log| && s.log[k].overHttp
    ensures s.log[k].spec.role == ROLE_AGENT
    ensures s.log[k].token in s.insts[s.log[k].inst].issued
    ensures s.insts[s.log[k].inst].issued[s.log[k].token].role == ROLE_AGENT
  {
    ReachedInv(ops, es, s);
    assert Justified(ops, s, s.log[k]);
    assert Declare(ops[s.log[k].spec.name]).Ok?;
  }

  // A status of success is recorded for a caller who is refused exactly when the handler returned
  // something other than an object, or raised an exception that carries a 2xx code.
  lemma SucceededButRefusedIff(o: Outcome)
    ensures StatusOf(o) == Succeeded && o != ReturnedObject
       <==> o == ReturnedOther || (o.Raised? && o.code.Some? && 200 <= o.code.value < 300)
  {
  }

  // ---- closing everything -----------------------------------------------------------------

  function CloseEvents(ids: seq<string>): seq<Event> { seq(|ids|, n requires 0 <= n < |ids| => CloseJob(ids[n])) }

  lemma {:induction false} ClosingRuns(ops: Operations, s: State, ids: seq<string>)
    ensures PossibleRun(ops, s, CloseEvents(ids))
    ensures Run(ops, s, CloseEvents(ids)).live.Keys == s.live.Keys - Elements(ids)
    decreases |ids|
  {
    if ids != [] {
      assert CloseEvents(ids)[1..] == CloseEvents(ids[1..]);
      assert Elements(ids) == {ids[0]} + Elements(ids[1..]);
      ClosingRuns(ops, Close(s, ids[0]), ids[1..]);
    }
  }

  lemma ClosingOneMore(ops: Operations, s: State, ids: seq<string>, n: nat)
    requires n < |ids|
    ensures Run(ops, s, CloseEvents(ids[..n + 1])) == Close(Run(ops, s, CloseEvents(ids[..n])), ids[n])
  {
    assert CloseEvents(ids[..n + 1]) == CloseEvents(ids[..n]) + [CloseJob(ids[n])];
    RunSplits(ops, s, CloseEvents(ids[..n]), [CloseJob(ids[n])]);
  }

  // A close of every job that was live, in any order and with nothing between, leaves no live job
  // and no token.
  lemma CloseAllEmpties(ops: Operations, s: State, ids: seq<string>)
    requires ValidOperations(ops) && Inv(ops, s) && Elements(ids) == s.live.Keys
    ensures Run(ops, s, CloseEvents(ids)).live == map[] && Run(ops, s, CloseEvents(ids)).tokens == map[]
  {
    ClosingRuns(ops, s, ids);
    RunKeeps(ops, s, CloseEvents(ids));
    var s' := Run(ops, s, CloseEvents(ids));
    assert s'.live.Keys == {};
    assert s'.tokens.Keys == {} by {
      forall t ensures t !in s'.tokens { assert TokenIndexed(s', t); }
    }
  }

  lemma ClosedEmpty(ops: Operations, s: State, ids: seq<string>)
    requires Elements(ids) == s.live.Keys
    ensures Run(ops, s, CloseEvents(ids)).live.Keys == {}
    ensures ValidOperations(ops) && Inv(ops, s) ==> Run(ops, s, CloseEvents(ids)).tokens == map[]
  {
    ClosingRuns(ops, s, ids);
    if ValidOperations(ops) && Inv(ops, s) { CloseAllEmpties(ops, s, ids); }
  }
}

/** The credential broker (room/broker.py) as a state machine over values.

    Every locked section of the source is one step.  A dispatch is two steps, `Begin` (authorize
    and bill) and `Finish` (append the record), with the unlocked handler call between them, so any
    other step may fall in the gap.  Time and fresh tokens are inputs of the steps that read them. */
module BrokerModel {
  import opened Common

  // ---- operations a profile declares ------------------------------------------------------

  const ROLE_AGENT := "agent"
  const ROLE_EVALUATOR := "evaluator"

  predicate IsRole(role: string) { role == ROLE_AGENT || role == ROLE_EVALUATOR }

  datatype OperationSpec = OperationSpec(
    name: string, role: string, provider: string, callable: bool, maxCalls: int, httpExposed: bool)

  datatype ConfigError =
    | BadName | UnknownRole | NoHandler | NoCalls | EvaluatorExposed
    | DuplicateNames | BadJobId | AlreadyOpen | NotOpen

  // [a-z][a-z0-9-]{0,63}
  predicate IsOperationName(s: string) {
    && 1 <= |s| <= 64
    && Lower(s[0])
    && forall i | 0 <= i < |s| :: Lower(s[i]) || Digit(s[i]) || s[i] == '-'
  }

  // The checks run when an operation is declared, in order.
  function Declare(spec: OperationSpec): Result<OperationSpec, ConfigError> {
    if !IsOperationName(spec.name) then Err(BadName)
    else if !IsRole(spec.role) then Err(UnknownRole)
    else if !spec.callable then Err(NoHandler)
    else if spec.maxCalls <= 0 then Err(NoCalls)
    else if spec.role == ROLE_EVALUATOR && spec.httpExposed then Err(EvaluatorExposed)
    else Ok(spec)
  }

  type Operations = map<string, OperationSpec>

  // What a broker holds after construction: declared operations under their own names.
  ghost predicate ValidOperations(ops: Operations) {
    forall n | n in ops :: ops[n].name == n && Declare(ops[n]).Ok?
  }

  // The table by name; of two under one name the later would stay.
  function ByName(specs: seq<OperationSpec>): Operations {
    if specs == [] then map[]
    else ByName(specs[..|specs| - 1])[specs[|specs| - 1].name := specs[|specs| - 1]]
  }

  function Names(specs: seq<OperationSpec>): seq<string> {
    seq(|specs|, i requires 0 <= i < |specs| => specs[i].name)
  }

  function BuildTable(specs: seq<OperationSpec>): Result<Operations, ConfigError> {
    if NoRepeats(Names(specs)) then Ok(ByName(specs)) else Err(DuplicateNames)
  }

  // ---- values callers present, and what a handler may do ----------------------------------

  // An argument the source types as `object`: text, or something that is not text.
  datatype Presented = Text(text: string) | NotText

  datatype TaskField = TaskText(text: string) | TaskNumber(number: int) | TaskFlag(flag: bool) | TaskOther

  datatype Payload = Object(task: TaskField) | NotObject

  datatype Outcome = ReturnedObject | ReturnedOther | RaisedDenied | Raised(code: Option<int>)

  datatype Status =
    | Succeeded | Denied | PaymentRequired | Unauthorized | RateLimited
    | BadRequest | ProviderError | Unreachable

  function Classify(code: Option<int>): Status {
    match code
    case None => Unreachable
    case Some(c) =>
      if 200 <= c < 300 then Succeeded
      else if c == 402 then PaymentRequired
      else if c == 401 || c == 403 then Unauthorized
      else if c == 429 then RateLimited
      else if 400 <= c < 500 then BadRequest
      else ProviderError
  }

  function StatusOf(outcome: Outcome): Status {
    match outcome
    case ReturnedObject => Succeeded
    case ReturnedOther => Succeeded
    case RaisedDenied => Denied
    case Raised(code) => Classify(code)
  }

  function TaskId(task: TaskField): string {
    match task
    case TaskText(s) => s
    case TaskNumber(n) => Decimal(n)
    case TaskFlag(b) => if b then "True" else "False"
    case TaskOther => ""
  }

  // ---- state ------------------------------------------------------------------------------

  datatype Capability = Capability(token: string, jobId: string, role: string, expiresAt: real)

  datatype Record = Record(
    contestant: string, taskId: string, provider: string, phase: string, operation: string, status: Status)

  // One `_Job` object.  `given` and `issued` are history: the keys it was opened with and every
  // capability it ever minted.  A job object outlives its place among the live jobs.
  datatype Instance = Instance(
    jobId: string, contestant: string, given: map<string, string>, issued: map<string, Capability>,
    credentials: map<string, string>, capabilities: map<string, Capability>,
    calls: map<(string, string), nat>, records: seq<Record>)

  // The local variables of one dispatch between its billing and its record.
  datatype Call = Call(
    inst: nat, token: string, spec: OperationSpec, key: string, overHttp: bool, task: TaskField)

  // `insts` holds every job object ever made; `live` and `tokens` are the source's `_jobs` and
  // `_tokens`.  `log` is the history of handler calls and `flights` the ones not yet recorded.
  datatype RawState = RawState(
    insts: seq<Instance>, live: map<string, nat>, tokens: map<string, string>,
    log: seq<Call>, flights: set<nat>)

  predicate Shaped(s: RawState) {
    && (forall id | id in s.live :: s.live[id] < |s.insts|)
    && (forall k | 0 <= k < |s.log| :: s.log[k].inst < |s.insts|)
    && (forall k | k in s.flights :: k < |s.log|)
  }

  type State = s: RawState | Shaped(s) witness RawState([], map[], map[], [], {})

  const INITIAL: State := RawState([], map[], map[], [], {})

  function Spent(calls: map<(string, string), nat>, token: string, operation: string): nat {
    if (token, operation) in calls then calls[(token, operation)] else 0
  }

  // ---- the locked sections ----------------------------------------------------------------

  // kcap_[0-9a-f]{32}
  predicate IsCapabilityToken(t: string) {
    |t| == 37 && t[..5] == "kcap_" && AllHex(t[5..])
  }

  function OpenCheck(s: State, jobId: string): Option<ConfigError> {
    if !IsJobId(jobId) then Some(BadJobId)
    else if jobId in s.live then Some(AlreadyOpen)
    else None
  }

  function Open(s: State, jobId: string, credentials: map<string, string>, contestant: string): State {
    if OpenCheck(s, jobId).Some? then s
    else
      s.(insts := s.insts + [Instance(jobId, contestant, credentials, map[], credentials, map[], map[], [])],
         live := s.live[jobId := |s.insts|])
  }

  function Closed(job: Instance): Instance { job.(capabilities := map[], credentials := map[]) }

  function Close(s: State, jobId: string): State {
    if jobId !in s.live then s
    else
      var i := s.live[jobId];
      s.(insts := s.insts[i := Closed(s.insts[i])],
         live := s.live - {jobId},
         tokens := s.tokens - s.insts[i].capabilities.Keys)
  }

  function CloseReply(s: State, jobId: string): seq<Record> {
    if jobId in s.live then s.insts[s.live[jobId]].records else []
  }

  function IssueCheck(s: State, jobId: string, role: string): Option<ConfigError> {
    if !IsRole(role) then Some(UnknownRole)
    else if jobId !in s.live then Some(NotOpen)
    else None
  }

  function Issue(s: State, jobId: string, role: string, token: string, expiresAt: real): State {
    if IssueCheck(s, jobId, role).Some? then s
    else
      var i := s.live[jobId];
      var job := s.insts[i];
      var cap := Capability(token, jobId, role, expiresAt);
      s.(insts := s.insts[i := job.(capabilities := job.capabilities[token := cap],
                                    issued := job.issued[token := cap])],
         tokens := s.tokens[token := jobId])
  }

  datatype Grant = Grant(inst: nat, capability: Capability)

  function Authorize(s: State, token: Presented, now: real): (g: Option<Grant>)
    ensures g.Some? ==> token.Text? && g.value.inst < |s.insts|
  {
    if !token.Text? || !IsCapabilityToken(token.text) then None
    else if token.text !in s.tokens then None
    else if s.tokens[token.text] !in s.live then None
    else
      var i := s.live[s.tokens[token.text]];
      if token.text !in s.insts[i].capabilities then None
      else
        var cap := s.insts[i].capabilities[token.text];
        if now > cap.expiresAt then None else Some(Grant(i, cap))
  }

  // The locked part of dispatch: None is the one refusal.
  function Admit(ops: Operations, s: State, token: Presented, operation: Presented,
                 payload: Payload, overHttp: bool, now: real): (c: Option<Call>)
    ensures c.Some? ==> c.value.inst < |s.insts|
  {
    var g := Authorize(s, token, now);
    if g.None? then None
    else if !operation.Text? then None
    else if operation.text !in ops then None
    else
      var spec := ops[operation.text];
      var job := s.insts[g.value.inst];
      if spec.role != g.value.capability.role then None
      else if overHttp && !spec.httpExposed then None
      else if !payload.Object? then None
      else if Spent(job.calls, token.text, spec.name) >= spec.maxCalls then None
      else if spec.provider !in job.credentials || job.credentials[spec.provider] == "" then None
      else Some(Call(g.value.inst, token.text, spec, job.credentials[spec.provider], overHttp, payload.task))
  }

  function Bill(s: State, c: Call): State
    requires c.inst < |s.insts|
  {
    var job := s.insts[c.inst];
    var billed := job.calls[(c.token, c.spec.name) := Spent(job.calls, c.token, c.spec.name) + 1];
    s.(insts := s.insts[c.inst := job.(calls := billed)], log := s.log + [c], flights := s.flights + {|s.log|})
  }

  function RecordOf(contestant: string, c: Call, status: Status): Record {
    Record(contestant, TaskId(c.task), c.spec.provider, c.spec.role, c.spec.name, status)
  }

  // The locked append of `_record`, on the job object the call was billed to.
  function Finish(s: State, k: nat, outcome: Outcome): State {
    if k !in s.flights then s
    else
      var c := s.log[k];
      var job := s.insts[c.inst];
      var r := RecordOf(job.contestant, c, StatusOf(outcome));
      s.(insts := s.insts[c.inst := job.(records := job.records + [r])], flights := s.flights - {k})
  }

  datatype QuotaLine = QuotaLine(used: int, maxCalls: int, remaining: int)

  function Line(calls: map<(string, string), nat>, token: string, spec: OperationSpec): QuotaLine {
    var used := Spent(calls, token, spec.name);
    QuotaLine(used, spec.maxCalls, if spec.maxCalls - used > 0 then spec.maxCalls - used else 0)
  }

  function Quota(ops: Operations, s: State, token: Presented, now: real): Option<map<string, QuotaLine>> {
    var g := Authorize(s, token, now);
    if g.None? then None
    else
      var job, cap := s.insts[g.value.inst], g.value.capability;
      Some(map n | n in ops && ops[n].role == cap.role :: Line(job.calls, cap.token, ops[n]))
  }

  // ---- runs -------------------------------------------------------------------------------

  datatype Event =
    | OpenJob(jobId: string, credentials: map<string, string>, contestant: string)
    | CloseJob(jobId: string)
    | IssueToken(jobId: string, role: string, minted: string, expiresAt: real)
    | BeginCall(token: Presented, operation: Presented, payload: Payload, overHttp: bool, now: real)
    | FinishCall(call: nat, outcome: Outcome)
    | ReadQuota(token: Presented, now: real)

  function Step(ops: Operations, s: State, e: Event): State {
    match e
    case OpenJob(id, credentials, contestant) => Open(s, id, credentials, contestant)
    case CloseJob(id) => Close(s, id)
    case IssueToken(id, role, token, expiresAt) => Issue(s, id, role, token, expiresAt)
    case BeginCall(token, operation, payload, overHttp, now) =>
      var c := Admit(ops, s, token, operation, payload, overHttp, now);
      if c.None? then s else Bill(s, c.value)
    case FinishCall(k, outcome) => Finish(s, k, outcome)
    case ReadQuota(_, _) => s
  }

  // What the environment guarantees of one step: a minted token is well formed and was never
  // minted before.
  ghost predicate Possible(s: State, e: Event) {
    e.IssueToken? ==>
      && IsCapabilityToken(e.minted)
      && forall i | 0 <= i < |s.insts| :: e.minted !in s.insts[i].issued
  }

  function Run(ops: Operations, s: State, es: seq<Event>): State
    decreases |es|
  {
    if es == [] then s else Run(ops, Step(ops, s, es[0]), es[1..])
  }

  ghost predicate PossibleRun(ops: Operations, s: State, es: seq<Event>)
    decreases |es|
  {
    es == [] || (Possible(s, es[0]) && PossibleRun(ops, Step(ops, s, es[0]), es[1..]))
  }
}

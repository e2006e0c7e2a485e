/** The broker object itself (room/broker.py): shared maps and job objects updated in place.

    Each method is one locked section, so a method body is one atomic step of `BrokerModel`; its
    contract says which.  A job object is shared by reference: a dispatch in flight keeps the object
    it was billed to after `CloseJob` has removed it from `jobs`. */
module BrokerObject {
  import opened Common
  import opened BrokerModel
  import opened BrokerInvariant
  import opened BrokerTheorems

  class Job {
    const jobId: string
    const contestant: string
    var credentials: map<string, string>
    var capabilities: map<string, Capability>
    var calls: map<(string, string), nat>
    var records: seq<Record>
    // The place of this object among all job objects ever made.
    ghost const serial: nat

    constructor (jobId: string, credentials: map<string, string>, contestant: string, ghost serial: nat)
      ensures this.serial == serial && this.jobId == jobId && this.contestant == contestant
      ensures this.credentials == credentials && capabilities == map[] && calls == map[] && records == []
    {
      this.jobId, this.contestant, this.credentials := jobId, contestant, credentials;
      this.capabilities, this.calls, this.records := map[], map[], [];
      this.serial := serial;
    }

    // This object is the model's instance (whose `given` and `issued` are history).
    ghost predicate Is(job: Instance)
      reads this
    {
      && jobId == job.jobId && contestant == job.contestant
      && credentials == job.credentials && capabilities == job.capabilities
      && calls == job.calls && records == job.records
    }

    // Every key is overwritten, under every provider.
    method Overwrite()
      modifies this`credentials
      ensures credentials.Keys == old(credentials.Keys)
      ensures forall p | p in credentials :: credentials[p] == ""
    {
      var pending := credentials.Keys;
      while pending != {}
        invariant pending <= credentials.Keys == old(credentials.Keys)
        invariant forall p | p in credentials && p !in pending :: credentials[p] == ""
        decreases |pending|
      {
        var provider :| provider in pending;
        credentials := credentials[provider := ""];
        pending := pending - {provider};
      }
    }

    // Every capability dies, and what is dropped of the keys is only what Overwrite leaves.
    method Retire()
      modifies this`capabilities, this`credentials
      ensures capabilities == map[] && credentials == map[]
    {
      capabilities := map[];
      Overwrite();
      assert forall p | p in credentials :: credentials[p] == "";
      credentials := map[];
    }
  }

  // The local variables `dispatch` carries from its locked section to its record.
  datatype Ticket = Ticket(job: Job, spec: OperationSpec, key: string, task: TaskField)

  class Broker {
    const operations: Operations
    const ttl: real
    var jobs: map<string, Job>
    var tokens: map<string, string>
    // The abstract state, and every job object ever made, live or not.
    ghost var state: State
    ghost var all: seq<Job>

    ghost predicate Valid()
      reads this, all
    {
      tokens == state.tokens && Wired()
    }

    // The live map and the job objects are the state's; the token index is not looked at.
    ghost predicate Wired()
      reads this, all
    {
      && (forall id :: id in jobs <==> id in state.live)
      && |all| == |state.insts|
      && (forall i | 0 <= i < |all| :: all[i].serial == i)
      && (forall i | 0 <= i < |all| :: all[i].Is(state.insts[i]))
      && (forall id | id in state.live :: jobs[id] == all[state.live[id]])
    }

    constructor (operations: Operations, ttl: real)
      ensures Valid() && state == INITIAL && all == []
      ensures this.operations == operations && this.ttl == ttl
    {
      this.operations, this.ttl := operations, ttl;
      this.jobs, this.tokens := map[], map[];
      this.state, this.all := INITIAL, [];
    }

    method OpenJob(jobId: string, credentials: map<string, string>, contestant: string)
      returns (error: Option<ConfigError>)
      requires Valid()
      modifies this
      ensures Valid()
      ensures error == OpenCheck(old(state), jobId)
      ensures state == Open(old(state), jobId, credentials, contestant)
      ensures error.Some? ==> all == old(all)
      ensures error.None? ==> jobId in jobs && fresh(jobs[jobId]) && all == old(all) + [jobs[jobId]]
    {
      if !IsJobId(jobId) { return Some(BadJobId); }
      if jobId in jobs { return Some(AlreadyOpen); }
      var job := new Job(jobId, credentials, contestant, |all|);
      jobs := jobs[jobId := job];
      all := all + [job];
      state := Open(state, jobId, credentials, contestant);
      error := None;
    }

    method CloseJob(jobId: string) returns (records: seq<Record>)
      requires Valid()
      modifies this, all
      ensures Valid() && all == old(all)
      ensures records == CloseReply(old(state), jobId)
      ensures state == Close(old(state), jobId)
    {
      if jobId !in jobs { return []; }
      var job := jobs[jobId];
      records := job.records;
      Forget(job.capabilities.Keys);
      Drop(job, jobId, state.live[jobId]);
    }

    method Drop(job: Job, jobId: string, ghost i: nat)
      requires Wired() && jobId in state.live && i == state.live[jobId] && job == all[i]
      modifies this`jobs, this`state, job`capabilities, job`credentials
      ensures Wired()
      ensures state == Close(old(state), jobId)
    {
      state := Close(state, jobId);
      jobs := jobs - {jobId};
      job.Retire();
      assert job.Is(state.insts[i]);
      forall k | 0 <= k < |all| && k != i ensures all[k].Is(state.insts[k]) {
        assert all[k].serial != job.serial && state.insts[k] == old(state.insts[k]);
      }
    }

    method Forget(dead: set<string>)
      modifies this`tokens
      ensures tokens == old(tokens) - dead
    {
      var pending := dead;
      while pending != {}
        invariant pending <= dead
        invariant tokens == old(tokens) - (dead - pending)
        decreases |pending|
      {
        var token :| token in pending;
        tokens := tokens - {token};
        pending := pending - {token};
      }
    }

    // Sequentially, close() leaves nothing live: it is CloseJob for every job of one snapshot, in
    // whatever order the snapshot lists them.
    method CloseAll(snapshot: seq<string>)
      requires Valid() && Elements(snapshot) == jobs.Keys
      modifies this, all
      ensures Valid() && all == old(all)
      ensures state == Run(operations, old(state), CloseEvents(snapshot))
      ensures jobs == map[]
      ensures ValidOperations(operations) && Inv(operations, old(state)) ==> tokens == map[]
    {
      ghost var start := state;
      assert Elements(snapshot) == start.live.Keys;
      for n := 0 to |snapshot|
        invariant Valid() && all == old(all)
        invariant state == Run(operations, start, CloseEvents(snapshot[..n]))
      {
        ClosingOneMore(operations, start, snapshot, n);
        var _ := CloseJob(snapshot[n]);
      }
      assert snapshot[..|snapshot|] == snapshot;
      ClosedEmpty(operations, start, snapshot);
    }

    method Issue(jobId: string, role: string, token: string, now: real) returns (r: Result<Capability, ConfigError>)
      requires Valid()
      // The random draw: the prefix and 16 fresh bytes in hexadecimal.
      requires IsCapabilityToken(token) && NeverMinted(state, token)
      modifies this, all
      ensures Valid() && all == old(all)
      ensures match IssueCheck(old(state), jobId, role)
              case Some(error) => r == Err(error)
              case None => r == Ok(Capability(token, jobId, role, now + ttl))
      ensures state == BrokerModel.Issue(old(state), jobId, role, token, now + ttl)
    {
      if !IsRole(role) { return Err(UnknownRole); }
      if jobId !in jobs { return Err(NotOpen); }
      var capability := Capability(token, jobId, role, now + ttl);
      Mint(jobs[jobId], capability, state.live[jobId]);
      r := Ok(capability);
    }

    method Mint(job: Job, capability: Capability, ghost i: nat)
      requires Valid() && IsRole(capability.role)
      requires capability.jobId in state.live && i == state.live[capability.jobId] && job == all[i]
      modifies this, job`capabilities
      ensures Valid() && all == old(all)
      ensures var c := capability;
              state == BrokerModel.Issue(old(state), c.jobId, c.role, c.token, c.expiresAt)
    {
      job.capabilities := job.capabilities[capability.token := capability];
      tokens := tokens[capability.token := capability.jobId];
      state := BrokerModel.Issue(state, capability.jobId, capability.role, capability.token, capability.expiresAt);
      assert state.insts == old(state.insts)[i := state.insts[i]] && job.Is(state.insts[i]);
    }

    // Validate a presented token: the live job object that minted it, and the capability.
    method Authorized(token: Presented, now: real) returns (r: Option<(Job, Capability)>)
      requires Valid()
      ensures match Authorize(state, token, now)
              case None => r.None?
              case Some(grant) => r == Some((all[grant.inst], grant.capability))
    {
      if !token.Text? || !IsCapabilityToken(token.text) { return None; }
      if token.text !in tokens { return None; }
      var jobId := tokens[token.text];
      if jobId !in jobs { return None; }
      var job := jobs[jobId];
      if token.text !in job.capabilities { return None; }
      var capability := job.capabilities[token.text];
      if now > capability.expiresAt { return None; }
      r := Some((job, capability));
    }

    // The checks of dispatch's locked section, before anything is billed.
    method Admitted(token: Presented, operation: Presented, payload: Payload, overHttp: bool, now: real)
      returns (r: Option<Ticket>)
      requires Valid()
      ensures match Admit(operations, state, token, operation, payload, overHttp, now)
              case None => r.None?
              case Some(c) => r == Some(Ticket(all[c.inst], c.spec, c.key, c.task))
    {
      var grant := Authorized(token, now);
      if grant.None? { return None; }
      var (job, capability) := grant.value;
      if !operation.Text? || operation.text !in operations { return None; }
      var spec := operations[operation.text];
      if spec.role != capability.role { return None; }
      if overHttp && !spec.httpExposed { return None; }
      if !payload.Object? { return None; }
      if Spent(job.calls, token.text, spec.name) >= spec.maxCalls { return None; }
      if spec.provider !in job.credentials || job.credentials[spec.provider] == "" { return None; }
      r := Some(Ticket(job, spec, job.credentials[spec.provider], payload.task));
    }

    // The locked section of dispatch.  A refusal changes nothing at all.
    method Begin(token: Presented, operation: Presented, payload: Payload, overHttp: bool, now: real)
      returns (ticket: Option<Ticket>, ghost call: nat)
      requires Valid()
      modifies this, all
      ensures Valid() && all == old(all)
      ensures match Admit(operations, old(state), token, operation, payload, overHttp, now)
              case None =>
                ticket.None? && unchanged(this) && forall i | 0 <= i < |all| :: unchanged(all[i])
              case Some(c) =>
                && state == Bill(old(state), c) && call == |old(state).log|
                && ticket == Some(Ticket(all[c.inst], c.spec, c.key, c.task))
    {
      call := |state.log|;
      ghost var c := Admit(operations, state, token, operation, payload, overHttp, now);
      ticket := Admitted(token, operation, payload, overHttp, now);
      if ticket.Some? { Charge(ticket.value.job, token.text, ticket.value.spec, c.value); }
    }

    method Charge(job: Job, token: string, spec: OperationSpec, ghost c: Call)
      requires Valid() && c.inst < |all|
      requires job == all[c.inst] && token == c.token && spec == c.spec
      modifies this, job`calls
      ensures Valid() && all == old(all)
      ensures state == Bill(old(state), c)
    {
      job.calls := job.calls[(token, spec.name) := Spent(job.calls, token, spec.name) + 1];
      state := Bill(state, c);
      assert state.insts == old(state.insts)[c.inst := state.insts[c.inst]] && job.Is(state.insts[c.inst]);
    }

    // What a dispatch holds while its handler runs.
    ghost predicate Holds(ticket: Ticket, call: nat)
      reads this
    {
      && call in state.flights && |all| == |state.insts|
      && var c := state.log[call];
         ticket == Ticket(all[c.inst], c.spec, c.key, c.task)
    }

    method Record(ticket: Ticket, outcome: Outcome, ghost call: nat)
      requires Valid() && Holds(ticket, call)
      modifies this, all
      ensures Valid() && all == old(all)
      ensures state == Finish(old(state), call, outcome)
    {
      var job, spec := ticket.job, ticket.spec;
      job.records := job.records + [BrokerModel.Record(job.contestant, TaskId(ticket.task), spec.provider,
                                                       spec.role, spec.name, StatusOf(outcome))];
      state := Finish(state, call, outcome);
    }

    // A dispatch with no other step in its gap.  The handler is given the key and the payload; only
    // a returned object reaches the caller, every other end is the one refusal.
    method Dispatch(token: Presented, operation: Presented, payload: Payload, overHttp: bool, now: real,
                    handler: (OperationSpec, string, Payload) -> Outcome)
      returns (returned: bool)
      requires Valid()
      modifies this, all
      ensures Valid() && all == old(all)
      ensures match Admit(operations, old(state), token, operation, payload, overHttp, now)
              case None => !returned && state == old(state)
              case Some(c) =>
                var outcome := handler(c.spec, c.key, payload);
                && state == Finish(Bill(old(state), c), |old(state).log|, outcome)
                && (returned <==> outcome == ReturnedObject)
    {
      var ticket, call := Begin(token, operation, payload, overHttp, now);
      if ticket.None? { return false; }
      var outcome := handler(ticket.value.spec, ticket.value.key, payload);
      Record(ticket.value, outcome, call);
      returned := outcome == ReturnedObject;
    }

    method ReadQuota(token: Presented, now: real) returns (q: Option<map<string, QuotaLine>>)
      requires Valid()
      ensures q == Quota(operations, state, token, now)
    {
      var grant := Authorized(token, now);
      if grant.None? { return None; }
      var (job, capability) := grant.value;
      var calls, role, own := job.calls, capability.role, capability.token;
      q := Some(map n | n in operations && operations[n].role == role :: Line(calls, own, operations[n]));
    }
  }
}

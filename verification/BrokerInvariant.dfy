/** The invariant every step of the broker keeps, whatever the interleaving. */
module BrokerInvariant {
  import opened Common
  import opened BrokerModel

  // ---- counting ---------------------------------------------------------------------------

  // The sum of `calls` over every token, for one operation.
  ghost function SumCalls(calls: map<(string, string), nat>, operation: string): nat {
    SumOver(calls, set key | key in calls && key.1 == operation)
  }

  ghost function SumOver(calls: map<(string, string), nat>, keys: set<(string, string)>): nat
    requires keys <= calls.Keys
  {
    if keys == {} then 0
    else
      var key :| key in keys;
      calls[key] + SumOver(calls, keys - {key})
  }

  lemma {:induction false} SumOverTakes(
      calls: map<(string, string), nat>, keys: set<(string, string)>, key: (string, string))
    requires keys <= calls.Keys && key in keys
    ensures SumOver(calls, keys) == calls[key] + SumOver(calls, keys - {key})
    decreases |keys|
  {
    var first :| first in keys && SumOver(calls, keys) == calls[first] + SumOver(calls, keys - {first});
    if first != key {
      SumOverTakes(calls, keys - {first}, key);
      SumOverTakes(calls, keys - {key}, first);
      assert keys - {first} - {key} == keys - {key} - {first};
    }
  }

  lemma {:induction false} SumOverAgrees(
      a: map<(string, string), nat>, b: map<(string, string), nat>, keys: set<(string, string)>)
    requires keys <= a.Keys && keys <= b.Keys
    requires forall key | key in keys :: a[key] == b[key]
    ensures SumOver(a, keys) == SumOver(b, keys)
    decreases |keys|
  {
    if keys != {} {
      var key :| key in keys;
      SumOverTakes(a, keys, key);
      SumOverTakes(b, keys, key);
      SumOverAgrees(a, b, keys - {key});
    }
  }

  lemma SumCallsBilled(calls: map<(string, string), nat>, key: (string, string), operation: string)
    ensures SumCalls(calls[key := Spent(calls, key.0, key.1) + 1], operation)
         == SumCalls(calls, operation) + (if key.1 == operation then 1 else 0)
  {
    var billed := calls[key := Spent(calls, key.0, key.1) + 1];
    var before := set k | k in calls && k.1 == operation;
    var after := set k | k in billed && k.1 == operation;
    assert (key.0, key.1) == key;
    if key.1 == operation {
      assert after - {key} == before - {key};
      SumOverTakes(billed, after, key);
      SumOverAgrees(calls, billed, before - {key});
      if key in calls {
        SumOverTakes(calls, before, key);
      } else {
        assert before - {key} == before;
      }
    } else {
      assert after == before;
      SumOverAgrees(calls, billed, before);
    }
  }

  // How many records name the operation.
  function CountRecords(records: seq<Record>, operation: string): nat {
    if records == [] then 0
    else
      var n := |records| - 1;
      CountRecords(records[..n], operation) + (if records[n].operation == operation then 1 else 0)
  }

  // How many handler calls a (token, operation) pair has started.
  function CountStarts(log: seq<Call>, token: string, operation: string): nat {
    if log == [] then 0
    else
      var n := |log| - 1;
      CountStarts(log[..n], token, operation)
      + (if log[n].token == token && log[n].spec.name == operation then 1 else 0)
  }

  // The dispatches billed to job object i for the operation and not yet recorded.
  function InFlight(s: State, i: nat, operation: string): set<nat> {
    set k | k in s.flights && s.log[k].inst == i && s.log[k].spec.name == operation
  }

  // ---- the invariant ----------------------------------------------------------------------

  predicate IsLive(s: State, i: nat) {
    i < |s.insts| && s.insts[i].jobId in s.live && s.live[s.insts[i].jobId] == i
  }

  ghost predicate JobIndexed(s: State, id: string) {
    id in s.live ==> s.insts[s.live[id]].jobId == id
  }

  ghost predicate TokenIndexed(s: State, t: string) {
    t in s.tokens ==> s.tokens[t] in s.live && t in s.insts[s.live[s.tokens[t]]].capabilities
  }

  ghost predicate CapabilityIndexed(s: State, id: string, t: string) {
    id in s.live && t in s.insts[s.live[id]].capabilities ==> t in s.tokens && s.tokens[t] == id
  }

  // A live job still holds the keys it was given and every capability it minted; a closed one nothing.
  ghost predicate Holdings(s: State, i: nat) {
    i < |s.insts| ==>
      if IsLive(s, i) then s.insts[i].credentials == s.insts[i].given && s.insts[i].capabilities == s.insts[i].issued
      else s.insts[i].credentials == map[] && s.insts[i].capabilities == map[]
  }

  // `_tokens` and the live jobs' capability maps index each other.
  ghost predicate Indexed(s: State) {
    && (forall id {:trigger JobIndexed(s, id)} :: JobIndexed(s, id))
    && (forall t {:trigger TokenIndexed(s, t)} :: TokenIndexed(s, t))
    && (forall id, t {:trigger CapabilityIndexed(s, id, t)} :: CapabilityIndexed(s, id, t))
    && (forall i: nat {:trigger Holdings(s, i)} :: Holdings(s, i))
  }

  // A capability names its own token and job, and no other job ever minted that token.
  ghost predicate MintedBy(s: State, i: nat, t: string) {
    i < |s.insts| && t in s.insts[i].issued ==>
      && IsCapabilityToken(t)
      && s.insts[i].issued[t].token == t
      && s.insts[i].issued[t].jobId == s.insts[i].jobId
      && IsRole(s.insts[i].issued[t].role)
      && forall j | 0 <= j < |s.insts| && t in s.insts[j].issued :: j == i
  }

  ghost predicate Minted(s: State) {
    forall i: nat, t {:trigger MintedBy(s, i, t)} :: MintedBy(s, i, t)
  }

  // The counters are the history, within the ceilings.
  ghost predicate MeterWithin(ops: Operations, s: State, i: nat, key: (string, string)) {
    i < |s.insts| && key in s.insts[i].calls ==>
      key.0 in s.insts[i].issued && key.1 in ops && 1 <= s.insts[i].calls[key] <= ops[key.1].maxCalls
  }

  ghost predicate MeterTrue(s: State, i: nat, t: string, op: string) {
    i < |s.insts| && t in s.insts[i].issued ==> Spent(s.insts[i].calls, t, op) == CountStarts(s.log, t, op)
  }

  ghost predicate Metered(ops: Operations, s: State) {
    && (forall i: nat, key {:trigger MeterWithin(ops, s, i, key)} :: MeterWithin(ops, s, i, key))
    && (forall i: nat, t, op {:trigger MeterTrue(s, i, t, op)} :: MeterTrue(s, i, t, op))
  }

  // What is true of one handler call, from its start to the end of time.
  ghost predicate Justified(ops: Operations, s: State, c: Call) {
    && c.inst < |s.insts|
    && c.spec.name in ops && ops[c.spec.name] == c.spec
    && c.token in s.insts[c.inst].issued
    && s.insts[c.inst].issued[c.token].role == c.spec.role
    && c.spec.provider in s.insts[c.inst].given
    && c.key == s.insts[c.inst].given[c.spec.provider]
    && c.key != ""
    && (c.overHttp ==> c.spec.httpExposed)
  }

  ghost predicate Logged(ops: Operations, s: State) {
    forall k {:trigger Justified(ops, s, s.log[k])} | 0 <= k < |s.log| :: Justified(ops, s, s.log[k])
  }

  // A record names an operation and carries that operation's provider and role.
  ghost predicate TrueRecord(ops: Operations, job: Instance, r: Record) {
    && r.operation in ops
    && r.provider == ops[r.operation].provider
    && r.phase == ops[r.operation].role
    && r.contestant == job.contestant
  }

  ghost predicate RecordsTrue(ops: Operations, job: Instance) {
    forall n | 0 <= n < |job.records| :: TrueRecord(ops, job, job.records[n])
  }

  ghost predicate Recorded(ops: Operations, s: State) {
    forall i {:trigger RecordsTrue(ops, s.insts[i])} | 0 <= i < |s.insts| :: RecordsTrue(ops, s.insts[i])
  }

  // Billed calls are recorded or in flight: nothing is lost, nothing is counted twice.
  ghost predicate Balanced(s: State, i: nat, op: string) {
    i < |s.insts| ==>
      SumCalls(s.insts[i].calls, op) == CountRecords(s.insts[i].records, op) + |InFlight(s, i, op)|
  }

  ghost predicate Conserved(s: State) {
    forall i: nat, op {:trigger Balanced(s, i, op)} :: Balanced(s, i, op)
  }

  ghost predicate Inv(ops: Operations, s: State) {
    && Indexed(s)
    && Minted(s)
    && Metered(ops, s)
    && Logged(ops, s)
    && Recorded(ops, s)
    && Conserved(s)
  }

  // ---- each step keeps it -----------------------------------------------------------------

  // Steps that only move calls and records.
  ghost predicate SameIdentity(s: State, s': State) {
    && s'.live == s.live && s'.tokens == s.tokens && |s'.insts| == |s.insts|
    && forall i | 0 <= i < |s.insts| :: SameJob(s.insts[i], s'.insts[i])
  }

  predicate SameJob(a: Instance, b: Instance) {
    && a.jobId == b.jobId && a.contestant == b.contestant && a.given == b.given && a.issued == b.issued
    && a.credentials == b.credentials && a.capabilities == b.capabilities
  }

  // Steps that only move jobs and capabilities.
  ghost predicate SameLedger(s: State, s': State) {
    && s'.log == s.log && s'.flights == s.flights && |s.insts| <= |s'.insts|
    && (forall i | 0 <= i < |s.insts| :: SameAccount(s.insts[i], s'.insts[i]))
    && (forall i | |s.insts| <= i < |s'.insts| :: Blank(s'.insts[i]))
  }

  predicate SameAccount(a: Instance, b: Instance) {
    && a.calls == b.calls && a.records == b.records
    && a.jobId == b.jobId && a.contestant == b.contestant && a.given == b.given
    && forall t | t in a.issued :: t in b.issued && b.issued[t] == a.issued[t]
  }

  predicate Blank(job: Instance) { job.calls == map[] && job.records == [] && job.issued == map[] }

  lemma IdentityIndexed(s: State, s': State)
    requires SameIdentity(s, s') && Indexed(s)
    ensures Indexed(s')
  {
    forall id ensures JobIndexed(s', id) { assert JobIndexed(s, id); }
    forall t ensures TokenIndexed(s', t) { assert TokenIndexed(s, t); }
    forall id, t ensures CapabilityIndexed(s', id, t) { assert CapabilityIndexed(s, id, t); }
    forall i: nat ensures Holdings(s', i) { assert Holdings(s, i); }
  }

  lemma IdentityMinted(s: State, s': State)
    requires SameIdentity(s, s') && Minted(s)
    ensures Minted(s')
  {
    forall i: nat, t ensures MintedBy(s', i, t) { assert MintedBy(s, i, t); }
  }

  lemma JustifiedKept(ops: Operations, s: State, s': State, c: Call)
    requires Justified(ops, s, c) && |s.insts| <= |s'.insts|
    requires SameJob(s.insts[c.inst], s'.insts[c.inst]) || SameAccount(s.insts[c.inst], s'.insts[c.inst])
    ensures Justified(ops, s', c)
  {
  }

  lemma LedgerKept(ops: Operations, s: State, s': State)
    requires SameLedger(s, s') && Logged(ops, s) && Recorded(ops, s) && Conserved(s)
    ensures Logged(ops, s') && Recorded(ops, s') && Conserved(s')
  {
    forall k | 0 <= k < |s'.log| ensures Justified(ops, s', s'.log[k]) {
      JustifiedKept(ops, s, s', s.log[k]);
    }
    forall i | 0 <= i < |s'.insts| ensures RecordsTrue(ops, s'.insts[i]) {
      if i < |s.insts| {
        assert RecordsTrue(ops, s.insts[i]) && SameAccount(s.insts[i], s'.insts[i]);
      } else {
        assert Blank(s'.insts[i]);
      }
    }
    forall i: nat, op ensures Balanced(s', i, op) {
      assert Balanced(s, i, op);
      if i < |s.insts| {
        assert SameAccount(s.insts[i], s'.insts[i]) && InFlight(s', i, op) == InFlight(s, i, op);
      } else if i < |s'.insts| {
        assert Blank(s'.insts[i]) && InFlight(s', i, op) == {};
      }
    }
  }

  lemma {:induction false} CountStartsAbsent(log: seq<Call>, token: string, operation: string)
    requires forall k | 0 <= k < |log| :: log[k].token != token
    ensures CountStarts(log, token, operation) == 0
  {
    if log != [] { CountStartsAbsent(log[..|log| - 1], token, operation); }
  }

  ghost predicate NeverMinted(s: State, t: string) {
    forall i | 0 <= i < |s.insts| :: t !in s.insts[i].issued
  }

  lemma UnmintedUnspent(ops: Operations, s: State, i: nat, t: string, op: string)
    requires Logged(ops, s) && Metered(ops, s) && NeverMinted(s, t) && i < |s.insts|
    ensures Spent(s.insts[i].calls, t, op) == 0 == CountStarts(s.log, t, op)
  {
    forall k | 0 <= k < |s.log| ensures s.log[k].token != t { assert Justified(ops, s, s.log[k]); }
    CountStartsAbsent(s.log, t, op);
    assert MeterWithin(ops, s, i, (t, op));
  }

  lemma MeterKept(ops: Operations, s: State, s': State)
    requires SameLedger(s, s') && Logged(ops, s) && Metered(ops, s)
    requires forall i, t | 0 <= i < |s.insts| && t in s'.insts[i].issued :: t in s.insts[i].issued || NeverMinted(s, t)
    ensures Metered(ops, s')
  {
    forall i: nat, key ensures MeterWithin(ops, s', i, key) {
      assert MeterWithin(ops, s, i, key);
      if i < |s.insts| { assert SameAccount(s.insts[i], s'.insts[i]); }
      else if i < |s'.insts| { assert Blank(s'.insts[i]); }
    }
    forall i: nat, t, op ensures MeterTrue(s', i, t, op) {
      assert MeterTrue(s, i, t, op);
      if i < |s.insts| {
        assert SameAccount(s.insts[i], s'.insts[i]);
        if t in s'.insts[i].issued && t !in s.insts[i].issued { UnmintedUnspent(ops, s, i, t, op); }
      } else if i < |s'.insts| {
        assert Blank(s'.insts[i]);
      }
    }
  }

  lemma OpenIndexed(s: State, jobId: string, credentials: map<string, string>, contestant: string)
    requires Indexed(s) && OpenCheck(s, jobId).None?
    ensures Indexed(Open(s, jobId, credentials, contestant))
  {
    var s' := Open(s, jobId, credentials, contestant);
    forall id ensures JobIndexed(s', id) { assert JobIndexed(s, id); }
    forall t ensures TokenIndexed(s', t) { assert TokenIndexed(s, t); }
    forall id, t ensures CapabilityIndexed(s', id, t) { assert CapabilityIndexed(s, id, t); }
    forall i: nat ensures Holdings(s', i) { assert Holdings(s, i); }
  }

  lemma CloseIndexed(s: State, jobId: string)
    requires Indexed(s) && jobId in s.live
    ensures Indexed(Close(s, jobId))
  {
    var s' := Close(s, jobId);
    var n := s.live[jobId];
    assert JobIndexed(s, jobId);
    forall id ensures JobIndexed(s', id) { assert JobIndexed(s, id); }
    forall t ensures TokenIndexed(s', t) {
      assert TokenIndexed(s, t);
      if t in s'.tokens { assert JobIndexed(s, s.tokens[t]); }
    }
    forall id, t ensures CapabilityIndexed(s', id, t) {
      assert CapabilityIndexed(s, id, t) && CapabilityIndexed(s, jobId, t) && JobIndexed(s, id);
    }
    forall i: nat ensures Holdings(s', i) { assert Holdings(s, i); }
  }

  lemma IssueIndexed(s: State, jobId: string, role: string, token: string, expiresAt: real)
    requires Indexed(s) && Minted(s) && NeverMinted(s, token)
    requires IssueCheck(s, jobId, role).None?
    ensures Indexed(Issue(s, jobId, role, token, expiresAt))
  {
    var s' := Issue(s, jobId, role, token, expiresAt);
    var n := s.live[jobId];
    assert JobIndexed(s, jobId);
    forall id ensures JobIndexed(s', id) { assert JobIndexed(s, id); }
    forall t ensures TokenIndexed(s', t) { assert TokenIndexed(s, t); }
    forall id, t ensures CapabilityIndexed(s', id, t) {
      assert CapabilityIndexed(s, id, t) && JobIndexed(s, id);
      if id in s.live { assert Holdings(s, s.live[id]); }
    }
    forall i: nat ensures Holdings(s', i) { assert Holdings(s, i); }
  }

  lemma OldMinted(s: State, s': State)
    requires Minted(s) && SameLedger(s, s')
    requires forall i | 0 <= i < |s.insts| :: s'.insts[i].issued == s.insts[i].issued
    ensures Minted(s')
  {
    forall i: nat, t ensures MintedBy(s', i, t) {
      assert MintedBy(s, i, t);
      if i < |s.insts| { assert SameAccount(s.insts[i], s'.insts[i]); }
      else if i < |s'.insts| { assert Blank(s'.insts[i]); }
    }
  }

  lemma IssueMinted(s: State, jobId: string, role: string, token: string, expiresAt: real)
    requires Indexed(s) && Minted(s) && NeverMinted(s, token) && IsCapabilityToken(token)
    requires IssueCheck(s, jobId, role).None?
    ensures Minted(Issue(s, jobId, role, token, expiresAt))
  {
    var s' := Issue(s, jobId, role, token, expiresAt);
    assert JobIndexed(s, jobId);
    forall i: nat, t ensures MintedBy(s', i, t) { assert MintedBy(s, i, t); }
  }

  lemma AdmitJustified(
      ops: Operations, s: State, token: Presented, operation: Presented, payload: Payload, overHttp: bool, now: real)
    requires ValidOperations(ops) && Indexed(s) && Minted(s)
    requires Admit(ops, s, token, operation, payload, overHttp, now).Some?
    ensures var c := Admit(ops, s, token, operation, payload, overHttp, now).value;
            && Justified(ops, s, c) && IsLive(s, c.inst)
            && Spent(s.insts[c.inst].calls, c.token, c.spec.name) < c.spec.maxCalls
  {
    var i := s.live[s.tokens[token.text]];
    assert JobIndexed(s, s.tokens[token.text]);
    assert IsLive(s, i) && Holdings(s, i) && MintedBy(s, i, token.text);
  }

  // What a bill needs from admission.
  ghost predicate Billable(ops: Operations, s: State, c: Call) {
    Justified(ops, s, c) && Spent(s.insts[c.inst].calls, c.token, c.spec.name) < c.spec.maxCalls
  }

  lemma BillMeters(ops: Operations, s: State, c: Call)
    requires Minted(s) && Metered(ops, s) && Billable(ops, s, c)
    ensures Metered(ops, Bill(s, c))
  {
    var s' := Bill(s, c);
    assert s'.log[..|s.log|] == s.log;
    forall i: nat, key ensures MeterWithin(ops, s', i, key) {
      assert MeterWithin(ops, s, i, key);
    }
    forall i: nat, t, op ensures MeterTrue(s', i, t, op) {
      assert MeterTrue(s, i, t, op);
      if i < |s.insts| && t in s.insts[i].issued {
        assert CountStarts(s'.log, t, op)
            == CountStarts(s.log, t, op) + (if t == c.token && op == c.spec.name then 1 else 0);
        assert MintedBy(s, i, t);
        assert t == c.token ==> i == c.inst;
        assert (t, op) == (c.token, c.spec.name) <==> t == c.token && op == c.spec.name;
      }
    }
  }

  lemma BillConserves(ops: Operations, s: State, c: Call)
    requires Conserved(s) && Billable(ops, s, c)
    ensures Conserved(Bill(s, c))
  {
    forall i: nat, op ensures Balanced(Bill(s, c), i, op) {
      assert Balanced(s, i, op);
      BillBalances(ops, s, c, i, op);
    }
  }

  lemma BillBalances(ops: Operations, s: State, c: Call, i: nat, op: string)
    requires Balanced(s, i, op) && Billable(ops, s, c)
    ensures Balanced(Bill(s, c), i, op)
  {
    if i < |s.insts| { SumCallsBilled(s.insts[i].calls, (c.token, c.spec.name), op); }
    BillFlies(ops, s, c, i, op);
  }

  lemma BillFlies(ops: Operations, s: State, c: Call, i: nat, op: string)
    requires Billable(ops, s, c)
    ensures InFlight(Bill(s, c), i, op)
         == if i == c.inst && op == c.spec.name then InFlight(s, i, op) + {|s.log|} else InFlight(s, i, op)
    ensures |s.log| !in InFlight(s, i, op)
  {
    var s', n := Bill(s, c), |s.log|;
    assert n !in s.flights && s'.log[n] == c;
    forall k
      ensures k in InFlight(s', i, op) <==> k in InFlight(s, i, op) || (k == n && i == c.inst && op == c.spec.name)
    {
      if k in s.flights { assert s'.log[k] == s.log[k]; }
    }
  }

  lemma BillKeeps(ops: Operations, s: State, c: Call)
    requires Inv(ops, s) && Billable(ops, s, c)
    ensures Inv(ops, Bill(s, c))
  {
    var s' := Bill(s, c);
    IdentityIndexed(s, s');
    IdentityMinted(s, s');
    BillMeters(ops, s, c);
    BillConserves(ops, s, c);
    forall k | 0 <= k < |s'.log| ensures Justified(ops, s', s'.log[k]) {
      if k < |s.log| { assert Justified(ops, s, s.log[k]); }
      JustifiedKept(ops, s, s', s'.log[k]);
    }
    forall i | 0 <= i < |s'.insts| ensures RecordsTrue(ops, s'.insts[i]) {
      assert RecordsTrue(ops, s.insts[i]);
    }
  }

  lemma FinishConserves(s: State, k: nat, outcome: Outcome)
    requires Conserved(s) && k in s.flights
    ensures Conserved(Finish(s, k, outcome))
  {
    var s' := Finish(s, k, outcome);
    var c := s.log[k];
    var records, records' := s.insts[c.inst].records, s'.insts[c.inst].records;
    assert records'[..|records|] == records;
    forall i: nat, op ensures Balanced(s', i, op) {
      assert Balanced(s, i, op);
      if i == c.inst && op == c.spec.name {
        assert InFlight(s, i, op) == InFlight(s', i, op) + {k};
      } else {
        assert InFlight(s', i, op) == InFlight(s, i, op);
      }
    }
  }

  lemma FinishMeters(ops: Operations, s: State, k: nat, outcome: Outcome)
    requires Metered(ops, s) && k in s.flights
    ensures Metered(ops, Finish(s, k, outcome))
  {
    var s' := Finish(s, k, outcome);
    forall i: nat, key ensures MeterWithin(ops, s', i, key) { assert MeterWithin(ops, s, i, key); }
    forall i: nat, t, op ensures MeterTrue(s', i, t, op) { assert MeterTrue(s, i, t, op); }
  }

  lemma FinishKeeps(ops: Operations, s: State, k: nat, outcome: Outcome)
    requires Inv(ops, s) && k in s.flights
    ensures Inv(ops, Finish(s, k, outcome))
  {
    var s' := Finish(s, k, outcome);
    IdentityIndexed(s, s');
    IdentityMinted(s, s');
    FinishMeters(ops, s, k, outcome);
    FinishConserves(s, k, outcome);
    forall n | 0 <= n < |s'.log| ensures Justified(ops, s', s'.log[n]) {
      JustifiedKept(ops, s, s', s.log[n]);
    }
    assert Justified(ops, s, s.log[k]);
    forall i | 0 <= i < |s'.insts| ensures RecordsTrue(ops, s'.insts[i]) {
      assert RecordsTrue(ops, s.insts[i]);
    }
  }

  lemma OpenKeeps(ops: Operations, s: State, jobId: string, credentials: map<string, string>, contestant: string)
    requires Inv(ops, s) && OpenCheck(s, jobId).None?
    ensures Inv(ops, Open(s, jobId, credentials, contestant))
  {
    var s' := Open(s, jobId, credentials, contestant);
    OpenIndexed(s, jobId, credentials, contestant);
    OldMinted(s, s');
    LedgerKept(ops, s, s');
    MeterKept(ops, s, s');
  }

  lemma CloseKeeps(ops: Operations, s: State, jobId: string)
    requires Inv(ops, s) && jobId in s.live
    ensures Inv(ops, Close(s, jobId))
  {
    var s' := Close(s, jobId);
    CloseIndexed(s, jobId);
    OldMinted(s, s');
    LedgerKept(ops, s, s');
    MeterKept(ops, s, s');
  }

  lemma IssueKeeps(ops: Operations, s: State, jobId: string, role: string, token: string, expiresAt: real)
    requires Inv(ops, s) && IssueCheck(s, jobId, role).None?
    requires IsCapabilityToken(token) && NeverMinted(s, token)
    ensures Inv(ops, Issue(s, jobId, role, token, expiresAt))
  {
    var s' := Issue(s, jobId, role, token, expiresAt);
    IssueIndexed(s, jobId, role, token, expiresAt);
    IssueMinted(s, jobId, role, token, expiresAt);
    assert forall i | 0 <= i < |s.insts| :: SameAccount(s.insts[i], s'.insts[i]);
    LedgerKept(ops, s, s');
    MeterKept(ops, s, s');
  }

  lemma StepKeeps(ops: Operations, s: State, e: Event)
    requires ValidOperations(ops) && Inv(ops, s) && Possible(s, e)
    ensures Inv(ops, Step(ops, s, e))
  {
    match e
    case OpenJob(id, credentials, contestant) =>
      if OpenCheck(s, id).None? { OpenKeeps(ops, s, id, credentials, contestant); }
    case CloseJob(id) =>
      if id in s.live { CloseKeeps(ops, s, id); }
    case IssueToken(id, role, token, expiresAt) =>
      if IssueCheck(s, id, role).None? { IssueKeeps(ops, s, id, role, token, expiresAt); }
    case BeginCall(token, operation, payload, overHttp, now) =>
      var c := Admit(ops, s, token, operation, payload, overHttp, now);
      if c.Some? {
        AdmitJustified(ops, s, token, operation, payload, overHttp, now);
        BillKeeps(ops, s, c.value);
      }
    case FinishCall(k, outcome) =>
      if k in s.flights { FinishKeeps(ops, s, k, outcome); }
    case ReadQuota(_, _) =>
  }

  lemma {:induction false} RunKeeps(ops: Operations, s: State, es: seq<Event>)
    requires ValidOperations(ops) && Inv(ops, s) && PossibleRun(ops, s, es)
    ensures Inv(ops, Run(ops, s, es))
    decreases |es|
  {
    if es != [] {
      StepKeeps(ops, s, es[0]);
      RunKeeps(ops, Step(ops, s, es[0]), es[1..]);
    }
  }

  lemma InitialInv(ops: Operations)
    ensures Inv(ops, INITIAL)
  {
  }
}

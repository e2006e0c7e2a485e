/** Whose record is whose: call by call, a job object's records are exactly its settled calls. */
module BrokerLedger {
  import opened Common
  import opened BrokerModel
  import opened BrokerInvariant
  import opened BrokerTheorems

  // What a record and a call both show: the task as given, and the operation.
  type Mark = (string, string)

  // A text task marks as it came; how the others print is TaskIdIs.
  function CallMark(c: Call): Mark {
    (match c.task case TaskText(text) => text case _ => TaskId(c.task), c.spec.name)
  }

  function Marks(records: seq<Record>): multiset<Mark> {
    if records == [] then multiset{}
    else
      var n := |records| - 1;
      Marks(records[..n]) + multiset{(records[n].taskId, records[n].operation)}
  }

  // The calls billed to job object i and no longer in flight.
  function Settled(log: seq<Call>, flights: set<nat>, i: nat): multiset<Mark> {
    if log == [] then multiset{}
    else
      var n := |log| - 1;
      Settled(log[..n], flights, i) + Part(log[n], n !in flights, i)
  }

  function Part(c: Call, landed: bool, i: nat): multiset<Mark> {
    if landed && c.inst == i then multiset{CallMark(c)} else multiset{}
  }

  lemma {:induction false} SettledAgree(log: seq<Call>, f: set<nat>, g: set<nat>, i: nat)
    requires forall k | 0 <= k < |log| :: k in f <==> k in g
    ensures Settled(log, f, i) == Settled(log, g, i)
  {
    if log != [] { SettledAgree(log[..|log| - 1], f, g, i); }
  }

  lemma {:induction false} SettledLands(log: seq<Call>, flights: set<nat>, i: nat, k: nat)
    requires k in flights && k < |log|
    ensures Settled(log, flights - {k}, i)
         == Settled(log, flights, i) + Part(log[k], true, i)
  {
    var n := |log| - 1;
    if k == n {
      LastLands(log, flights, i);
    } else {
      SettledLands(log[..n], flights, i, k);
      Regroup(Settled(log[..n], flights, i), Part(log[k], true, i), Part(log[n], n !in flights, i));
      assert n !in flights <==> n !in flights - {k};
    }
  }

  lemma LastLands(log: seq<Call>, flights: set<nat>, i: nat)
    requires log != [] && |log| - 1 in flights
    ensures Settled(log, flights - {|log| - 1}, i) == Settled(log, flights, i) + Part(log[|log| - 1], true, i)
  {
    var n := |log| - 1;
    SettledAgree(log[..n], flights, flights - {n}, i);
  }

  lemma Regroup(a: multiset<Mark>, b: multiset<Mark>, c: multiset<Mark>)
    ensures (a + b) + c == (a + c) + b
  {
  }

  lemma {:induction false} SettledNone(log: seq<Call>, flights: set<nat>, i: nat)
    requires forall k | 0 <= k < |log| :: log[k].inst != i
    ensures Settled(log, flights, i) == multiset{}
  {
    if log != [] { SettledNone(log[..|log| - 1], flights, i); }
  }

  ghost predicate Told(s: State, i: nat) {
    i < |s.insts| ==> Marks(s.insts[i].records) == Settled(s.log, s.flights, i)
  }

  ghost predicate Ledger(s: State) { forall i: nat {:trigger Told(s, i)} :: Told(s, i) }

  lemma BillTells(s: State, c: Call)
    requires Ledger(s) && c.inst < |s.insts|
    ensures Ledger(Bill(s, c))
  {
    var s', n := Bill(s, c), |s.log|;
    forall i: nat ensures Told(s', i) {
      assert Told(s, i);
      assert s'.log[..n] == s.log;
      SettledAgree(s.log, s.flights, s'.flights, i);
    }
  }

  lemma FinishTells(s: State, k: nat, outcome: Outcome)
    requires Ledger(s) && k in s.flights
    ensures Ledger(Finish(s, k, outcome))
  {
    var s', c := Finish(s, k, outcome), s.log[k];
    var records, records' := s.insts[c.inst].records, s'.insts[c.inst].records;
    assert records'[..|records|] == records;
    forall i: nat ensures Told(s', i) {
      assert Told(s, i);
      SettledLands(s.log, s.flights, i, k);
    }
  }

  lemma OpenTells(s: State, jobId: string, credentials: map<string, string>, contestant: string)
    requires Ledger(s)
    ensures Ledger(Open(s, jobId, credentials, contestant))
  {
    var s' := Open(s, jobId, credentials, contestant);
    forall i: nat ensures Told(s', i) {
      assert Told(s, i);
      if i >= |s.insts| { SettledNone(s.log, s.flights, i); }
    }
  }

  lemma StepTells(ops: Operations, s: State, e: Event)
    requires Ledger(s)
    ensures Ledger(Step(ops, s, e))
  {
    var s' := Step(ops, s, e);
    match e
    case OpenJob(id, credentials, contestant) => OpenTells(s, id, credentials, contestant);
    case BeginCall(token, operation, payload, overHttp, now) =>
      var c := Admit(ops, s, token, operation, payload, overHttp, now);
      if c.Some? { BillTells(s, c.value); }
    case FinishCall(k, outcome) => if k in s.flights { FinishTells(s, k, outcome); }
    case CloseJob(_) => forall i: nat ensures Told(s', i) { assert Told(s, i); }
    case IssueToken(_, _, _, _) => forall i: nat ensures Told(s', i) { assert Told(s, i); }
    case ReadQuota(_, _) =>
  }

  lemma {:induction false} RunTells(ops: Operations, s: State, es: seq<Event>)
    requires Ledger(s)
    ensures Ledger(Run(ops, s, es))
    decreases |es|
  {
    if es != [] {
      StepTells(ops, s, es[0]);
      RunTells(ops, Step(ops, s, es[0]), es[1..]);
    }
  }

  // In every interleaving each job object's records are, task by task and operation by operation,
  // exactly the calls billed to that object and no longer in flight: none lost, doubled, relabelled
  // or filed under another job.
  lemma RecordsAreTheSettledCalls(ops: Operations, es: seq<Event>, i: nat)
    ensures var s := Run(ops, INITIAL, es);
            i < |s.insts| ==> Marks(s.insts[i].records) == Settled(s.log, s.flights, i)
  {
    RunTells(ops, INITIAL, es);
    assert Told(Run(ops, INITIAL, es), i);
  }
}

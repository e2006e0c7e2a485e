/** The bounded server's connection slots (room/bounded_http.py) as a protocol.

    A connection is admitted by taking a slot without blocking, or refused.  An admitted connection
    gives its slot back at one of two places: where its thread failed to start, or in its thread's
    `finally`; the release counter moves in a separate step afterwards. */
module BoundedHttp {
  import opened Common

  // Where one admitted connection stands.
  datatype Phase = Admitted | Running | Freed | Noted

  // `slots` is the semaphore, `broken` whether a release ever found it full (a BoundedSemaphore
  // raises there); `releases` counts the release calls made for each connection.
  datatype State = State(
    maxConnections: nat, slots: int, releaseCount: nat, broken: bool,
    phases: seq<Phase>, releases: seq<nat>, refused: nat)

  datatype Event =
    | Connect
    | ThreadStarts(c: nat)
    | ThreadFails(c: nat)
    | ThreadEnds(c: nat)
    | Note(c: nat)

  function Initial(maxConnections: nat): State { State(maxConnections, maxConnections, 0, false, [], [], 0) }

  // A step some thread could take.  A thread that failed to start never runs its body.
  predicate Possible(s: State, e: Event) {
    match e
    case Connect => true
    case ThreadStarts(c) => c < |s.phases| && s.phases[c] == Admitted
    case ThreadFails(c) => c < |s.phases| && s.phases[c] == Admitted
    case ThreadEnds(c) => c < |s.phases| && s.phases[c] == Running
    case Note(c) => c < |s.phases| && s.phases[c] == Freed
  }

  function Release(s: State, c: nat): State
    requires c < |s.phases| && c < |s.releases|
  {
    if s.slots >= s.maxConnections then s.(broken := true)
    else s.(slots := s.slots + 1, phases := s.phases[c := Freed], releases := s.releases[c := s.releases[c] + 1])
  }

  function Step(s: State, e: Event): State
    requires Possible(s, e) && |s.releases| == |s.phases|
  {
    match e
    case Connect =>
      if s.slots > 0 then s.(slots := s.slots - 1, phases := s.phases + [Admitted], releases := s.releases + [0])
      else s.(refused := s.refused + 1)
    case ThreadStarts(c) => s.(phases := s.phases[c := Running])
    case ThreadFails(c) => Release(s, c)
    case ThreadEnds(c) => Release(s, c)
    case Note(c) => s.(phases := s.phases[c := Noted], releaseCount := s.releaseCount + 1)
  }

  predicate Holding(p: Phase) { p == Admitted || p == Running }

  predicate IsNoted(p: Phase) { p == Noted }

  // How many phases satisfy a test.
  function Count(phases: seq<Phase>, test: Phase -> bool): nat {
    if phases == [] then 0
    else Count(phases[..|phases| - 1], test) + (if test(phases[|phases| - 1]) then 1 else 0)
  }

  lemma {:induction false} CountUpdate(phases: seq<Phase>, test: Phase -> bool, c: nat, p: Phase)
    requires c < |phases|
    ensures Count(phases[c := p], test)
         == Count(phases, test) - (if test(phases[c]) then 1 else 0) + (if test(p) then 1 else 0)
  {
    var n := |phases| - 1;
    if c == n {
      assert phases[c := p][..n] == phases[..n];
    } else {
      assert phases[c := p][..n] == phases[..n][c := p];
      CountUpdate(phases[..n], test, c, p);
    }
  }

  lemma {:induction false} CountBound(phases: seq<Phase>, test: Phase -> bool)
    ensures Count(phases, test) <= |phases|
    ensures forall c | 0 <= c < |phases| && test(phases[c]) :: Count(phases, test) > 0
  {
    if phases != [] { CountBound(phases[..|phases| - 1], test); }
  }

  ghost predicate Inv(s: State) {
    && !s.broken
    && |s.releases| == |s.phases|
    && s.slots + Count(s.phases, Holding) == s.maxConnections
    && s.slots >= 0
    && s.releaseCount == Count(s.phases, IsNoted)
    && forall c | 0 <= c < |s.phases| :: s.releases[c] == if Holding(s.phases[c]) then 0 else 1
  }

  lemma StepKeeps(s: State, e: Event)
    requires Inv(s) && Possible(s, e)
    ensures Inv(Step(s, e))
  {
    match e
    case Connect =>
      if s.slots > 0 { assert (s.phases + [Admitted])[..|s.phases|] == s.phases; }
    case ThreadStarts(c) =>
      CountUpdate(s.phases, Holding, c, Running);
      CountUpdate(s.phases, IsNoted, c, Running);
    case ThreadFails(c) => ReleaseKeeps(s, c);
    case ThreadEnds(c) => ReleaseKeeps(s, c);
    case Note(c) =>
      CountUpdate(s.phases, Holding, c, Noted);
      CountUpdate(s.phases, IsNoted, c, Noted);
  }

  lemma ReleaseKeeps(s: State, c: nat)
    requires Inv(s) && c < |s.phases| && Holding(s.phases[c])
    ensures Inv(Release(s, c))
  {
    CountBound(s.phases, Holding);
    CountUpdate(s.phases, Holding, c, Freed);
    CountUpdate(s.phases, IsNoted, c, Freed);
  }

  // ---- runs -------------------------------------------------------------------------------

  ghost predicate PossibleRun(s: State, es: seq<Event>)
    decreases |es|
  {
    |s.releases| == |s.phases| && (es == [] || (Possible(s, es[0]) && PossibleRun(Step(s, es[0]), es[1..])))
  }

  ghost function Run(s: State, es: seq<Event>): State
    requires PossibleRun(s, es)
    decreases |es|
  {
    if es == [] then s else Run(Step(s, es[0]), es[1..])
  }

  lemma {:induction false} RunKeeps(s: State, es: seq<Event>)
    requires Inv(s) && PossibleRun(s, es)
    ensures Inv(Run(s, es)) && Run(s, es).maxConnections == s.maxConnections
    decreases |es|
  {
    if es != [] {
      StepKeeps(s, es[0]);
      RunKeeps(Step(s, es[0]), es[1..]);
    }
  }

  // In every interleaving the free slots and the connections holding one add up to the maximum, no
  // release overflows the semaphore, and each admitted connection has released its slot exactly once
  // if it is past its end, and not at all before it, across both release sites.
  lemma SlotsAreConserved(maxConnections: nat, es: seq<Event>, s: State)
    requires PossibleRun(Initial(maxConnections), es) && s == Run(Initial(maxConnections), es)
    ensures !s.broken && s.maxConnections == maxConnections
    ensures 0 <= s.slots && s.slots + Count(s.phases, Holding) == maxConnections
    ensures |s.releases| == |s.phases| && Sum(s.releases) == |s.phases| - (maxConnections - s.slots)
    ensures forall c | 0 <= c < |s.phases| ::
              s.releases[c] == if s.phases[c] == Admitted || s.phases[c] == Running then 0 else 1
  {
    RunKeeps(Initial(maxConnections), es);
    ReleasedAreSummed(s.phases, s.releases);
  }

  lemma {:induction false} ReleasedAreSummed(phases: seq<Phase>, releases: seq<nat>)
    requires |phases| == |releases|
    requires forall c | 0 <= c < |phases| :: releases[c] == if Holding(phases[c]) then 0 else 1
    ensures Sum(releases) == |phases| - Count(phases, Holding)
  {
    if phases != [] {
      var n := |phases| - 1;
      ReleasedAreSummed(phases[..n], releases[..n]);
    }
  }

  function Sum(counts: seq<nat>): nat { if counts == [] then 0 else Sum(counts[..|counts| - 1]) + counts[|counts| - 1] }

  lemma {:induction false} NotedWereReleased(phases: seq<Phase>, releases: seq<nat>)
    requires |phases| == |releases|
    requires forall c | 0 <= c < |phases| :: releases[c] == if Holding(phases[c]) then 0 else 1
    ensures Count(phases, IsNoted) <= Sum(releases)
  {
    if phases != [] {
      var n := |phases| - 1;
      NotedWereReleased(phases[..n], releases[..n]);
    }
  }

  // The counter never runs ahead of the releases that really happened.
  lemma CountTrailsReleases(maxConnections: nat, es: seq<Event>)
    requires PossibleRun(Initial(maxConnections), es)
    ensures var s := Run(Initial(maxConnections), es); s.releaseCount <= Sum(s.releases)
  {
    RunKeeps(Initial(maxConnections), es);
    var s := Run(Initial(maxConnections), es);
    NotedWereReleased(s.phases, s.releases);
  }

  // How many connections a run has seen.
  function Connects(es: seq<Event>): nat {
    if es == [] then 0 else (if es[0].Connect? then 1 else 0) + Connects(es[1..])
  }

  lemma {:induction false} ConnectsAreCounted(s: State, es: seq<Event>)
    requires PossibleRun(s, es)
    ensures var s' := Run(s, es); |s'.phases| + s'.refused == |s.phases| + s.refused + Connects(es)
    decreases |es|
  {
    if es != [] { ConnectsAreCounted(Step(s, es[0]), es[1..]); }
  }

  // Every connection is either admitted or refused, and none is lost.
  lemma AdmittedOrRefused(maxConnections: nat, es: seq<Event>)
    requires PossibleRun(Initial(maxConnections), es)
    ensures var s := Run(Initial(maxConnections), es); |s.phases| + s.refused == Connects(es)
  {
    ConnectsAreCounted(Initial(maxConnections), es);
  }

  // A connection that finds no slot is refused, and a refusal takes and releases nothing.
  lemma RefusedIffFull(maxConnections: nat, es: seq<Event>, s: State)
    requires PossibleRun(Initial(maxConnections), es) && s == Run(Initial(maxConnections), es)
    ensures |s.releases| == |s.phases|
    ensures Step(s, Connect) == s.(refused := s.refused + 1) <==> Count(s.phases, Holding) == maxConnections
  {
    RunKeeps(Initial(maxConnections), es);
    ConnectRefusedIff(s);
  }

  lemma ConnectRefusedIff(s: State)
    requires |s.releases| == |s.phases| && s.slots >= 0
    ensures Step(s, Connect) == s.(refused := s.refused + 1) <==> s.slots == 0
  {
    if s.slots > 0 { assert |Step(s, Connect).phases| == |s.phases| + 1; }
  }

  // ---- waiting for a release --------------------------------------------------------------

  // What the waiter sees each time it holds the condition: the counter, and the clock.
  datatype Glance = Glance(count: nat, now: real)

  // The glance that ends the wait: the first that is enough, or the first past the deadline.
  predicate EndsWait(glances: seq<Glance>, atLeast: nat, deadline: real, i: nat, enough: bool) {
    && i < |glances|
    && (forall k | 0 <= k < i :: glances[k].count < atLeast && glances[k].now < deadline)
    && (enough <==> glances[i].count >= atLeast) && (enough || glances[i].now >= deadline)
  }

  // What a wait answers; None is still waiting when the glances run out.
  ghost predicate WaitAnswer(glances: seq<Glance>, atLeast: nat, deadline: real, r: Option<bool>) {
    match r
    case None => forall i | 0 <= i < |glances| :: glances[i].count < atLeast && glances[i].now < deadline
    case Some(enough) => exists i: nat :: EndsWait(glances, atLeast, deadline, i, enough)
  }

  // The wait loop over what it would see.
  method WaitForRelease(glances: seq<Glance>, atLeast: nat, deadline: real) returns (r: Option<bool>)
    ensures WaitAnswer(glances, atLeast, deadline, r)
  {
    for i := 0 to |glances|
      invariant forall k | 0 <= k < i :: glances[k].count < atLeast && glances[k].now < deadline
    {
      if glances[i].count >= atLeast {
        assert EndsWait(glances, atLeast, deadline, i, true);
        return Some(true);
      }
      if deadline - glances[i].now <= 0.0 {
        assert EndsWait(glances, atLeast, deadline, i, false);
        return Some(false);
      }
    }
    r := None;
  }

  // The answer in full: true exactly if some glance is enough and none before it is past the deadline,
  // false exactly if some glance is past the deadline and none up to it is enough.
  lemma WaitIs(glances: seq<Glance>, atLeast: nat, deadline: real, r: Option<bool>)
    requires WaitAnswer(glances, atLeast, deadline, r)
    ensures r == Some(true)
       <==> exists i :: 0 <= i < |glances| && glances[i].count >= atLeast
                        && forall k | 0 <= k < i :: glances[k].now < deadline
    ensures r == Some(false)
       <==> exists i :: 0 <= i < |glances| && glances[i].now >= deadline
                        && forall k | 0 <= k <= i :: glances[k].count < atLeast
  {
    if r.Some? {
      var e: nat :| EndsWait(glances, atLeast, deadline, e, r.value);
      assert glances[e].count >= atLeast || glances[e].now >= deadline;
    }
  }

  // The state of a run after its first n steps.
  ghost predicate ReachesAfter(maxConnections: nat, es: seq<Event>, n: nat, s: State) {
    n <= |es| && PossibleRun(Initial(maxConnections), es[..n]) && s == Run(Initial(maxConnections), es[..n])
  }

  // The waiter looks at the counter in states of one run, never earlier ones after later ones.
  ghost predicate GlancesAt(maxConnections: nat, es: seq<Event>, at: seq<nat>, glances: seq<Glance>) {
    && |at| == |glances|
    && (forall i, j | 0 <= i < j < |at| :: at[i] <= at[j])
    && forall i | 0 <= i < |at| ::
         exists s :: ReachesAfter(maxConnections, es, at[i], s) && s.releaseCount == glances[i].count
  }

  lemma {:induction false} CountGrows(s: State, es: seq<Event>)
    requires PossibleRun(s, es)
    ensures s.releaseCount <= Run(s, es).releaseCount
    decreases |es|
  {
    if es != [] { CountGrows(Step(s, es[0]), es[1..]); }
  }

  lemma {:induction false} CountGrowsFrom(s: State, es: seq<Event>, n: nat)
    requires PossibleRun(s, es) && n <= |es|
    ensures PossibleRun(s, es[..n]) && Run(s, es[..n]).releaseCount <= Run(s, es).releaseCount
    decreases |es|
  {
    if n == 0 {
      CountGrows(s, es);
    } else {
      assert es[..n][1..] == es[1..][..n - 1];
      CountGrowsFrom(Step(s, es[0]), es[1..], n - 1);
    }
  }

  // A wait that answered true while the server ran ended at one of its glances, and in the state it
  // then saw and every later one of the run at least that many slots have really been released.
  lemma WaitMeansReleased(
      maxConnections: nat, es: seq<Event>, at: seq<nat>, glances: seq<Glance>,
      atLeast: nat, deadline: real, r: Option<bool>)
    requires PossibleRun(Initial(maxConnections), es) && GlancesAt(maxConnections, es, at, glances)
    requires WaitAnswer(glances, atLeast, deadline, r) && r == Some(true)
    ensures exists i: nat :: EndsWait(glances, atLeast, deadline, i, true)
              && forall n, s | at[i] <= n && ReachesAfter(maxConnections, es, n, s) :: Sum(s.releases) >= atLeast
  {
    var i: nat :| EndsWait(glances, atLeast, deadline, i, true);
    var seen :| ReachesAfter(maxConnections, es, at[i], seen) && seen.releaseCount == glances[i].count;
    forall n, s | at[i] <= n && ReachesAfter(maxConnections, es, n, s) ensures Sum(s.releases) >= atLeast {
      assert es[..n][..at[i]] == es[..at[i]];
      CountGrowsFrom(Initial(maxConnections), es[..n], at[i]);
      CountTrailsReleases(maxConnections, es[..n]);
    }
  }

  // ---- the server object ------------------------------------------------------------------

  class Server {
    const maxConnections: nat
    var connectionSlots: int
    var releaseCount: nat
    ghost var state: State

    ghost predicate Valid()
      reads this
    {
      && Inv(state)
      && state.maxConnections == maxConnections
      && connectionSlots == state.slots && releaseCount == state.releaseCount
    }

    constructor (maxConnections: nat)
      requires maxConnections > 0
      ensures Valid() && state == Initial(maxConnections)
    {
      this.maxConnections, connectionSlots, releaseCount := maxConnections, maxConnections, 0;
      state := Initial(maxConnections);
    }

    // The admission half of process_request.
    method Accept() returns (admitted: bool)
      requires Valid()
      modifies this
      ensures Valid() && state == Step(old(state), Connect)
      ensures admitted <==> old(connectionSlots) > 0
    {
      StepKeeps(state, Connect);
      state := Step(state, Connect);
      admitted := connectionSlots > 0;
      if admitted { connectionSlots := connectionSlots - 1; }
    }

    // A thread that will not start: slot and counter move in the accepting thread.
    method StartFails(ghost c: nat)
      requires Valid() && Possible(state, ThreadFails(c))
      modifies this
      ensures Valid() && state == Step(old(state), ThreadFails(c))
    {
      StepKeeps(state, ThreadFails(c));
      state := Step(state, ThreadFails(c));
      connectionSlots := connectionSlots + 1;
    }

    method Starts(ghost c: nat)
      requires Valid() && Possible(state, ThreadStarts(c))
      modifies this
      ensures Valid() && state == Step(old(state), ThreadStarts(c))
    {
      StepKeeps(state, ThreadStarts(c));
      state := Step(state, ThreadStarts(c));
    }

    // The `finally` of process_request_thread.
    method Ends(ghost c: nat)
      requires Valid() && Possible(state, ThreadEnds(c))
      modifies this
      ensures Valid() && state == Step(old(state), ThreadEnds(c))
    {
      StepKeeps(state, ThreadEnds(c));
      state := Step(state, ThreadEnds(c));
      connectionSlots := connectionSlots + 1;
    }

    method NoteRelease(ghost c: nat)
      requires Valid() && Possible(state, Note(c))
      modifies this
      ensures Valid() && state == Step(old(state), Note(c))
    {
      StepKeeps(state, Note(c));
      state := Step(state, Note(c));
      releaseCount := releaseCount + 1;
    }
  }
}

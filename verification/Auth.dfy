/** Request admission (room/auth.py): the signed-request window and the single-use nonce guard. */
module Auth {
  import opened Common

  // ---- the request window -----------------------------------------------------------------

  const DEFAULT_LIFETIME := 1200
  const DEFAULT_SKEW := 30
  const DEFAULT_MAX_ENTRIES := 8192

  datatype Policy = Policy(lifetime: int, skew: int)

  // The environment values after parsing, with the floors the source applies.
  function PolicyFrom(lifetime: int, skew: int): Policy {
    Policy(if lifetime < 1 then 1 else lifetime, if skew < 0 then 0 else skew)
  }

  datatype WindowError = MissingClaims | FutureIssued | EmptyWindow | TooLong | Expired

  // A claim is None when the field is absent or int() rejects it.
  function CheckWindow(issued: Option<int>, expires: Option<int>, now: int, policy: Policy): Option<WindowError> {
    if issued.None? || expires.None? then Some(MissingClaims)
    else if issued.value > now + policy.skew then Some(FutureIssued)
    else if expires.value <= issued.value then Some(EmptyWindow)
    else if expires.value - issued.value > policy.lifetime then Some(TooLong)
    else if expires.value < now - policy.skew then Some(Expired)
    else None
  }

  // A lifetime is at least one second, a skew at least none; anything above is taken as configured.
  lemma PolicyIs(lifetime: int, skew: int)
    ensures var p := PolicyFrom(lifetime, skew);
            && p.lifetime >= 1 && p.lifetime >= lifetime && p.lifetime in {1, lifetime}
            && p.skew >= 0 && p.skew >= skew && p.skew in {0, skew}
  {
  }

  // Which claim a refused window is blamed on: the first of the checks that fails.
  lemma WindowBlames(issued: Option<int>, expires: Option<int>, now: int, policy: Policy)
    ensures var r := CheckWindow(issued, expires, now, policy);
            && (r == Some(MissingClaims) <==> issued.None? || expires.None?)
            && (issued.Some? && expires.Some? ==>
                  var early, empty := issued.value - now > policy.skew, issued.value >= expires.value;
                  var long, late := expires.value > issued.value + policy.lifetime, now - expires.value > policy.skew;
                  && (r == Some(FutureIssued) <==> early)
                  && (r == Some(EmptyWindow) <==> !early && empty)
                  && (r == Some(TooLong) <==> !early && !empty && long)
                  && (r == Some(Expired) <==> !early && !empty && !long && late)
                  && (r.None? <==> !early && !empty && !long && !late))
  {
  }

  // ---- the guard --------------------------------------------------------------------------

  datatype Entry = Entry(nonce: string, expiresAt: int)

  // One call of reserve, with the clock it read.
  datatype Attempt = Attempt(nonce: string, expiresAt: int, now: int)

  predicate Knows(seen: seq<Entry>, nonce: string) { exists k | 0 <= k < |seen| :: seen[k].nonce == nonce }

  // Only expired entries at the front are dropped.
  function Purge(seen: seq<Entry>, now: int): seq<Entry> {
    if seen == [] || seen[0].expiresAt >= now then seen else Purge(seen[1..], now)
  }

  function Evict(seen: seq<Entry>, maxEntries: nat): seq<Entry> {
    if |seen| > maxEntries then Evict(seen[1..], maxEntries) else seen
  }

  function Accepts(seen: seq<Entry>, a: Attempt): bool { !Knows(Purge(seen, a.now), a.nonce) }

  function Reserved(seen: seq<Entry>, maxEntries: nat, a: Attempt): seq<Entry> {
    var kept := Purge(seen, a.now);
    if Accepts(seen, a) then Evict(kept + [Entry(a.nonce, a.expiresAt)], maxEntries) else kept
  }

  // The insertion-ordered store, purged and evicted in place.
  class ReplayGuard {
    const maxEntries: nat
    var seen: seq<Entry>

    constructor (maxEntries: nat)
      ensures seen == [] && this.maxEntries == maxEntries
    {
      this.seen, this.maxEntries := [], maxEntries;
    }

    method Reserve(nonce: string, expiresAt: int, now: int) returns (accepted: bool)
      modifies this
      ensures accepted == Accepts(old(seen), Attempt(nonce, expiresAt, now))
      ensures seen == Reserved(old(seen), maxEntries, Attempt(nonce, expiresAt, now))
    {
      while seen != []
        invariant Purge(seen, now) == Purge(old(seen), now)
        decreases |seen|
      {
        if seen[0].expiresAt >= now { break; }
        seen := seen[1..];
      }
      if Knows(seen, nonce) { return false; }
      seen := seen + [Entry(nonce, expiresAt)];
      ghost var grown := seen;
      while |seen| > maxEntries
        invariant Evict(seen, maxEntries) == Evict(grown, maxEntries)
        decreases |seen|
      {
        seen := seen[1..];
      }
      accepted := true;
    }

    method Clear()
      modifies this
      ensures seen == []
    {
      seen := [];
    }
  }

  // ---- the history of a guard -------------------------------------------------------------

  // One acceptance: which call it was, the clock that call read, and what it stored.
  datatype Accepted = Accepted(call: nat, at: int, entry: Entry)

  datatype History = History(seen: seq<Entry>, log: seq<Accepted>)

  function Acceptance(call: nat, a: Attempt): Accepted { Accepted(call, a.now, Entry(a.nonce, a.expiresAt)) }

  // The store after a series of calls, and everything those calls accepted, oldest first.
  function After(maxEntries: nat, attempts: seq<Attempt>): History {
    if attempts == [] then History([], [])
    else
      var n := |attempts| - 1;
      var h := After(maxEntries, attempts[..n]);
      History(Reserved(h.seen, maxEntries, attempts[n]),
              if Accepts(h.seen, attempts[n]) then h.log + [Acceptance(n, attempts[n])] else h.log)
  }

  lemma {:induction false} PurgeIsSuffix(seen: seq<Entry>, now: int)
    ensures |Purge(seen, now)| <= |seen| && Purge(seen, now) == seen[|seen| - |Purge(seen, now)|..]
    ensures Purge(seen, now) != [] ==> Purge(seen, now)[0].expiresAt >= now
    ensures forall k | 0 <= k < |seen| - |Purge(seen, now)| :: seen[k].expiresAt < now
  {
    if seen != [] && seen[0].expiresAt < now { PurgeIsSuffix(seen[1..], now); }
  }

  lemma {:induction false} EvictIsSuffix(seen: seq<Entry>, maxEntries: nat)
    ensures Evict(seen, maxEntries) == seen[if |seen| > maxEntries then |seen| - maxEntries else 0..]
  {
    if |seen| > maxEntries { EvictIsSuffix(seen[1..], maxEntries); }
  }

  // The store, position by position, is the tail of the log.
  ghost predicate Mirrors(seen: seq<Entry>, log: seq<Accepted>) {
    |seen| <= |log| && forall k | 0 <= k < |seen| :: seen[k] == log[|log| - |seen| + k].entry
  }

  ghost predicate Distinct(seen: seq<Entry>) {
    forall i, j | 0 <= i < j < |seen| :: seen[i].nonce != seen[j].nonce
  }

  // What one call does to a store that is the tail of a log.
  lemma PurgeShape(seen: seq<Entry>, log: seq<Accepted>, now: int)
    requires Mirrors(seen, log)
    ensures |Purge(seen, now)| <= |seen| && Mirrors(Purge(seen, now), log)
    ensures Purge(seen, now) != [] ==> log[|log| - |Purge(seen, now)|].entry.expiresAt >= now
    ensures forall i | |log| - |seen| <= i < |log| - |Purge(seen, now)| :: log[i].entry.expiresAt < now
    ensures Distinct(seen) ==> Distinct(Purge(seen, now))
  {
    PurgeIsSuffix(seen, now);
    forall i | |log| - |seen| <= i < |log| - |Purge(seen, now)| ensures log[i].entry.expiresAt < now {
      assert seen[i - (|log| - |seen|)] == log[i].entry;
    }
  }

  lemma AppendShape(kept: seq<Entry>, log: seq<Accepted>, maxEntries: nat, x: Accepted)
    requires Mirrors(kept, log)
    ensures var seen := Evict(kept + [x.entry], maxEntries);
            Mirrors(seen, log + [x]) && |seen| == if |kept| < maxEntries then |kept| + 1 else maxEntries
    ensures Distinct(kept) && !Knows(kept, x.entry.nonce) ==> Distinct(Evict(kept + [x.entry], maxEntries))
  {
    EvictIsSuffix(kept + [x.entry], maxEntries);
  }

  // The store is always a duplicate-free, contiguous tail of everything ever accepted, within its
  // capacity.
  lemma {:induction false} StoreIsTailOfLog(maxEntries: nat, attempts: seq<Attempt>)
    ensures var h := After(maxEntries, attempts);
            Mirrors(h.seen, h.log) && Distinct(h.seen) && |h.seen| <= maxEntries
  {
    if attempts != [] {
      var n := |attempts| - 1;
      StoreIsTailOfLog(maxEntries, attempts[..n]);
      var h := After(maxEntries, attempts[..n]);
      PurgeShape(h.seen, h.log, attempts[n].now);
      AppendShape(Purge(h.seen, attempts[n].now), h.log, maxEntries, Acceptance(n, attempts[n]));
    }
  }

  // The log tells the truth about the calls, in their order.
  ghost predicate TrueLog(attempts: seq<Attempt>, log: seq<Accepted>) {
    && (forall i {:trigger log[i]} | 0 <= i < |log| ::
          log[i].call < |attempts| && log[i] == Acceptance(log[i].call, attempts[log[i].call]))
    && (forall i, j {:trigger log[i], log[j]} | 0 <= i < j < |log| :: log[i].call < log[j].call)
  }

  lemma {:induction false} LogIsTrue(maxEntries: nat, attempts: seq<Attempt>)
    ensures TrueLog(attempts, After(maxEntries, attempts).log)
  {
    if attempts != [] {
      var n := |attempts| - 1;
      LogIsTrue(maxEntries, attempts[..n]);
      var before, log := After(maxEntries, attempts[..n]).log, After(maxEntries, attempts).log;
      assert forall i | 0 <= i < |before| :: log[i] == before[i] && before[i].call < n;
    }
  }

  // A refused nonce stands in the part of the log that the call's purge leaves in the store.
  lemma KnownIsInStore(h: History, a: Attempt) returns (p: nat)
    requires Mirrors(h.seen, h.log) && !Accepts(h.seen, a)
    ensures Purge(h.seen, a.now) != [] && Mirrors(Purge(h.seen, a.now), h.log)
    ensures |h.log| - |Purge(h.seen, a.now)| <= p < |h.log| && h.log[p].entry.nonce == a.nonce
  {
    PurgeShape(h.seen, h.log, a.now);
    var kept := Purge(h.seen, a.now);
    var k: nat :| k < |kept| && kept[k].nonce == a.nonce;
    p := |h.log| - |kept| + k;
    assert kept[k] == h.log[p].entry;
  }

  lemma InStoreIsKnown(h: History, a: Attempt, i: nat)
    requires Mirrors(h.seen, h.log) && i < |h.log| && h.log[i].entry.nonce == a.nonce
    requires i >= |h.log| - |Purge(h.seen, a.now)|
    ensures !Accepts(h.seen, a)
  {
    PurgeShape(h.seen, h.log, a.now);
    var kept := Purge(h.seen, a.now);
    assert kept[i - (|h.log| - |kept|)].nonce == a.nonce;
  }

  // A nonce is refused only if it was accepted before.
  lemma RefusedWasAccepted(maxEntries: nat, attempts: seq<Attempt>, a: Attempt)
    requires !Accepts(After(maxEntries, attempts).seen, a)
    ensures var log := After(maxEntries, attempts).log; exists i :: 0 <= i < |log| && log[i].entry.nonce == a.nonce
  {
    StoreIsTailOfLog(maxEntries, attempts);
    var p := KnownIsInStore(After(maxEntries, attempts), a);
  }

  // ---- what forgetting takes, on any clock ------------------------------------------------

  // Some call after the acceptance read a clock past its expiry.
  ghost predicate Outlived(attempts: seq<Attempt>, x: Accepted) {
    exists k :: x.call < k < |attempts| && attempts[k].now > x.entry.expiresAt
  }

  lemma OutlivedStays(attempts: seq<Attempt>, a: Attempt, x: Accepted)
    requires Outlived(attempts, x)
    ensures Outlived(attempts + [a], x)
  {
    var k :| x.call < k < |attempts| && attempts[k].now > x.entry.expiresAt;
    assert (attempts + [a])[k].now > x.entry.expiresAt;
  }

  lemma OutlivedNow(attempts: seq<Attempt>, a: Attempt, x: Accepted)
    requires x.call < |attempts| && a.now > x.entry.expiresAt
    ensures Outlived(attempts + [a], x)
  {
    assert (attempts + [a])[|attempts|].now > x.entry.expiresAt;
  }

  // Whatever left the store was outlived, or pushed out by maxEntries later acceptances.
  ghost predicate Excused(maxEntries: nat, attempts: seq<Attempt>, h: History) {
    forall i | 0 <= i < |h.log| - |h.seen| :: i + maxEntries < |h.log| || Outlived(attempts, h.log[i])
  }

  lemma {:induction false} ForgottenIsExcused(maxEntries: nat, attempts: seq<Attempt>)
    ensures Excused(maxEntries, attempts, After(maxEntries, attempts))
  {
    if attempts != [] {
      var n := |attempts| - 1;
      var before, a := attempts[..n], attempts[n];
      assert before + [a] == attempts;
      ForgottenIsExcused(maxEntries, before);
      StoreIsTailOfLog(maxEntries, before);
      LogIsTrue(maxEntries, before);
      var h, h' := After(maxEntries, before), After(maxEntries, attempts);
      PurgeShape(h.seen, h.log, a.now);
      AppendShape(Purge(h.seen, a.now), h.log, maxEntries, Acceptance(n, a));
      forall i | 0 <= i < |h'.log| - |h'.seen| ensures i + maxEntries < |h'.log| || Outlived(attempts, h'.log[i]) {
        if i < |h.log| - |h.seen| {
          if Outlived(before, h.log[i]) { OutlivedStays(before, a, h.log[i]); }
        } else if i < |h.log| - |Purge(h.seen, a.now)| {
          OutlivedNow(before, a, h.log[i]);
        }
      }
    }
  }

  // What no call has outlived and capacity still holds is in the store, after the call's own purge.
  lemma UnoutlivedIsKept(maxEntries: nat, attempts: seq<Attempt>, a: Attempt, j: nat)
    requires j < |After(maxEntries, attempts).log| <= j + maxEntries
    requires !Outlived(attempts + [a], After(maxEntries, attempts).log[j])
    ensures var h := After(maxEntries, attempts); j >= |h.log| - |Purge(h.seen, a.now)|
  {
    var h := After(maxEntries, attempts);
    StoreIsTailOfLog(maxEntries, attempts);
    LogIsTrue(maxEntries, attempts);
    ForgottenIsExcused(maxEntries, attempts);
    PurgeShape(h.seen, h.log, a.now);
    if Outlived(attempts, h.log[j]) { OutlivedStays(attempts, a, h.log[j]); }
    if a.now > h.log[j].entry.expiresAt { OutlivedNow(attempts, a, h.log[j]); }
  }

  // A second acceptance of a nonce needs some call, the accepting one included, whose clock has
  // passed the first expiry, or at least maxEntries later acceptances.
  lemma SecondAcceptanceNeeds(maxEntries: nat, attempts: seq<Attempt>, a: Attempt, i: nat)
    requires Accepts(After(maxEntries, attempts).seen, a)
    requires i < |After(maxEntries, attempts).log| && After(maxEntries, attempts).log[i].entry.nonce == a.nonce
    ensures var log := After(maxEntries, attempts).log;
            |log| - (i + 1) >= maxEntries || Outlived(attempts + [a], log[i])
  {
    var h := After(maxEntries, attempts);
    if |h.log| - (i + 1) < maxEntries && !Outlived(attempts + [a], h.log[i]) {
      UnoutlivedIsKept(maxEntries, attempts, a, i);
      StoreIsTailOfLog(maxEntries, attempts);
      InStoreIsKnown(h, a, i);
    }
  }

  // ---- the exact verdict, acceptance by acceptance ----------------------------------------

  // A call reads the clock before it takes the lock, so calls can reach the guard out of the order
  // of their readings even on a clock that never runs back.  What follows holds in any order.

  // An acceptance survives a series of calls while capacity holds it and every call since has left
  // it standing.
  ghost predicate Survives(maxEntries: nat, attempts: seq<Attempt>, p: nat)
    decreases |attempts|, 0
  {
    && attempts != []
    && p < |After(maxEntries, attempts).log| <= p + maxEntries
    && var before := attempts[..|attempts| - 1];
       || p == |After(maxEntries, before).log|
       || Stands(maxEntries, before, p, attempts[|attempts| - 1].now)
  }

  // At a reading it stands if some survivor at or before it is unexpired.
  ghost predicate Stands(maxEntries: nat, attempts: seq<Attempt>, p: nat, now: int)
    decreases |attempts|, 1
  {
    && p < |After(maxEntries, attempts).log| && Survives(maxEntries, attempts, p)
    && exists q: nat :: q <= p && Survives(maxEntries, attempts, q)
                     && After(maxEntries, attempts).log[q].entry.expiresAt >= now
  }

  // The store holds exactly the survivors.
  ghost predicate HoldsSurvivors(maxEntries: nat, attempts: seq<Attempt>) {
    var h := After(maxEntries, attempts);
    forall p: nat {:trigger Survives(maxEntries, attempts, p)} ::
      Survives(maxEntries, attempts, p) <==> |h.log| - |h.seen| <= p < |h.log|
  }

  // What a purge keeps is what stands.
  lemma StandingIsKept(maxEntries: nat, attempts: seq<Attempt>, now: int, p: nat)
    requires HoldsSurvivors(maxEntries, attempts)
    requires Mirrors(After(maxEntries, attempts).seen, After(maxEntries, attempts).log)
    ensures var h := After(maxEntries, attempts);
            Stands(maxEntries, attempts, p, now) <==> |h.log| - |Purge(h.seen, now)| <= p < |h.log|
  {
    var h := After(maxEntries, attempts);
    PurgeShape(h.seen, h.log, now);
    var front := |h.log| - |Purge(h.seen, now)|;
    if front <= p < |h.log| {
      assert Survives(maxEntries, attempts, p) && Survives(maxEntries, attempts, front);
    }
  }

  lemma {:induction false} StoreHoldsSurvivors(maxEntries: nat, attempts: seq<Attempt>)
    ensures HoldsSurvivors(maxEntries, attempts)
  {
    if attempts != [] {
      var n := |attempts| - 1;
      var before, a := attempts[..n], attempts[n];
      StoreHoldsSurvivors(maxEntries, before);
      StoreIsTailOfLog(maxEntries, before);
      StoreIsTailOfLog(maxEntries, attempts);
      var h, h' := After(maxEntries, before), After(maxEntries, attempts);
      PurgeShape(h.seen, h.log, a.now);
      AppendShape(Purge(h.seen, a.now), h.log, maxEntries, Acceptance(n, a));
      forall p: nat ensures Survives(maxEntries, attempts, p) <==> |h'.log| - |h'.seen| <= p < |h'.log| {
        StandingIsKept(maxEntries, before, a.now, p);
      }
    }
  }

  ghost predicate StandsAs(maxEntries: nat, attempts: seq<Attempt>, p: nat, now: int, nonce: string) {
    && p < |After(maxEntries, attempts).log| && After(maxEntries, attempts).log[p].entry.nonce == nonce
    && Stands(maxEntries, attempts, p, now)
  }

  // Some acceptance of the call's nonce stands at its reading.
  ghost predicate Standing(maxEntries: nat, attempts: seq<Attempt>, a: Attempt) {
    exists p: nat :: StandsAs(maxEntries, attempts, p, a.now, a.nonce)
  }

  // The verdict on every call, on any clock and in any order: a nonce is refused exactly when one of
  // its acceptances stands.  The store itself has disappeared from the statement.
  lemma RefusedIffStanding(maxEntries: nat, attempts: seq<Attempt>, a: Attempt)
    ensures !Accepts(After(maxEntries, attempts).seen, a) <==> Standing(maxEntries, attempts, a)
  {
    var h := After(maxEntries, attempts);
    StoreIsTailOfLog(maxEntries, attempts);
    StoreHoldsSurvivors(maxEntries, attempts);
    if !Accepts(h.seen, a) {
      var p := KnownIsInStore(h, a);
      StandingIsKept(maxEntries, attempts, a.now, p);
      assert StandsAs(maxEntries, attempts, p, a.now, a.nonce);
    }
    if Standing(maxEntries, attempts, a) {
      var p: nat :| StandsAs(maxEntries, attempts, p, a.now, a.nonce);
      StandingIsKept(maxEntries, attempts, a.now, p);
      InStoreIsKnown(h, a, p);
    }
  }

  // ---- closed forms -----------------------------------------------------------------------

  // No call with a later reading has taken the lock before this one.
  ghost predicate Latest(attempts: seq<Attempt>, a: Attempt) {
    forall i | 0 <= i < |attempts| :: attempts[i].now <= a.now
  }

  // Calls reach the lock at most so much out of order.
  ghost predicate Lagging(attempts: seq<Attempt>, lag: nat) {
    forall i, j | 0 <= i <= j < |attempts| :: attempts[i].now <= attempts[j].now + lag
  }

  lemma LaggingPrefix(attempts: seq<Attempt>, a: Attempt, lag: nat)
    requires Lagging(attempts + [a], lag)
    ensures Lagging(attempts, lag) && forall i | 0 <= i < |attempts| :: attempts[i].now <= a.now + lag
  {
    var all := attempts + [a];
    forall i, j | 0 <= i <= j < |attempts|
      ensures attempts[i].now <= attempts[j].now + lag && attempts[i].now <= a.now + lag
    {
      assert all[i].now <= all[j].now + lag && all[i].now <= all[|attempts|].now + lag;
    }
  }

  // The oldest log position capacity can still hold.
  function Floor(accepted: nat, maxEntries: nat): nat { if accepted > maxEntries then accepted - maxEntries else 0 }

  // Everything between the capacity floor and the store had expired by this reading.
  ghost predicate DroppedExpired(maxEntries: nat, h: History, now: int) {
    forall i | Floor(|h.log|, maxEntries) <= i < |h.log| - |h.seen| :: h.log[i].entry.expiresAt < now
  }

  // In whatever order the calls come, what capacity could still hold was only dropped because it had
  // expired by the latest reading of all.
  lemma {:induction false} DropsAreExpired(maxEntries: nat, attempts: seq<Attempt>, latest: int)
    requires forall i | 0 <= i < |attempts| :: attempts[i].now <= latest
    ensures DroppedExpired(maxEntries, After(maxEntries, attempts), latest)
  {
    if attempts != [] {
      var n := |attempts| - 1;
      var before, a := attempts[..n], attempts[n];
      DropsAreExpired(maxEntries, before, latest);
      StoreIsTailOfLog(maxEntries, before);
      var h := After(maxEntries, before);
      PurgeShape(h.seen, h.log, a.now);
      AppendShape(Purge(h.seen, a.now), h.log, maxEntries, Acceptance(n, a));
    }
  }

  // An acceptance is shielded while capacity still holds some unexpired acceptance at or before it.
  ghost predicate Shielded(maxEntries: nat, log: seq<Accepted>, i: nat, now: int) {
    i < |log| && exists j :: Floor(|log|, maxEntries) <= j <= i && log[j].entry.expiresAt >= now
  }

  // Some acceptance of the nonce is shielded.
  ghost predicate Held(maxEntries: nat, log: seq<Accepted>, nonce: string, now: int) {
    exists i: nat :: Shielded(maxEntries, log, i, now) && log[i].entry.nonce == nonce
  }

  lemma RefusedIsShielded(maxEntries: nat, h: History, a: Attempt)
    requires Mirrors(h.seen, h.log) && |h.seen| <= maxEntries && !Accepts(h.seen, a)
    ensures Held(maxEntries, h.log, a.nonce, a.now)
  {
    PurgeShape(h.seen, h.log, a.now);
    var p := KnownIsInStore(h, a);
    var front := |h.log| - |Purge(h.seen, a.now)|;
    assert Floor(|h.log|, maxEntries) <= front <= p && h.log[front].entry.expiresAt >= a.now;
    assert Shielded(maxEntries, h.log, p, a.now);
  }

  lemma ShieldedIsRefused(maxEntries: nat, h: History, a: Attempt, latest: int, i: nat)
    requires Mirrors(h.seen, h.log) && DroppedExpired(maxEntries, h, latest) && a.now <= latest
    requires Shielded(maxEntries, h.log, i, latest) && h.log[i].entry.nonce == a.nonce
    ensures !Accepts(h.seen, a)
  {
    PurgeShape(h.seen, h.log, a.now);
    var j :| Floor(|h.log|, maxEntries) <= j <= i && h.log[j].entry.expiresAt >= latest;
    assert j >= |h.log| - |Purge(h.seen, a.now)|;
    InStoreIsKnown(h, a, i);
  }

  // In whatever order the calls come, a nonce is refused only if one of its acceptances is shielded
  // at the call's own reading, and surely if one is shielded at the latest reading of all.
  lemma RefusedBetween(maxEntries: nat, attempts: seq<Attempt>, a: Attempt, latest: int)
    requires a.now <= latest && forall i | 0 <= i < |attempts| :: attempts[i].now <= latest
    ensures var h := After(maxEntries, attempts);
            && (!Accepts(h.seen, a) ==> Held(maxEntries, h.log, a.nonce, a.now))
            && (Held(maxEntries, h.log, a.nonce, latest) ==> !Accepts(h.seen, a))
  {
    var h := After(maxEntries, attempts);
    StoreIsTailOfLog(maxEntries, attempts);
    DropsAreExpired(maxEntries, attempts, latest);
    if !Accepts(h.seen, a) { RefusedIsShielded(maxEntries, h, a); }
    if Held(maxEntries, h.log, a.nonce, latest) {
      var i: nat :| Shielded(maxEntries, h.log, i, latest) && h.log[i].entry.nonce == a.nonce;
      ShieldedIsRefused(maxEntries, h, a, latest, i);
    }
  }

  // The two meet for a call that none with a later reading has overtaken: it is refused exactly when
  // one of its nonce's acceptances is shielded, in whatever order the calls before it came.
  lemma RefusedIffShielded(maxEntries: nat, attempts: seq<Attempt>, a: Attempt)
    requires Latest(attempts, a)
    ensures var h := After(maxEntries, attempts); !Accepts(h.seen, a) <==> Held(maxEntries, h.log, a.nonce, a.now)
  {
    RefusedBetween(maxEntries, attempts, a, a.now);
  }

  // Some acceptance at or before one of this nonce has been outlived by no call since.
  ghost predicate Guarded(attempts: seq<Attempt>, log: seq<Accepted>, nonce: string) {
    exists i, j :: 0 <= j <= i < |log| && log[i].entry.nonce == nonce && !Outlived(attempts, log[j])
  }

  // As long as capacity has pushed nothing out, no call has outlived the front of the store.
  ghost predicate FrontIsFresh(attempts: seq<Attempt>, h: History) {
    h.seen != [] && |h.seen| <= |h.log| ==> !Outlived(attempts, h.log[|h.log| - |h.seen|])
  }

  // A purge moves the front past acceptances that expired before the one it stops at, so whoever had
  // outlived that one would have outlived them.
  lemma PurgedFrontIsFresh(attempts: seq<Attempt>, h: History, a: Attempt)
    requires Mirrors(h.seen, h.log) && TrueLog(attempts, h.log) && FrontIsFresh(attempts, h)
    requires Purge(h.seen, a.now) != []
    ensures |Purge(h.seen, a.now)| <= |h.log|
    ensures !Outlived(attempts + [a], h.log[|h.log| - |Purge(h.seen, a.now)|])
  {
    PurgeShape(h.seen, h.log, a.now);
    var f0, f := |h.log| - |h.seen|, |h.log| - |Purge(h.seen, a.now)|;
    assert f0 < f ==> h.log[f0].call < h.log[f].call;
    forall k | h.log[f].call < k < |attempts + [a]| ensures (attempts + [a])[k].now <= h.log[f].entry.expiresAt {
      if k < |attempts| { assert attempts[k].now <= h.log[f0].entry.expiresAt; }
    }
  }

  // One call keeps the front fresh.
  lemma FreshByStep(before: seq<Attempt>, a: Attempt, h: History, h': History, maxEntries: nat)
    requires Mirrors(h.seen, h.log) && TrueLog(before, h.log) && FrontIsFresh(before, h)
    requires h'.seen == Reserved(h.seen, maxEntries, a) && |h'.log| <= maxEntries
    requires h'.log == if Accepts(h.seen, a) then h.log + [Acceptance(|before|, a)] else h.log
    ensures FrontIsFresh(before + [a], h')
  {
    var kept := Purge(h.seen, a.now);
    PurgeShape(h.seen, h.log, a.now);
    EvictIsSuffix(kept + [Entry(a.nonce, a.expiresAt)], maxEntries);
    assert |h'.log| - |h'.seen| == |h.log| - |kept|;
    if kept != [] {
      PurgedFrontIsFresh(before, h, a);
    } else if h'.seen != [] {
      assert h'.log[|h.log|] == Acceptance(|before|, a);
    }
  }

  lemma {:induction false} FrontStaysFresh(maxEntries: nat, attempts: seq<Attempt>)
    requires |After(maxEntries, attempts).log| <= maxEntries
    ensures FrontIsFresh(attempts, After(maxEntries, attempts))
  {
    if attempts != [] {
      var n := |attempts| - 1;
      var before, a := attempts[..n], attempts[n];
      assert before + [a] == attempts;
      FrontStaysFresh(maxEntries, before);
      StoreIsTailOfLog(maxEntries, before);
      LogIsTrue(maxEntries, before);
      FreshByStep(before, a, After(maxEntries, before), After(maxEntries, attempts), maxEntries);
    }
  }

  // In whatever order the calls come, while capacity has pushed nothing out: a nonce is refused
  // exactly when some acceptance at or before one of its own has been outlived by no call since, the
  // deciding one included.
  lemma RefusedIffGuarded(maxEntries: nat, attempts: seq<Attempt>, a: Attempt)
    requires |After(maxEntries, attempts).log| <= maxEntries
    ensures var h := After(maxEntries, attempts); !Accepts(h.seen, a) <==> Guarded(attempts + [a], h.log, a.nonce)
  {
    var h := After(maxEntries, attempts);
    if !Accepts(h.seen, a) {
      StoreIsTailOfLog(maxEntries, attempts);
      LogIsTrue(maxEntries, attempts);
      FrontStaysFresh(maxEntries, attempts);
      RefusedIsGuarded(attempts, h, a);
    }
    if Guarded(attempts + [a], h.log, a.nonce) { GuardedIsRefused(maxEntries, attempts, a); }
  }

  lemma RefusedIsGuarded(attempts: seq<Attempt>, h: History, a: Attempt)
    requires Mirrors(h.seen, h.log) && TrueLog(attempts, h.log) && FrontIsFresh(attempts, h) && !Accepts(h.seen, a)
    ensures Guarded(attempts + [a], h.log, a.nonce)
  {
    var p := KnownIsInStore(h, a);
    PurgedFrontIsFresh(attempts, h, a);
    assert h.log[p].entry.nonce == a.nonce && !Outlived(attempts + [a], h.log[|h.log| - |Purge(h.seen, a.now)|]);
  }

  lemma GuardedIsRefused(maxEntries: nat, attempts: seq<Attempt>, a: Attempt)
    requires |After(maxEntries, attempts).log| <= maxEntries
    requires Guarded(attempts + [a], After(maxEntries, attempts).log, a.nonce)
    ensures !Accepts(After(maxEntries, attempts).seen, a)
  {
    var h := After(maxEntries, attempts);
    var i, j :| 0 <= j <= i < |h.log| && h.log[i].entry.nonce == a.nonce && !Outlived(attempts + [a], h.log[j]);
    UnoutlivedIsKept(maxEntries, attempts, a, j);
    StoreIsTailOfLog(maxEntries, attempts);
    InStoreIsKnown(h, a, i);
  }

  // While a nonce is unexpired even for a call that may be overtaken by so much, and capacity has not
  // pushed it out, it is single use.
  lemma UnexpiredIsSingleUse(maxEntries: nat, attempts: seq<Attempt>, a: Attempt, lag: nat, i: nat)
    requires forall k | 0 <= k < |attempts| :: attempts[k].now <= a.now + lag
    requires var log := After(maxEntries, attempts).log;
             && i < |log| && |log| - (i + 1) < maxEntries
             && log[i].entry.nonce == a.nonce && a.now + lag <= log[i].entry.expiresAt
    ensures !Accepts(After(maxEntries, attempts).seen, a)
  {
    if Accepts(After(maxEntries, attempts).seen, a) { SecondAcceptanceNeeds(maxEntries, attempts, a, i); }
  }

  // Capacity is another way to replay.  In whatever order the calls come, a nonce whose last
  // acceptance no call has outlived is refused exactly while fewer than maxEntries other acceptances
  // have followed.
  lemma UnexpiredRefusedIff(maxEntries: nat, attempts: seq<Attempt>, a: Attempt, i: nat)
    requires i < |After(maxEntries, attempts).log|
    requires var log := After(maxEntries, attempts).log;
             && log[i].entry.nonce == a.nonce && !Outlived(attempts + [a], log[i])
             && forall j | i < j < |log| :: log[j].entry.nonce != a.nonce
    ensures !Accepts(After(maxEntries, attempts).seen, a) <==> |After(maxEntries, attempts).log| - (i + 1) < maxEntries
  {
    var h := After(maxEntries, attempts);
    if Accepts(h.seen, a) {
      SecondAcceptanceNeeds(maxEntries, attempts, a, i);
    } else {
      StoreIsTailOfLog(maxEntries, attempts);
      PurgeShape(h.seen, h.log, a.now);
      var p := KnownIsInStore(h, a);
    }
  }

  // With room for one, the second nonce unseats the first.
  lemma UnseatedIsAdmitted()
    ensures Accepts(After(1, [Attempt("n", 9, 0), Attempt("m", 9, 0)]).seen, Attempt("n", 9, 0))
  {
    var a, b := Attempt("n", 9, 0), Attempt("m", 9, 0);
    assert [a, b][..1] == [a] && [a][..0] == [];
    assert After(1, [a]).seen == Reserved([], 1, a) == [Entry("n", 9)];
    assert Evict([Entry("n", 9), Entry("m", 9)], 1) == [Entry("m", 9)];
    assert After(1, [a, b]).seen == Reserved([Entry("n", 9)], 1, b) == [Entry("m", 9)];
  }

  // ---- window and guard together ----------------------------------------------------------

  // A request as /run sees it: the window is checked first, the guard reads its own clock later.
  datatype Request = Request(nonce: string, issued: int, expires: int, checkedAt: int, now: int)

  predicate InWindow(policy: Policy, r: Request) {
    CheckWindow(Some(r.issued), Some(r.expires), r.checkedAt, policy).None?
  }

  function AttemptOf(r: Request): Attempt { Attempt(r.nonce, r.expires, r.now) }

  function Attempts(rs: seq<Request>): seq<Attempt> {
    seq(|rs|, i requires 0 <= i < |rs| => AttemptOf(rs[i]))
  }

  // An accepted window bounds how far ahead of its acceptance an expiry lies.
  ghost predicate Bounded(log: seq<Accepted>, span: int, lag: nat) {
    && (forall i | 0 <= i < |log| :: log[i].entry.expiresAt <= log[i].at + span)
    && (forall i, j | 0 <= i <= j < |log| :: log[i].at <= log[j].at + lag)
  }

  lemma LogIsBounded(policy: Policy, maxEntries: nat, rs: seq<Request>, lag: nat)
    requires forall i | 0 <= i < |rs| :: InWindow(policy, rs[i]) && rs[i].checkedAt <= rs[i].now
    requires Lagging(Attempts(rs), lag)
    ensures Bounded(After(maxEntries, Attempts(rs)).log, policy.lifetime + policy.skew, lag)
  {
    var attempts := Attempts(rs);
    var log := After(maxEntries, attempts).log;
    LogIsTrue(maxEntries, attempts);
    forall i | 0 <= i < |log| ensures log[i].entry.expiresAt <= log[i].at + policy.lifetime + policy.skew {
      assert InWindow(policy, rs[log[i].call]);
    }
    forall i, j | 0 <= i <= j < |log| ensures log[i].at <= log[j].at + lag {
      if i < j { assert log[i].call < log[j].call; }
      assert attempts[log[i].call].now <= attempts[log[j].call].now + lag;
    }
  }

  lemma KeptIsRecent(seen: seq<Entry>, log: seq<Accepted>, now: int, span: int, lag: nat, i: nat)
    requires Mirrors(seen, log) && Bounded(log, span, lag)
    requires |log| - |Purge(seen, now)| <= i < |log|
    ensures log[i].at >= now - span - lag
  {
    PurgeShape(seen, log, now);
    assert log[|log| - |Purge(seen, now)|].at <= log[i].at + lag;
  }

  // One call keeps the store a tail of the log, and brings back nothing the purge dropped.
  lemma ReservedShape(seen: seq<Entry>, log: seq<Accepted>, maxEntries: nat, a: Attempt, call: nat)
    requires Mirrors(seen, log)
    ensures var log' := if Accepts(seen, a) then log + [Acceptance(call, a)] else log;
            var seen' := Reserved(seen, maxEntries, a);
            Mirrors(seen', log') && |log'| - |seen'| >= |log| - |Purge(seen, a.now)|
  {
    PurgeShape(seen, log, a.now);
    AppendShape(Purge(seen, a.now), log, maxEntries, Acceptance(call, a));
  }

  // Where each retained entry stands in the log, and when it was accepted.
  lemma RetainedByStep(h: History, h': History, maxEntries: nat, a: Attempt, call: nat, span: nat, lag: nat, k: nat)
    requires Mirrors(h.seen, h.log) && Bounded(h.log, span, lag)
    requires h'.seen == Reserved(h.seen, maxEntries, a) && k < |h'.seen|
    requires h'.log == if Accepts(h.seen, a) then h.log + [Acceptance(call, a)] else h.log
    ensures |h'.seen| <= |h'.log|
    ensures h'.seen[k] == h'.log[|h'.log| - |h'.seen| + k].entry
    ensures h'.log[|h'.log| - |h'.seen| + k].at >= a.now - span - lag
  {
    ReservedShape(h.seen, h.log, maxEntries, a, call);
    var p := |h'.log| - |h'.seen| + k;
    if p < |h.log| { KeptIsRecent(h.seen, h.log, a.now, span, lag, p); }
  }

  // Although only the front is ever purged, nothing older than one lifetime plus the skew stays, but
  // for what reached the lock out of order.
  lemma RetainedIsRecent(policy: Policy, maxEntries: nat, rs: seq<Request>, lag: nat, k: nat)
    requires rs != [] && forall i | 0 <= i < |rs| :: InWindow(policy, rs[i]) && rs[i].checkedAt <= rs[i].now
    requires policy.lifetime >= 1 && policy.skew >= 0 && Lagging(Attempts(rs), lag)
    requires k < |After(maxEntries, Attempts(rs)).seen|
    ensures var h := After(maxEntries, Attempts(rs));
            && |h.seen| <= |h.log|
            && var x := h.log[|h.log| - |h.seen| + k];
               h.seen[k] == x.entry && x.at >= rs[|rs| - 1].now - (policy.lifetime + policy.skew) - lag
  {
    var n := |rs| - 1;
    assert Attempts(rs) == Attempts(rs[..n]) + [AttemptOf(rs[n])];
    LaggingPrefix(Attempts(rs[..n]), AttemptOf(rs[n]), lag);
    LogIsBounded(policy, maxEntries, rs[..n], lag);
    var h, h' := After(maxEntries, Attempts(rs)[..n]), After(maxEntries, Attempts(rs));
    StoreIsTailOfLog(maxEntries, Attempts(rs)[..n]);
    RetainedByStep(h, h', maxEntries, AttemptOf(rs[n]), n, policy.lifetime + policy.skew, lag, k);
  }

  // The same request run twice: the second is admitted exactly when its window still passes and no
  // acceptance of its nonce stands.
  lemma SecondRunAdmittedIff(policy: Policy, maxEntries: nat, rs: seq<Request>, r: Request)
    ensures InWindow(policy, r) && Accepts(After(maxEntries, Attempts(rs)).seen, AttemptOf(r))
       <==> && r.issued - policy.skew <= r.checkedAt <= r.expires + policy.skew
            && r.issued < r.expires <= r.issued + policy.lifetime
            && !Standing(maxEntries, Attempts(rs), AttemptOf(r))
  {
    RefusedIffStanding(maxEntries, Attempts(rs), AttemptOf(r));
  }

  // What the room's clock and lock allow a series of requests: window and guard each read the clock,
  // the guard's reading is at most `delay` later, and the lock is taken at most `lag` out of the
  // readings' order.
  ghost predicate Timely(policy: Policy, delay: nat, lag: nat, rs: seq<Request>) {
    && (forall k | 0 <= k < |rs| :: InWindow(policy, rs[k]) && rs[k].now <= rs[k].checkedAt + delay)
    && Lagging(Attempts(rs), lag)
  }

  // One request, admitted before and not pushed out by capacity, is admitted again.
  ghost predicate AdmittedAgain(
    policy: Policy, maxEntries: nat, delay: nat, lag: nat, rs: seq<Request>, r: Request, i: nat)
  {
    var h := After(maxEntries, Attempts(rs));
    && Timely(policy, delay, lag, rs + [r])
    && i < |h.log| && h.log[i].entry == Entry(r.nonce, r.expires) && |h.log| - (i + 1) < maxEntries
    && Accepts(h.seen, AttemptOf(r))
  }

  // The guard forgets at the expiry.  The window tolerates the skew after it and has read the clock
  // before the guard does, and the guard reads it before it takes the lock.  So a request that
  // capacity still holds is single use, over all runs, exactly when no skew is configured, no time
  // passes between the two readings, and the lock is taken in the order of the readings, or there is
  // room for one only.
  lemma SingleUseIff(lifetime: int, skew: int, maxEntries: nat, delay: nat, lag: nat)
    requires maxEntries >= 1
    ensures (forall rs, r, i: nat :: !AdmittedAgain(PolicyFrom(lifetime, skew), maxEntries, delay, lag, rs, r, i))
       <==> skew <= 0 && delay == 0 && (lag == 0 || maxEntries == 1)
  {
    var policy := PolicyFrom(lifetime, skew);
    if policy.skew >= 1 || delay >= 1 {
      AdmittedPastExpiry(policy, maxEntries, delay, lag, 0, 1, if delay == 0 then 2 else 1);
    } else if lag >= 1 && maxEntries >= 2 {
      AdmittedWhenOvertaken(policy, maxEntries, lag);
    } else {
      forall rs, r, i: nat ensures !AdmittedAgain(policy, maxEntries, delay, lag, rs, r, i) {
        if AdmittedAgain(policy, maxEntries, delay, lag, rs, r, i) {
          PromptIsSingleUse(policy, maxEntries, lag, rs, r, i);
        }
      }
    }
  }

  lemma PromptIsSingleUse(policy: Policy, maxEntries: nat, lag: nat, rs: seq<Request>, r: Request, i: nat)
    requires policy.skew == 0 && maxEntries >= 1 && (lag == 0 || maxEntries == 1)
    ensures !AdmittedAgain(policy, maxEntries, 0, lag, rs, r, i)
  {
    if AdmittedAgain(policy, maxEntries, 0, lag, rs, r, i) {
      var attempts, a := Attempts(rs), AttemptOf(r);
      assert (rs + [r])[|rs|] == r;
      assert Attempts(rs + [r]) == attempts + [a];
      LaggingPrefix(attempts, a, lag);
      if lag == 0 {
        UnexpiredIsSingleUse(maxEntries, attempts, a, 0, i);
      } else {
        OneSeatIsTheLast(attempts);
      }
    }
  }

  // With room for one, the store is the last acceptance: a purge that empties it is followed by one.
  lemma {:induction false} OneSeatIsTheLast(attempts: seq<Attempt>)
    ensures var h := After(1, attempts);
            if h.log == [] then h.seen == [] else h.seen == [h.log[|h.log| - 1].entry]
  {
    if attempts != [] {
      var n := |attempts| - 1;
      OneSeatIsTheLast(attempts[..n]);
      OneSeat(After(1, attempts[..n]).seen, attempts[n]);
    }
  }

  lemma OneSeat(seen: seq<Entry>, a: Attempt)
    requires |seen| <= 1
    ensures Reserved(seen, 1, a) == if Accepts(seen, a) then [Entry(a.nonce, a.expiresAt)] else seen
    ensures seen == [] ==> Accepts(seen, a)
  {
    PurgeIsSuffix(seen, a.now);
    EvictIsSuffix(Purge(seen, a.now) + [Entry(a.nonce, a.expiresAt)], 1);
  }

  // A request is admitted at its expiry, and again when the guard reads one second more, whether the
  // window reads that second too, within the skew, or not yet.
  lemma AdmittedPastExpiry(
      policy: Policy, maxEntries: nat, delay: nat, lag: nat, issued: int, expires: int, checkedAt: int)
    requires maxEntries >= 1 && issued < expires <= issued + policy.lifetime && policy.skew >= 0
    requires (checkedAt == expires && delay >= 1) || (checkedAt == expires + 1 && policy.skew >= 1)
    ensures AdmittedAgain(policy, maxEntries, delay, lag, [Request("n", issued, expires, expires, expires)],
                          Request("n", issued, expires, checkedAt, expires + 1), 0)
  {
    var a, b := Attempt("n", expires, expires), Attempt("n", expires, expires + 1);
    FirstIsStored(maxEntries, a);
    assert Attempts([Request("n", issued, expires, expires, expires)]) == [a];
    assert Attempts([Request("n", issued, expires, expires, expires),
                     Request("n", issued, expires, checkedAt, expires + 1)]) == [a, b];
    assert Purge([Entry("n", expires)], expires + 1) == Purge([], expires + 1) == [];
  }

  // Another call with a later reading takes the lock first and drops the nonce; then the request, on
  // a reading at its expiry, is admitted again.
  lemma AdmittedWhenOvertaken(policy: Policy, maxEntries: nat, lag: nat)
    requires policy.lifetime >= 1 && policy.skew >= 0 && maxEntries >= 2 && lag >= 1
    ensures AdmittedAgain(policy, maxEntries, 0, lag, [Request("n", 0, 1, 1, 1), Request("m", 1, 2, 2, 2)],
                          Request("n", 0, 1, 1, 1), 0)
  {
    var a, b := Attempt("n", 1, 1), Attempt("m", 2, 2);
    FirstIsStored(maxEntries, a);
    assert Attempts([Request("n", 0, 1, 1, 1), Request("m", 1, 2, 2, 2)]) == [a, b];
    assert Attempts([Request("n", 0, 1, 1, 1), Request("m", 1, 2, 2, 2), Request("n", 0, 1, 1, 1)]) == [a, b, a];
    assert [a, b][..1] == [a];
    assert Purge([Entry("n", 1)], 2) == Purge([], 2) == [];
    EvictIsSuffix([Entry("m", 2)], maxEntries);
    var h := After(maxEntries, [a, b]);
    assert h == History([Entry("m", 2)], [Acceptance(0, a), Acceptance(1, b)]);
    assert Purge([Entry("m", 2)], 1) == [Entry("m", 2)] && "n" != "m";
  }

  lemma FirstIsStored(maxEntries: nat, a: Attempt)
    requires maxEntries >= 1
    ensures After(maxEntries, [a]) == History([Entry(a.nonce, a.expiresAt)], [Acceptance(0, a)])
  {
    assert [a][..0] == [] && After(maxEntries, []) == History([], []) && Purge([], a.now) == [];
    EvictIsSuffix([Entry(a.nonce, a.expiresAt)], maxEntries);
  }

  // The defaults allow it.
  lemma AdmittedTwiceByDefault()
    ensures AdmittedAgain(Policy(DEFAULT_LIFETIME, DEFAULT_SKEW), DEFAULT_MAX_ENTRIES, 0, 0,
                          [Request("n", 0, 100, 100, 100)], Request("n", 0, 100, 101, 101), 0)
  {
    AdmittedPastExpiry(Policy(DEFAULT_LIFETIME, DEFAULT_SKEW), DEFAULT_MAX_ENTRIES, 0, 0, 0, 100, 101);
  }

  // No skew at all allows it too, when a second passes between the readings.
  lemma AdmittedTwiceWithoutSkew()
    ensures AdmittedAgain(Policy(DEFAULT_LIFETIME, 0), DEFAULT_MAX_ENTRIES, 1, 0,
                          [Request("n", 0, 1, 1, 1)], Request("n", 0, 1, 1, 2), 0)
  {
    AdmittedPastExpiry(Policy(DEFAULT_LIFETIME, 0), DEFAULT_MAX_ENTRIES, 1, 0, 0, 1, 1);
  }
}

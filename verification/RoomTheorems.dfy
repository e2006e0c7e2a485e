/** What may reach the profile (room/server.py, with auth.py, sealing.py, bundle.py and kata_seal.py):
    over one call, over a sealed credential's whole way, and over every run of the endpoint. */
module RoomTheorems {
  import opened Common
  import opened Auth
  import opened Bundle
  import opened Credentials
  import opened Room

  // ---- one call ---------------------------------------------------------------------------

  // A call that is asked of the guard, by what it must be.
  ghost predicate Screened(room: Setup, c: Call) {
    && room.configured && c.signed && c.body.Body?
    && c.body.issued.Some? && c.body.expires.Some?
    && c.body.issued.value - room.policy.skew <= c.checkedAt <= c.body.expires.value + room.policy.skew
    && 0 < c.body.expires.value - c.body.issued.value <= room.policy.lifetime
    && c.body.nonce.Text? && 16 <= |c.body.nonce.text| <= 64 && |c.body.nonce.text| % 2 == 0
    && (forall i | 0 <= i < |c.body.nonce.text| :: HexAnyCase(c.body.nonce.text[i]))
    && c.body.bundleSha.Text? && IsDigest(c.body.bundleSha.text)
  }

  lemma ScreenIff(room: Setup, c: Call)
    ensures Screen(room, c).None? <==> Screened(room, c)
  {
    if c.body.Body? && c.body.issued.Some? && c.body.expires.Some? {
      assert CheckWindow(c.body.issued, c.body.expires, c.checkedAt, room.policy).None? <==>
        (c.body.issued.value - room.policy.skew <= c.checkedAt <= c.body.expires.value + room.policy.skew
         && 0 < c.body.expires.value - c.body.issued.value <= room.policy.lifetime);
    }
  }

  // The call's archive is this tree, and the caller's digest is the tree's own.
  ghost predicate Carries(room: Setup, c: Call, walk: seq<Found>)
    requires c.body.Body? && c.body.bundleSha.Text?
  {
    && c.body.bundle.Text? && c.body.bundle.text != "" && room.unpack(c.body.bundle.text) == Tree(walk)
    && Clean(walk) && c.body.bundleSha.text == Digest(room, walk)
  }

  function Resolved(room: Setup, c: Call): Result<Option<Credential>, SealError>
    requires c.body.Body? && c.body.sealedKey.Text?
  {
    ResolveSealedCredential(c.body.sealedKey.text, room.spec, false, room.unseal)
  }

  function Respond(room: Setup, seen: seq<Entry>, c: Call): Response {
    match Decide(room, seen, c)
    case Answered(r) => r
    case Asked(call) => Finished(c, call)
  }

  lemma RecomputedIff(room: Setup, c: Call, walk: seq<Found>)
    requires c.body.Body? && c.body.bundleSha.Text? && Truthy(c.body.bundle)
    ensures Carries(room, c, walk) <==> Recomputed(room, c.body.bundle) == Ok((walk, c.body.bundleSha.text))
  {
    CleanIff(walk);
  }

  // What the profile may be given: a credential only with the tree it binds, and a tree without a
  // credential only where contestants do not own theirs.
  ghost predicate MayBeGiven(room: Setup, c: Call, credential: Option<Credential>, walk: Option<seq<Found>>)
    requires c.body.Body? && c.body.bundleSha.Text?
  {
    match walk
    case None => c.body.bundle in {Text(""), Value.Other(false)} && credential.None?
    case Some(tree) =>
      && Carries(room, c, tree)
      && match credential
         case None => room.spec.failureMode != "attested_zero"
         case Some(key) => key.bundleBinding == c.body.bundleSha.text
  }

  // The profile is asked for a job exactly when the call is screened, its nonce is new, and what it
  // is given is what the ciphertext opens to and the archive holds, with the caller's digest, the
  // recomputed digest of the tree and the credential's own binding one and the same.
  lemma ProfileIsAskedIff(room: Setup, seen: seq<Entry>, c: Call, call: ProfileCall)
    ensures Decide(room, seen, c) == Asked(call)
       <==> && Screened(room, c) && Accepts(seen, Attempt(c.body.nonce.text, c.body.expires.value, c.now))
            && call.jobId == c.body.nonce.text && call.bundleSha == c.body.bundleSha.text
            && c.body.sealedKey.Text? && Resolved(room, c) == Ok(call.credential)
            && MayBeGiven(room, c, call.credential, call.walk)
  {
    ScreenIff(room, c);
    if Screened(room, c) && Truthy(c.body.bundle) {
      if call.walk.Some? { RecomputedIff(room, c, call.walk.value); }
      match Recomputed(room, c.body.bundle) {
        case Ok((walk, actual)) => RecomputedIff(room, c, walk);
        case Err(_) =>
      }
    }
  }

  // So no credential reaches it without a tree, and where contestants own their credentials no tree
  // without a credential.
  lemma CredentialsAndBundlesTravelTogether(room: Setup, seen: seq<Entry>, c: Call)
    requires Decide(room, seen, c).Asked?
    ensures var call := Decide(room, seen, c).call;
            && (call.credential.Some? ==> call.walk.Some?)
            && (room.spec.failureMode == "attested_zero" ==> (call.credential.Some? <==> call.walk.Some?))
  {
    ProfileIsAskedIff(room, seen, c, Decide(room, seen, c).call);
  }

  // Quote-bound evidence against a contestant appears exactly when the room's mode asks for it, the
  // nonce was spent on it, a quote was had, and its reason is true.
  ghost predicate ReasonHolds(room: Setup, c: Call, reason: Reason)
    requires c.body.Body? && c.body.bundleSha.Text?
  {
    && c.body.sealedKey.Text?
    && match reason
       case Unreadable => Resolved(room, c).Err?
       case Absent => Resolved(room, c) == Ok(None) && c.body.bundle !in {Text(""), Value.Other(false)}
       case NotBoundToBundle =>
         && Resolved(room, c).Ok? && Resolved(room, c).value.Some?
         && Resolved(room, c).value.value.bundleBinding != c.body.bundleSha.text
         && exists walk :: Carries(room, c, walk)
  }

  lemma EvidenceIff(room: Setup, seen: seq<Entry>, c: Call, reason: Reason)
    ensures var r := Respond(room, seen, c);
            r.Evidence? && r.reason == reason
            <==> && room.spec.failureMode == "attested_zero" && Screened(room, c) && c.quotes
                 && Accepts(seen, Attempt(c.body.nonce.text, c.body.expires.value, c.now))
                 && ReasonHolds(room, c, reason)
    ensures var r := Respond(room, seen, c);
            r.Evidence? ==> r.jobId == c.body.nonce.text && r.bundleSha == c.body.bundleSha.text
  {
    ScreenIff(room, c);
    if Screened(room, c) && Truthy(c.body.bundle) {
      match Recomputed(room, c.body.bundle) {
        case Ok((walk, actual)) => RecomputedIff(room, c, walk);
        case Err(_) =>
      }
      forall walk | Carries(room, c, walk)
        ensures Recomputed(room, c.body.bundle) == Ok((walk, c.body.bundleSha.text))
      {
        RecomputedIff(room, c, walk);
      }
    }
  }

  // A report is answered exactly when the profile was asked, returned a result, and a quote was had;
  // it names the caller's own nonce and digest.
  lemma AnswerIff(room: Setup, seen: seq<Entry>, c: Call, jobId: string, bundleSha: string)
    ensures Respond(room, seen, c) == Answer(jobId, bundleSha)
       <==> && Screened(room, c) && Accepts(seen, Attempt(c.body.nonce.text, c.body.expires.value, c.now))
            && jobId == c.body.nonce.text && bundleSha == c.body.bundleSha.text
            && c.body.sealedKey.Text? && Resolved(room, c).Ok?
            && (exists walk :: MayBeGiven(room, c, Resolved(room, c).value, walk))
            && c.ended == Returned && c.quotes
    ensures Decide(room, seen, c).Asked? && !(c.ended == Returned && c.quotes) ==>
              Respond(room, seen, c) == Refused(500)
  {
    AskedIff(room, seen, c);
    if Decide(room, seen, c).Asked? { ProfileIsAskedIff(room, seen, c, Decide(room, seen, c).call); }
  }

  lemma AskedIff(room: Setup, seen: seq<Entry>, c: Call)
    ensures Decide(room, seen, c).Asked?
       <==> && Screened(room, c) && Accepts(seen, Attempt(c.body.nonce.text, c.body.expires.value, c.now))
            && c.body.sealedKey.Text? && Resolved(room, c).Ok?
            && exists walk :: MayBeGiven(room, c, Resolved(room, c).value, walk)
  {
    if Decide(room, seen, c).Asked? { ProfileIsAskedIff(room, seen, c, Decide(room, seen, c).call); }
    if Screened(room, c) && c.body.sealedKey.Text? && Resolved(room, c).Ok? {
      forall walk | MayBeGiven(room, c, Resolved(room, c).value, walk)
        ensures Accepts(seen, Attempt(c.body.nonce.text, c.body.expires.value, c.now)) ==> Decide(room, seen, c).Asked?
      {
        var call := ProfileCall(c.body.nonce.text, Resolved(room, c).value, walk, c.body.bundleSha.text);
        ProfileIsAskedIff(room, seen, c, call);
      }
    }
  }

  // The status of each refusal before the nonce is spent.
  lemma ScreenIs(room: Setup, c: Call)
    ensures Screen(room, c) == Some(503) <==> !room.configured
    ensures Screen(room, c) == Some(401) <==> room.configured && !c.signed
    ensures Screen(room, c) == Some(500)
       <==> && room.configured && c.signed && c.body.Body? && c.body.nonce.Other?
            && c.body.issued.Some? && c.body.expires.Some?
            && c.body.issued.value - room.policy.skew <= c.checkedAt <= c.body.expires.value + room.policy.skew
            && 0 < c.body.expires.value - c.body.issued.value <= room.policy.lifetime
    ensures Screen(room, c) in {None, Some(503), Some(401), Some(500), Some(400)}
  {
  }

  // The answer to every call that has spent its nonce, case by case.
  lemma ResponseIs(room: Setup, seen: seq<Entry>, c: Call)
    requires Screened(room, c) && Accepts(seen, Attempt(c.body.nonce.text, c.body.expires.value, c.now))
    ensures var r, bundle := Respond(room, seen, c), c.body.bundle;
            var absent := bundle in {Text(""), Value.Other(false)};
            var attests := room.spec.failureMode == "attested_zero";
            var reported := Answer(c.body.nonce.text, c.body.bundleSha.text);
            var ended := if c.ended == Returned && c.quotes then reported else Refused(500);
            var blamed := if c.quotes then r.Evidence? else r == Refused(500);
            if c.body.sealedKey.Other? then r == Refused(500)
            else if Resolved(room, c).Err? then (if attests then blamed else r == Refused(400))
            else
              var credential := Resolved(room, c).value;
              if absent && credential.Some? then r == Refused(400)
              else if absent then r == ended
              else if attests && credential.None? then blamed
              else if bundle.Other? then r == Refused(500)
              else if room.unpack(bundle.text).Unsafe? then r == Refused(400)
              else
                var walk := room.unpack(bundle.text).walk;
                match BindingOf(DomainTag(), walk)
                case NotRegular => r == Refused(400)
                case LengthOverflow => r == Refused(500)
                case Hashed(stream) =>
                  if room.digest(stream) != c.body.bundleSha.text then r == Refused(400)
                  else if credential.Some? && credential.value.bundleBinding != room.digest(stream)
                  then (if attests then blamed else r == Refused(400))
                  else r == ended
  {
    ScreenIff(room, c);
    if c.body.bundle.Text? && room.unpack(c.body.bundle.text).Tree? {
      OnlyTwoFaults(Sorted(room.unpack(c.body.bundle.text).walk));
    }
  }

  // ---- from the sealing tool to the profile -----------------------------------------------

  // Two trees whose hashed bytes differ but whose digests do not.
  ghost predicate Collision(room: Setup, a: seq<Found>, b: seq<Found>) {
    && Stream(DomainTag(), Included(Sorted(a))) != Stream(DomainTag(), Included(Sorted(b)))
    && Digest(room, a) == Digest(room, b)
  }

  lemma DigestsEqualIff(room: Setup, a: seq<Found>, b: seq<Found>)
    requires IsWalk(a) && IsWalk(b) && Clean(a) && Clean(b)
    ensures Digest(room, a) == Digest(room, b) <==> Covered(a) == Covered(b) || Collision(room, a, b)
  {
    forall f | f in Covered(a) + Covered(b) ensures Fits(f) {
      if f in Covered(a) {
        var e :| e in a && Hashes(e) && FileOf(e) == f;
      } else {
        var e :| e in b && Hashes(e) && FileOf(e) == f;
      }
    }
    BindingsEqualIffSameFiles(DomainTag(), a, b);
  }

  // A screened, accepted call with a matching digest, whose ciphertext opens to a payload the room
  // parses, is asked of the profile exactly when the payload binds the call's tree.
  lemma OpenedCredentialIsJudged(room: Setup, seen: seq<Entry>, c: Call, credential: Credential, walk: seq<Found>)
    requires Screened(room, c) && Accepts(seen, Attempt(c.body.nonce.text, c.body.expires.value, c.now))
    requires c.body.sealedKey.Text? && Resolved(room, c) == Ok(Some(credential)) && Carries(room, c, walk)
    ensures var v := Decide(room, seen, c);
            if credential.bundleBinding == Digest(room, walk)
            then v == Asked(ProfileCall(c.body.nonce.text, Some(credential), Some(walk), c.body.bundleSha.text))
            else v.Answered?
  {
    ScreenIff(room, c);
    RecomputedIff(room, c, walk);
  }

  // A call the guard lets through, with a ciphertext that opens to the payload and an archive of the
  // tree under its own digest.
  ghost predicate Delivers(room: Setup, seen: seq<Entry>, c: Call, payload: Payload, walk: seq<Found>) {
    && Screened(room, c) && Accepts(seen, Attempt(c.body.nonce.text, c.body.expires.value, c.now))
    && c.body.sealedKey.Text? && Strip(c.body.sealedKey.text) != ""
    && room.unseal(Strip(c.body.sealedKey.text)) == Some(payload)
    && IsWalk(walk) && Carries(room, c, walk)
  }

  // A tree a miner can bind a credential to.
  ghost predicate Bindable(room: Setup, tree: seq<Found>) {
    IsWalk(tree) && Clean(tree) && IsDigest(Digest(room, tree))
  }

  ghost predicate SameFiles(room: Setup, walk: seq<Found>, tree: seq<Found>) {
    Covered(walk) == Covered(tree) || Collision(room, walk, tree)
  }

  // A miner names providers, collects keys and seals them, for a profile, to the digest of their own
  // tree; a caller sends the ciphertext with some archive.  The profile gets those very keys exactly
  // when the room's profile string and providers are the ones named and the archive's covered files
  // are the miner's own, short of a collision of the hash.
  lemma SealedKeysRunOnlyTheirBundle(
      room: Setup, seen: seq<Entry>, c: Call, raw: string, profile: string, src: Sources,
      tree: seq<Found>, walk: seq<Found>)
    requires ParseProviders(raw).Ok? && Collected(ParseProviders(raw).value, src).Ok?
    requires room.spec.version == MULTI_KEY && Bindable(room, tree)
    requires var keys := Collected(ParseProviders(raw).value, src).value;
             Delivers(room, seen, c, SetPayload(profile, keys, Digest(room, tree)), walk)
    ensures var providers := ParseProviders(raw).value;
            var credential := KeySet(Collected(providers, src).value, Digest(room, tree), Strip(profile));
            var v := Decide(room, seen, c);
            if && room.spec.credentialProfile == Strip(profile)
               && Elements(room.spec.requiredProviders) == Elements(providers)
               && SameFiles(room, walk, tree)
            then v == Asked(ProfileCall(c.body.nonce.text, Some(credential), Some(walk), c.body.bundleSha.text))
            else v.Answered?
  {
    var keys := Collected(ParseProviders(raw).value, src).value;
    var credential := KeySet(keys, Digest(room, tree), Strip(profile));
    var payload := SetPayload(profile, keys, Digest(room, tree));
    CollectedKeysAreAccepted(raw, profile, src, Digest(room, tree), room.spec);
    Resolves(room, c, payload);
    if ParsedSet(payload, room.spec).Ok? {
      OpenedCredentialIsJudged(room, seen, c, credential, walk);
      DigestsEqualIff(room, walk, tree);
    } else {
      UnresolvedIsAnswered(room, seen, c);
    }
  }

  // The same for one key.  The tool does not check it, so a key the room's rule refuses never
  // reaches the profile, whatever the archive.
  lemma SealedKeyRunsOnlyItsBundle(
      room: Setup, seen: seq<Entry>, c: Call, provider: string, raw: string, tree: seq<Found>, walk: seq<Found>)
    requires IsProviderId(provider) && Strip(raw) != "" && room.spec.version != MULTI_KEY && Bindable(room, tree)
    requires Delivers(room, seen, c, SinglePayload(provider, Strip(raw), Digest(room, tree)), walk)
    ensures var credential := Single(provider, Strip(raw), Digest(room, tree));
            var v := Decide(room, seen, c);
            if SingleKeyPasses(Strip(raw)) && SameFiles(room, walk, tree)
            then v == Asked(ProfileCall(c.body.nonce.text, Some(credential), Some(walk), c.body.bundleSha.text))
            else v.Answered?
  {
    SingleRoundTrip(provider, raw, Digest(room, tree));
    Resolves(room, c, SinglePayload(provider, Strip(raw), Digest(room, tree)));
    if SingleKeyPasses(Strip(raw)) {
      OpenedCredentialIsJudged(room, seen, c, Single(provider, Strip(raw), Digest(room, tree)), walk);
      DigestsEqualIff(room, walk, tree);
    } else {
      UnresolvedIsAnswered(room, seen, c);
    }
  }

  lemma Resolves(room: Setup, c: Call, payload: Payload)
    requires c.body.Body? && c.body.sealedKey.Text? && Strip(c.body.sealedKey.text) != ""
    requires room.unseal(Strip(c.body.sealedKey.text)) == Some(payload)
    ensures var multi := room.spec.version == MULTI_KEY;
            var parsed := if multi then ParsedSet(payload, room.spec) else ParseCredential(payload);
            Resolved(room, c) == match parsed case Err(e) => Err(e) case Ok(credential) => Ok(Some(credential))
  {
  }

  lemma UnresolvedIsAnswered(room: Setup, seen: seq<Entry>, c: Call)
    requires Screened(room, c) && c.body.sealedKey.Text? && Resolved(room, c).Err?
    ensures Decide(room, seen, c).Answered?
  {
    var v := Decide(room, seen, c);
    if v.Asked? { ProfileIsAskedIff(room, seen, c, v.call); }
  }

  // ---- every run --------------------------------------------------------------------------

  // The store after a series of calls, in the order the guard takes them.
  function SeenAfter(room: Setup, calls: seq<Call>): seq<Entry> {
    if calls == [] then []
    else
      var n := |calls| - 1;
      SeenAfterCall(room, SeenAfter(room, calls[..n]), calls[n])
  }

  // What the guard is asked: a reservation for each screened call.
  function Reservations(room: Setup, calls: seq<Call>): seq<Attempt> {
    if calls == [] then []
    else
      var n := |calls| - 1;
      Reservations(room, calls[..n]) + (if Screen(room, calls[n]).None? then [Reservation(room, calls[n])] else [])
  }

  lemma {:induction false} GuardSeesScreenedCalls(room: Setup, calls: seq<Call>)
    ensures SeenAfter(room, calls) == After(room.maxEntries, Reservations(room, calls)).seen
  {
    if calls != [] {
      var n := |calls| - 1;
      var before := Reservations(room, calls[..n]);
      GuardSeesScreenedCalls(room, calls[..n]);
      if Screen(room, calls[n]).None? {
        assert (before + [Reservation(room, calls[n])])[..|before|] == before;
      } else {
        assert before + [] == before;
      }
    }
  }

  // Everything the guard has accepted in a series of calls, oldest first.
  function Log(room: Setup, calls: seq<Call>): seq<Accepted> {
    After(room.maxEntries, Reservations(room, calls)).log
  }

  // The call at i spends its nonce.
  ghost predicate Admitted(room: Setup, calls: seq<Call>, i: nat) {
    && i < |calls| && Screen(room, calls[i]).None?
    && Accepts(SeenAfter(room, calls[..i]), Reservation(room, calls[i]))
  }

  // How many calls spent a nonce.
  ghost function Admissions(room: Setup, calls: seq<Call>): nat {
    if calls == [] then 0
    else
      var n := |calls| - 1;
      Admissions(room, calls[..n]) + (if Admitted(room, calls, n) then 1 else 0)
  }

  lemma LogGrows(room: Setup, calls: seq<Call>)
    requires calls != []
    ensures var before := calls[..|calls| - 1];
            Log(room, calls)
            == if Admitted(room, calls, |calls| - 1)
               then
                 var last := Reservation(room, calls[|calls| - 1]);
                 Log(room, before) + [Acceptance(|Reservations(room, before)|, last)]
               else Log(room, before)
  {
    var n := |calls| - 1;
    var before := Reservations(room, calls[..n]);
    GuardSeesScreenedCalls(room, calls[..n]);
    if Screen(room, calls[n]).None? {
      assert (before + [Reservation(room, calls[n])])[..|before|] == before;
    } else {
      assert before + [] == before;
    }
  }

  lemma LogKeeps(room: Setup, calls: seq<Call>, k: nat)
    requires calls != [] && k < |Log(room, calls[..|calls| - 1])|
    ensures k < |Log(room, calls)| && Log(room, calls)[k] == Log(room, calls[..|calls| - 1])[k]
  {
    LogGrows(room, calls);
  }

  // Each admitted call stands in the guard's log, at its own place.
  lemma {:induction false} AdmissionIsLogged(room: Setup, calls: seq<Call>, i: nat)
    requires i < |calls| && Admitted(room, calls, i)
    ensures Admissions(room, calls[..i]) < |Log(room, calls)|
    ensures Log(room, calls)[Admissions(room, calls[..i])]
         == Acceptance(|Reservations(room, calls[..i])|, Reservation(room, calls[i]))
  {
    var n := |calls| - 1;
    if i < n {
      assert calls[..n][..i] == calls[..i];
      AdmissionIsLogged(room, calls[..n], i);
      LogKeeps(room, calls, Admissions(room, calls[..i]));
    } else {
      LastAdmission(room, calls);
    }
  }

  lemma LastAdmission(room: Setup, calls: seq<Call>)
    requires calls != [] && Admitted(room, calls, |calls| - 1)
    ensures var before := calls[..|calls| - 1];
            && Admissions(room, before) == |Log(room, calls)| - 1
            && Log(room, calls)[Admissions(room, before)]
               == Acceptance(|Reservations(room, before)|, Reservation(room, calls[|calls| - 1]))
  {
    LogGrows(room, calls);
    LogIsCounted(room, calls[..|calls| - 1]);
  }

  lemma {:induction false} LogIsCounted(room: Setup, calls: seq<Call>)
    ensures |Log(room, calls)| == Admissions(room, calls)
  {
    if calls != [] {
      LogGrows(room, calls);
      LogIsCounted(room, calls[..|calls| - 1]);
    }
  }

  // A reservation made after call i is that of a later screened call.
  lemma {:induction false} LaterReservation(room: Setup, calls: seq<Call>, i: nat, k: nat) returns (m: nat)
    requires i < |calls| && |Reservations(room, calls[..i])| < k < |Reservations(room, calls)|
    ensures i < m < |calls| && Screen(room, calls[m]).None?
    ensures Reservation(room, calls[m]) == Reservations(room, calls)[k]
  {
    var n := |calls| - 1;
    if k < |Reservations(room, calls[..n])| {
      assert calls[..n][..i] == calls[..i];
      m := LaterReservation(room, calls[..n], i, k);
    } else {
      m := n;
    }
  }

  // Some call after i, up to and including j, read a clock past the expiry call i named.
  ghost predicate Expires(room: Setup, calls: seq<Call>, i: nat, j: nat) {
    && i < j < |calls| && calls[i].body.Body? && calls[i].body.expires.Some?
    && exists m :: i < m <= j && Screen(room, calls[m]).None? && calls[m].now > calls[i].body.expires.value
  }

  // Two calls spend one nonce only if its first expiry passes on some clock in between, or at least
  // maxEntries other nonces are spent in between; and only a spent nonce ever reaches the profile.
  lemma NonceIsSpentOnce(room: Setup, calls: seq<Call>, i: nat, j: nat)
    requires i < j && Admitted(room, calls, i) && Admitted(room, calls, j)
    requires calls[i].body.nonce == calls[j].body.nonce
    ensures || Expires(room, calls, i, j)
            || Admissions(room, calls[..j]) - Admissions(room, calls[..i + 1]) >= room.maxEntries
  {
    var prefix, upto := calls[..j], calls[..j + 1];
    assert prefix[..i] == calls[..i] && upto[..i] == calls[..i] && upto[..j] == prefix;
    var attempts, a := Reservations(room, prefix), Reservation(room, calls[j]);
    var p := Admissions(room, calls[..i]);
    GuardSeesScreenedCalls(room, prefix);
    AdmissionIsLogged(room, prefix, i);
    LogIsCounted(room, prefix);
    assert calls[..i + 1][..i] == calls[..i];
    assert Admissions(room, calls[..i + 1]) == p + 1;
    SecondAcceptanceNeeds(room.maxEntries, attempts, a, p);
    var x := Log(room, prefix)[p];
    if Outlived(attempts + [a], x) {
      assert Reservations(room, upto) == attempts + [a];
      OutlivedExpires(room, calls, i, j, x);
    }
  }

  lemma OutlivedExpires(room: Setup, calls: seq<Call>, i: nat, j: nat, x: Accepted)
    requires i < j < |calls| && calls[i].body.Body? && calls[i].body.expires == Some(x.entry.expiresAt)
    requires x.call == |Reservations(room, calls[..i])| && Outlived(Reservations(room, calls[..j + 1]), x)
    ensures Expires(room, calls, i, j)
  {
    var upto := calls[..j + 1];
    assert upto[..i] == calls[..i];
    var k: nat :| x.call < k < |Reservations(room, upto)| && Reservations(room, upto)[k].now > x.entry.expiresAt;
    var m := LaterReservation(room, upto, i, k);
    assert upto[m] == calls[m];
  }

  lemma OnlySpentNoncesAreAsked(room: Setup, calls: seq<Call>, i: nat)
    requires i < |calls| && Decide(room, SeenAfter(room, calls[..i]), calls[i]).Asked?
    ensures Admitted(room, calls, i)
  {
  }

  // Calls take the guard's lock at most `lag` out of the order of their readings.
  ghost predicate ClockRuns(calls: seq<Call>, lag: nat) {
    && (forall i | 0 <= i < |calls| :: calls[i].checkedAt <= calls[i].now)
    && forall i, j | 0 <= i < j < |calls| :: calls[i].now <= calls[j].now + lag
  }

  // One signed body asked of the profile twice: the second time the guard's reading, with the lag
  // added, is past its expiry while the window's is within the skew of it, or at least maxEntries
  // nonces were spent in between.
  lemma SameBodyTwiceIsLate(room: Setup, calls: seq<Call>, lag: nat, i: nat, j: nat)
    requires i < j < |calls| && ClockRuns(calls, lag) && calls[i].body == calls[j].body
    requires Decide(room, SeenAfter(room, calls[..i]), calls[i]).Asked?
    requires Decide(room, SeenAfter(room, calls[..j]), calls[j]).Asked?
    ensures var expires := calls[j].body.expires.value;
            || (expires < calls[j].now + lag && calls[j].checkedAt <= expires + room.policy.skew)
            || Admissions(room, calls[..j]) - Admissions(room, calls[..i + 1]) >= room.maxEntries
  {
    OnlySpentNoncesAreAsked(room, calls, i);
    OnlySpentNoncesAreAsked(room, calls, j);
    NonceIsSpentOnce(room, calls, i, j);
    ScreenIff(room, calls[j]);
    if Expires(room, calls, i, j) { ExpiryShows(room, calls, lag, i, j); }
  }

  lemma ExpiryShows(room: Setup, calls: seq<Call>, lag: nat, i: nat, j: nat)
    requires ClockRuns(calls, lag) && Expires(room, calls, i, j)
    ensures calls[j].now + lag > calls[i].body.expires.value
  {
    var m :| i < m <= j && Screen(room, calls[m]).None? && calls[m].now > calls[i].body.expires.value;
    assert m < j ==> calls[m].now <= calls[j].now + lag;
  }

  // The conflict answer to every call: given exactly to a screened call whose nonce has an acceptance
  // that stands at the call's reading.  Unless a call with a later reading has overtaken it, that is
  // an acceptance shielded by an unexpired one that capacity holds.
  lemma ConflictIffStanding(room: Setup, calls: seq<Call>, c: Call)
    ensures Respond(room, SeenAfter(room, calls), c) == Refused(409)
       <==> Screen(room, c).None? && Standing(room.maxEntries, Reservations(room, calls), Reservation(room, c))
    ensures Screen(room, c).None? && Latest(Reservations(room, calls), Reservation(room, c)) ==>
              (Respond(room, SeenAfter(room, calls), c) == Refused(409)
               <==> Held(room.maxEntries, Log(room, calls), c.body.nonce.text, c.now))
  {
    GuardSeesScreenedCalls(room, calls);
    ConflictIffKnown(room, SeenAfter(room, calls), c);
    if Screen(room, c).None? {
      var attempts, a := Reservations(room, calls), Reservation(room, c);
      RefusedIffStanding(room.maxEntries, attempts, a);
      if Latest(attempts, a) { RefusedIffShielded(room.maxEntries, attempts, a); }
    }
  }

  lemma ConflictIffKnown(room: Setup, seen: seq<Entry>, c: Call)
    ensures Respond(room, seen, c) == Refused(409) <==> Screen(room, c).None? && !Accepts(seen, Reservation(room, c))
  {
  }

  // What is decided after the reservation depends on the body alone.
  lemma BodyDecides(room: Setup, c: Call, d: Call)
    requires c.body == d.body && c.body.Body? && c.body.nonce.Text? && c.body.bundleSha.Text?
    ensures Judge(room, c).Asked? <==> Judge(room, d).Asked?
  {
  }

  // So a body that was asked of the profile once is asked again exactly when it is still screened and
  // no acceptance of its nonce stands.
  lemma SameBodyAskedAgainIff(room: Setup, calls: seq<Call>, i: nat, c: Call)
    requires i < |calls| && Decide(room, SeenAfter(room, calls[..i]), calls[i]).Asked? && c.body == calls[i].body
    ensures Decide(room, SeenAfter(room, calls), c).Asked?
       <==> Screened(room, c) && !Standing(room.maxEntries, Reservations(room, calls), Reservation(room, c))
  {
    ScreenIff(room, c);
    GuardSeesScreenedCalls(room, calls);
    if Screen(room, c).None? {
      RefusedIffStanding(room.maxEntries, Reservations(room, calls), Reservation(room, c));
      BodyDecides(room, c, calls[i]);
    }
  }

  // ---- one nonce in two spellings ---------------------------------------------------------

  function FoldCase(c: char): char { if 'A' <= c <= 'F' then c - 'A' + 'a' else c }

  lemma {:induction false} BytesAgreeIff(a: string, b: string)
    requires |a| % 2 == 0 && forall i | 0 <= i < |a| :: HexAnyCase(a[i])
    requires |b| % 2 == 0 && forall i | 0 <= i < |b| :: HexAnyCase(b[i])
    ensures BytesOf(a) == BytesOf(b) <==> |a| == |b| && forall i | 0 <= i < |a| :: FoldCase(a[i]) == FoldCase(b[i])
  {
    if a != [] && b != [] {
      BytesAgreeIff(a[2..], b[2..]);
      PairsAgreeIff(a[0], a[1], b[0], b[1]);
      assert BytesOf(a)[1..] == BytesOf(a[2..]) && BytesOf(b)[1..] == BytesOf(b[2..]);
      assert forall i | 2 <= i < |a| :: a[i] == a[2..][i - 2];
      assert forall i | 2 <= i < |b| :: b[i] == b[2..][i - 2];
      assert BytesOf(a) == BytesOf(b) <==> BytesOf(a)[0] == BytesOf(b)[0] && BytesOf(a)[1..] == BytesOf(b)[1..];
    }
  }

  lemma PairsAgreeIff(a: char, b: char, c: char, d: char)
    requires HexAnyCase(a) && HexAnyCase(b) && HexAnyCase(c) && HexAnyCase(d)
    ensures 16 * HexValue(a) + HexValue(b) == 16 * HexValue(c) + HexValue(d)
       <==> FoldCase(a) == FoldCase(c) && FoldCase(b) == FoldCase(d)
  {
  }

  lemma {:induction false} BytesAre(s: string, bytes: seq<Byte>)
    requires |s| % 2 == 0 && forall i | 0 <= i < |s| :: HexAnyCase(s[i])
    ensures BytesOf(s) == bytes <==> Each(FoldCase, s) == HexText(bytes)
  {
    HexTextIsHex(bytes);
    if s != [] && bytes != [] {
      BytesAre(s[2..], bytes[1..]);
      var folded := Each(FoldCase, s);
      assert folded[2..] == Each(FoldCase, s[2..]);
      assert HexText(bytes)[2..] == HexText(bytes[1..]) && HexText(bytes)[..2] == HexPair(bytes[0]);
      PairIs(s[0], s[1], bytes[0]);
      assert folded[..2] == [FoldCase(s[0]), FoldCase(s[1])];
      assert folded == HexText(bytes) <==> folded[..2] == HexText(bytes)[..2] && folded[2..] == HexText(bytes)[2..];
      assert BytesOf(s) == bytes <==> BytesOf(s)[0] == bytes[0] && BytesOf(s)[1..] == bytes[1..];
    }
  }

  lemma PairIs(high: char, low: char, b: Byte)
    requires HexAnyCase(high) && HexAnyCase(low)
    ensures 16 * HexValue(high) + HexValue(low) == b <==> [FoldCase(high), FoldCase(low)] == HexPair(b)
  {
  }

  // A nonce decodes to those bytes whose hexadecimal text it is, but for letter case.
  lemma UnhexIff(s: string, bytes: seq<Byte>)
    ensures Unhex(s) == Some(bytes) <==> Each(FoldCase, s) == HexText(bytes)
  {
    HexTextIsHex(bytes);
    if Each(FoldCase, s) == HexText(bytes) {
      forall i | 0 <= i < |s| ensures HexAnyCase(s[i]) { assert Each(FoldCase, s)[i] == FoldCase(s[i]); }
    }
    if |s| % 2 == 0 && forall i | 0 <= i < |s| :: HexAnyCase(s[i]) { BytesAre(s, bytes); }
  }

  // Two nonces that decode name the same bytes exactly when they differ in letter case at most.
  lemma SameBytesIff(a: string, b: string)
    requires Unhex(a).Some? && Unhex(b).Some?
    ensures Unhex(a) == Unhex(b) <==> |a| == |b| && forall i | 0 <= i < |a| :: FoldCase(a[i]) == FoldCase(b[i])
  {
    BytesAgreeIff(a, b);
  }

  // Another text for the same bytes.
  predicate Respelled(a: string, b: string) {
    a != b && |a| == |b| && forall i | 0 <= i < |a| :: FoldCase(a[i]) == FoldCase(b[i])
  }

  lemma RespelledIff(a: string, b: string)
    requires Unhex(a).Some? && Unhex(a) == Unhex(b)
    ensures Respelled(a, b) <==> a != b
  {
    SameBytesIff(a, b);
  }

  // A screened call whose bytes have acceptances that stand is let through all the same exactly when
  // every one of those was in another letter case.
  lemma SpellingDecides(room: Setup, calls: seq<Call>, c: Call)
    requires Screen(room, c).None?
    ensures Respond(room, SeenAfter(room, calls), c) != Refused(409)
       <==> forall p: nat, nonce | StandsAs(room.maxEntries, Reservations(room, calls), p, c.now, nonce) ::
              Unhex(nonce) == Unhex(c.body.nonce.text) ==> Respelled(nonce, c.body.nonce.text)
  {
    ConflictIffStanding(room, calls, c);
    var attempts, text := Reservations(room, calls), c.body.nonce.text;
    assert !Respelled(text, text);
    if !Standing(room.maxEntries, attempts, Reservation(room, c)) {
      forall p: nat, nonce | StandsAs(room.maxEntries, attempts, p, c.now, nonce) && Unhex(nonce) == Unhex(text)
        ensures Respelled(nonce, text)
      {
        RespelledIff(nonce, text);
      }
    }
  }

  function CallWith(nonce: string): Call {
    Call(true, Body(Some(0), Some(1), Text(nonce), Text(""), Text(""), Text(seq(64, _ => '0'))), 0, 0, Returned, true)
  }

  // The guard compares text: eight bytes are admitted twice at one moment, in two spellings.
  lemma OtherSpellingIsAnotherNonce(room: Setup)
    requires room.configured && room.policy.lifetime >= 1 && room.policy.skew >= 0
    ensures var lower, upper := seq(16, _ => 'a'), seq(16, _ => 'A');
            var calls := [CallWith(lower), CallWith(upper)];
            && Unhex(lower).Some? && Unhex(lower) == Unhex(upper)
            && Admitted(room, calls, 0) && Admitted(room, calls, 1)
  {
    var lower, upper := seq(16, _ => 'a'), seq(16, _ => 'A');
    var c, d := CallWith(lower), CallWith(upper);
    SameBytesIff(lower, upper);
    ScreenIff(room, c);
    ScreenIff(room, d);
    assert [c, d][..0] == [] && [c, d][..1] == [c] && [c][..0] == [];
    assert SeenAfter(room, []) == [];
    assert lower[0] != upper[0];
    EmptyAcceptsAnyTwo(room.maxEntries, lower, upper);
    assert SeenAfter(room, [c]) == Reserved([], room.maxEntries, Attempt(lower, 1, 0));
  }

  lemma EmptyAcceptsAnyTwo(maxEntries: nat, first: string, second: string)
    requires first != second
    ensures Accepts([], Attempt(first, 1, 0))
    ensures Accepts(Reserved([], maxEntries, Attempt(first, 1, 0)), Attempt(second, 1, 0))
  {
    var e := Entry(first, 1);
    assert Purge([], 0) == [] && [] + [e] == [e];
    assert Reserved([], maxEntries, Attempt(first, 1, 0)) == Evict([e], maxEntries);
    if maxEntries == 0 {
      assert Evict([e], 0) == Evict([], 0) == [];
    } else {
      assert Evict([e], maxEntries) == [e] && Purge([e], 0) == [e];
    }
  }
}

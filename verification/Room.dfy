/** The privileged endpoint (room/server.py): one request as a pipeline of early refusals that decides
    what may reach the subnet's profile.

    Decryption, archive extraction, the hash, quoting and the profile itself are arbitrary functions
    of the room; everything between them is modelled. */
module Room {
  import opened Common
  import opened Auth
  import opened Bundle
  import opened Credentials

  // A request field: text (the empty default when absent), or some other JSON value.
  datatype Value = Text(text: string) | Other(truthy: bool)

  predicate Truthy(v: Value) { match v case Text(s) => s != "" case Other(t) => t }

  datatype Body =
    | NotAnObject
    | Body(issued: Option<int>, expires: Option<int>, nonce: Value, sealedKey: Value, bundle: Value, bundleSha: Value)

  datatype ProfileEnd = Returned | NotAResult | Raised

  // One call of /run and what happens to it: whether its signature verified, the two clock readings
  // it makes, how the profile ends if it is asked, and whether a quote can be had.
  datatype Call = Call(signed: bool, body: Body, checkedAt: int, now: int, ended: ProfileEnd, quotes: bool)

  // What decoding and extracting an archive yields: a refusal, or a tree to walk.
  datatype Unpacked = Unsafe | Tree(walk: seq<Found>)

  datatype ProfileCall = ProfileCall(
    jobId: string, credential: Option<Credential>, walk: Option<seq<Found>>, bundleSha: string)

  datatype Setup = Setup(
    configured: bool, policy: Policy, maxEntries: nat, spec: CredentialSpec,
    unseal: Unsealer, unpack: string -> Unpacked, digest: seq<Byte> -> string)

  datatype Reason = Absent | Unreadable | NotBoundToBundle

  // Every end of /run.  Evidence and Answer are quote-bound; the rest are plain errors.
  datatype Response =
    | Refused(status: nat)
    | Evidence(reason: Reason, jobId: string, bundleSha: string)
    | Answer(jobId: string, bundleSha: string)

  // ---- before the nonce is reserved -------------------------------------------------------

  predicate HexAnyCase(c: char) { Digit(c) || 'a' <= c <= 'f' || 'A' <= c <= 'F' }

  function HexValue(c: char): (n: nat)
    requires HexAnyCase(c)
    ensures n < 16
  {
    if Digit(c) then c as nat - '0' as nat
    else if 'a' <= c <= 'f' then c as nat - 'a' as nat + 10
    else c as nat - 'A' as nat + 10
  }

  function BytesOf(s: string): (bytes: seq<Byte>)
    requires |s| % 2 == 0 && forall i | 0 <= i < |s| :: HexAnyCase(s[i])
    ensures |bytes| == |s| / 2
  {
    if s == [] then [] else [16 * HexValue(s[0]) + HexValue(s[1])] + BytesOf(s[2..])
  }

  // unhexlify, which takes letters of either case.
  function Unhex(s: string): Option<seq<Byte>> {
    if |s| % 2 == 0 && forall i | 0 <= i < |s| :: HexAnyCase(s[i]) then Some(BytesOf(s)) else None
  }

  // The refusals that come before the guard is asked, in order.
  function Screen(room: Setup, c: Call): Option<nat> {
    if !room.configured then Some(503)
    else if !c.signed then Some(401)
    else if c.body.NotAnObject? then Some(400)
    else if CheckWindow(c.body.issued, c.body.expires, c.checkedAt, room.policy).Some? then Some(400)
    else if c.body.nonce.Other? then Some(500)
    else if Unhex(c.body.nonce.text).None? then Some(400)
    else if !(8 <= |Unhex(c.body.nonce.text).value| <= 32) then Some(400)
    else if c.body.bundleSha.Other? || !IsDigest(c.body.bundleSha.text) then Some(400)
    else None
  }

  // The reservation a screened call asks for.
  function Reservation(room: Setup, c: Call): Attempt
    requires Screen(room, c).None?
  {
    Attempt(c.body.nonce.text, c.body.expires.value, c.now)
  }

  // ---- after the nonce is reserved --------------------------------------------------------

  // What the profile is asked to run, or what is answered without asking it.
  datatype Verdict = Answered(response: Response) | Asked(call: ProfileCall)

  function Attested(reason: Reason, c: Call): Verdict
    requires c.body.Body? && c.body.nonce.Text? && c.body.bundleSha.Text?
  {
    Answered(if c.quotes then Evidence(reason, c.body.nonce.text, c.body.bundleSha.text) else Refused(500))
  }

  predicate AttestsFailure(room: Setup) { room.spec.failureMode == ATTESTED_ZERO }

  // The digest the room computes for a tree.
  function Digest(room: Setup, walk: seq<Found>): string {
    room.digest(Stream(DomainTag(), Included(Sorted(walk))))
  }

  // The digest of a bundle as the room recomputes it, or the status its failure gives.
  function Recomputed(room: Setup, bundle: Value): Result<(seq<Found>, string), nat> {
    match bundle
    case Other(_) => Err(500)
    case Text(text) =>
      match room.unpack(text)
      case Unsafe => Err(400)
      case Tree(walk) =>
        match FirstFault(Sorted(walk))
        case Some(fault) => Err(if fault == NotRegular then 400 else 500)
        case None => Ok((walk, Digest(room, walk)))
  }

  function Judge(room: Setup, c: Call): Verdict
    requires c.body.Body? && c.body.nonce.Text? && c.body.bundleSha.Text?
  {
    var body := c.body;
    var jobId, bundleSha, bundle := body.nonce.text, body.bundleSha.text, body.bundle;
    if body.sealedKey.Other? then Answered(Refused(500))
    else
      match ResolveSealedCredential(body.sealedKey.text, room.spec, false, room.unseal)
      case Err(_) =>
        if AttestsFailure(room) then Attested(Reason.Unreadable, c) else Answered(Refused(400))
      case Ok(credential) =>
        if credential.Some? && !Truthy(bundle) then Answered(Refused(400))
        else if AttestsFailure(room) && credential.None? && Truthy(bundle) then Attested(Reason.Absent, c)
        else if !Truthy(bundle) then Asked(ProfileCall(jobId, credential, None, bundleSha))
        else
          match Recomputed(room, bundle)
          case Err(status) => Answered(Refused(status))
          case Ok((walk, actual)) =>
            if bundleSha != actual then Answered(Refused(400))
            else if credential.Some? && credential.value.bundleBinding != actual then
              (if AttestsFailure(room) then Attested(Reason.NotBoundToBundle, c) else Answered(Refused(400)))
            else Asked(ProfileCall(jobId, credential, Some(walk), bundleSha))
  }

  function Finished(c: Call, call: ProfileCall): Response {
    if c.ended == Returned && c.quotes then Answer(call.jobId, call.bundleSha) else Refused(500)
  }

  // The verdict on one call given the guard's store.
  function Decide(room: Setup, seen: seq<Entry>, c: Call): Verdict {
    match Screen(room, c)
    case Some(status) => Answered(Refused(status))
    case None =>
      if !Accepts(seen, Reservation(room, c)) then Answered(Refused(409)) else Judge(room, c)
  }

  function SeenAfterCall(room: Setup, seen: seq<Entry>, c: Call): seq<Entry> {
    if Screen(room, c).Some? then seen else Reserved(seen, room.maxEntries, Reservation(room, c))
  }

  // ---- the endpoint -----------------------------------------------------------------------

  class Endpoint {
    const room: Setup
    const guard: ReplayGuard

    ghost predicate Valid() { guard.maxEntries == room.maxEntries }

    constructor (room: Setup)
      ensures Valid() && this.room == room && guard.seen == [] && fresh(guard)
    {
      this.room := room;
      this.guard := new ReplayGuard(room.maxEntries);
    }

    // `asked` is the call the profile gets, if any.
    method Run(c: Call) returns (response: Response, asked: Option<ProfileCall>)
      requires Valid()
      modifies guard
      ensures guard.seen == SeenAfterCall(room, old(guard.seen), c)
      ensures match Decide(room, old(guard.seen), c)
              case Answered(r) => response == r && asked.None?
              case Asked(call) => response == Finished(c, call) && asked == Some(call)
    {
      asked := None;
      if !room.configured { return Refused(503), None; }
      if !c.signed { return Refused(401), None; }
      if c.body.NotAnObject? { return Refused(400), None; }
      var body := c.body;
      var window := CheckWindow(body.issued, body.expires, c.checkedAt, room.policy);
      if window.Some? { return Refused(400), None; }
      if body.nonce.Other? { return Refused(500), None; }
      var bytes := Unhex(body.nonce.text);
      if bytes.None? { return Refused(400), None; }
      if !(8 <= |bytes.value| <= 32) { return Refused(400), None; }
      if body.bundleSha.Other? || !IsDigest(body.bundleSha.text) { return Refused(400), None; }
      var accepted := guard.Reserve(body.nonce.text, body.expires.value, c.now);
      if !accepted { return Refused(409), None; }
      var verdict := Examine(c);
      match verdict {
        case Answered(r) => response := r;
        case Asked(call) =>
          asked := Some(call);
          response := Finished(c, call);
      }
    }

    method Examine(c: Call) returns (v: Verdict)
      requires c.body.Body? && c.body.nonce.Text? && c.body.bundleSha.Text?
      ensures v == Judge(room, c)
    {
      var body := c.body;
      var jobId, bundleSha := body.nonce.text, body.bundleSha.text;
      var attests := room.spec.failureMode == ATTESTED_ZERO;
      if body.sealedKey.Other? { return Answered(Refused(500)); }
      var resolved := ResolveSealedCredential(body.sealedKey.text, room.spec, false, room.unseal);
      if resolved.Err? {
        if attests { return Attested(Reason.Unreadable, c); }
        return Answered(Refused(400));
      }
      var credential := resolved.value;
      if credential.Some? && !Truthy(body.bundle) { return Answered(Refused(400)); }
      if attests && credential.None? && Truthy(body.bundle) { return Attested(Reason.Absent, c); }
      if !Truthy(body.bundle) { return Asked(ProfileCall(jobId, credential, None, bundleSha)); }
      var recomputed := Recompute(body.bundle);
      if recomputed.Err? { return Answered(Refused(recomputed.error)); }
      var (walk, actual) := recomputed.value;
      if bundleSha != actual { return Answered(Refused(400)); }
      if credential.Some? && credential.value.bundleBinding != actual {
        if attests { return Attested(Reason.NotBoundToBundle, c); }
        return Answered(Refused(400));
      }
      v := Asked(ProfileCall(jobId, credential, Some(walk), bundleSha));
    }

    method Recompute(bundle: Value) returns (r: Result<(seq<Found>, string), nat>)
      ensures r == Recomputed(room, bundle)
    {
      if bundle.Other? { return Err(500); }
      var unpacked := room.unpack(bundle.text);
      if unpacked.Unsafe? { return Err(400); }
      OnlyTwoFaults(Sorted(unpacked.walk));
      var binding := CredentialBundleBinding(unpacked.walk);
      if binding.NotRegular? { return Err(400); }
      if binding.LengthOverflow? { return Err(500); }
      r := Ok((unpacked.walk, room.digest(binding.stream)));
    }
  }
}

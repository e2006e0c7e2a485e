/** Sealed credentials: the contract a profile declares (room/profile.py), the parsers inside the
    room (room/sealing.py) and the tool that prints what they parse (kata_seal.py).

    JSON text is modelled by its value: reading back what was printed gives the same value. */
module Credentials {
  import opened Common

  datatype Json =
    | Null
    | Flag(flag: bool)
    | Whole(n: int)
    | Fraction(r: real)
    | Str(s: string)
    | Arr(items: seq<Json>)
    | Obj(fields: map<string, Json>)

  // The names of a payload's own fields: the ones the parsers know, or any other text.
  datatype Field = Version | Provider | ApiKey | BundleBinding | CredentialProfile | Credentials | Other(name: string)

  // A decrypted plaintext: not JSON or not an object, or an object by field.
  datatype Payload = NotObject | Payload(fields: map<Field, Json>)

  // value == n, where True is 1 and 2.0 is 2.
  predicate EqualsInt(j: Json, n: int) {
    match j
    case Flag(b) => (if b then 1 else 0) == n
    case Whole(m) => m == n
    case Fraction(r) => r == n as real
    case _ => false
  }

  // ---- the contract a profile declares ----------------------------------------------------

  const SINGLE_KEY := 1
  const MULTI_KEY := 2
  const HTTP_ERROR := "http_error"
  const ATTESTED_ZERO := "attested_zero"

  // The attributes a profile object has; a missing one is None.
  datatype ProfileAttributes = ProfileAttributes(
    version: Option<int>, failureMode: Option<string>,
    providers: Option<seq<string>>, credentialProfile: Option<string>)

  datatype CredentialSpec = CredentialSpec(
    version: int, requiredProviders: seq<string>, credentialProfile: string, failureMode: string)

  datatype ProfileError = BadFailureMode | BadVersion | NoProviders | DuplicateProvider | NoProfile

  function GetOr<T>(o: Option<T>, default: T): T { if o.Some? then o.value else default }

  function CredentialSpecFor(p: ProfileAttributes): Result<CredentialSpec, ProfileError> {
    var version := GetOr(p.version, SINGLE_KEY);
    var mode := GetOr(p.failureMode, if version == MULTI_KEY then ATTESTED_ZERO else HTTP_ERROR);
    if mode != HTTP_ERROR && mode != ATTESTED_ZERO then Err(BadFailureMode)
    else if version == SINGLE_KEY then Ok(CredentialSpec(version, [], "", mode))
    else if version != MULTI_KEY then Err(BadVersion)
    else
      var providers, profile := GetOr(p.providers, []), GetOr(p.credentialProfile, "");
      if providers == [] then Err(NoProviders)
      else if !NoRepeats(providers) then Err(DuplicateProvider)
      else if profile == "" then Err(NoProfile)
      else Ok(CredentialSpec(version, providers, profile, mode))
  }

  // What a profile's attributes come to.  A mode that is not declared attests exactly for a multi-key
  // profile, and each refusal is for the first thing wrong.
  lemma SpecIs(p: ProfileAttributes)
    ensures var version := if p.version == None then 1 else p.version.value;
            var odd := p.failureMode.Some? && p.failureMode.value !in {"http_error", "attested_zero"};
            var unnamed := p.providers in {None, Some([])};
            match CredentialSpecFor(p)
            case Ok(spec) =>
              && spec.version == version && !odd
              && spec.failureMode == (if p.failureMode.Some? then p.failureMode.value
                                      else if version == 2 then "attested_zero" else "http_error")
              && if version == 1 then spec.requiredProviders == [] && spec.credentialProfile == ""
                 else && version == 2 && !unnamed && p.providers == Some(spec.requiredProviders)
                      && NoRepeats(spec.requiredProviders)
                      && p.credentialProfile == Some(spec.credentialProfile) && spec.credentialProfile != ""
            case Err(BadFailureMode) => odd
            case Err(BadVersion) => !odd && version != 1 && version != 2
            case Err(NoProviders) => !odd && version == 2 && unnamed
            case Err(DuplicateProvider) => !odd && version == 2 && !unnamed && !NoRepeats(p.providers.value)
            case Err(NoProfile) =>
              && !odd && version == 2 && !unnamed && NoRepeats(p.providers.value)
              && p.credentialProfile in {None, Some("")}
  {
  }

  // ---- the parsers inside the room --------------------------------------------------------

  const MIN_KEY_CHARS := 16
  const MAX_KEY_CHARS := 8192

  datatype Credential =
    | Single(provider: string, apiKey: string, bundleBinding: string)
    | KeySet(keys: map<string, string>, bundleBinding: string, credentialProfile: string)

  datatype SealError =
    | Absent | Undecryptable | BadFormat | WrongVersion | WrongProfile | BadBinding | BadMap
    | MissingProviders(missing: set<string>)
    | UnexpectedProviders(unexpected: set<string>)
    | BadProviderId
    | BadEntry(provider: string) | BadKeyType(provider: string)
    | BadKeyLength(provider: string) | BadKeyChars(provider: string)
    | BadProvider | BadKey

  predicate HasControl(key: string) { exists i | 0 <= i < |key| :: key[i] < ' ' || key[i] == '\U{7F}' }

  // The rule both sides apply to one key of a set.
  function KeyFault(provider: string, key: string): Option<SealError> {
    if !(MIN_KEY_CHARS <= |key| <= MAX_KEY_CHARS) then Some(BadKeyLength(provider))
    else if HasControl(key) then Some(BadKeyChars(provider))
    else None
  }

  const API_KEY := "api_key"

  predicate IsBinding(j: Json) { j.Str? && IsDigest(j.s) }

  // The checks on one provider of a set, in order.
  function EntryFault(provider: string, entry: Json): Option<SealError> {
    if !IsProviderId(provider) then Some(BadProviderId)
    else if !entry.Obj? || entry.fields.Keys != {API_KEY} then Some(BadEntry(provider))
    else if !entry.fields[API_KEY].Str? then Some(BadKeyType(provider))
    else KeyFault(provider, entry.fields[API_KEY].s)
  }

  // The checks before any key is looked at: the credential map they leave, or the refusal.
  function OpenSet(payload: Payload, spec: CredentialSpec): (r: Result<map<string, Json>, SealError>)
    ensures r.Ok? ==> payload.Payload? && BundleBinding in payload.fields && payload.fields[BundleBinding].Str?
  {
    if payload.NotObject? then Err(BadFormat)
    else
      var fields := payload.fields;
      if Version !in fields || !EqualsInt(fields[Version], MULTI_KEY) then Err(WrongVersion)
      else if fields.Keys != {Version, CredentialProfile, Credentials, BundleBinding} then Err(BadFormat)
      else if fields[CredentialProfile] != Str(spec.credentialProfile) then Err(WrongProfile)
      else if !IsBinding(fields[BundleBinding]) then Err(BadBinding)
      else if !fields[Credentials].Obj? then Err(BadMap)
      else
        var credentials := fields[Credentials].fields;
        var required := Elements(spec.requiredProviders);
        if required - credentials.Keys != {} then Err(MissingProviders(required - credentials.Keys))
        else if credentials.Keys - required != {} then Err(UnexpectedProviders(credentials.Keys - required))
        else Ok(credentials)
  }

  // Past those checks the credential map has exactly the required providers.
  lemma OpenedSet(payload: Payload, spec: CredentialSpec)
    requires OpenSet(payload, spec).Ok?
    ensures OpenSet(payload, spec).value.Keys == Elements(spec.requiredProviders)
    ensures forall p | p in spec.requiredProviders :: p in OpenSet(payload, spec).value
  {
    var credentials := OpenSet(payload, spec).value;
    var required := Elements(spec.requiredProviders);
    forall p ensures p in credentials.Keys <==> p in required {
      assert p !in required - credentials.Keys && p !in credentials.Keys - required;
    }
    assert forall p | p in spec.requiredProviders :: p in required;
  }

  function FirstEntryFault(providers: seq<string>, credentials: map<string, Json>): Option<SealError>
    requires forall p | p in providers :: p in credentials
  {
    if providers == [] then None
    else
      var fault := EntryFault(providers[0], credentials[providers[0]]);
      if fault.Some? then fault else FirstEntryFault(providers[1..], credentials)
  }

  function KeyAt(credentials: map<string, Json>, provider: string): string {
    if provider in credentials && credentials[provider].Obj? && API_KEY in credentials[provider].fields
       && credentials[provider].fields[API_KEY].Str?
    then credentials[provider].fields[API_KEY].s else ""
  }

  // What the multi-key parser answers, as one expression.
  function ParsedSet(payload: Payload, spec: CredentialSpec): Result<Credential, SealError> {
    match OpenSet(payload, spec)
    case Err(e) => Err(e)
    case Ok(credentials) =>
      OpenedSet(payload, spec);
      match FirstEntryFault(spec.requiredProviders, credentials)
      case Some(e) => Err(e)
      case None =>
        Ok(KeySet(KeyMap(credentials, spec.requiredProviders),
                  payload.fields[BundleBinding].s, spec.credentialProfile))
  }

  // Past a faultless beginning, the next entry decides.
  lemma {:induction false} EntryFaultStep(providers: seq<string>, credentials: map<string, Json>, i: nat)
    requires forall p | p in providers :: p in credentials
    requires i < |providers| && FirstEntryFault(providers[..i], credentials).None?
    ensures var fault := EntryFault(providers[i], credentials[providers[i]]);
            && (fault.Some? ==> FirstEntryFault(providers, credentials) == fault)
            && (fault.None? ==> FirstEntryFault(providers[..i + 1], credentials).None?)
  {
    if i > 0 {
      assert providers[..i][1..] == providers[1..][..i - 1] && providers[..i + 1][1..] == providers[1..][..i];
      EntryFaultStep(providers[1..], credentials, i - 1);
    } else {
      assert providers[..1][1..] == [];
    }
  }

  function KeyMap(credentials: map<string, Json>, providers: seq<string>): map<string, string> {
    map p | p in providers :: KeyAt(credentials, p)
  }

  lemma KeyMapGrows(credentials: map<string, Json>, providers: seq<string>, i: nat)
    requires i < |providers| && providers[i] in credentials
    requires EntryFault(providers[i], credentials[providers[i]]).None?
    ensures var key := credentials[providers[i]].fields[API_KEY].s;
            KeyMap(credentials, providers[..i + 1]) == KeyMap(credentials, providers[..i])[providers[i] := key]
  {
    assert providers[..i + 1] == providers[..i] + [providers[i]];
  }

  lemma {:induction false} NoEntryFault(providers: seq<string>, credentials: map<string, Json>)
    requires forall p | p in providers :: p in credentials
    ensures FirstEntryFault(providers, credentials).None?
       <==> forall p | p in providers :: EntryFault(p, credentials[p]).None?
  {
    if providers != [] { NoEntryFault(providers[1..], credentials); }
  }

  // The loop that fills the key map, provider by provider.
  method ParseCredentialSet(payload: Payload, spec: CredentialSpec) returns (r: Result<Credential, SealError>)
    ensures r == ParsedSet(payload, spec)
  {
    var checked := OpenSet(payload, spec);
    if checked.Err? { return Err(checked.error); }
    var credentials := checked.value;
    var providers := spec.requiredProviders;
    OpenedSet(payload, spec);
    var keys: map<string, string> := map[];
    for i := 0 to |providers|
      invariant keys == KeyMap(credentials, providers[..i])
      invariant FirstEntryFault(providers[..i], credentials).None?
    {
      var provider := providers[i];
      var fault := EntryFault(provider, credentials[provider]);
      EntryFaultStep(providers, credentials, i);
      if fault.Some? { return Err(fault.value); }
      KeyMapGrows(credentials, providers, i);
      keys := keys[provider := credentials[provider].fields[API_KEY].s];
    }
    assert providers[..|providers|] == providers;
    r := Ok(KeySet(keys, payload.fields[BundleBinding].s, spec.credentialProfile));
  }

  predicate HasLowControl(key: string) { exists i | 0 <= i < |key| :: key[i] < ' ' }

  // The single-key parser.
  function ParseCredential(payload: Payload): Result<Credential, SealError> {
    if payload.NotObject? || payload.fields.Keys != {Version, Provider, ApiKey, BundleBinding} then Err(BadFormat)
    else
      var fields := payload.fields;
      if !EqualsInt(fields[Version], SINGLE_KEY) then Err(WrongVersion)
      else
        var provider, key := fields[Provider], fields[ApiKey];
        if !provider.Str? || !IsProviderId(provider.s) then Err(BadProvider)
        else if !key.Str? || key.s == "" || |key.s| > MAX_KEY_CHARS || HasLowControl(key.s) then Err(BadKey)
        else if !IsBinding(fields[BundleBinding]) then Err(BadBinding)
        else Ok(Single(provider.s, key.s, fields[BundleBinding].s))
  }

  // ECIES and UTF-8 decoding, as an arbitrary function: None when decryption fails.
  type Unsealer = string -> Option<Payload>

  // The one entry point: what is parsed is decided by the profile's version, never by the payload's.
  function ResolveSealedCredential(sealed: string, spec: CredentialSpec, required: bool, unseal: Unsealer)
    : Result<Option<Credential>, SealError>
  {
    var text := Strip(sealed);
    if text == "" then (if required then Err(Absent) else Ok(None))
    else
      match unseal(text)
      case None => Err(Undecryptable)
      case Some(payload) =>
        var parsed := if spec.version == MULTI_KEY then ParsedSet(payload, spec) else ParseCredential(payload);
        match parsed
        case Err(e) => Err(e)
        case Ok(c) => Ok(Some(c))
  }

  // ---- what an accepted payload means -----------------------------------------------------

  // A key of a set, by length and character codes.
  predicate KeyPasses(key: string) {
    16 <= |key| <= 8192 && forall i | 0 <= i < |key| :: key[i] as int >= 32 && key[i] as int != 127
  }

  // What the rule says of one entry: it is refused for the first thing wrong with it.
  lemma EntryIs(provider: string, entry: Json)
    ensures var keyed := entry.Obj? && entry.fields.Keys == {"api_key"};
            match EntryFault(provider, entry)
            case None =>
              && IsProviderId(provider) && keyed && entry.fields["api_key"].Str? && KeyPasses(entry.fields["api_key"].s)
            case Some(BadProviderId) => !IsProviderId(provider)
            case Some(BadEntry(p)) => p == provider && IsProviderId(provider) && !keyed
            case Some(BadKeyType(p)) =>
              p == provider && IsProviderId(provider) && keyed && !entry.fields["api_key"].Str?
            case Some(BadKeyLength(p)) =>
              && p == provider && IsProviderId(provider) && keyed && entry.fields["api_key"].Str?
              && !(16 <= |entry.fields["api_key"].s| <= 8192)
            case Some(BadKeyChars(p)) =>
              && p == provider && IsProviderId(provider) && keyed && entry.fields["api_key"].Str?
              && 16 <= |entry.fields["api_key"].s| <= 8192 && !KeyPasses(entry.fields["api_key"].s)
            case Some(_) => false
  {
  }

  // The four fields of a multi-key payload, in the version it must claim.
  predicate SetShaped(payload: Payload) {
    && payload.Payload? && payload.fields.Keys == {Version, CredentialProfile, Credentials, BundleBinding}
    && payload.fields[Version] in {Whole(2), Fraction(2.0)}
  }

  // What the checks before any key leave: the payload's own credential map, from a payload with
  // exactly the four fields, the profile's own string, a digest, and keys for exactly the required
  // providers.
  lemma OpenedIff(payload: Payload, spec: CredentialSpec, credentials: map<string, Json>)
    ensures OpenSet(payload, spec) == Ok(credentials)
       <==> && SetShaped(payload) && payload.fields[CredentialProfile] == Str(spec.credentialProfile)
            && payload.fields[BundleBinding].Str? && IsDigest(payload.fields[BundleBinding].s)
            && payload.fields[Credentials] == Obj(credentials)
            && forall p :: p in credentials <==> p in spec.requiredProviders
  {
    if OpenSet(payload, spec).Ok? { OpenedSet(payload, spec); }
    if forall p :: p in credentials <==> p in spec.requiredProviders {
      assert Elements(spec.requiredProviders) - credentials.Keys == {};
      assert credentials.Keys - Elements(spec.requiredProviders) == {};
    }
  }

  // Each refusal before any key is for the first thing wrong.
  lemma RefusedOpeningIs(payload: Payload, spec: CredentialSpec)
    ensures var versioned := && payload.Payload? && Version in payload.fields
                             && payload.fields[Version] in {Whole(2), Fraction(2.0)};
            var shaped := SetShaped(payload);
            var ours := shaped && payload.fields[CredentialProfile] == Str(spec.credentialProfile);
            var bound := ours && payload.fields[BundleBinding].Str? && IsDigest(payload.fields[BundleBinding].s);
            var required := set p | p in spec.requiredProviders;
            match OpenSet(payload, spec)
            case Ok(_) => bound
            case Err(BadFormat) => payload.NotObject? || (versioned && !shaped)
            case Err(WrongVersion) => payload.Payload? && !versioned
            case Err(WrongProfile) => shaped && !ours
            case Err(BadBinding) => ours && !bound
            case Err(BadMap) => bound && !payload.fields[Credentials].Obj?
            case Err(MissingProviders(missing)) =>
              && bound && payload.fields[Credentials].Obj? && missing != {}
              && missing == required - payload.fields[Credentials].fields.Keys
            case Err(UnexpectedProviders(unexpected)) =>
              && bound && payload.fields[Credentials].Obj? && unexpected != {}
              && required - payload.fields[Credentials].fields.Keys == {}
              && unexpected == payload.fields[Credentials].fields.Keys - required
            case Err(_) => false
  {
  }

  // The map has one well-formed entry for exactly each provider, with these keys.
  ghost predicate HoldsKeys(credentials: map<string, Json>, providers: seq<string>, keys: map<string, string>) {
    && credentials.Keys == keys.Keys && (forall p :: p in keys <==> p in providers)
    && forall p | p in keys ::
         IsProviderId(p) && KeyPasses(keys[p]) && credentials[p] == Obj(map["api_key" := Str(keys[p])])
  }

  // A set is accepted exactly when the payload has the four fields, claims version 2, carries the
  // profile's own string, a digest, and one well-formed entry for exactly each required provider;
  // and what is accepted are the payload's own keys and binding.
  lemma AcceptedSetIff(payload: Payload, spec: CredentialSpec, c: Credential)
    ensures ParsedSet(payload, spec) == Ok(c)
       <==> && SetShaped(payload) && payload.fields[CredentialProfile] == Str(spec.credentialProfile)
            && c.KeySet? && c.credentialProfile == spec.credentialProfile
            && payload.fields[BundleBinding] == Str(c.bundleBinding) && IsDigest(c.bundleBinding)
            && payload.fields[Credentials].Obj?
            && HoldsKeys(payload.fields[Credentials].fields, spec.requiredProviders, c.keys)
  {
    if OpenSet(payload, spec).Ok? {
      var credentials := OpenSet(payload, spec).value;
      OpenedIff(payload, spec, credentials);
      ParsedIff(payload, spec, credentials, c);
      if c.KeySet? { KeysAre(credentials, spec.requiredProviders, c.keys); }
    } else if c.KeySet? && payload.Payload? && Credentials in payload.fields && payload.fields[Credentials].Obj? {
      var credentials := payload.fields[Credentials].fields;
      OpenedIff(payload, spec, credentials);
      if HoldsKeys(credentials, spec.requiredProviders, c.keys) {
        forall p ensures p in credentials <==> p in spec.requiredProviders {
          assert p in credentials.Keys <==> p in c.keys;
        }
      }
    }
  }

  lemma ParsedIff(payload: Payload, spec: CredentialSpec, credentials: map<string, Json>, c: Credential)
    requires OpenSet(payload, spec) == Ok(credentials)
    ensures forall p | p in spec.requiredProviders :: p in credentials
    ensures ParsedSet(payload, spec) == Ok(c)
       <==> && (forall p | p in spec.requiredProviders :: EntryFault(p, credentials[p]).None?)
            && c == KeySet(KeyMap(credentials, spec.requiredProviders),
                           payload.fields[BundleBinding].s, spec.credentialProfile)
  {
    OpenedSet(payload, spec);
    NoEntryFault(spec.requiredProviders, credentials);
  }

  lemma KeysAre(credentials: map<string, Json>, providers: seq<string>, keys: map<string, string>)
    requires forall p :: p in credentials <==> p in providers
    ensures (forall p | p in providers :: EntryFault(p, credentials[p]).None?) && keys == KeyMap(credentials, providers)
       <==> HoldsKeys(credentials, providers, keys)
  {
    forall p, key | p in credentials
      ensures EntryFault(p, credentials[p]).None? && KeyAt(credentials, p) == key
         <==> IsProviderId(p) && KeyPasses(key) && credentials[p] == Obj(map["api_key" := Str(key)])
    {
      EntryKeyIff(p, credentials, key);
    }
    assert KeyMap(credentials, providers).Keys == credentials.Keys;
  }

  lemma EntryKeyIff(p: string, credentials: map<string, Json>, key: string)
    requires p in credentials
    ensures EntryFault(p, credentials[p]).None? && KeyAt(credentials, p) == key
       <==> IsProviderId(p) && KeyPasses(key) && credentials[p] == Obj(map["api_key" := Str(key)])
  {
    var entry := credentials[p];
    EntryIs(p, entry);
    if EntryFault(p, entry).None? {
      assert entry.fields == map["api_key" := Str(KeyAt(credentials, p))];
    } else if credentials[p] == Obj(map["api_key" := Str(key)]) {
      assert entry.fields.Keys == {"api_key"};
    }
  }

  // A single key is accepted exactly from a payload with the four fields, version 1, a provider id, a
  // key of at most 8192 characters with none below 32, and a digest.
  lemma AcceptedSingleIff(payload: Payload, c: Credential)
    ensures ParseCredential(payload) == Ok(c)
       <==> && payload.Payload? && payload.fields.Keys == {Version, Provider, ApiKey, BundleBinding}
            && payload.fields[Version] in {Whole(1), Flag(true), Fraction(1.0)}
            && c.Single? && payload.fields[Provider] == Str(c.provider) && IsProviderId(c.provider)
            && payload.fields[ApiKey] == Str(c.apiKey) && 1 <= |c.apiKey| <= 8192
            && (forall i | 0 <= i < |c.apiKey| :: c.apiKey[i] as int >= 32)
            && payload.fields[BundleBinding] == Str(c.bundleBinding) && IsDigest(c.bundleBinding)
  {
  }

  // Each refusal of a single key is for the first thing wrong.
  lemma RefusedSingleIs(payload: Payload)
    ensures var shaped := payload.Payload? && payload.fields.Keys == {Version, Provider, ApiKey, BundleBinding};
            var versioned := shaped && payload.fields[Version] in {Whole(1), Flag(true), Fraction(1.0)};
            var named := versioned && payload.fields[Provider].Str? && IsProviderId(payload.fields[Provider].s);
            var keyed := named && payload.fields[ApiKey].Str? && SingleKeyPasses(payload.fields[ApiKey].s);
            match ParseCredential(payload)
            case Ok(_) => keyed
            case Err(BadFormat) => !shaped
            case Err(WrongVersion) => shaped && !versioned
            case Err(BadProvider) => versioned && !named
            case Err(BadKey) => named && !keyed
            case Err(BadBinding) =>
              keyed && !(payload.fields[BundleBinding].Str? && IsDigest(payload.fields[BundleBinding].s))
            case Err(_) => false
  {
  }

  // What a sealed parameter resolves to: nothing if blank, unless a credential is required; otherwise
  // what its decryption parses to under the profile's own version.
  lemma ResolvedIs(sealed: string, spec: CredentialSpec, required: bool, unseal: Unsealer)
    ensures var r, found := ResolveSealedCredential(sealed, spec, required, unseal), unseal(Strip(sealed));
            && (AllSpace(sealed) ==> r == if required then Err(Absent) else Ok(None))
            && (!AllSpace(sealed) && found.None? ==> r == Err(Undecryptable))
            && (!AllSpace(sealed) && found.Some? ==>
                  var multi := spec.version == 2;
                  match if multi then ParsedSet(found.value, spec) else ParseCredential(found.value)
                  case Ok(c) => r == Ok(Some(c))
                  case Err(e) => r == Err(e))
  {
    BlankIff(sealed);
  }

  // An accepted set has one key for exactly each provider the profile declares, every one within
  // the length and character rules, and carries the profile's own string and a digest.
  lemma AcceptedSetIsExact(p: ProfileAttributes, payload: Payload)
    requires CredentialSpecFor(p).Ok? && CredentialSpecFor(p).value.version == MULTI_KEY
    requires ParsedSet(payload, CredentialSpecFor(p).value).Ok?
    ensures var spec := CredentialSpecFor(p).value;
            var c := ParsedSet(payload, spec).value;
            && c.KeySet? && IsDigest(c.bundleBinding)
            && c.credentialProfile == spec.credentialProfile != ""
            && c.keys.Keys == Elements(spec.requiredProviders) && c.keys != map[]
            && forall provider | provider in c.keys ::
                 IsProviderId(provider) && KeyFault(provider, c.keys[provider]).None?
  {
    var spec := CredentialSpecFor(p).value;
    OpenedSet(payload, spec);
    var credentials := OpenSet(payload, spec).value;
    NoEntryFault(spec.requiredProviders, credentials);
    var c := ParsedSet(payload, spec).value;
    forall provider | provider in c.keys ensures IsProviderId(provider) && KeyFault(provider, c.keys[provider]).None? {
      assert EntryFault(provider, credentials[provider]).None?;
    }
    assert spec.requiredProviders[0] in c.keys;
  }

  // The two payload shapes are mutually unreachable, whatever version a payload claims.
  lemma NoPayloadFitsBoth(payload: Payload, spec: CredentialSpec)
    ensures ParsedSet(payload, spec).Ok? ==> ParseCredential(payload) == Err(BadFormat)
    ensures ParseCredential(payload).Ok? ==> ParsedSet(payload, spec) in {Err(BadFormat), Err(WrongVersion)}
  {
    assert Provider in {Version, Provider, ApiKey, BundleBinding};
  }

  // Only the profile decides the shape a room will spend.
  lemma ProfileDecidesShape(sealed: string, spec: CredentialSpec, required: bool, unseal: Unsealer)
    requires ResolveSealedCredential(sealed, spec, required, unseal).Ok?
    requires ResolveSealedCredential(sealed, spec, required, unseal).value.Some?
    ensures var c := ResolveSealedCredential(sealed, spec, required, unseal).value.value;
            IsDigest(c.bundleBinding) && (c.KeySet? <==> spec.version == MULTI_KEY)
  {
  }

  // ---- where the two parsers are looser than they read ------------------------------------

  // The values a version check takes, by what == means.
  lemma VersionsTaken(j: Json)
    ensures EqualsInt(j, SINGLE_KEY) <==> j in {Whole(1), Flag(true), Fraction(1.0)}
    ensures EqualsInt(j, MULTI_KEY) <==> j in {Whole(2), Fraction(2.0)}
  {
  }

  // Whichever of them a payload carries, it parses to the same credential.
  lemma VersionsParseAlike(payload: Payload, j: Json, spec: CredentialSpec)
    requires payload.Payload? && Version in payload.fields
    ensures var other := Payload(payload.fields[Version := j]);
            && (ParseCredential(payload).Ok? ==>
                  (ParseCredential(other) == ParseCredential(payload) <==> j in {Whole(1), Flag(true), Fraction(1.0)}))
            && (ParsedSet(payload, spec).Ok? ==>
                  (ParsedSet(other, spec) == ParsedSet(payload, spec) <==> j in {Whole(2), Fraction(2.0)}))
  {
    var fields := payload.fields[Version := j];
    assert fields.Keys == payload.fields.Keys;
    VersionsTaken(j);
  }

  predicate SingleKeyPasses(key: string) { key != "" && |key| <= MAX_KEY_CHARS && !HasLowControl(key) }

  // A key of a set passes the single-key rule too.  The other way, a single key is refused in a set
  // exactly when it is short or holds a delete character.
  lemma KeyRulesDiffer(provider: string, key: string)
    ensures KeyFault(provider, key).None? ==> SingleKeyPasses(key)
    ensures SingleKeyPasses(key) ==> (KeyFault(provider, key).Some? <==> |key| < MIN_KEY_CHARS || '\U{7F}' in key)
  {
  }

  // Sixteen delete characters make a single key, and no key of a set.
  lemma DeletesMakeASingleKey(provider: string, binding: string)
    requires IsProviderId(provider) && IsDigest(binding)
    ensures var key := seq(16, _ => '\U{7F}');
            && ParseCredential(SinglePayload(provider, key, binding)) == Ok(Single(provider, key, binding))
            && KeyFault(provider, key) == Some(BadKeyChars(provider))
  {
    var key := seq(16, _ => '\U{7F}');
    assert key[0] == '\U{7F}';
    assert SinglePayload(provider, key, binding).fields.Keys == {Version, Provider, ApiKey, BundleBinding};
  }

  // ---- the sealing tool -------------------------------------------------------------------

  datatype ToolError =
    | NoProvidersNamed | RepeatedProvider | BadProviderName
    | UnknownSource | TwoSources | Unreadable(provider: string) | EmptyKey(provider: string)
    | RefusedKey(fault: SealError)

  // The parts of a comma-separated list, stripped, without the empty ones.
  function Named(parts: seq<string>): seq<string> {
    if parts == [] then [] else NamedBy(parts[0]) + Named(parts[1..])
  }

  function NamedBy(part: string): seq<string> { if Strip(part) != "" then [Strip(part)] else [] }

  function ParseProviders(raw: string): Result<seq<string>, ToolError> {
    var providers := Named(Split(raw, ','));
    if providers == [] then Err(NoProvidersNamed)
    else if !NoRepeats(providers) then Err(RepeatedProvider)
    else if exists i | 0 <= i < |providers| :: !IsProviderId(providers[i]) then Err(BadProviderName)
    else Ok(providers)
  }

  lemma {:induction false} NamedAppends(a: seq<string>, b: seq<string>)
    ensures Named(a + b) == Named(a) + Named(b)
    decreases |a|
  {
    if a == [] {
      assert a + b == b;
    } else {
      NamedAppends(a[1..], b);
      assert (a + b)[1..] == a[1..] + b;
      Regroup(NamedBy(a[0]), Named(a[1..]), Named(b));
    }
  }

  lemma Regroup(a: seq<string>, b: seq<string>, c: seq<string>)
    ensures (a + b) + c == a + (b + c)
  {
  }

  // Each part counts by itself: a blank one not at all, any other as it strips.
  lemma NamedIs(a: seq<string>, part: string, b: seq<string>)
    ensures Named(a + [part] + b) == Named(a) + (if AllSpace(part) then [] else [Strip(part)]) + Named(b)
  {
    BlankIff(part);
    NamedAppends(a + [part], b);
    NamedAppends(a, [part]);
    assert [part][1..] == [] && Named([part]) == NamedBy(part) + Named([]);
  }

  // The list is taken exactly when it names someone, nobody twice, and everybody by a provider id;
  // each refusal is for the first of these that fails.
  lemma ProvidersAre(raw: string)
    ensures var providers := Named(Split(raw, ','));
            match ParseProviders(raw)
            case Ok(taken) =>
              && taken == providers && providers != [] && NoRepeats(providers)
              && forall p | p in providers :: IsProviderId(p)
            case Err(NoProvidersNamed) => providers == []
            case Err(RepeatedProvider) => providers != [] && !NoRepeats(providers)
            case Err(BadProviderName) => NoRepeats(providers) && exists p | p in providers :: !IsProviderId(p)
            case Err(_) => false
  {
  }

  lemma ProviderIdIsPlain(p: string)
    requires IsProviderId(p)
    ensures Strip(p) == p && p != "" && ',' !in p && !AllSpace(p)
  {
    assert !Space(p[0]) && !Space(p[|p| - 1]);
    StripKeeps(p);
  }

  lemma {:induction false} PlainNames(providers: seq<string>)
    requires forall p | p in providers :: IsProviderId(p)
    ensures Named(providers) == providers
  {
    if providers != [] {
      ProviderIdIsPlain(providers[0]);
      PlainNames(providers[1..]);
    }
  }

  // Printing distinct provider ids with commas between them and parsing the list undo each other.
  lemma ProvidersRoundTrip(providers: seq<string>)
    requires providers != [] && NoRepeats(providers) && forall p | p in providers :: IsProviderId(p)
    ensures ParseProviders(Joined(providers, ',')) == Ok(providers)
  {
    forall p | p in providers ensures ',' !in p { ProviderIdIsPlain(p); }
    SplitUndoesJoin(providers, ',');
    PlainNames(providers);
    ProvidersAre(Joined(providers, ','));
  }

  // Where keys come from: named environment variables, named files, or a prompt per provider.  A
  // file that cannot be used is None.
  datatype Sources = Sources(
    envs: map<string, string>, files: map<string, string>,
    env: string -> string, file: string -> Option<string>, prompt: string -> string)

  function RawKey(src: Sources, provider: string): Option<string> {
    if provider in src.envs then Some(src.env(src.envs[provider]))
    else if provider in src.files then src.file(src.files[provider])
    else Some(src.prompt(provider))
  }

  // What the tool does with one provider's source.
  function LoadedKey(src: Sources, provider: string): Result<string, ToolError> {
    match RawKey(src, provider)
    case None => Err(Unreadable(provider))
    case Some(raw) =>
      var value := Strip(raw);
      if value == "" then Err(EmptyKey(provider))
      else match KeyFault(provider, value)
           case Some(fault) => Err(RefusedKey(fault))
           case None => Ok(value)
  }

  function FirstLoadError(src: Sources, providers: seq<string>): Option<ToolError> {
    if providers == [] then None
    else match LoadedKey(src, providers[0])
         case Err(e) => Some(e)
         case Ok(_) => FirstLoadError(src, providers[1..])
  }

  lemma {:induction false} LoadErrorAt(src: Sources, providers: seq<string>, i: nat)
    requires i < |providers| && LoadedKey(src, providers[i]).Err?
    requires forall k | 0 <= k < i :: LoadedKey(src, providers[k]).Ok?
    ensures FirstLoadError(src, providers) == Some(LoadedKey(src, providers[i]).error)
  {
    if i > 0 { LoadErrorAt(src, providers[1..], i - 1); }
  }

  lemma {:induction false} NoLoadError(src: Sources, providers: seq<string>)
    ensures FirstLoadError(src, providers).None? <==> forall p | p in providers :: LoadedKey(src, p).Ok?
  {
    if providers != [] { NoLoadError(src, providers[1..]); }
  }

  function KeysOf(src: Sources, providers: seq<string>): map<string, string> {
    map p | p in providers && LoadedKey(src, p).Ok? :: LoadedKey(src, p).value
  }

  // What the tool collects, as one expression.
  function Collected(providers: seq<string>, src: Sources): Result<map<string, string>, ToolError> {
    if (src.envs.Keys + src.files.Keys) - Elements(providers) != {} then Err(UnknownSource)
    else if src.envs.Keys * src.files.Keys != {} then Err(TwoSources)
    else match FirstLoadError(src, providers)
         case Some(e) => Err(e)
         case None => Ok(KeysOf(src, providers))
  }

  // What comes of one provider's source: its environment variable if one is named, else its file if
  // one is named, else a prompt; stripped, and refused if unreadable, blank or against the rule.
  lemma LoadedKeyIs(src: Sources, provider: string)
    ensures var raw := if provider in src.envs.Keys then Some(src.env(src.envs[provider]))
                       else if provider in src.files.Keys then src.file(src.files[provider])
                       else Some(src.prompt(provider));
            match LoadedKey(src, provider)
            case Ok(key) => raw.Some? && key == Strip(raw.value) && KeyPasses(key)
            case Err(Unreadable(p)) => p == provider && raw.None?
            case Err(EmptyKey(p)) => p == provider && raw.Some? && AllSpace(raw.value)
            case Err(RefusedKey(fault)) =>
              && raw.Some? && !AllSpace(raw.value) && !KeyPasses(Strip(raw.value))
              && fault == if 16 <= |Strip(raw.value)| <= 8192 then BadKeyChars(provider) else BadKeyLength(provider)
            case Err(_) => false
  {
    var raw := RawKey(src, provider);
    if raw.Some? { BlankIff(raw.value); }
  }

  // Keys are collected exactly when every source is for a named provider, none has two, and every
  // provider's source gives a key; they are then those keys.
  lemma CollectedIff(providers: seq<string>, src: Sources, keys: map<string, string>)
    ensures Collected(providers, src) == Ok(keys)
       <==> && (forall p | p in src.envs || p in src.files :: p in providers)
            && (forall p | p in src.envs :: p !in src.files)
            && (forall p :: p in keys <==> p in providers)
            && forall p | p in providers :: LoadedKey(src, p) == Ok(keys[p])
  {
    NoLoadError(src, providers);
    SourcesKnownIff(providers, src);
    if forall p | p in providers :: LoadedKey(src, p).Ok? { KeysOfIff(providers, src, keys); }
  }

  lemma KeysOfIff(providers: seq<string>, src: Sources, keys: map<string, string>)
    requires forall p | p in providers :: LoadedKey(src, p).Ok?
    ensures KeysOf(src, providers) == keys
       <==> && (forall p :: p in keys <==> p in providers)
            && forall p | p in providers :: LoadedKey(src, p) == Ok(keys[p])
  {
    var all := KeysOf(src, providers);
    assert forall p :: p in all <==> p in providers;
    if (forall p :: p in keys <==> p in providers) && forall p | p in providers :: LoadedKey(src, p) == Ok(keys[p]) {
      assert all.Keys == keys.Keys;
      forall p | p in all ensures all[p] == keys[p] { assert LoadedKey(src, p) == Ok(keys[p]); }
    }
  }

  lemma SourcesKnownIff(providers: seq<string>, src: Sources)
    ensures (src.envs.Keys + src.files.Keys) - Elements(providers) == {}
       <==> forall p | p in src.envs || p in src.files :: p in providers
    ensures src.envs.Keys * src.files.Keys == {} <==> forall p | p in src.envs :: p !in src.files
  {
    if (src.envs.Keys + src.files.Keys) - Elements(providers) == {} {
      forall p | p in src.envs || p in src.files ensures p in providers {
        assert p !in (src.envs.Keys + src.files.Keys) - Elements(providers);
      }
    }
    if src.envs.Keys * src.files.Keys == {} {
      forall p | p in src.envs ensures p !in src.files { assert p !in src.envs.Keys * src.files.Keys; }
    }
  }

  // Otherwise the tool blames an unknown source first, then a doubled one, then the first provider
  // whose source gives no key.
  lemma CollectionBlames(providers: seq<string>, src: Sources)
    ensures var known := forall p | p in src.envs || p in src.files :: p in providers;
            var apart := forall p | p in src.envs :: p !in src.files;
            && (!known ==> Collected(providers, src) == Err(UnknownSource))
            && (known && !apart ==> Collected(providers, src) == Err(TwoSources))
            && (known && apart ==>
                  forall i | 0 <= i < |providers| && LoadedKey(src, providers[i]).Err?
                             && (forall k | 0 <= k < i :: LoadedKey(src, providers[k]).Ok?) ::
                    Collected(providers, src) == Err(LoadedKey(src, providers[i]).error))
  {
    SourcesKnownIff(providers, src);
    forall i: nat | i < |providers| && LoadedKey(src, providers[i]).Err?
                    && (forall k | 0 <= k < i :: LoadedKey(src, providers[k]).Ok?)
      ensures FirstLoadError(src, providers) == Some(LoadedKey(src, providers[i]).error)
    {
      LoadErrorAt(src, providers, i);
    }
  }

  // Load one key per provider, or refuse to seal at all.
  method CollectKeys(providers: seq<string>, src: Sources) returns (r: Result<map<string, string>, ToolError>)
    ensures r == Collected(providers, src)
  {
    if (src.envs.Keys + src.files.Keys) - Elements(providers) != {} { return Err(UnknownSource); }
    if src.envs.Keys * src.files.Keys != {} { return Err(TwoSources); }
    r := LoadKeys(providers, src);
  }

  method LoadKeys(providers: seq<string>, src: Sources) returns (r: Result<map<string, string>, ToolError>)
    ensures r == match FirstLoadError(src, providers)
                 case Some(e) => Err(e)
                 case None => Ok(KeysOf(src, providers))
  {
    var keys: map<string, string> := map[];
    for i := 0 to |providers|
      invariant forall k | 0 <= k < i :: LoadedKey(src, providers[k]).Ok?
      invariant keys == KeysOf(src, providers[..i])
    {
      var loaded := LoadedKey(src, providers[i]);
      if loaded.Err? {
        LoadErrorAt(src, providers, i);
        return Err(loaded.error);
      }
      keys := keys[providers[i] := loaded.value];
      KeysGrow(src, providers, i);
    }
    assert providers[..|providers|] == providers;
    NoLoadError(src, providers);
    r := Ok(keys);
  }

  lemma KeysGrow(src: Sources, providers: seq<string>, i: nat)
    requires i < |providers| && LoadedKey(src, providers[i]).Ok?
    ensures KeysOf(src, providers[..i + 1])
         == KeysOf(src, providers[..i])[providers[i] := LoadedKey(src, providers[i]).value]
  {
    assert providers[..i + 1] == providers[..i] + [providers[i]];
  }

  // The credential map the tool prints.
  function PrintedKeys(keys: map<string, string>): map<string, Json> {
    map p | p in keys :: Obj(map[API_KEY := Str(keys[p])])
  }

  // The multi-key payload the tool prints.
  function SetPayload(profile: string, keys: map<string, string>, binding: string): Payload {
    Payload(map[Version := Whole(MULTI_KEY),
                CredentialProfile := Str(Strip(profile)),
                Credentials := Obj(PrintedKeys(keys)),
                BundleBinding := Str(binding)])
  }

  // The single-key payload the tool prints.
  function SinglePayload(provider: string, key: string, binding: string): Payload {
    Payload(map[Version := Whole(SINGLE_KEY),
                Provider := Str(provider),
                ApiKey := Str(key),
                BundleBinding := Str(binding)])
  }

  // ---- print and parse undo each other ----------------------------------------------------

  lemma ParsedProviders(raw: string)
    requires ParseProviders(raw).Ok?
    ensures var providers := ParseProviders(raw).value;
            NoRepeats(providers) && forall p | p in providers :: IsProviderId(p)
  {
  }

  // A printed set parses exactly when the room's profile string and provider set are the ones it was
  // printed for and every key passes the rule, and then it parses to the same keys and binding.
  lemma SetRoundTrip(profile: string, keys: map<string, string>, binding: string, spec: CredentialSpec)
    requires IsDigest(binding) && forall p | p in keys :: IsProviderId(p)
    ensures var parsed := ParsedSet(SetPayload(profile, keys, binding), spec);
            && (parsed.Ok? <==> && spec.credentialProfile == Strip(profile)
                                && (forall p :: p in keys <==> p in spec.requiredProviders)
                                && forall p | p in keys :: KeyPasses(keys[p]))
            && (parsed.Ok? ==> parsed.value == KeySet(keys, binding, Strip(profile)))
  {
    var payload, c := SetPayload(profile, keys, binding), KeySet(keys, binding, Strip(profile));
    assert payload.fields.Keys == {Version, CredentialProfile, Credentials, BundleBinding};
    assert PrintedKeys(keys).Keys == keys.Keys;
    AcceptedSetIff(payload, spec, c);
    if ParsedSet(payload, spec).Ok? { PrintedIsParsed(profile, keys, binding, spec); }
  }

  lemma PrintedIsParsed(profile: string, keys: map<string, string>, binding: string, spec: CredentialSpec)
    requires ParsedSet(SetPayload(profile, keys, binding), spec).Ok?
    ensures ParsedSet(SetPayload(profile, keys, binding), spec).value == KeySet(keys, binding, Strip(profile))
  {
    var payload := SetPayload(profile, keys, binding);
    var c := ParsedSet(payload, spec).value;
    AcceptedSetIff(payload, spec, c);
    SamePrint(keys, c.keys);
  }

  lemma SamePrint(a: map<string, string>, b: map<string, string>)
    requires PrintedKeys(a).Keys == b.Keys
    requires forall p | p in b :: PrintedKeys(a)[p] == Obj(map["api_key" := Str(b[p])])
    ensures a == b
  {
    assert PrintedKeys(a).Keys == a.Keys;
    forall p | p in a ensures a[p] == b[p] {
      assert PrintedKeys(a)[p].fields["api_key"] == Str(a[p]);
    }
  }

  // Whatever the tool names, collects and seals, a room accepts exactly if its profile string and
  // provider set are the ones named, and gets the same keys.
  lemma CollectedKeysAreAccepted(raw: string, profile: string, src: Sources, binding: string, spec: CredentialSpec)
    requires ParseProviders(raw).Ok? && IsDigest(binding)
    requires Collected(ParseProviders(raw).value, src).Ok?
    ensures var providers := ParseProviders(raw).value;
            var keys := Collected(providers, src).value;
            var parsed := ParsedSet(SetPayload(profile, keys, binding), spec);
            if spec.credentialProfile == Strip(profile) && Elements(spec.requiredProviders) == Elements(providers)
            then keys.Keys == Elements(providers) && parsed == Ok(KeySet(keys, binding, Strip(profile)))
            else parsed.Err?
  {
    var providers := ParseProviders(raw).value;
    var keys := Collected(providers, src).value;
    ParsedProviders(raw);
    CollectedKeysPass(providers, src);
    SetRoundTrip(profile, keys, binding, spec);
    assert (forall p :: p in keys <==> p in spec.requiredProviders) <==> Elements(spec.requiredProviders) == keys.Keys;
  }

  lemma CollectedKeysPass(providers: seq<string>, src: Sources)
    requires Collected(providers, src).Ok?
    ensures var keys := Collected(providers, src).value;
            keys.Keys == Elements(providers) && forall p | p in keys :: KeyPasses(keys[p])
  {
    NoLoadError(src, providers);
    var keys := KeysOf(src, providers);
    assert keys.Keys == Elements(providers);
    forall p | p in keys ensures KeyPasses(keys[p]) { assert LoadedKey(src, p).Ok?; }
  }

  // A single-key payload parses exactly when its key is at most 8192 characters with none below 32:
  // the tool does not check either, and the room does not mind a delete character here.
  lemma SingleRoundTrip(provider: string, raw: string, binding: string)
    requires IsProviderId(provider) && Strip(raw) != "" && IsDigest(binding)
    ensures var key := Strip(raw);
            ParseCredential(SinglePayload(provider, key, binding))
            == if |key| <= MAX_KEY_CHARS && !HasLowControl(key) then Ok(Single(provider, key, binding)) else Err(BadKey)
  {
    assert SinglePayload(provider, Strip(raw), binding).fields.Keys == {Version, Provider, ApiKey, BundleBinding};
  }
}

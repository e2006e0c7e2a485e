# A verified model of the attested execution room

The room runs a contestant's code with the contestant's own provider keys and answers with a
quote-bound report. This project models the parts that hold state or define an encoding, and proves
what they promise over all inputs, all runs and all interleavings. `dafny verify dfyconfig.toml`
checks everything.

| file | what it models |
|---|---|
| `Common.dfy` | identifiers, decimal text, splitting and stripping |
| `BrokerModel.dfy` | the credential broker as a state machine: each locked section is a step, and a dispatch is two steps with the unlocked handler call between them |
| `BrokerInvariant.dfy` | the invariant of every reachable state, step by step |
| `BrokerTheorems.dfy` | conservation of billed calls, the token index, ceilings and quotas, keys and roles, closing |
| `BrokerLedger.dfy` | whose record is whose, call by call |
| `BrokerAtomic.dfy` | refinement: every caller sees what a far simpler broker, without job objects, would answer |
| `Broker.dfy` | the broker as objects on the heap, method by method equal to the steps |
| `Auth.dfy` | the request window and the replay guard, against the log of all acceptances |
| `Bundle.dfy` | the bytes a credential is bound to: paths, order, exclusions, frames and their decoder |
| `Credentials.dfy` | the credential contract, the room's two parsers and the sealing tool that prints for them |
| `Room.dfy`, `RoomTheorems.dfy` | `/run` as a decision pipeline, and what may reach the profile in one call and over every run |
| `Gateway.dfy` | signed job routes and the retry loop |
| `OutcomeLog.dfy`, `GatewaySummary.dfy` | the outcome files, their one-shot summary, and both together |
| `BoundedHttp.dfy` | connection slots, the release counter and the wait on it |

Identity matters in the broker: an in-flight dispatch keeps the job object it was billed to after
`close_job`, and the same job id may be reopened meanwhile. The state therefore keeps every job
object ever made, the live map points into that list, and the objects of `Broker.dfy` are tied to it
one by one.

Hashing, signing, decryption, archive extraction, quoting and the profile are arbitrary functions or
per-call outcomes. Nothing assumes that a hash or signer is injective: where it matters the
conclusion is "the same, or a collision".

## Findings

Each is something the code does, with the condition under which it does it.

- `README.md` of the repository says that reserving nonces before execution prevents replay. The
  guard forgets a nonce once its expiry passes, while the window tolerates the skew after it and has
  read the clock before the guard does. The guard in turn reads the clock before it takes its lock,
  and requests are served by threads, so calls can reach it out of the order of their readings even
  on a clock that never runs back. Over all runs of one process, a request that capacity still holds
  is single use exactly when no skew is configured, no time passes between the two readings, and the
  lock is taken in the order of the readings or there is room for one nonce only
  (`Auth.SingleUseIff`; inputs in `Auth.AdmittedTwiceByDefault`, `Auth.AdmittedTwiceWithoutSkew` and
  `Auth.AdmittedWhenOvertaken`).
  Capacity is another way: a nonce whose last acceptance no call has outlived is refused exactly
  while fewer than `max_entries` acceptances have followed it (`Auth.UnexpiredRefusedIff`, input in
  `Auth.UnseatedIsAdmitted`). `Auth.RefusedIffStanding` and `RoomTheorems.SameBodyAskedAgainIff` are
  the verdict on every call, on any clock and in any order.
- The endpoint decodes a nonce in either letter case, and the guard compares it as text: bytes that
  are still held are let through exactly when every acceptance of them that stands is in another
  spelling (`RoomTheorems.SpellingDecides`, input in `RoomTheorems.OtherSpellingIsAnotherNonce`).
- The docstring of the bundle binding promises that caches and version-control metadata do not make
  a valid credential fail. The check for regular files comes before the exclusion check, so an
  excluded entry leaves the outcome alone exactly when it is a directory or a regular file
  (`Bundle.ExcludedFilesDoNotBind`, input in `Bundle.SocketUnderGitStops`).
- A payload's version is compared with `==`, so `true` and `1.0` count as version 1 and `2.0` as
  version 2 (`Credentials.VersionsTaken`, `Credentials.VersionsParseAlike`). The two parsers'
  rules for a key differ in length and in the delete character (`Credentials.KeyRulesDiffer`, input
  in `Credentials.DeletesMakeASingleKey`).
- A dispatch is recorded `ok` although its caller is refused exactly when the handler returned a
  non-object or raised an exception that carries a 2xx code
  (`BrokerTheorems.SucceededButRefusedIff`).
- An HTTP error from a provider is recorded before its body is read, so one whose body cannot be
  read is counted and never answered (`Gateway.ForwardIsBounded`, `GatewaySummary.EffectsAnswer`,
  input in `Gateway.UnreadableIsUnanswered`).

## Model

| member | source | states |
|---|---|---|
| `Common.GrammarsAre` | room/ids.py:10 | job ids, digests and provider ids, by length and character code |
| `Common.DecimalReadsBack` | room/broker.py:317 | a printed number reads back as itself and is the shortest text that does |
| `Common.StripIs` | kata_seal.py:209 | stripping takes white space off both ends and leaves none there |
| `Common.SplitUndoesJoin` | kata_seal.py:245 | splitting at commas gives back parts without commas that were joined with them |
| `Common.JoinUndoesSplit` | kata_seal.py:245 | joining what a split gave is the text that was split, and no part has a comma |
| `BrokerTheorems.OperationNameIs` | room/broker.py:97-98 | operation names, by length and character code |
| `BrokerTheorems.DeclaredIff` | room/broker.py:96-109 | an operation is declared, as it is, exactly when name, role, handler, ceiling and exposure pass, and else refused for the first that does not |
| `BrokerTheorems.TokenFormIs` | room/broker.py:47-48 | a token passes the form check exactly when it is the prefix and sixteen bytes in hexadecimal |
| `BrokerTheorems.IllTypedIsRefused` | room/broker.py:242-277 | a token or operation that is not text, or a payload that is not an object, is refused |
| `BrokerTheorems.TaskIdIs` | room/broker.py:312-322 | a text task is recorded as it came, a number in decimal, a flag by its name, anything else as the empty text |
| `BrokerTheorems.StatusIs` | room/broker.py:294-372 | which status is recorded for each end of a handler, by exception code |
| `BrokerTheorems.BuiltTableIsValid` | room/broker.py:161-169 | a broker refuses its operations exactly when two share a name; otherwise every declared operation is in the table, under its own name, and nothing else is |
| `BrokerTheorems.BilledIsRecordedOrInFlight` | room/broker.py:283-322 | in every interleaving, per job object and operation: calls summed over tokens = records of that operation + dispatches in flight; each record carries its operation's provider and role and its job's contestant |
| `BrokerTheorems.CloseReturnsSettledCalls` | room/broker.py:192-212 | close_job returns exactly as many records of each operation as were billed and are not in flight, and the job id is free again |
| `BrokerTheorems.TokensAreTheLiveCapabilities` | room/broker.py:205-206 | the token index is, in every reachable state, the union of the live jobs' capability maps |
| `BrokerTheorems.AuthorizedIffHeldLive` | room/broker.py:242-255 | a token is authorized exactly when some live job holds an unexpired capability under it; the format check never refuses a held one |
| `BrokerTheorems.ClosedTokensStayDead` | room/broker.py:192-212 | after close_job a token of that job authorizes nothing in any continuation, although the job id may be reopened any number of times |
| `BrokerTheorems.StartsWithinCeiling` | room/broker.py:281-289 | in no interleaving do the handler starts of a (token, operation) pair exceed the operation's max_calls |
| `BrokerTheorems.QuotaIsExact` | room/broker.py:324-348 | quota lists exactly the operations of the capability's role; used is the number of handler calls really started and used + remaining = max_calls, so the clamp at zero never acts |
| `BrokerTheorems.AdmittedIffQuotaLeft` | room/broker.py:259-293 | a dispatch with an object payload starts a call exactly when quota at that moment lists the operation with calls left, the job was opened with a non-empty key for its provider and HTTP callers may use it; the call is of that token, operation and task |
| `BrokerTheorems.HandlerGetsItsJobsKey` | room/broker.py:283-300 | every handler call ever made received the non-empty key its own job object was opened with, for its operation's provider, under a capability that job minted for the operation's role |
| `BrokerTheorems.CallsAreFixed` | room/broker.py:192-212 | what a call was started with never changes afterwards, in particular not when close_job overwrites the held keys during the call |
| `BrokerTheorems.RecordGoesHome` | room/broker.py:312-322 | a late record is appended, once, with its own call's task, operation and status, to the job object its call was billed to, and no other job object changes, not even one reopened under the same id |
| `BrokerTheorems.SucceededButRefusedIff` | room/broker.py:294-310 | success is recorded for a caller who is refused exactly when the handler returned a non-object or raised an exception with a 2xx code |
| `BrokerTheorems.HttpCallsAreAgentCalls` | room/broker.py:96-109 | every handler call made through HTTP is for an agent operation under an agent capability |
| `BrokerTheorems.CloseAllEmpties` | room/broker.py:214-217 | closing every live job one after the other, in any order, leaves no live job and no token |
| `BrokerTheorems.StepIsLater` | room/broker.py:181-348 | no step changes a job object's identity, the keys it was opened with or what it minted, revives a closed one, or rewrites the history of calls |
| `BrokerInvariant.StepKeeps` | room/broker.py:181-348 | every step (open, close, issue, begin, finish, quota) keeps the whole invariant: the two-way token index, single minting, meters within ceilings and true to the starts, justified calls, true records, conservation |
| `BrokerInvariant.RunKeeps` | room/broker.py:153-348 | the invariant holds after every finite interleaving of steps |
| `BrokerInvariant.BillConserves` | room/broker.py:283-293 | billing adds one to the calls and one to the flights of the same job object and operation, and to nothing else |
| `BrokerInvariant.FinishConserves` | room/broker.py:312-322 | appending a record moves exactly one call from in flight to recorded |
| `BrokerInvariant.SumCallsBilled` | room/broker.py:283-289 | one bill raises one operation's total over all tokens by one and leaves every other operation's total alone |
| `BrokerLedger.SettledLands` | room/broker.py:312-322 | landing one call adds its own task id and operation, once, to its own job object's settled calls |
| `BrokerLedger.RecordsAreTheSettledCalls` | room/broker.py:290-322 | in every interleaving a job object's records are, as a multiset of task id and operation, exactly the calls billed to that object and no longer in flight |
| `BrokerAtomic.UsableIffAuthorized` | room/broker.py:242-255 | a token opens its purse in the simple broker exactly when the real broker authorizes it |
| `BrokerAtomic.StepSimulates` | room/broker.py:181-348 | each step of the real broker is one step of the simple broker, in what is open, what tokens hold and what calls in flight will be recorded as |
| `BrokerAtomic.FinishOpen` | room/broker.py:312-322 | a late record reaches the account open under its job's id only if that account is its own job's, never one reopened |
| `BrokerAtomic.RefinesSimpleBroker` | room/broker.py:153-348 | in every possible interleaving every reply (errors, keys spent, refusals, quotas, ends of dispatches and the records close_job returns) is that of a broker without job objects or second index, where closing tears up what a call in flight would record |
| `BrokerObject.Job.Overwrite` | room/broker.py:208-210 | every key is overwritten under every provider, and no provider comes or goes |
| `BrokerObject.Job.Retire` | room/broker.py:207-211 | a closing job ends with no capability and no key |
| `BrokerObject.Broker.constructor` | room/broker.py:161-174 | a new broker is the initial state, with no job object |
| `BrokerObject.Broker.OpenJob` | room/broker.py:181-190 | opens a fresh job object with its own copy of the keys, or refuses a malformed or already open id and changes nothing |
| `BrokerObject.Broker.CloseJob` | room/broker.py:192-212 | both maps and the job object go to exactly the closed state and the job's records are returned; other job objects are untouched |
| `BrokerObject.Broker.Drop` | room/broker.py:199-211 | the job leaves the live map and its object is retired while every other object stays wired to its own abstract job |
| `BrokerObject.Broker.Forget` | room/broker.py:205-206 | popping the tokens one by one removes exactly them |
| `BrokerObject.Broker.CloseAll` | room/broker.py:214-217 | the loop over a snapshot is the run of one close per job, and both maps end empty |
| `BrokerObject.Broker.Issue` | room/broker.py:221-238 | mints one capability expiring one lifetime from now in both maps, or refuses an unknown role or a job that is not open |
| `BrokerObject.Broker.Mint` | room/broker.py:236-237 | the capability enters its job's map and the token index together |
| `BrokerObject.Broker.Authorized` | room/broker.py:242-255 | the job object and capability found through the heap are those of the abstract authorization |
| `BrokerObject.Broker.Admitted` | room/broker.py:259-285 | the checks before billing, in the source's order, give the abstract admission and hand out the job object itself |
| `BrokerObject.Broker.Begin` | room/broker.py:259-293 | a refused dispatch leaves the whole broker and every job object unchanged; an admitted one is billed and hands its caller the job object, key and operation |
| `BrokerObject.Broker.Charge` | room/broker.py:288-289 | the counter of this (token, operation) on this job object rises by one and nothing else changes |
| `BrokerObject.Broker.Record` | room/broker.py:312-322 | the record is appended to the job object held since billing, whether or not it is still live |
| `BrokerObject.Broker.Dispatch` | room/broker.py:259-310 | an uninterrupted dispatch is refusal without effect, or billing, one handler call with the job's key and one record; only a returned object reaches the caller |
| `BrokerObject.Broker.ReadQuota` | room/broker.py:324-348 | the quota read from the heap is the abstract quota and reading changes nothing |
| `Auth.PolicyIs` | room/auth.py:52-67 | a lifetime is the configured one or at least one second, a skew the configured one or at least none |
| `Auth.WindowBlames` | room/auth.py:70-87 | a window passes or is blamed on the first claim that fails, from differences of the claims and the clock |
| `Auth.ReplayGuard.Reserve` | room/auth.py:98-111 | the two loops purge from the front and evict at capacity; the answer and the whole new store are the closed forms |
| `Auth.ReplayGuard.Clear` | room/auth.py:113-115 | empties the store |
| `Auth.StoreIsTailOfLog` | room/auth.py:98-111 | after any calls on any clock the store is a duplicate-free contiguous tail of the log of acceptances, no longer than max_entries |
| `Auth.LogIsTrue` | room/auth.py:98-111 | the log holds exactly calls that were made, with their clocks and expiries, in order |
| `Auth.RefusedWasAccepted` | room/auth.py:106-107 | a nonce is refused only if it was accepted before |
| `Auth.ForgottenIsExcused` | room/auth.py:98-111 | whatever left the store was outlived by some later call's clock or pushed out by max_entries later acceptances |
| `Auth.SecondAcceptanceNeeds` | room/auth.py:98-111 | a second acceptance needs a later call whose clock passed the first expiry, or at least max_entries later acceptances |
| `Auth.StoreHoldsSurvivors` | room/auth.py:98-111 | on any clock and in any order the store holds exactly the acceptances that capacity holds and that stood at every call since, one standing at a reading when a survivor at or before it is unexpired |
| `Auth.RefusedIffStanding` | room/auth.py:98-111 | the verdict on every call, on any clock and in any order: refused if and only if an acceptance of the nonce stands at the call's reading |
| `Auth.DropsAreExpired` | room/auth.py:101-105 | in any order of calls, everything capacity could still hold but the store has dropped had expired by the latest reading of all |
| `Auth.RefusedBetween` | room/auth.py:98-111 | in any order of calls a nonce is refused only if an acceptance is shielded at the call's own reading, and surely if one is at the latest reading |
| `Auth.RefusedIffShielded` | room/auth.py:98-111 | in closed form, for a call that none with a later reading overtook at the lock: refused if and only if an acceptance of the nonce lies at or after an unexpired acceptance within the last max_entries |
| `Auth.RefusedIffGuarded` | room/auth.py:98-111 | in closed form, for any order of calls while capacity has pushed nothing out: refused if and only if no call since has outlived some acceptance at or before one of the nonce |
| `Auth.UnexpiredIsSingleUse` | room/auth.py:98-111 | a nonce unexpired by more than the lag at the lock, with fewer than max_entries later acceptances, is refused |
| `Auth.RetainedIsRecent` | room/auth.py:70-111 | although only the front is purged, every entry kept after a reservation was accepted no earlier than now - (lifetime + skew), less the lag at the lock |
| `Auth.SecondRunAdmittedIff` | room/auth.py:70-111 | window and guard together admit a request exactly when its claims are within the policy at the window's reading and no acceptance of its nonce stands at the guard's |
| `Auth.UnexpiredRefusedIff` | room/auth.py:98-111 | capacity, exactly and in any order of calls: a nonce whose last acceptance no call has outlived is refused if and only if fewer than max_entries acceptances followed |
| `Auth.UnseatedIsAdmitted` | room/auth.py:108-110 | with room for one, a second nonce lets the first in again before its expiry |
| `Auth.SingleUseIff` | room/auth.py:70-111 | over all runs, a request that capacity still holds is single use if and only if no positive skew is configured, no time passes between the clock readings of window and guard, and calls take the lock in the order of their readings or there is room for one only |
| `Auth.AdmittedPastExpiry` | room/auth.py:70-111 | a request is admitted at its expiry and again one second later, by any positive skew or by a second between the two readings |
| `Auth.AdmittedWhenOvertaken` | room/auth.py:98-111 | a call whose reading waits for the lock while a later one purges its nonce is admitted again, without skew and without time between the two readings |
| `Auth.AdmittedTwiceByDefault` | room/auth.py:23-25 | the default lifetime, skew and capacity allow it |
| `Auth.AdmittedTwiceWithoutSkew` | room/auth.py:70-111 | a zero skew allows it when a second passes between the two readings |
| `Bundle.Utf8Is` | room/bundle.py:87 | the encoding of a character is the shortest form of RFC 3629, section 3, and spells its code point |
| `Bundle.DomainTagIs` | room/bundle.py:17 | the tag is its text, NUL-terminated |
| `Bundle.BigEndianIs` | room/bundle.py:89-91 | the least significant byte of a length comes last |
| `Bundle.FitsIff` | room/bundle.py:89-91 | a file fits exactly when its encoded path is shorter than 2^32 and its content than 2^64 bytes |
| `Bundle.ExcludedIff` | room/bundle.py:96-103 | a path is excluded exactly when it is the top-level ciphertext, has a part .git or __pycache__, or ends as a cache |
| `Bundle.ExtraIsUnboundIff` | room/bundle.py:79-103 | what the binding skips, in full: one more entry leaves a tree's outcome alone exactly when it is a directory or a regular file of those kinds |
| `Bundle.EqualBindingsShare` | room/bundle.py:65-93 | two trees bind alike exactly when they have the same regular files that are not left out |
| `Bundle.FailureIs` | room/bundle.py:79-92 | a tree has a stream exactly when every entry is fine, and otherwise the failure of its first entry in path order that is not |
| `Bundle.Utf8IsInjective` | room/bundle.py:87-87 | encoded paths are equal only for equal paths |
| `Bundle.JoinIsInjective` | room/bundle.py:84-84 | a joined relative path determines its parts |
| `Bundle.CacheSuffixIff` | room/bundle.py:96-103 | a name is excluded by suffix exactly when it ends in .pyc or .pyo with something before |
| `Bundle.SealedFileOnlyAtTop` | room/bundle.py:96-103 | only the top-level ciphertext file is excluded by name |
| `Bundle.PathOrderIsStrictTotal` | room/bundle.py:79-79 | the order sorted() uses on paths is a strict total order |
| `Bundle.PathOrderIsSlashFirst` | room/bundle.py:79-79 | that order is string order on joined paths with the slash ranked below every other character |
| `Bundle.PlainStringOrderDiffers` | room/bundle.py:79-79 | it is not plain string order: a concrete pair of paths is ordered the other way |
| `Bundle.SortedInOrder` | room/bundle.py:79-79 | the sorted listing is in strict path order and lists exactly the walk |
| `Bundle.WalkOrderIsIrrelevant` | room/bundle.py:79-92 | two walks of one tree in any orders have the same sorted listing, so the same stream and the same failures |
| `Bundle.BigEndianRoundTrip` | room/bundle.py:89-91 | a length that fits its 4 or 8 bytes is read back from them |
| `Bundle.StreamDecodes` | room/bundle.py:78-92 | an independent decoder recovers the included list of encoded paths and contents from the hashed bytes |
| `Bundle.StreamIsInjective` | room/bundle.py:78-92 | equal streams come from equal file lists |
| `Bundle.Update` | room/bundle.py:87-92 | the four digest updates of one file feed its frame, or a length does not fit and nothing is fed |
| `Bundle.Feed` | room/bundle.py:80-92 | one turn of the loop skips, refuses or feeds an entry |
| `Bundle.HashListing` | room/bundle.py:78-92 | feeding the digest file by file adds up to domain tag and frames of the included files; the first faulty entry decides a failure |
| `Bundle.CredentialBundleBinding` | room/bundle.py:65-93 | the binding of a walk is the stream of its sorted listing, or its first fault |
| `Bundle.BindingsEqualIffSameFiles` | room/bundle.py:65-93 | two bundles within the length limits give equal streams exactly when their covered files are equal |
| `Bundle.FaultsDecide` | room/bundle.py:79-83 | two walks with the same faulty entries fail with the same fault, or neither fails |
| `Bundle.ExcludedFilesDoNotBind` | room/bundle.py:79-86 | adding an excluded entry leaves the whole outcome, stream or failure, as it was; on a tree that has a stream exactly when the entry is a directory or a regular file |
| `Bundle.SocketUnderGitStops` | room/bundle.py:82-86 | a socket under .git stops a binding that succeeds without it, since the regular-file check comes first |
| `Bundle.EncodedCheckIsSound` | room/bundle.py:43-50 | the check on the encoded length refuses nothing the decoded check would take and lets through at most two bytes too many |
| `Credentials.SpecIs` | room/profile.py:149-195 | a profile's contract is its declared one, with the failure mode a multi-key or single-key profile defaults to, or refused for the first thing wrong |
| `Credentials.EntryIs` | room/sealing.py:159-176 | one entry of a set is accepted, or refused for the first of provider id, shape, type, length and characters that fails |
| `Credentials.OpenedIff` | room/sealing.py:115-158 | a payload's credential map is opened exactly from the four fields, version 2, the profile's own string, a digest, and keys for exactly the required providers |
| `Credentials.RefusedOpeningIs` | room/sealing.py:115-158 | each refusal before any key is for the first thing wrong, and names the missing or unexpected providers |
| `Credentials.AcceptedSetIff` | room/sealing.py:107-182 | a set is accepted exactly when payload, version, profile string, binding, provider set and every entry pass; the keys returned are the payload's own |
| `Credentials.AcceptedSingleIff` | room/sealing.py:185-214 | a single key is accepted exactly from four fields, version 1, a provider id, a key within length and characters, and a digest |
| `Credentials.RefusedSingleIs` | room/sealing.py:185-209 | each refusal of a single key is for the first thing wrong |
| `Credentials.ResolvedIs` | room/sealing.py:44-98 | a blank parameter resolves to nothing, or is refused if required; any other to what its decryption parses to under the profile's version |
| `Credentials.NamedIs` | kata_seal.py:245 | each part of a provider list counts by itself, a blank one not at all |
| `Credentials.ProvidersAre` | kata_seal.py:244-255 | a provider list is taken exactly when it names someone, nobody twice and everybody by a provider id |
| `Credentials.ProvidersRoundTrip` | kata_seal.py:244-255 | distinct provider ids joined with commas parse to themselves |
| `Credentials.LoadedKeyIs` | kata_seal.py:184-210 | one provider's key comes from its variable, its file or a prompt, stripped, and is refused if unreadable, blank or against the rule |
| `Credentials.CollectedIff` | kata_seal.py:269-312 | keys are collected exactly when every source is for a named provider, none has two, and every provider's source gives a key |
| `Credentials.CollectionBlames` | kata_seal.py:276-312 | otherwise an unknown source is blamed first, then a doubled one, then the first provider without a key |
| `Credentials.ParseCredentialSet` | room/sealing.py:107-182 | the parsing loop computes the parsed set, with the first failing check in the source's order deciding the error |
| `Credentials.OpenedSet` | room/sealing.py:146-158 | past the set comparisons the payload's credential map has exactly the required providers |
| `Credentials.AcceptedSetIsExact` | room/profile.py:149-195 | under a spec a profile can declare, an accepted payload yields keys for exactly the required providers, each within the length and character rules, and a digest binding |
| `Credentials.NoPayloadFitsBoth` | room/sealing.py:122-195 | no payload is accepted by both parsers, whatever version it claims |
| `Credentials.VersionsTaken` | room/sealing.py:124-131 | true, 1 and 1.0 are taken as version 1, 2 and 2.0 as version 2, and nothing else is |
| `Credentials.VersionsParseAlike` | room/sealing.py:124-196 | a payload parses to the same credential exactly with those values in its version field |
| `Credentials.KeyRulesDiffer` | room/sealing.py:172-206 | a single key is refused in a set exactly when it is shorter than 16 characters or holds a delete character |
| `Credentials.DeletesMakeASingleKey` | room/sealing.py:174-206 | sixteen delete characters parse as a single key and are refused in a set |
| `Credentials.ProfileDecidesShape` | room/sealing.py:67-98 | the shape of a resolved credential is decided by the profile's version alone |
| `Credentials.CollectKeys` | kata_seal.py:269-312 | sources for unnamed providers and doubled sources are refused; otherwise the collected map or the first provider's error |
| `Credentials.LoadKeys` | kata_seal.py:286-312 | the loop loads, strips and checks one key per provider and fills exactly that map |
| `Credentials.SetRoundTrip` | kata_seal.py:465-481 | a printed set parses exactly when the room's profile string and provider set are the ones it was printed for and every key passes the rule, and to the same keys and binding |
| `Credentials.CollectedKeysAreAccepted` | kata_seal.py:244-312 | whatever the tool names, collects and prints parses in a room exactly if profile string and providers are its own, to the same keys |
| `Credentials.SingleRoundTrip` | kata_seal.py:482-502 | a printed single-key payload parses exactly when its key has at most 8192 characters and none below 32 |
| `Room.Endpoint.Run` | room/server.py:140-335 | one request: the response, the call the profile gets, and the guard's whole new state; a refusal before the reservation leaves the guard as it was |
| `RoomTheorems.AnswerIff` | room/server.py:231-335 | a report is answered exactly when the call is screened, its nonce new, the profile may be given what it opens to, returned a result, and a quote was had; every other asked call gets 500 |
| `RoomTheorems.ScreenIs` | room/server.py:140-223 | the status of each refusal before the nonce is spent |
| `RoomTheorems.ResponseIs` | room/server.py:231-335 | the answer to every call that has spent its nonce, case by case, statuses included |
| `RoomTheorems.UnhexIff` | room/server.py:217 | a nonce decodes to the bytes whose hexadecimal text it is, but for letter case |
| `RoomTheorems.RecomputedIff` | room/server.py:264-275 | extraction and hashing of an archive give a tree and the caller's digest exactly when the archive opens to that tree, every entry is regular or a directory, every covered file fits its length fields and the tree's digest is the caller's |
| `RoomTheorems.ProfileIsAskedIff` | room/server.py:140-302 | the profile is asked exactly when the call is screened, its nonce new, and it is given what the ciphertext opens to and the archive holds, with caller's digest = recomputed digest = the credential's binding |
| `RoomTheorems.CredentialsAndBundlesTravelTogether` | room/server.py:252-263 | no credential without a tree and, in attested-zero mode, no tree without a credential |
| `RoomTheorems.EvidenceIff` | room/server.py:163-298 | attested failure appears exactly when the mode is attested-zero, the nonce was spent on it, a quote was had and the reason it names is true; never in http_error mode |
| `RoomTheorems.SealedKeysRunOnlyTheirBundle` | kata_seal.py:444-502 | keys a miner collects and seals, for a profile, to the digest of a tree reach the profile exactly in rooms of that profile string and those providers, for archives whose covered files are that tree's or collide with it under the hash |
| `RoomTheorems.SealedKeyRunsOnlyItsBundle` | kata_seal.py:482-502 | the same for a single sealed key, which moreover reaches the profile only if it passes the room's rule, since the tool does not check it |
| `RoomTheorems.DigestsEqualIff` | room/bundle.py:65-93 | two clean trees have one digest exactly when their covered files are equal or the hash collides |
| `RoomTheorems.GuardSeesScreenedCalls` | room/server.py:206-229 | over any calls the guard's store is that of the screened calls' reservations alone |
| `RoomTheorems.NonceIsSpentOnce` | room/server.py:225-229 | two admitted calls with one nonce need the first expiry to pass on a later call's clock, or max_entries nonces spent in between |
| `RoomTheorems.SameBodyTwiceIsLate` | room/server.py:200-302 | one signed body reaches the profile twice only when the guard's reading with the lag at the lock is past its expiry while the window's is within the skew of it, or after max_entries other nonces |
| `RoomTheorems.SameBodyAskedAgainIff` | room/server.py:200-302 | for every call, on any clock and in any order: a body asked of the profile once is asked again exactly when it is screened and no acceptance of its nonce stands |
| `RoomTheorems.SameBytesIff` | room/server.py:217-218 | two nonces decode to the same bytes exactly when they differ in letter case at most |
| `RoomTheorems.SpellingDecides` | room/server.py:217-229 | a screened call whose bytes have acceptances that stand is let past the guard exactly when all of those are in another letter case |
| `RoomTheorems.OtherSpellingIsAnotherNonce` | room/server.py:217-229 | the same bytes in two spellings are admitted twice at one moment |
| `RoomTheorems.ConflictIffStanding` | room/server.py:225-229 | 409 is answered exactly to a screened call whose nonce has an acceptance that stands, which for a call not overtaken at the lock is a shielded one |
| `RoomTheorems.OnlySpentNoncesAreAsked` | room/server.py:225-302 | the profile is asked only by calls that spent their nonce |
| `Gateway.RouteIs` | room/inference_gateway.py:339-356 | the printed token and path, letter by letter, and each refusal to print |
| `Gateway.RetryableIff` | room/inference_gateway.py:50 | what is tried again: no connection, and the errors 502, 503 and 504 |
| `Gateway.AttemptsAre` | room/inference_gateway.py:277-288 | a configured number from one to four is taken, anything else means two |
| `Gateway.FirstDelayIs` | room/inference_gateway.py:291-299 | the first delay is the base, between zero and five seconds |
| `Gateway.BackoffIs` | room/inference_gateway.py:291-299 | the jitter is in proportion to the draw, a quarter of the delay at most |
| `Gateway.ForwardIs` | room/inference_gateway.py:425-475 | a request that calls out records and relays the status of the first upstream result that is not transient, or of the last permitted, and waits after each transient one |
| `Gateway.EarlyAnswersAre` | room/inference_gateway.py:402-424 | a missing key is recorded and answered 401, a provider not enabled 502, without a call |
| `Gateway.ParseIffMatches` | room/inference_gateway.py:133-136 | splitting at the separators is matching the route pattern: each accepted path has one decomposition |
| `Gateway.AcceptedIffPrinted` | room/inference_gateway.py:339-369 | a path is accepted for a pair exactly when it is the path of the token printed for that pair |
| `Gateway.PayloadIsInjective` | room/inference_gateway.py:355-356 | the signed payload determines job id and provider |
| `Gateway.SignatureBindsOnePair` | room/inference_gateway.py:355-369 | one signature is accepted for one pair and one path, or two different payloads collide under the signer |
| `Gateway.ResolveMaxAttempts` | room/inference_gateway.py:277-288 | whatever is configured, between one and four attempts |
| `Gateway.Backoff` | room/inference_gateway.py:291-299 | one wait is its delay plus at most a quarter, never above 6.25 seconds |
| `Gateway.DelayDoubles` | room/inference_gateway.py:291-299 | from one attempt to the next the delay doubles until its cap of five seconds |
| `Gateway.FinalAttemptFacts` | room/inference_gateway.py:426-475 | everything before the final attempt was transient, and the final one is not or is the last permitted |
| `Gateway.Handler.Retry` | room/inference_gateway.py:425-475 | the loop's outcomes, replies, waits and calls are those of the final attempt |
| `Gateway.Handler.Forward` | room/inference_gateway.py:399-475 | a missing key and a provider not enabled are recorded and answered without a call; otherwise the retry loop decides |
| `Gateway.ForwardIsBounded` | room/inference_gateway.py:399-475 | for every series of upstream results at most four calls, at most 18.75 seconds of waiting, one outcome unless an exception escapes, and one reply for it exactly unless it is an HTTP error whose body cannot be read |
| `Gateway.UnreadableIsUnanswered` | room/inference_gateway.py:442-454 | two unreadable errors 503 with the default attempts: two calls, one outcome, no reply |
| `OutcomeLog.FieldsAre` | room/inference_gateway.py:99 | a line's fields are its words, whatever space stands around them |
| `OutcomeLog.ForeignLinesAre` | room/inference_gateway.py:98-104 | how lines of other forms are read, skipped or raise |
| `OutcomeLog.LastLineIs` | room/inference_gateway.py:98 | the last line counts without a newline too |
| `OutcomeLog.LineRoundTrip` | room/inference_gateway.py:77-104 | a written line reads back as its status and clamped tokens, negative statuses included |
| `OutcomeLog.WrittenReadsBack` | room/inference_gateway.py:77-104 | a whole written file reads back as the clamped outcomes in order |
| `OutcomeLog.BucketsPartition` | room/inference_gateway.py:111-129 | requests is the number of outcomes, tokens their sum, and the six buckets partition the requests |
| `OutcomeLog.BucketsCount` | room/inference_gateway.py:114-128 | each bucket counts exactly the statuses it is named for |
| `OutcomeLog.OutcomeStore.Summarize` | room/inference_gateway.py:87-129 | a malformed id reads nothing; otherwise the job's file is tallied and deleted, every other file kept |
| `OutcomeLog.ReadOutcomes` | room/inference_gateway.py:98-104 | the reading loop yields the outcomes of all well-formed lines, or raises at the first line int() rejects |
| `OutcomeLog.TallyOutcomes` | room/inference_gateway.py:111-129 | the summing loop computes the tally |
| `OutcomeLog.FileHoldsOutcomes` | room/inference_gateway.py:77-84 | with any jobs' recordings interleaved and some writes failing, a job's file holds exactly its own outcomes whose write succeeded |
| `OutcomeLog.SummaryTalliesRecorded` | room/inference_gateway.py:77-129 | a job's summary tallies exactly its own written outcomes with tokens clamped, and the next summary is zero |
| `OutcomeLog.SummaryIgnoresOrder` | room/inference_gateway.py:77-129 | however the same recordings interleave, a job's summary is the same |
| `GatewaySummary.SummaryByResult` | room/inference_gateway.py:77-129 | a job's summary by its requests' final results: each bucket counts the written requests that carry its statuses, and the tokens are those of final responses where positive |
| `GatewaySummary.SummaryCountsReplies` | room/inference_gateway.py:77-129 | for any interleaving of what ended requests of any jobs recorded, a job's summary counts the replies its agent got plus the errors left unanswered, less the outcomes that could not be written |
| `GatewaySummary.StatusNamesAgree` | room/broker.py:356-372 | the broker's status names and the gateway's buckets agree on a numeric code, except for client errors the gateway counts as other and for code 0 |
| `GatewaySummary.EffectsAnswer` | room/inference_gateway.py:399-475 | a request sends no more replies than it records outcomes, as many exactly unless its final error body is unreadable, and a reply's status is the recorded one or 502 for unreachable |
| `BoundedHttp.StepKeeps` | room/bounded_http.py:87-113 | accept, refuse, failed start, finish and note each keep the slot invariant |
| `BoundedHttp.SlotsAreConserved` | room/bounded_http.py:97-113 | in every interleaving free slots + admitted and unreleased connections = max_connections, no release overflows the semaphore, and each admitted connection releases once across both sites |
| `BoundedHttp.CountTrailsReleases` | room/bounded_http.py:87-90 | the release counter never runs ahead of the releases that happened |
| `BoundedHttp.RefusedIffFull` | room/bounded_http.py:97-100 | a connection is refused exactly when all slots are held, and a refusal takes and releases nothing |
| `BoundedHttp.WaitForRelease` | room/bounded_http.py:72-85 | true on the first glance at the counter that suffices if none before it is past the deadline, false on the first past the deadline if none suffices, else still waiting |
| `BoundedHttp.WaitIs` | room/bounded_http.py:72-85 | true exactly if some glance is enough and none before it is past the deadline, false exactly if one is past it and none up to it is enough |
| `BoundedHttp.AdmittedOrRefused` | room/bounded_http.py:97-100 | every connection of a run is either admitted or refused |
| `BoundedHttp.WaitMeansReleased` | room/bounded_http.py:72-85 | a wait that looked at the counter of one run and answered true ended at one of its glances, and in that state and every later one at least that many slots were really released |
| `BoundedHttp.Server.Accept` | room/bounded_http.py:97-100 | takes a slot or refuses, as the step says |
| `BoundedHttp.Server.StartFails` | room/bounded_http.py:101-106 | a thread that fails to start gives its slot back |
| `BoundedHttp.Server.Ends` | room/bounded_http.py:108-113 | a finished thread gives its slot back |
| `BoundedHttp.Server.NoteRelease` | room/bounded_http.py:87-90 | the counter moves in a step of its own |

## Left out

- Fresh randomness: minted tokens are assumed well formed and never minted before.
- A handler that ends in a process crash or a non-`Exception` error: no record is written there.
- Sockets, Flask, header and request-body plumbing, real threads and real sleeping; their outcomes are inputs.
- SHA-256, HMAC, ECIES, quotes, gzip and tar, and the syntax of JSON text; a value printed is the value read back.
- `room/inference_network.py`, `room/dstack.py`, `room/attest.py` and `verify_run.py`: command plumbing and hash wiring.
- The limits inside `extract_submission_bundle` other than the encoded-length arithmetic: extraction is a refusal or a tree.
- A bundle field that is neither text nor absent and longer than the encoded limit: it is refused with 400 by the length check before the 500 modelled here.
- Paths with lone surrogates: a Dafny character is a Unicode scalar value.
- Claims for which `int()` fails with something other than the caught exceptions, as an infinite number does.
- A restart of the room, which empties the guard, and `ReplayGuard.clear`: every run starts from an empty store and lasts while the process does.
- A negative `max_entries`, for which the eviction loop raises on an empty store.
- Concurrent calls of `Broker.close`, whose snapshot is taken outside the lock.
- A wait base that is infinite or not a number.
- Appends to an outcome file that race its reading and deletion, and carriage returns in outcome files.
- Digits and white space outside ASCII, wherever text is stripped, split or read as a number.
- A reply that cannot be sent because its client is gone: sending it counts as replying.
- A request still in flight in the gateway when its job is summarized: `GatewaySummary` counts requests that have ended.
- A connection thread that fails to start is assumed never to run its body.
- `parse_key_source`, `_single_key_source`, prompts, file checks and the atomic write of the sealing tool: parsed sources are inputs.
- `_extract_reported_tokens`, timeout resolution and the checks on provider routes: they would only add easy members.
- Timing-safe comparison, redacted representations and what remains of overwritten keys in memory.
- `project_key`, the report and the provenance of `/run`, which do not decide what reaches the profile.
- The attributes of a profile are taken as already typed: `credential_spec_for` receives text where the source converts with `str`.

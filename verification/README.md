# Verion: a model of its stateful and codec cores

This project models the parts of the Verion identity server whose correctness is not visible from
one function, and proves what they keep over every run.

- **Sessions, challenges and tokens.** `Keyspace` is one Redis keyspace; `Sessions` gives every
  operation of the session and challenge stores twice, over that keyspace and over three separate
  stores, and proves the two agree on every trace. `SessionRuns`, `Challenges` and `Admission` state
  the results over whole timed traces. `SessionSteps` repeats the model with every Redis command a
  separate step and requests in flight, and `SessionCommands` lifts that to the keyspace.
  `SessionStore` and `Admission.Gateway` are the classes.
- **Identities, keys and the audit log.** `Directory` is a machine whose steps are single
  repository statements; calls interleave freely and may stop after any statement. `KeyRing`,
  `Locking`, `Lifecycle`, `AuditReplay`, `AuditExact` and `KeyRefs` prove properties of all its
  reachable states; `Services` writes the service methods as the source does and proves that each is
  a path of the machine, `Outcomes` says what each call answers and leaves behind, and `WholeCalls` is
  about runs of calls that do not overlap.
- **Signature counters.** `SignCounter` models assertions that read a counter and record a count in
  a later statement, so that assertions may overlap.
- **Codecs.** `Text`, `Base64`, `Argon2Hash`, `Token` and `Jwk` write splitting, decimal printing
  and scanning, base64 and big-endian padding out in full and prove the round trips.
- **List queries.** `Sql` reads the query text and gives it a meaning; `Listings` builds the texts;
  `Paging` says when the pages of a sorted list tile it.

## Assumptions

They appear as hypotheses or as the shape of the model.

- One clock that does not go back (`Monotone`, `Trace`).
- Session ids given to Create are new (`Fresh`); ids and times come from the outside as parameters.
- Redis drops a key only at its deadline. `docker-compose.yml:57` sets an LRU policy, so this is a
  real assumption.
- JSON, Ed25519 and Argon2 are function parameters with their laws as hypotheses (`Json.Law`,
  `Backend.Law`, `KdfLaw`). Where it matters, the tokens presented are assumed not forged
  (`Unforged`).
- The count of an assertion is what go-webauthn's FinishLogin returns; the library is not part of the
  repository. One that withholds a count which did not grow would make the zero case unreachable.
- A token is stamped after its session is stored, and early enough to expire within the session's
  first TTL (`InTime`).
- A single SQL statement and a single Redis command are atomic. The order of rows with equal sort
  keys, and of rows without ORDER BY, is the database's choice.
- Values that Go keeps in `int` are unbounded here; the uint8 and uint32 narrowings and the int
  bound of Sscanf are written out.

## Where a plain statement is false

The code is modelled as it is. Each case has a lemma with the failing input and one with the exact
condition.

| plain statement | fails because | failing case | exact condition |
|---|---|---|---|
| a live session is in its identity's index | Get renews the session, not the index | `LapseWitness` | `Coverage`, `IndexRefinesScan` |
| a deleted session stays deleted | a Get in flight writes back what it read | `Resurrection` | `RevocationExact` |
| deactivated is final | the status UPDATE has no guard | `ComebackWitness` | `DeactivationExact` |
| folding the log gives the status | status and event are two statements | `DisorderWitness` | `ReliableExact` |
| a key resolves to its own private half | generateKeyPair reuses a reference | `RotationOrphans` | `KeyResolution` |
| counters never let a count in twice | zero passes and is stored; check and write are apart | `ZeroReopens`, `OverlapReopens` | `AcceptedExact`, `ShutOutExact` |
| expired means not before exp | the second of exp is accepted | `ExpiryBoundary` | `ExpiryBoundary` |
| audit lists obey their filter | ActorID and Success are not applied | `StrayReturned` | `AuditFilterExact` |
| pages tile the result | the sort key may tie | `TieBreaks` | `IdentityPagesExact`, `TenantPagesExact`, `AuditPagesExact` |
| OrderBy names the sort column | its text goes into the query as it is | `TwoColumns` | `ColumnExact` |
| at command grain a live session is in its index | pipelines are not transactions | `Resurrection` | `CoverageExact` |
| a rotation link stays within an identity | RotateKey does not compare the identities | `RotationOwnExact` | `RotationOwnExact` |

Where the code and its own documentation disagree, the model follows the code:

- `internal/identity/key_service.go:26` says an already rotated key is not usable; `IsUsable` goes by
  `IsTrusted`, which includes rotated keys, so it can be rotated again.
- `internal/store/session.go:52` speaks of atomicity; the pipeline is not a transaction.
- `internal/identity/repository.go:153-155` asks for strictly growing counts; the statement does not
  check, and the service lets zero through.
- `internal/db/migrations/000003_identity_keys.up.sql:62-64` allows one active key per identity and
  purpose, which makes RotateKey's insert fail. The index is a switch of the model (`strict`): key
  results hold for both settings unless they name one.

## Model

| member | source | states |
|---|---|---|
| Keyspace.KeysDistinct | internal/store/session.go:40-49 | session, index and challenge keys are injective in arbitrary id strings and never collide |
| Keyspace.RepReads | internal/store/redis.go:41-61 | on a keyspace that represents three stores, reading any key gives what its own store holds at that time |
| Keyspace.RepSessionWrite | internal/store/session.go:60 | writing or deleting a session key changes that session alone among the three stores |
| Keyspace.RepSAdd | internal/store/session.go:61 | adding an index member, with Redis set expiry, changes that identity's index alone |
| Keyspace.RepSRem | internal/store/session.go:113-115 | removing an index member, with the removal of an emptied set, changes that identity's index alone |
| Keyspace.RepExpire | internal/store/session.go:62 | renewing an index deadline changes that identity's index alone |
| Keyspace.RepChallengeWrite | internal/store/redis.go:41-61 | storing or consuming a challenge touches no session and no index |
| Sessions.StepRep | internal/store/session.go:51-171 | every operation on the keyspace has the effect and the answer of the operation on three separate stores |
| Sessions.RunSimulates | internal/store/session.go:51-171 | every trace over one keyspace ends in a state representing the three stores after the same trace, with the same answers throughout |
| SessionRuns.IndexedBelongs | internal/store/session.go:146-171 | in every run a live session named by an index belongs to that identity |
| SessionRuns.Coverage | internal/store/session.go:51-95 | in every run a live session is in its identity's index exactly when that index key has not lapsed since the session was created |
| SessionRuns.IndexRefinesScan | internal/store/session.go:123-171 | what the index reaches is always part of a scan of all sessions by identity, and equal to it exactly when no live session of the identity saw its index lapse |
| SessionRuns.ListExact | internal/store/session.go:146-171 | ListByIdentity returns live sessions of that identity only, and all of them exactly without a lapse |
| SessionRuns.ListUnlinksDead | internal/store/session.go:146-171 | ListByIdentity leaves of the identity's index exactly the ids whose session is live, and changes no session and no other index |
| SessionRuns.DeleteAllExact | internal/store/session.go:123-144 | DeleteAll leaves every other identity's sessions alone, and leaves none of the identity's alive exactly without a lapse |
| SessionRuns.LapseWitness | internal/store/session.go:86-92 | a Create and one Get within the TTL suffice for a live session that its index no longer names |
| SessionRuns.RevocationFinal | internal/store/session.go:97-144 | operations being atomic, a session that was removed is never stored again |
| SessionRuns.RevocationRemoves | internal/store/session.go:97-144 | Delete removes a live session and DeleteAll every indexed one |
| SessionRuns.ReadBack | internal/store/session.go:51-121 | a session is read back as created, seen at the time of reading, until a TTL after its creation or last reading, and not after its deletion |
| SessionRuns.DeleteAnswered | internal/store/session.go:97-121 | in every run Delete answers Done exactly for a live session and not-found for every other |
| SessionStore.RedisStore.GetChallenge | internal/store/redis.go:50-61 | reads and removes in one command, with the specified answer |
| SessionStore.SessionStore.Create | internal/store/session.go:51-68 | the three commands of the pipeline give the specified keyspace and answer |
| SessionStore.SessionStore.Get | internal/store/session.go:70-95 | read, restamp and write back give the specified keyspace and answer |
| SessionStore.SessionStore.Delete | internal/store/session.go:97-121 | gives the specified keyspace and answer, also for absent, expired and unreadable sessions |
| SessionStore.SessionStore.DeleteAll | internal/store/session.go:123-144 | the loop over members, in any order, deletes exactly the indexed sessions and the index |
| SessionStore.SessionStore.ListByIdentity | internal/store/session.go:146-171 | the loop over members, in any order, returns the specified sessions and unlinks exactly the stale ids |
| SessionSteps.InvRun | internal/store/session.go:51-171 | at command grain, over every interleaving, stored sessions, indexes and all values in flight agree with who created the session |
| SessionSteps.OwnersSeparate | internal/store/session.go:123-144 | in every interleaving an index never names another identity's session, and a DeleteAll command never removes one |
| SessionSteps.RevocationExact | internal/store/session.go:70-121 | a dead session stays dead in every continuation exactly when no request is between its read and its write-back and no Create of it has its SET still to come |
| SessionSteps.DeletionKills | internal/store/session.go:97-144 | the deleting commands of Delete and DeleteAll leave the session dead |
| SessionSteps.CleanupUnlinksDead | internal/store/session.go:146-171 | with no write on its way, the cleanup unlinks only an id that stays dead |
| SessionSteps.CoverageStep | internal/store/session.go:51-171 | at command grain, one action leaves a session named by its index while it lives exactly if it is none of the listed ones that uncover it: an unlink or index DEL while it lives, a write-back while it is not named, a Create stopped before its SADD, or the index's end |
| SessionSteps.CoverageExact | internal/store/session.go:51-171 | over every interleaving, a live session is named by its index, once its Create has added it, in every state exactly if no action uncovers it |
| SessionSteps.Resurrection | internal/store/session.go:73-91 | from every state with a live session the schedule read, Delete, write-back leaves it readable and unlinked |
| SessionSteps.SoloIsAtomic | internal/store/session.go:51-171 | a request that runs alone, visiting set members in any order, has exactly the effect of its atomic step |
| SessionCommands.ExecRep | internal/store/session.go:51-171 | every single command on the keyspace has the effect of the one on the separate stores and leaves its request in the same place |
| SessionCommands.CommandsSimulate | internal/store/session.go:51-171 | every interleaving of commands on the keyspace is one on the separate stores, with the same requests in the same places at the same time |
| SessionCommands.FlatRevocationExact | internal/store/session.go:70-121 | on the keyspace, an unreadable session stays unreadable in every continuation exactly when no write of it is on its way |
| Challenges.SingleUse | internal/store/redis.go:41-61 | in every run successful reads of an id, plus one if it is still stored, never exceed the times it was set |
| Challenges.CompletedWithinBegun | internal/auth/webauthn.go:96-124 | over all ids, consumed challenges plus stored ones never exceed begun ceremonies |
| Challenges.TakeProvenance | internal/store/redis.go:50-61 | a successful read answers with the payload of the last set, before its TTL, which nothing else has consumed |
| Challenges.TakeExact | internal/store/redis.go:50-61 | in every run a read answers with a payload exactly if the last set of the id has been neither consumed nor outlived, and not-found otherwise |
| Challenges.NoSecondTake | internal/auth/webauthn.go:232-267 | between two successful reads of an id it was set again |
| Token.TokenService.Issue | internal/auth/jwt.go:71-84 | iat and exp are the seconds of now and of now plus the TTL, iss the configured issuer, sid the session given; subject, tenant, handle and type stay; the token is the compact form of these |
| Token.CompactParts | internal/auth/jwt.go:71-84 | for all claims the token splits into exactly header, payload and signature |
| Token.VerifyIssued | internal/auth/jwt.go:86-117 | Verify of Issue, for all claims and instants: the claims with iat, exp, iss and sid as set, field by field, through the second of exp; Expired after it, Invalid exactly for a blank subject or tenant |
| Token.TokenHeader | internal/auth/jwt.go:79 | the first part of every token decodes to the header for EdDSA |
| Token.ExpiryBoundary | internal/auth/jwt.go:30-39 | the service agrees with section 4.1.4 of RFC 7519 on an issued token except in the second of exp |
| Token.VerifyOnlyIssued | internal/auth/jwt.go:86-117 | a token that verifies, unless forged, yields claims that were issued |
| Admission.Gateway.CompleteLogin | internal/transport/http/login_handler.go:61-86 | stores the session, then issues a token at a second reading of the clock whose claims are those of the identity and session, field by field; no token if the store fails |
| Admission.Gateway.Authenticate | internal/transport/http/auth_middleware.go:15-47 | refuses every header without the literal prefix, then exactly the tokens that do not verify, admits with the verified claims only, and decides and renews the session as over the stores the keyspace represents |
| Admission.Gateway.RevokeSession | internal/transport/http/session_handler.go:60-93 | bad request, not found, forbidden and revoked exactly for a blank id, a session not live, one of another identity and the caller's own; the keyspace then represents the stores after that |
| Admission.AuthRep | internal/transport/http/auth_middleware.go:15-47 | over the keyspace the middleware decides as over the separate stores |
| Admission.AuthExact | internal/transport/http/auth_middleware.go:15-47 | for every header, the decision and the only change to the stores: the named live session is renewed when the token verifies |
| Admission.StoredExact | internal/store/session.go:70-144 | within a TTL of its creation a session is stored exactly when it has not been revoked |
| Admission.ExactAdmission | internal/transport/http/auth_middleware.go:15-47 | a token stamped at any time from its session's creation on is admitted exactly when the clock second is at most exp and its session has not been revoked, and then the session's identity is the token's subject |
| Admission.ServerAdmission | cmd/verion/main.go:83-87 | the same with the server's one-hour token, stamped within 23 hours of its 24-hour session |
| Admission.AdmittedOnlyIssued | internal/transport/http/auth_middleware.go:15-47 | any admitted header, unless forged, carries a token issued in the run for a live, unrevoked session owned by its subject |
| Admission.RevokeOwnOnly | internal/transport/http/session_handler.go:60-93 | the revoke handler removes and unlinks a session exactly when it is live and the caller's own, only renews another's, and changes no other session |
| KeyRing.KeysInOrder | internal/identity/key_service.go:106-154 | in every reachable state a set primary key is an existing key of that identity and tenant, and rotation links lead to strictly later keys |
| KeyRing.PrimaryNeverUnset | internal/identity/postgres/identity_repo.go:51-53 | a primary key once set stays set to a key of the identity, and no key disappears, in every continuation |
| KeyRing.Latest | internal/identity/postgres/audit_key_repo.go:196 | following rotation links ends, at a key that has not been rotated |
| KeyRing.RotationComplete | internal/identity/key_service.go:106-154 | a rotation that succeeds, with the unique index on or off, adds one key of the prior key's type and purpose, retires and links the prior one, and moves the primary pointer exactly if it named the prior key |
| KeyRing.RotationOwnExact | internal/identity/key_service.go:106-128 | a rotation that succeeds links the prior key to a key of the same identity exactly if it was given that key's identity, which RotateKey does not check |
| KeyRing.LinksStayOwn | internal/identity/key_service.go:106-154 | in every run in which each rotation finds a key of the identity it was given, links stay within an identity |
| Locking.RowsReplayed | internal/identity/postgres/identity_repo.go:36-53 | in every reachable state each row is the replay of its successful writes, and each update named the version current at that point |
| Locking.VersionCounts | internal/identity/postgres/identity_repo.go:36-42 | version is one plus the number of successful updates |
| Locking.OneUpdatePerVersion | internal/identity/postgres/identity_repo.go:135-152 | at most one update succeeds per version, in increasing order |
| Locking.UpdateExact | internal/identity/identity_service.go:211-239 | an update naming the version once read matches exactly when no update succeeded since, and then replaces the very content that was read |
| Locking.FieldsIndependent | internal/identity/postgres/identity_repo.go:36-53 | content and version depend on updates alone, status and primary key on the other writes alone |
| Lifecycle.LifecycleRows | internal/identity/postgres/identity_repo.go:44-49 | in every reachable state nothing is archived and every terminal identity has its deactivation time |
| Lifecycle.DeactivationExact | internal/identity/identity_service.go:241-329 | with the unique key index on or off, a deactivated identity stays so in every continuation exactly when no call is past its guard with another status to write |
| Lifecycle.DeactivationFinal | internal/identity/identity_service.go:241-269 | that condition suffices from any state, reachable or not |
| Lifecycle.AtomicLifecycle | internal/identity/identity_service.go:82-174 | one call that nothing disturbs, whole or cut short anywhere, keeps terminal identities terminal and the deactivation time exactly on them |
| WholeCalls.PlayTimes | internal/identity/postgres/identity_repo.go:44-49 | after every run of calls that do not overlap, whole or cut short, the deactivation time is set exactly for terminal identities |
| WholeCalls.PlayAbsorbs | internal/identity/identity_service.go:241-329 | in every such run an identity once terminal is terminal from then on |
| WholeCalls.PlayTold | internal/identity/identity_service.go:82-329 | after every such run in which no call stops between its status write and its event, the folded log of every identity is its status |
| WholeCalls.PlayReachable | internal/identity/identity_service.go:82-329 | such runs are runs of the statement machine |
| Lifecycle.CreateLeavesPending | internal/identity/identity_service.go:82-174 | a CreateIdentity that stops leaves its identity active exactly if it stops at its audit step |
| Lifecycle.ComebackWitness | internal/identity/identity_service.go:301-329 | from every state with a suspended identity, a Reactivate past its guard undoes a Deactivate that has finished with success |
| AuditReplay.LogOnlyGrows | internal/identity/postgres/audit_key_repo.go:31-50 | no interleaving removes or changes an event already written |
| AuditReplay.ReplayYieldsStatus | internal/identity/identity_service.go:241-329 | after every run in which each status write is followed by its event before the next, the folded events of an identity give its stored status |
| AuditExact.ReliableExact | internal/identity/identity_service.go:82-329 | from a reachable state, with the unique key index on or off, however the calls in flight go on among new calls that write no status, the fold is the status whenever no event is outstanding, exactly if every event owed and the log now tell the stored status and all calls that can still write it are bound for one status |
| AuditReplay.DisorderWitness | internal/identity/identity_service.go:271-329 | from every state with an identity that is not deactivated, a Suspend and a Reactivate that overlap and record the other way round end with the log telling suspended and the status active |
| KeyRefs.RefInjective | internal/identity/key_service.go:181-184 | with slash-free tenants and new ids, and any identity text, a reference determines whom and which type its key was generated for |
| KeyRefs.Invariant | internal/crypto/local/keystore.go:34-42 | in every reachable state the key store is the replay of the generations, and every server-held key row comes from a generation for its own identity |
| KeyRefs.ResolutionExact | internal/crypto/local/keystore.go:34-42 | a generated private half is what its reference resolves to exactly when its slot was not generated for again |
| KeyRefs.KeyResolution | internal/identity/key_service.go:181-221 | a stored key resolves to the private half of its own public key exactly when there was no later generation for the same tenant, identity and type, even of a call that failed |
| KeyRefs.FirstKeyKept | internal/identity/identity_service.go:120-145 | the private half generated by CreateIdentity is never overwritten |
| KeyRefs.StrictRotationFails | internal/db/migrations/000003_identity_keys.up.sql:62-64 | with the unique index on, rotating an own key in use never succeeds and adds no key, yet replaces the private half |
| KeyRefs.RotationOrphans | internal/identity/key_service.go:106-154 | from every state reachable with the unique index on, such a rotation leaves the key in use while its reference no longer resolves to its own private half |
| Services.Repositories.GeneratePair | internal/crypto/local/keystore.go:34-42 | stores a fresh private half under the slot's reference, refusing an empty key id |
| Services.IdentityService.CreateIdentity | internal/identity/identity_service.go:82-174 | database and result are those of the statement machine, for every point at which the database may fail, and the database stays reachable |
| Services.IdentityService.ChangeStatus | internal/identity/identity_service.go:241-329 | the same for Suspend, Reactivate and Deactivate |
| Services.IdentityService.UpdateIdentity | internal/identity/identity_service.go:211-239 | the same for UpdateIdentity |
| Services.KeyService.GenerateKey | internal/identity/key_service.go:57-88 | the same for GenerateKey |
| Services.KeyService.RotateKey | internal/identity/key_service.go:106-154 | the same for RotateKey |
| Services.KeyService.RevokeKey | internal/identity/key_service.go:156-179 | the same for RevokeKey |
| Services.SoleCall | internal/identity/identity_service.go:82-329 | a call run alone from a reachable database, cut short anywhere, leaves a reachable database |
| Outcomes.UpdateOutcome | internal/identity/postgres/identity_repo.go:135-152 | UpdateIdentity succeeds, conflicts or finds nothing exactly by the row's version and tenant; only a success changes anything, namely content and version |
| Outcomes.StatusOutcome | internal/identity/identity_service.go:241-329 | each status call refuses exactly terminal identities and otherwise sets its status, time and event, for every point of failure |
| Outcomes.GenerateOutcome | internal/identity/key_service.go:57-88 | GenerateKey succeeds exactly for an active identity, a supported type and a permitted insertion; the stored half, the row and the event |
| Outcomes.CreateOutcome | internal/identity/identity_service.go:82-174 | CreateIdentity succeeds exactly for a new id and a permitted insertion, and then leaves the active row, its Ed25519 signing key as primary, the stored half and both events |
| Outcomes.CreateFailed | internal/identity/identity_service.go:82-174 | a CreateIdentity that fails adds at most its row and its first event to identities and log |
| Outcomes.RotateOutcome | internal/identity/key_service.go:106-154 | RotateKey refuses exactly absent, revoked and compromised keys and other types, without any change, and succeeds exactly for a usable key of a present identity and a permitted insertion |
| Outcomes.RevokeOutcome | internal/identity/key_service.go:156-179 | RevokeKey revokes any key of the tenant, whatever its status, and records it |
| Outcomes.RegisterOutcome | internal/auth/webauthn.go:142-185 | registration inserts a P-256 authentication key without a server-held half and makes it primary exactly if there was none |
| SignCounter.StandardExact | internal/auth/webauthn.go:292-304 | the check departs from section 7.2 of W3C WebAuthn Level 2 exactly when a zero count meets a nonzero counter |
| SignCounter.MatchUnique | internal/db/migrations/000004_credentials.up.sql:54-57 | with the unique index at most one row matches an assertion, so the order of the list does not matter |
| SignCounter.CredentialRepo.ListByIdentity | internal/identity/postgres/credential_repo.go:102-135 | returns each row that fits exactly once, in any order |
| SignCounter.WebAuthnService.Candidates | internal/auth/webauthn.go:259-264 | the filter keeps exactly the active passkeys and hardware tokens of the identity |
| SignCounter.WebAuthnService.FinishAssertion | internal/auth/webauthn.go:259-304 | succeeds exactly if for the active WebAuthn credential of the identity with that id the count is zero or above the stored one, then records it there alone, and changes nothing if it fails or the write does |
| SignCounter.CountersFit | internal/auth/webauthn.go:294-302 | in every run every counter fits 32 bits, so narrowing it loses nothing |
| SignCounter.CounterIsLastRecorded | internal/identity/postgres/credential_repo.go:137-146 | in every run of overlapping assertions the counter is the count last recorded, or the one registered |
| SignCounter.AcceptedExact | internal/auth/webauthn.go:292-304 | a count is accepted exactly if it is zero or above the last recorded one |
| SignCounter.NoReplay | internal/auth/webauthn.go:286-304 | after a count is recorded, a nonzero count not above it is accepted only if in between a zero was recorded, or a count whose check came before the recording |
| SignCounter.AtomicNoReplay | internal/auth/webauthn.go:286-304 | without overlap, only a recorded zero lets a nonzero count in again |
| SignCounter.ZeroReopens | internal/auth/webauthn.go:294-302 | from every state, a count is recorded and then rejected, a zero is recorded, and the count is accepted again |
| SignCounter.OverlapReopens | internal/auth/webauthn.go:286-304 | two overlapping assertions can lower the counter so that a recorded count passes again |
| SignCounter.ShutOutExact | internal/auth/webauthn.go:286-304 | once a count is recorded, and while no zero is reported, it and smaller counts are rejected in every continuation exactly if no assertion in flight is about to record a smaller count |
| Argon2Hash.SegmentsOfFormat | internal/crypto/hash.go:16-44 | the printed hash splits at its separators into exactly its six segments |
| Argon2Hash.ParseFormat | internal/crypto/hash.go:75-117 | parsing what was printed returns memory, time, threads as narrowed to 8 bits, salt and hash, for all values |
| Argon2Hash.ParseHash | internal/crypto/hash.go:16-44 | the same for every configuration and salt the hasher may use |
| Argon2Hash.FormatText | internal/crypto/hash.go:16-44 | the printed text, literal by literal |
| Argon2Hash.ParseRefuses | internal/crypto/hash.go:75-117 | texts without six segments or not argon2id are refused with their own errors, and only version 19 with base64 salt and hash is accepted |
| Argon2Hash.VerifyExact | internal/crypto/hash.go:46-67 | verification decides equality of derived keys whatever the current configuration, and accepts the original code |
| Base64.DecodeEncode | internal/auth/jwt.go:119 | decoding an encoding returns the bytes, in both alphabets |
| Base64.EncodeDecode | internal/auth/jwt.go:119 | re-encoding a decodable text returns it exactly if it is canonical |
| Base64.AlphabetTable | internal/auth/jwt.go:119 | the two alphabets are those of RFC 4648 |
| Base64.EncodeGroups | internal/auth/jwt.go:119 | every three bytes become four characters of the same value, most significant bits first, the last group filled with zeros |
| Base64.DecodeExact | internal/crypto/hash.go:105-113 | a text decodes exactly if its characters, line breaks aside, are in the alphabet and do not leave one over |
| Base64.BreaksIgnored | internal/crypto/hash.go:105-113 | a line break anywhere changes nothing |
| Jwk.PadBuffer | internal/crypto/keys.go:108-116 | the copy into a fresh buffer is left zero padding; a long enough input is returned itself |
| Jwk.PaddedCoordinate | internal/crypto/keys.go:108-116 | padding keeps the value, ends in its lowest byte, and gives exactly n bytes if and only if the value is below 256 to the n |
| Jwk.PaddedUnique | internal/crypto/keys.go:108-116 | every byte string is the padding of its own value to its own length |
| Jwk.CoordinateRoundTrip | internal/crypto/keys.go:78-91 | decoding a JWK coordinate returns full-width bytes with the coordinate's value, as in section 6.2.1.2 of RFC 7518 |
| Text.SplitJoin | internal/crypto/hash.go:75-80 | splitting a join of separator-free parts returns the parts |
| Text.ScanOfPrint | internal/crypto/hash.go:75-117 | scanning a printed number returns it and the rest of the text |
| Sql.ReadBack | internal/identity/postgres/identity_repo.go:168-195 | reading a written query gives back each condition with its own value, the order and the page |
| Sql.ColumnExact | internal/identity/postgres/identity_repo.go:181-189 | whatever text is given as sort column, the query reads as one sorted by that column exactly if the text is an unquoted column name |
| Sql.TwoColumns | internal/identity/postgres/identity_repo.go:181-189 | a list of two columns as sort text, with or without a blank, is not read as one column |
| Sql.SampleQuery | internal/identity/postgres/identity_repo.go:168-195 | the words of one query with every clause, in both directions, and what they mean |
| Sql.OperatorTexts | internal/identity/postgres/audit_key_repo.go:115-126 | the three comparison operators as text and as order |
| Sql.MarksOfShape | internal/identity/postgres/identity_repo.go:168-195 | the placeholders of a written query are 1, 2, ... up to the number of arguments |
| Listings.ListIdentities | internal/identity/postgres/identity_repo.go:168-195 | for every table and filter, the query reads as the filter's exactly if the sort text is a column name; then placeholders are in step with the arguments and the rows are those of the filter, ordered, dropped and taken, or an error if the table has no such column |
| Listings.IdentityListSorted | internal/identity/postgres/identity_repo.go:181-195 | for a sort text that names a column of the table and a database that sorts, the list is sorted by that column and direction and holds wanted rows, none twice; without limit and offset it holds exactly the tenant's rows of the given type and status |
| Listings.DocumentedColumns | internal/identity/repository.go:92-100 | the documented sort texts are columns of the table, and none given means created_at |
| Listings.IdentityPagesExact | internal/identity/postgres/identity_repo.go:168-195 | the pages with limit n and offsets 0, n, 2n and so on return every wanted identity exactly once, however the database breaks ties in each query, if and only if no two of them agree in the column of the table that the filter sorts by |
| Listings.ListTenants | internal/identity/postgres/tenant_repo.go:103-119 | for every table and filter: placeholders in step with the arguments, and the rows of the filter, newest first, dropped and taken |
| Listings.TenantListSorted | internal/identity/postgres/tenant_repo.go:113-119 | given a database that sorts, the list is sorted by creation time, latest first, and holds wanted tenants, none twice; without limit and offset exactly those of the given status and tier |
| Listings.TenantPagesExact | internal/identity/postgres/tenant_repo.go:103-119 | the pages return every wanted tenant exactly once, however ties fall, if and only if no two were created at the same time |
| Listings.ListAuditEvents | internal/identity/postgres/audit_key_repo.go:107-135 | for every table and filter: placeholders in step with the arguments, and the events that fit the fields the query applies, newest first, dropped and taken |
| Listings.AuditListSorted | internal/identity/postgres/audit_key_repo.go:115-134 | given a database that sorts, the list is sorted by time, latest first, and holds fitting events, none twice; without limit and offset exactly the tenant's events of the given types between the given times |
| Listings.AuditPagesExact | internal/identity/postgres/audit_key_repo.go:107-135 | the pages return every fitting event exactly once, however ties fall, if and only if no two occurred at the same time |
| Listings.AuditFilterExact | internal/identity/repository.go:189-198 | the audit list is the one its filter asks for on every table exactly if neither ignored field is set, or the time span is empty |
| Listings.StrayReturned | internal/identity/postgres/audit_key_repo.go:115-126 | otherwise there is a table on which the two differ |
| Paging.PagesTile | internal/identity/postgres/identity_repo.go:190-195 | successive pages of one ordering are its rows, each once and in order |
| Paging.TilingExact | internal/identity/postgres/identity_repo.go:189-195 | page by page answers that may each break ties anew return every row exactly once, however they do, if and only if no two rows share a sort key |
| Paging.PagesTileExact | internal/identity/postgres/identity_repo.go:189-195 | the same for any list that is a page of its ordered rows, by limit and offset |
| Paging.TieBreaks | internal/identity/postgres/identity_repo.go:189-195 | with a tie there are answers whose pages repeat one row and miss another |

## Left out

- ReplayYieldsStatus: a sufficient order of events; the exact condition is ReliableExact.
- NoReplay: names what must have happened before a count is accepted again; when it can happen is ShutOutExact.
- LinksStayOwn: a sufficient condition; a link that left its identity can be overwritten by a later rotation. What each rotation does is RotationOwnExact.
- ListIdentities: a sort text that is no unquoted column name (several columns, an expression, a number, a quoted name) is not given a meaning; only that it does not read as one column.
- FinishRegistration is modelled as statements of the machine, not as a method; RegisterOutcome states what it does.
- Logout is Delete of the caller's session with its error ignored.
- Input validation, tenant status, handle uniqueness and attribute encryption of the identity service: easy checks before the modelled statements; a failed one is a call that does nothing.
- Storage of encrypted attributes: the scan puts two columns into one field, so no round trip through storage is claimed.
- Sign and Delete of the local key store beyond the lookup by reference; signature algorithms.
- Refreshing last_used_at, credential revocation beyond its flag, and expires_at of credentials and keys.
- The SELECT list and FROM clause of the list queries, and copying result rows.
- Row-level security, connection handling and transactions spanning statements.
- HTTP and gRPC decoding, routing, CORS, logging, error-to-status mapping and generated code.
- Recovery methods, which the repository declares but does not implement.

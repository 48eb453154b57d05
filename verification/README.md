# AmongClusters control plane: a verified model

AmongClusters peers Kubernetes clusters that do not trust each other. Hub replicas share one Kubernetes API
server; agents in the owners' clusters drive them with signed, numbered messages; gateways carry service
streams; a broker keeps short-lived credentials. This project models the parts of that system whose
correctness depends on how many steps interleave, and proves what holds in every run.

## How the model is built

**Protocols are state machines.** A Hub handler is a program counter between API calls: read, check, write
under the version that was read, answer. A run is any finite sequence of steps (`Exec(schedule)`): any number of
handlers, reconcile passes, administrators and agents in any order, each able to stop for ever at any step, each
write able to be refused, to lose a version race, or to commit while its reply is lost. A step whose guard fails
leaves the state as it is, so a theorem about every schedule is a theorem about every interleaving. The central
fact is `ApiServer.SnapshotSurvives`: however the store evolves, a snapshot whose version still matches is the
current object.

**Code that edits state in place is imperative.** The in-memory store, the session registry with its shifted
slices, advertisement synchronisation, the identity Secret, the agent's grant loop and the broker's store are
classes and loops. Their methods are proved against functions on values, and the theorems are about those functions.

| file | what it models |
|---|---|
| `ApiServer.dfy` | versioned objects, conditional writes, snapshots |
| `Protocol.dfy` | signed control messages, identity registrations |
| `MemoryStore.dfy` | the in-memory store and its atomic specification |
| `Onboarding.dfy`, `OnboardingTheorems.dfy` | claims, invitations and registration on the cluster store |
| `OnboardingRaces.dfy` | racing consumers: the retry budget and who knows that it won |
| `OnboardingRequests.dfy` | what one onboarding or acceptance request leaves behind |
| `ControlPlane.dfy`, `ControlTheorems.dfy` | control messages, bundle confirmation, generation records, peer reconciliation |
| `ControlHandler.dfy` | what one control message does, and that nothing is recorded before its effect was permitted |
| `GenerationRefinement.dfy` | generation records against the in-memory store |
| `Links.dfy`, `LinkWrites.dfy` | link observation against stale-marking passes; exactly what either writes |
| `AgentSequence.dfy` | the agent's sequence across crashes, lost replies and delayed messages |
| `Advertisements.dfy`, `Sorting.dfy` | `SyncAdvertisements`: gate, wildcard, upsert, imports, revocation |
| `Grants.dfy`, `GrantRuns.dfy` | grant reconciliation in the agent; managed access over whole runs |
| `GrantWork.dfy` | which grants a poll offers and in which words; what an instruction makes the agent do |
| `GrantFootprint.dfy` | what a series of reconciliations leaves in the agent's cluster |
| `Broker.dfy` | the broker's reference grammar, Secret names and proxy routes |
| `CredentialBroker.dfy` | the broker's store and revocation, and whose credential a reference is served |
| `Sessions.dfy`, `Gateway.dfy` | session registry; frames, routes and admission |
| `Rotation.dfy` | certificate validity and the identity Secret |
| `ObjectNames.dfy` | object names made from text, and when two texts make the same one |
| `Strings.dfy`, `Values.dfy` | the Go string functions used; small types |

## Assumptions

- Signatures, hashes and encryption are symbolic: a signature verifies exactly under its signer's key and body, a
  bundle digest is a constructor applied to the bundle, an envelope either decrypts to its content or does not.
- Instants are integer nanoseconds since Go's zero time on one clock that never goes back; stored expiries and
  certificate times are cut to whole seconds (RFC 3339 section 5.6, RFC 5280 section 4.1.2.5).
- Random identifiers of claims and invitations are fresh across tenants. Claim and invitation Secrets and
  identities are never deleted. Namespaces contain no slash.
- Peers may be deleted and created again under the same name; their identity references do not change while they
  exist, and their confirmation flags live in the status. Grants are not deleted and created again under one name.
- Links have no writers but observers and reconcile passes, and their specs do not change: an edit between a pass's list
  and its write would make the pass lose its race and leave a stale link Ready without any delay or refusal.
- Broker store requests are served one at a time, in whatever order they arrive (its generation is read and written in two lock sections).
- The API server answers a create, an update or a delete atomically, and gives every commit a new version.

## What does not hold as one would expect

Where a property one would expect does not hold of the code, a reachable run or an input shows it, and the exact
condition is proved.

- **Link freshness.** "A Ready link was observed at most 45 seconds before the last pass" fails in two ways: an observer
  can stall between reading its clock and writing, and a pass that then loses the version race gives up; and a pass drops
  every error of its status write, so a refused write leaves a stale link Ready. `Links.FreshnessIff`: it holds in every
  run exactly when no pass write is refused and the observers' write delay plus the passes' reach delay is at most 45
  seconds. `Links.KeptFreshnessIff`: counting only passes whose write was not refused, the delay condition alone is exact.
- **Retries.** The three-attempt loop runs out only with writes from outside: `OnboardingRaces.ConflictThreshold` puts the
  conflict answer at two such writes to the claim and `ThirdAttemptThreshold` the third attempt at one.
- **Who won.** A used claim may have been won by nobody. `OnboardingRaces.WinnerIffReplyKept`: some call won it exactly when
  the step that committed its consumption did not lose its reply; `LostReplyLeavesNoWinner` is a run that ends in an
  "already used" answer and no winner.
- **Truncated expiry.** The cluster store stores expiries in whole seconds, so in the part of the last second that is cut
  off it refuses what the in-memory store accepts (`OnboardingTheorems.LostSecondIsReached`). `ClaimVerdictsAgree` and
  `InvitationVerdictsAgree` show that this is the only difference, but for invitations of another tenant, which the
  cluster store calls invalid and the in-memory store a tenant mismatch.
- **"Replay" answers.** The Hub answers "replay" also when it cannot write the generation record. The bound of
  (highest signed - persisted) on such answers after a restart holds in every run exactly when no record write fails
  (`AgentSequence.ReplayAnswersBoundedIff`); otherwise there is none (`UnrecordedAreUnbounded`). The bound on messages
  that fail the generation test itself, `ReplaysAreBounded`, holds regardless.
- **Nonces.** The in-memory store refuses a repeated nonce, the cluster store does not
  (`GenerationRefinement.RepeatedNonceIsReached`). `RecordsRefineMemoryStore`: the two agree exactly on runs in which no
  identity repeats a nonce.
- **Refresh.** `Rotation.RefreshIsFresh` names exactly the identity Secrets that a refresh leaves consistent; a wrong digest
  annotation beside a current leaf and root is not among them, because nothing triggers a rewrite.
- **Narrowed grants.** A grant edited to fewer namespaces, or from one scope to the other, keeps its older objects, and a
  retirement looks only into the namespaces the instruction names now. `GrantFootprint.SuccessIsExact` and
  `RetirementIsComplete` give the exact conditions.
- **Shared Secrets.** The broker names a Secret after tenant and grant joined by a hyphen: `Broker.SecretsSharedIff` says
  for any two pairs whether they share one, `Broker.NamesCollideIff` what that means for names that are cut and for names
  that are not, and `CredentialBroker.OwnChangeStandsIff` when a reference is still served its own credential.
- **Canonical identities.** Accepted connections are canonicalised twice, dialled ones once; `Sessions.CanonicalTwice`:
  the two agree exactly for identities that do not end in two slashes.
- **Imports** are not one per target peer: `Advertisements.SharedImportIff` says exactly when two target peers share one; for
  an advertisement name of 63 characters all do, and the import keeps the peer it was first made for.
- **Advertisement names** are not injective: `Advertisements.NamesCollideIff` says exactly which services share one, and
  `OtherPublishersKeepIff` that another publisher's advertisement keeps its record exactly when its name is not generated.

## Model

| member | source | states |
|---|---|---|
| ApiServer.SnapshotSurvives | internal/api/sovereign_store.go:200-225 | An object read once is still the current object whenever its version still matches, whatever was written, deleted or recreated in between |
| Protocol.VerifiedIsSigned | internal/protocol/control.go:65-90 | A message that passes verification is exactly what signing its envelope with the registered key yields, is newer than the last generation and inside its validity window |
| Protocol.VerifiedIff | internal/protocol/control.go:65-90 | A message passes verification if and only if the holder of the key signed it, for this audience, with issuer, nonce and type, under a newer generation and an unseen nonce, issued at most two minutes ahead and not expired |
| MemoryStore.CapabilitiesAllowed | internal/api/sovereign_store.go:262-272 | The set-building loop accepts exactly the requests whose every capability was invited |
| MemoryStore.MemorySovereignStore.CreateOnboardingClaim | internal/api/sovereign_store.go:57-65 | Adds the claim unless its id exists, as the atomic specification step says; otherwise nothing changes |
| MemoryStore.MemorySovereignStore.ConsumeOnboardingClaim | internal/api/sovereign_store.go:66-85 | The atomic consumption of a claim: the specification's verdict, the claim marked used on success, no change on refusal |
| MemoryStore.MemorySovereignStore.CreateInvitation | internal/api/sovereign_store.go:86-94 | Adds the invitation unless its id exists |
| MemoryStore.MemorySovereignStore.ConsumeInvitation | internal/api/sovereign_store.go:95-120 | The atomic consumption of an invitation with all its refusals in the source's order; no change on refusal |
| MemoryStore.MemorySovereignStore.RegisterIdentity | internal/api/sovereign_store.go:121-130 | Registers under the joined tenant and id, once |
| MemoryStore.MemorySovereignStore.RecordGeneration | internal/api/sovereign_store.go:145-161 | Accepts exactly a higher generation under a new nonce; a refusal changes no generation and no nonce |
| Onboarding.Invariant | internal/api/sovereign_store.go:200-277 | In every interleaving of consumers, invitation makers and registrations every call's snapshot is faithful, no claim or invitation is consumed twice, and every made invitation and registered identity is bound to what it consumed |
| OnboardingTheorems.AtMostOneWinner | internal/api/sovereign_store.go:200-225 | For any number of racing consumers at most one call ever commits a claim, and at most one an invitation |
| OnboardingRaces.RetriesNeverRunOut | internal/api/sovereign_store.go:200-225 | While only consumers write claims, no call reaches a third attempt or answers "claim update conflict" |
| OnboardingRaces.ForeignWritesExhaustRetries | internal/api/sovereign_store.go:200-225 | For every claim name, a run from the start in which two outside writes and one racing consumer end in the conflict answer |
| OnboardingRaces.ConflictThreshold | internal/api/sovereign_store.go:200-225 | No run with at most n outside writes to a claim answers "claim update conflict" for it if and only if n is below two |
| OnboardingRaces.ThirdAttemptThreshold | internal/api/sovereign_store.go:200-225 | No run with at most n outside writes to a claim makes a third attempt at it if and only if n is zero |
| OnboardingRaces.AlreadyUsedNamesOneWinner | internal/api/sovereign_store.go:200-225 | In every run an "already used" answer implies exactly one call that spent the claim, in one step, and that call was told of its success if and only if that step did not lose its reply |
| OnboardingRaces.WinnerIffReplyKept | internal/api/sovereign_store.go:217-222 | For every step that consumed a claim in any run: some call won that claim if and only if that step did not lose its reply |
| OnboardingRaces.LostReplyLeavesNoWinner | internal/api/sovereign_store.go:200-225 | A run from the start that ends in an "already used" answer although no call won the claim |
| OnboardingTheorems.IdentitiesSpendInvitations | internal/api/sovereign_server.go:90-122 | In every run with crashes anywhere there is an injection from registered identities into used invitations that keeps tenant, region, cluster binding and capability inclusion |
| OnboardingTheorems.InvitationsSpendClaims | internal/api/onboarding.go:72-101 | In every run there is an injection from onboarding-made invitations into used claims that keeps tenant, cluster and region |
| OnboardingTheorems.RefinesMemoryStore | internal/api/sovereign_store.go:195-278 | The commits of every run, in commit order, are all accepted by the in-memory store, which ends with the same claims, invitations and identities up to truncated expiries |
| OnboardingTheorems.ClaimVerdictsAgree | internal/api/sovereign_store.go:66-85 | In every reachable state, for every token and clock, the two stores judge a claim alike if and only if it is not the case that the token is right, the claim unused and the clock at or past the stored expiry but before the exact one |
| OnboardingTheorems.InvitationVerdictsAgree | internal/api/sovereign_store.go:233-261 | The same for invitations with their cluster binding and capabilities, apart from an invitation of another tenant under the same id and token |
| OnboardingTheorems.LostSecondIsReached | internal/api/sovereign_store.go:195-231 | A run from the start whose clock stands where the cluster store calls a claim and an invitation expired and the in-memory store accepts both |
| OnboardingRequests.RegisteredAsRequested | internal/api/sovereign_server.go:90-122 | In every run every registered identity is, field by field but for the region of the invitation it spent, what an earlier request asked for that carried its owner's proof and that invitation's id and token |
| OnboardingRequests.RegisteredAreWellFormed | internal/protocol/control.go:39-59 | In every run a registered identity is named after its trust domain and cluster and has a SHA-256 digest, a key and QUIC endpoints only |
| OnboardingRequests.FaultsAreAnswered | internal/api/sovereign_server.go:90-122 | In every run a call whose write is refused, or whose reply is lost, answers for good that it failed, and what is refused is not written |
| OnboardingRequests.OnboardingAlone | internal/api/onboarding.go:72-101 | A claim link opened alone spends the claim at the clock of the request and makes a quarter-hour invitation for its cluster and region with the two onboarding capabilities, or answers the verdict and changes nothing |
| OnboardingRequests.AcceptanceAlone | internal/api/sovereign_server.go:90-122 | An acceptance alone registers the identity with the invitation's region and spends the invitation, unless identity, proof, verdict or an earlier registration forbid it; the complete state afterwards in each case |
| OnboardingRequests.ClaimsAreCreated | internal/api/onboarding.go:28-67 | A claim is created exactly for DNS-safe names and a lifetime of a minute to a day, a day if none is given |
| OnboardingRequests.InvitationsAreCreated | internal/api/sovereign_server.go:52-89 | An invitation is created exactly for a lifetime of a minute to a day, a quarter of an hour if none is given, and bound to no cluster |
| OnboardingRequests.DnsSafeIff | internal/api/onboarding.go:15 | The admitted names are exactly the DNS labels: 1 to 63 lower-case letters, digits and hyphens, with no hyphen at either end |
| ControlTheorems.Invariant | internal/api/sovereign_server.go:123-209 | Every interleaving of handlers, reconcile passes and administrators keeps snapshots faithful, flags justified by verified messages, and acknowledgements below the recorded generation |
| ControlTheorems.ReadyMeansBothConfirmed | internal/api/sovereign_reconciler.go:55-75 | In every interleaving a Ready peer names two distinct registered identities, and from each a message arrived and was verified under its registered key that confirms this very peer with the other's registered bundle digest |
| ControlTheorems.VerifiedWasReceived | internal/api/sovereign_server.go:123-152 | Whatever counts as verified was delivered in an earlier step and verified by its own handler, under the registered key, at the clock of that moment |
| ControlTheorems.PeerWritesAreAtomic | internal/api/sovereign_store.go:319-345 | Every step changes a peer by at most one atomic update of the current object, and a reconcile pass that commits writes the classification of the spec and flags current at that commit |
| ControlTheorems.CommittedPassesReconcile | internal/api/sovereign_reconciler.go:55-75 | Whatever stale list a pass works from, a write of it that commits turns the current object into its own reclassification |
| ControlTheorems.PassCommitsIff | internal/api/sovereign_reconciler.go:55-75 | A pass writes a peer if and only if its write is not refused and the peer it listed still stands as listed, and then exactly state and observed generation |
| ControlTheorems.FlagsStay | internal/api/sovereign_store.go:342-344 | A confirmation flag once true stays true, against any stale reconcile passes and racing confirmers, while that peer exists |
| ControlTheorems.AcknowledgementsIncrease | internal/api/sovereign_store.go:302-318 | Acknowledged generations of one identity strictly increase in commit order however many handlers verified against the same last value, over the full uint64 range |
| ControlTheorems.CastsCancel | internal/api/sovereign_store.go:294-318 | Writing a uint64 generation as int64 and reading it back is the identity on the whole range |
| ControlTheorems.AcknowledgedConfirmationsAreDurable | internal/api/sovereign_server.go:153-209 | An acknowledged confirmation did set its sender's own flag on the named peer at some time, and in every continuation it is still set while that incarnation of the peer exists |
| ControlTheorems.MarkWasSet | internal/api/sovereign_store.go:319-345 | Every effect a confirmation is credited with was a flag of the current peer after some prefix of the run |
| ControlHandler.AcceptedWasPermitted | internal/api/sovereign_server.go:160-209 | In every run a call that accepted a message other than a confirmation had, past verification and before recording, its effect permitted |
| ControlHandler.RecordedWasPermitted | internal/api/sovereign_server.go:160-209 | In every run each committed generation record for such a message followed a permitted effect of that very handler |
| ControlHandler.AcknowledgedWasPermitted | internal/api/sovereign_server.go:160-216 | In every run each acknowledgement of such a message followed a permitted effect of a handler of that very message |
| ControlHandler.RefusedEffectsAreDenied | internal/api/sovereign_server.go:160-205 | A refused effect is answered "denied" for good, and the step changes no identity, peer or acknowledgement |
| ControlHandler.AcceptedIsAcknowledged | internal/api/sovereign_server.go:206-216 | In every run an accepted call's own message is acknowledged with the flag it set |
| ControlHandler.FaultsAreAnswered | internal/api/sovereign_server.go:153-209 | In every run a handler whose write is refused, or whose reply is lost, answers an error for good and acknowledges nothing |
| ControlHandler.HandlerAlone | internal/api/sovereign_server.go:123-216 | A handler alone accepts exactly the authentic messages whose effect is in order, records generation and nonce and sets exactly the confirmed flag; it denies all others and writes nothing |
| GenerationRefinement.AcceptedIffNonceNew | internal/api/sovereign_store.go:145-161 | A record with a higher generation is refused by the in-memory store if and only if the identity already used its nonce |
| GenerationRefinement.RecordsRefineMemoryStore | internal/api/sovereign_store.go:302-318 | The generation records of every run are all accepted by the in-memory store if and only if no identity repeats a nonce, and then both hold the same last generations |
| GenerationRefinement.RepeatedNonceIsReached | internal/api/sovereign_store.go:302-318 | A run from the start in which the Hub acknowledges two messages of one identity under one nonce and the in-memory store refuses the second record |
| Links.FreshnessIff | internal/api/sovereign_reconciler.go:104-127 | "Ready at a pass implies observed at most 45 seconds before that pass's clock" holds in every run if and only if no pass write is refused and write delay plus reach delay is at most 45 seconds |
| Links.KeptFreshnessIff | internal/api/sovereign_reconciler.go:104-127 | With refusals allowed, the same before every pass whose write was not refused holds if and only if the delays together are at most 45 seconds |
| Links.LateObservation | internal/api/sovereign_store.go:347-376 | For every pair of delays beyond 45 seconds, a run without refused writes that breaks it |
| Links.RefusedWrite | internal/api/sovereign_reconciler.go:125 | For all delays, zero included, a run in which one refused write leaves a minute-old link Ready after the pass |
| Links.NoReadyLinkIsOld | internal/api/sovereign_reconciler.go:104-127 | With passes whose writes are not refused at most a period apart, no Ready link is ever older than 45 seconds plus that period |
| LinkWrites.WritesAreExact | internal/api/sovereign_store.go:347-376 | In every run each write to a link is an observation, opened and permitted for the peer the link names, that replaces exactly state, reason and time; or a pass that writes exactly what links out of reach, never observed or more than 45 seconds old call for |
| LinkWrites.ObservationAlone | internal/api/sovereign_store.go:347-376 | An observation alone is written if and only if it is permitted and names the link's peer |
| LinkWrites.PassAlone | internal/api/sovereign_reconciler.go:104-127 | A pass alone leaves exactly the reachable links observed within 45 seconds alone |
| AgentSequence.PersistedHubSigned | cmd/agent/main.go:523-556 | Across crashes, lost replies, failed Secret writes and delayed messages: persisted sequence at most the Hub's last generation at most the highest generation signed |
| AgentSequence.ReplaysAreBounded | cmd/agent/main.go:128-149 | After a restart at most (highest signed - persisted) of the agent's own messages fail the Hub's generation test without ever having been accepted; a message whose copy the Hub had accepted first, and one that passed the test but could not be recorded, is not counted |
| AgentSequence.ReplayAnswersBoundedIff | internal/api/sovereign_server.go:206-209 | The same bound on all "replay" answers to messages not accepted before holds in every run if and only if no generation record is refused or loses its race |
| AgentSequence.UnrecordedAreUnbounded | internal/api/sovereign_server.go:206-209 | For every n, a run in which the Hub answers "replay" n times although nothing was signed beyond what was persisted |
| AgentSequence.LaterSendsExceedHub | cmd/agent/main.go:523-556 | After that many sends every send exceeds the Hub's value until the Hub has accepted that very message |
| AgentSequence.RestartMeasures | cmd/agent/main.go:128-149 | The two numbers in that bound are the persisted sequence and the highest generation signed at the moment of the restart |
| AgentSequence.AcknowledgedIsPersisted | cmd/agent/main.go:547-556 | From any reachable state with an acknowledged sequence, a fetch and the commit of its update on an unchanged Secret persist exactly that sequence, and the next start loads it |
| AgentSequence.OnlyAcceptedIsPersisted | cmd/agent/main.go:547-556 | In every run each committed update carries the generation of a message that the Hub accepted from the incarnation that fetched it |
| AgentSequence.SendAlone | cmd/agent/main.go:523-556 | A send that nothing disturbs is accepted exactly when its number exceeds the Hub's, and the number then stands at the Hub and in the Secret |
| AgentSequence.AcceptedOncePerGeneration | internal/api/sovereign_store.go:302-318 | In every run the Hub accepts at most one message per generation, whatever is delivered again and whichever incarnation signs a number a second time |
| AgentSequence.FailedSendsUseNumbers | cmd/agent/main.go:523-546 | A send that fails, before or after its message went out, uses up a number and changes nothing at the Hub or in the Secret |
| AgentSequence.StaleUpdatesAreDropped | cmd/agent/main.go:550-556 | In every run an update built before the Secret was changed otherwise is not written |
| Sorting.SortedNamesUnique | internal/api/sovereign_store.go:457 | A set of names has only one ascending list |
| ObjectNames.SameNameIff | internal/api/sovereign_store.go:399-406 | Two texts make the same object name if and only if, past leading hyphens, their first 63 lowered characters with dots and underscores as hyphens agree but for trailing hyphens |
| ObjectNames.NameIsMiddle | internal/api/sovereign_store.go:399-406 | A name is a middle part of its text's first 63 characters in lower case with hyphens for dots and underscores; what is left out at the ends is only hyphens, dots and underscores |
| ObjectNames.SameShortNameIff | internal/api/sovereign_store.go:399-406 | For uncut texts with letters or digits at both ends: if and only if the lowered texts are equal |
| ObjectNames.SameLongNameIff | cmd/broker/main.go:302-308 | For cut texts that begin with one: if and only if the first 63 lowered characters are equal |
| ObjectNames.PiecesDetermine | cmd/broker/main.go:302-308 | A text is determined by its pieces between hyphens |
| ObjectNames.PiecesOfJoin | cmd/broker/main.go:302-308 | Joining two texts by a hyphen appends their pieces |
| Advertisements.AdNameShape | internal/api/sovereign_store.go:399-406 | Advertisement names are at most 63 characters, neither begin nor end with a hyphen and hold no capital, underscore or dot |
| Advertisements.NamesCollide | internal/api/sovereign_store.go:399-406 | Two services of one publisher, and services of two publishers, share a name whenever their joined texts agree |
| Advertisements.NamesCollideIff | internal/api/sovereign_store.go:399-406 | Any two services share a name if and only if their visible texts agree but for hyphens at the ends; uncut, if and only if issuer, namespace and name have the same hyphen-separated pieces; both cut, if and only if the first 63 characters agree |
| Advertisements.SharedImportIff | internal/api/sovereign_store.go:502-511 | Two target peers share an import if and only if the advertisement's name leaves no room, within 63 characters, for one in which they differ |
| Advertisements.TargetsAreDetermined | internal/api/sovereign_store.go:438-461 | What the API server answered determines the targets of an accepted service: its own list, or the sorted names of the Ready, unsuspended peers of the publisher |
| Advertisements.ExpandWildcard | internal/api/sovereign_store.go:442-457 | The wildcard becomes exactly the ascending list of Ready, unsuspended peers that include the publisher |
| Advertisements.PortAllowed | internal/api/sovereign_store.go:462-468 | The port loop allows a port exactly when the policy lists it or lists none |
| Advertisements.CheckService | internal/api/sovereign_store.go:419-485 | Unless the API server fails, a service is let through if and only if its fields, policy, quota, contract and every target are acceptable, and then to exactly those targets |
| Advertisements.AdvertisementStore.CreateImports | internal/api/sovereign_store.go:502-511 | Adds a missing import for every target, and no other; existing imports keep their content even on failure |
| Advertisements.AdvertisementStore.PublishService | internal/api/sovereign_store.go:419-511 | One service writes at most its own advertisement, with every field as the snapshot, the identity and the accepted targets say, and its imports, and only after passing the gate; without an outage it succeeds exactly when it passes |
| Advertisements.AdvertisementStore.PublishServices | internal/api/sovereign_store.go:418-512 | The loop writes exactly the records of the services handled, in order, each accepted in the world it was checked in, and collects exactly their names |
| Advertisements.AdvertisementStore.RevokeOthers | internal/api/sovereign_store.go:513-524 | Revokes exactly the advertisements labelled with the publisher that were not generated, except those whose write failed |
| Advertisements.AdvertisementStore.SyncAdvertisements | internal/api/sovereign_store.go:413-525 | Success publishes every service and revokes the rest; an error leaves exactly the accepted services of a prefix written and nothing revoked; a refusal names a service that no targets would make acceptable; without an outage there is no other error and no revocation is missed |
| Advertisements.LastPublished | internal/api/sovereign_store.go:486-501 | Under a generated name stands what the last service so named says, field by field |
| Advertisements.NotPublished | internal/api/sovereign_store.go:486-501 | A name that is not generated is untouched by the writes |
| Advertisements.GeneratedAreCurrent | internal/api/sovereign_store.go:486-525 | After success every generated name says, field by field and unrevoked, what its last service, the publisher's identity and the accepted targets say |
| Advertisements.WildcardsAreStoredExpanded | internal/api/sovereign_store.go:438-501 | After success a wildcard service's advertisement names exactly the Ready, unsuspended peers of the publisher, in ascending order, and never the wildcard |
| Advertisements.UnrevokedAreGenerated | internal/api/sovereign_store.go:513-524 | After success the publisher's unrevoked advertisements are exactly the generated names when the revocations commit, and differ at most by the failed ones otherwise |
| Advertisements.QuotaHolds | internal/api/sovereign_store.go:431-434 | Their number is at most the `maxAdvertisements` of every policy a service refers to |
| Advertisements.OthersUntouched | internal/api/sovereign_store.go:513-524 | A name the snapshot does not generate keeps its object, unless it is labelled with the publisher, and then only `revoked` changes |
| Advertisements.OtherPublishersKeepIff | internal/api/sovereign_store.go:486-525 | Another publisher's advertisement keeps its record through a successful synchronisation if and only if its name is not generated |
| Advertisements.EarlyStopRevokesNothing | internal/api/sovereign_store.go:418-512 | After an error every object is the one from before or says, field by field and unrevoked, what a service that was accepted says |
| Advertisements.WildcardTargetsAreConfirmed | internal/api/sovereign_store.go:438-461 | Read from any reachable Hub state, every wildcard target is an unsuspended peer of the publisher that both identities confirmed by signature |
| Grants.DecimalInjective | cmd/agent/main.go:376-378 | The decimal texts of two generations are equal only if the generations are |
| Grants.PlanWithin | cmd/agent/main.go:379-432 | Every object an instruction leads to lies under its own name, scope and namespaces and carries its own rules or none |
| Grants.ShortGrantResource | cmd/agent/main.go:337-343 | A grant name of at most 48 characters that does not end with a hyphen becomes the prefix and the name in lower case |
| Grants.SharedResourceIff | cmd/agent/main.go:337-343 | Two grants share their objects if and only if their first 48 characters agree in lower case but for trailing hyphens |
| Grants.LifetimeBounds | cmd/agent/main.go:433-439 | A token is requested if and only if ten minutes are left, for 600 to 3600 seconds, never past the grant's end |
| Grants.Agent.SendControl | cmd/agent/main.go:519-556 | The sequence moves on by one whatever becomes of the message |
| Grants.Agent.Provision | cmd/agent/main.go:379-432 | The RBAC writes made are a prefix of the instruction's plan, on success all of it; without an outage all of it, and it fails exactly for an unsupported scope |
| Grants.Agent.UploadCredential | cmd/agent/main.go:473-517 | Sends at most one store message, carrying only what the instruction allows, and has overtaken its number on success |
| Grants.Agent.ReconcileGrant | cmd/agent/main.go:360-449 | A revoked or expired grant deletes exactly the objects its instruction names whose deletion does not fail, and nothing else; an unapproved one changes nothing; otherwise a prefix of the plan is applied, and a credential is sent only after the whole plan under an approval of that generation; without an outage each answer is determined |
| Grants.Agent.PollGrants | cmd/agent/main.go:344-359 | Whatever fails, every new store and every changed object belongs to an owner-approved instruction of the answer, every object gone was named by a revoked or expired one, and the stores' numbers keep increasing; success means that the broker was told of every instruction, and without an outage it is certain when all are in order |
| Grants.PlannedWithin | cmd/agent/main.go:360-431 | Applying any part of a plan changes only what its instruction covers |
| Grants.StoresIncrease | cmd/agent/main.go:473-517 | Within one incarnation the generations of successive store messages strictly increase on every path, as long as the uint64 is not used up |
| GrantRuns.Invariant | internal/api/sovereign_store.go:527-570 | In every interleaving of edits, approvals, poll assembly and agent writes every offer, role and credential stays traceable to a recorded grant version |
| GrantRuns.CredentialsAreDoublyApproved | cmd/agent/main.go:360-449 | Every stored credential stems from a generation that was Hub-approved, unrevoked, for a kubernetes-api advertisement of this cluster, and approved by the owner; its lifetime is 600 to 3600 seconds and ends before that generation's expiry |
| GrantRuns.RolesAreDoublyApproved | cmd/agent/main.go:384-431 | Every Role and ClusterRole carries exactly the readable rules of such a generation, each field in its place, in order and once, of that scope, in a namespace that generation names |
| GrantRuns.ApprovalNamesOneSpec | internal/api/sovereign_store.go:527-570 | An approval text stands for one generation and that generation for one spec, now and in every continuation |
| GrantRuns.ReadableSelects | internal/api/sovereign_store.go:556-566 | The rules read are the readable entries of the spec, unchanged, in order and each once |
| GrantWork.GenerationsCountSpecs | internal/api/sovereign_store.go:527-570 | In every run the recorded versions of a grant are those from 1 to its current generation |
| GrantWork.EditsTakeEffect | internal/api/sovereign_store.go:527-570 | In every run an edit of a grant takes effect at once and raises the generation exactly when it changes the spec |
| GrantWork.OffersAreExact | internal/api/sovereign_store.go:527-570 | In every run an offer says, field by field, what a recorded approved version of its grant says, for a kubernetes-api advertisement of this cluster |
| GrantWork.PollsBeginWithAll | internal/api/sovereign_store.go:527-531 | A poll looks at every grant there is when it begins |
| GrantWork.PollOffersExactlyTheDue | internal/api/sovereign_store.go:532-568 | Each round offers its grant exactly when it is approved, has a readable expiry, and its advertisement is readable, this cluster's and of the Kubernetes API |
| GrantWork.AnswersAreTaken | cmd/agent/main.go:344-359 | An answer is taken once every listed grant was looked at, by a free agent, which then works through all its offers in order |
| GrantWork.FailuresEndPolls | cmd/agent/main.go:353-449 | Every failure of the agent ends the poll, and at most the write or store in question took effect |
| GrantWork.ApprovedAlone | cmd/agent/main.go:360-449 | For an instruction neither revoked nor expired an undisturbed agent writes exactly its plan and stores one credential of the right lifetime, stops after the writes for lack of scope or time, or at once for lack of approval |
| GrantWork.RetiredAlone | cmd/agent/main.go:362-372 | For a revoked or expired one it deletes exactly the objects named and goes on |
| GrantFootprint.HeldIsFootprint | cmd/agent/main.go:360-431 | After any series of partial applications and retirements the objects under a grant's name are exactly those written and not deleted since |
| GrantFootprint.SuccessIsExact | cmd/agent/main.go:383-431 | After a successful reconciliation the cluster holds exactly the current plan with its rules if and only if earlier rounds left nothing outside the current scope and namespaces |
| GrantFootprint.RetirementIsComplete | cmd/agent/main.go:362-372 | After a retirement whose deletions succeed nothing is left if and only if earlier rounds left nothing in a namespace the instruction does not name |
| GrantFootprint.NarrowingIsNotExact | cmd/agent/main.go:408-431 | With every earlier generation fully applied, the first holds if and only if the current generation names every scope and namespace they named |
| GrantFootprint.NarrowedRetirementIsNotComplete | cmd/agent/main.go:362-372 | With every earlier generation fully applied, the second holds if and only if the retired generation names every namespace they named |
| GrantFootprint.NarrowedGrantKeepsItsRole | cmd/agent/main.go:360-431 | For every grant edited to leave out a namespace: its Role there, with the older rules, survives both the next successful reconciliation and a complete retirement |
| CredentialBroker.Broker.Store | cmd/broker/main.go:146-200 | An acceptable message is stored exactly when its generation exceeds the remembered one, outages aside, and is otherwise refused as a replay; a stored one changes exactly its pair's Secret and its sender's generation, any other answer no generation; a bad request is exactly a malformed message or an authentic new one without a usable credential |
| CredentialBroker.Broker.Revoke | cmd/broker/main.go:69-100 | Only an authentic revocation deletes, and only the Secret of its pair; outages aside it always does, or finds none; the remembered generations play no part |
| CredentialBroker.AgentStoresAreAcceptable | cmd/agent/main.go:496-502 | A store message signed with the registered key is acceptable if and only if the broker's clock is within two minutes before and one minute after its issue and the credential lives |
| CredentialBroker.OnlyThePastReplays | cmd/broker/main.go:170-198 | Among increasing generations an attempt is too old if and only if it does not exceed what was remembered before the first of them |
| CredentialBroker.RememberedIsMaximum | cmd/broker/main.go:170-198 | In any order a generation is too old if and only if what was held beforehand or some stored attempt was as new |
| CredentialBroker.ServeInOrder | cmd/broker/main.go:146-200 | Stores of one identity, run through the broker in any order of arrival with any failures in between: an acceptable one is answered as a replay if and only if it does not exceed what was held before or what an earlier one stored; with increasing generations, if and only if it does not exceed what was held before all of them |
| CredentialBroker.IncarnationsDoNotReplayThemselves | cmd/broker/main.go:170-198 | A store of an agent incarnation is too old for what the broker then remembers if and only if it is for what it held before that incarnation, whatever became of its other stores |
| CredentialBroker.IncarnationMessagesIncrease | cmd/agent/main.go:473-517 | The store messages of an incarnation carry increasing generations, as the series above asks |
| CredentialBroker.LastChangeStands | cmd/broker/main.go:184-195 | A Secret holds what its last committed change put there |
| CredentialBroker.OwnChangeStandsIff | cmd/broker/main.go:184-195 | The last change made for a pair decides its Secret if and only if no later one was made for a colliding pair |
| CredentialBroker.ReferencesServeTheirOwn | cmd/broker/main.go:201-245 | Without such a change a request with the pair's reference is forwarded under the credential last stored for that very pair |
| CredentialBroker.CollidingPairsTakeOver | cmd/broker/main.go:184-195 | A later store for a colliding pair replaces the credential behind the reference |
| Broker.OpaqueParts | cmd/broker/main.go:247-265 | Whatever the opaque route takes apart is an issued reference, and tenant, grant and path rebuild the request |
| Broker.OpaqueRoundTrip | cmd/broker/main.go:199-265 | A request is forwarded for a tenant, grant, path and credential if and only if it carries the reference issued for the two and that very path, and the broker holds that credential for them, unexpired and with a valid target |
| Broker.OpaqueNeverUnauthorized | cmd/broker/main.go:201-211 | On the opaque route the rebuilt header always equals the supplied one |
| Broker.ExplicitRoundTrip | cmd/broker/main.go:247-251 | On the explicit route the prefix and the parts joined by slashes are the original path |
| Broker.ExplicitForwardsRest | cmd/broker/main.go:201-245 | What is forwarded there, after tenant and grant, completes the original path, under a live credential of the two, for an admitted user or the holder of their reference |
| Broker.ExplicitAnswers | cmd/broker/main.go:201-251 | Every explicit request for a tenant and a grant is answered for these two: unauthorized exactly without admission and their reference, and else by whether the broker holds a credential, it lives and its server parses; forwarded with the rest of the path |
| Broker.ExplicitNotFoundIff | cmd/broker/main.go:201-251 | An explicit request is not found if and only if its path names no grant |
| Broker.OpaqueAnswers | cmd/broker/main.go:201-265 | Every request with a reference on the opaque route is answered for its tenant and grant in the same way, whatever the user is allowed |
| Broker.OpaqueNotFoundIff | cmd/broker/main.go:252-265 | Such a request is not found if and only if it carries no reference |
| Broker.SecretsSharedIff | cmd/broker/main.go:302-308 | Any two references share a Secret if and only if the first 63 lowered characters of their joined texts agree but for hyphens at the ends |
| Broker.NamesCollideIff | cmd/broker/main.go:302-308 | For names with letters or digits at the ends, dots included: uncut, two references collide if and only if they are the same or shifted across a hyphen, dot or underscore; both cut, if and only if the first 63 characters agree |
| Broker.LongReferencesShare | cmd/broker/main.go:302-308 | Joined texts that agree in their first 63 characters share a Secret, whatever they begin with |
| Sessions.CanonicalTwice | cmd/gateway/main.go:50-56 | Canonicalising twice and once agree if and only if the identity does not end in two slashes |
| Sessions.SessionRegistry.PutSession | cmd/gateway/main.go:51-56 | The connection is appended to its identity's list, every other list stays, no list shares its array |
| Sessions.SessionRegistry.Get | cmd/gateway/main.go:57-65 | The first connection of the list, none for an empty one |
| Sessions.SessionRegistry.Has | cmd/gateway/main.go:66-70 | True exactly when the list is not empty |
| Sessions.SessionRegistry.RemoveSession | cmd/gateway/main.go:71-87 | The first occurrence is removed and an emptied list disappears, every other list stays |
| Sessions.ShiftDown | cmd/gateway/main.go:76-78 | The in-place shift equals cutting out one element |
| Sessions.RegistryHoldsLive | cmd/gateway/main.go:40-87 | In every interleaving of registrations and removals on distinct connections an identity's list holds exactly the not-yet-removed connections in registration order, and no empty list is kept |
| Sessions.RemovalEvictsNoOther | cmd/gateway/main.go:71-87 | Removing one connection evicts no other, under any identity |
| Gateway.FrameRoundTrip | cmd/gateway/main.go:433-440 | The export side recovers the identity and leaves the payload unread if and only if the identity has 1 to 2048 bytes; a longer one whose length wraps leaves more than the payload unread |
| Gateway.BadLengthsRejected | cmd/gateway/main.go:307-320 | The two length bytes of an identity are rejected, whatever follows them, if and only if its length modulo 65536 is zero or beyond 2048 |
| Gateway.StaticRoutes | cmd/gateway/main.go:100-106 | Static routes are refused as a whole when one is incomplete, and otherwise the later of two routes for an identity stands |
| Gateway.RouteAllowsIdentity | cmd/gateway/main.go:356-372 | The nested loops admit a caller if and only if a target peer is the wildcard or lists an identity equal up to one trailing slash |
| Gateway.OverlayIsLastMatch | cmd/gateway/main.go:322-330 | Entering routes one after the other keeps exactly the last route of each identity, and an entry only for identities in the list |
| Gateway.HandleExport | cmd/gateway/main.go:307-355 | A stream is rejected, acknowledged as a heartbeat, refused or dialled as the frame, the overlaid routes and the admission say |
| Gateway.ImportReachesLastRoute | cmd/gateway/main.go:307-440 | An import reaches a target with its payload intact if and only if its length is legal, it is no heartbeat, and the last route in static-then-file order admits the caller and names that target |
| Gateway.StreamAnswers | cmd/gateway/main.go:307-355 | For every identity: rejected exactly for an illegal length, acknowledged exactly for the heartbeat, not advertised exactly without a route, refused or dialled exactly as the last route admits the caller |
| Rotation.YearsAdd | internal/identity/identity.go:32-53 | Adding n years of calendar moves an instant by at least 365 n days, leap days and 29 February included |
| Rotation.DaysAreNumbered | internal/identity/identity.go:32-53 | Dates are numbered from 1 January of year 1, each by one more than the day before, with the Gregorian month lengths and leap years |
| Rotation.AnniversaryIsDate | internal/identity/identity.go:32-53 | Adding years keeps the date, except that 29 February becomes 1 March in a year without one |
| Rotation.IdentitySecret.RefreshTLSSecret | cmd/agent/main.go:158-194 | The in-place refresh writes exactly the refreshed Secret or nothing, and succeeds exactly when issuance and the update do |
| Rotation.RefreshIsFresh | cmd/agent/main.go:158-202 | For every Secret: a refresh succeeds with the leaf inside the root, 2 hours of leaf and a year of root left and the digest annotated if and only if the root is missing, undecodable or due, or is the agent's own and what is kept beside it is consistent; the digest moves only if the root was missing or due or the annotation missing or wrong |
| Rotation.RefreshWrites | cmd/agent/main.go:158-194 | Everything a refresh writes, for every Secret: which certificates are replaced, by which, with which lifetimes, which errors, and that a generation annotation is kept |
| Rotation.ManagedLater | cmd/agent/main.go:158-202 | A refreshed Secret can be refreshed again at every later time |
| Rotation.EveryRefreshIsFresh | cmd/agent/main.go:158-202 | Over every run on a nondecreasing clock, from a Secret that is missing, undecodable, due, the agent's own or its own without a digest, no refresh fails and each leaves that state |
| Rotation.DigestMovesOnlyWhenDue | internal/identity/identity.go:54-69 | Over every run a published digest changes only when the root it names is within a year of expiry |

## Left out

- QUIC, TLS, TCP copying, HTTP servers, JSON, PEM and X.509 encoding, Ed25519, X25519 and AES-GCM: libraries; a connection is an opaque reference and cryptography is symbolic.
- `reconcileAdvertisements`, `reconcileImports`, `reconcileGrants` and `FulfillGrant`: status writers that follow the Get-modify-Update pattern already proved for peers and links.
- Withdrawal of imports: no code removes an import when its advertisement is revoked, and none is modelled.
- The local port of an import (an FNV-1a hash of its name): it constrains nothing else.
- `advertisedServices`, `writeGatewayRoutes`, `heartbeat`, `register` and `installMarkdown` in the agent and the Hub: they assemble requests and text.
- Token and access reviews of the broker, and whether a stored server parses as a URL: parameters of the proxy.
- EveryRefreshIsFresh: a run starts from a Secret that `Managed` describes; one that a stranger filled with another root, or annotated with a wrong digest beside a current leaf, is put in order only once its root is due.
- SuccessIsExact: stated from a cluster without objects of the grant's name; objects that another party made under it are not modelled.
- CheckService: `strings.ToLower` and the name limits are modelled for ASCII text, which is what the API server admits in names.
- SyncAdvertisements: other writers of the same advertisements during a call are not interleaved; a write that loses a version race to one counts as a failed API call, before or after its own commit. Policies and peers may change between services, not within one.
- UnrevokedAreGenerated: a failed revocation write is ignored by the code, so the exact equality is stated for runs in which none fails.
- NoReadyLinkIsOld: the bound counts passes whose write was not refused, because a refused write leaves a stale link Ready until the next one.
- AcknowledgementsIncrease: the CRD's minimum of 0 on `lastGeneration` is not modelled; with it, the API server refuses generations from 2^63 on.
- LaterSendsExceedHub: stated while the incarnation has not used up the uint64 range, as is `StoresIncrease`; the wrap-around itself is modelled.
- Control messages other than confirmations: inside the control plane machine their effect is a single permitted-or-not outcome; link observation, synchronisation and grant polls have their own models.
- RolesAreDoublyApproved: object names are cut to 63 lower-case characters, so two grants can share one; the theorem then names one of them. Bindings that another party created under such a name are not modelled.
- PollGrants: the owner's approvals are fixed during one poll of the class; `GrantRuns` lets them change between any two steps.
- ReconcileGrant: an update of a role that vanished after the create said it exists is a failed write.
- IncarnationsDoNotReplayThemselves: concurrent store requests at the broker are not interleaved.

# A verified model of the Loyalty Interchange control plane

This project models the state machines of the cloud control plane and the smaller algorithms around them, and proves
what they promise over every run, every interleaving or every input. `dafny verify dfyconfig.toml` checks all of it.

## What is modelled

**Merchant credentials.** `ManagedCredentialService`, its operation store and the per-environment issuer.
`CredentialService` is the protocol: every call of the store or the issuer is a step, steps of concurrent calls
interleave, a store call can fail before or after it took effect, and the process can crash between any two steps.
`CredentialReplay` proves what callers are handed. `MerchantIssuer` is the promise chain that lets one rotation of an
environment run at a time, over the key table of `TenantKeys`. `CredentialSafety` runs the two together, and
`CredentialOrphans` says what a recovery does to the key of an interrupted attempt when other operations issue too.
`ManagedCredentials` is the service as an object that makes one issuance at a time; what it does is shown to be a run of
the protocol. `CredentialStore` is the in-memory store, `Handoffs` the sealed envelope.

**Runtimes.** `RuntimeManager` is the single-flight cache of start promises with suspension and shutdown.

**Provisioning.** `ProvisioningQueue` is the queue of the in-memory repository under any number of workers that may
stall past their lease; `ProvisioningWorker` is one worker, its retries and its termination.

**Usage.** `Calendar` and `IsoText` are the calendar and the date format of ECMA-262 (sections 21.4.1 and 21.4.1.32);
`UsageMetering` is the meter and the service in front of it, with its composed string keys.

**Operators.** `Operators` holds what a call decides and what the repository writes, `OperatorRuns` every interleaving of
calls, `OperatorDirectory` the objects.

**Customers.** `Customers` and `CustomerRuns` are the cloud platform's accounts; `CustomerDirectory` and
`CustomerResolution` are the identity package's directory and its concurrent sign-ins.

**Migration, ports, manifests.** `Csv`, `MemberImportPlanning`, `MemberImportReconciliation`, `PortRegistry`,
`CanonicalJson`, `ReleaseManifest`.

Instants are integer milliseconds. A call that another one can interrupt is split into what it reads and what it writes;
the reads of one call are taken together. Histories (what was handed out, which expiries a key's chain was granted, what a
failing close dropped) are fields of the model that no decision reads. What each main operation does is stated twice: by the
function that the object's method is proved against, and by a lemma (named `...Exactly` or `...AsAsked`) that says it of the
request's own fields and of the state before and after. Random identifiers are parameters that are fresh.
Where the code keys a map by a JSON array, the model uses a tuple; where it joins parts with colons, the model builds the
string and proves when it can be taken apart.

## What the model found

Each of these is a lemma about a concrete run or input, next to one that says exactly when the guarantee it breaks holds.

- When another operation issues on the environment between a crash and the recovery, the recovery's zero overlap falls on
  that operation's key, and the orphan keeps living (`CredentialOrphans.AnotherIssuanceKeepsTheOrphanAlive`). In every run
  the orphan outlives the recovery if and only if it is not the key that the recovery found standing
  (`OrphanSurvivesExactly`).
- A rotation that was applied but whose save is reported as failed is adopted as if the key had vanished, which leaves
  two standing keys (`MerchantIssuer.UnsavedRotationThenAdoption`). Creating a key keeps the standing key unique exactly
  when none stands (`CreationNeedsNoStanding`).
- `Date.UTC` reads the years 0 to 99 as 1900 to 1999: a usage period contains its instant exactly when the year is not one
  of them, and those events are counted nineteen centuries later (`Calendar.PeriodContainsItsInstant`,
  `UsageMetering.CountersAreMonths`).
- A shutdown stops at the first runtime that fails to close: what stood behind it runs on and is never closed
  (`RuntimeManager.FailingShutdownLosesOne`). Exactly those runtimes are lost, and for ever (`LostExactly`,
  `LostForEver`).
- A worker whose claim was superseded can report that it retries a job that its own report has failed
  (`ProvisioningWorker.SupersededClaimReportsARetry`), exactly when the claims by others meanwhile used up the attempts
  (`ReportsAgreeExactly`).
- An operator's deactivation that saw it inactive, and crosses its reactivation, can deactivate the last platform admin
  (`OperatorRuns.ReactivationCrossesDeactivation`); exactly an unguarded deactivation of the last one does
  (`StrandsExactly`).
- Two rotations of one operator key that cross revive the key that the first one cut over
  (`OperatorRuns.CrossingRotationsRevive`); a dead key revives exactly when a rotation gives it an end that is still to
  come (`RevivesExactly`, `DeadKeysReviveExactly`).
- A profile update that crosses a deletion gives the deleted account a profile again (`CustomerRuns.UpdateCrossesDeletion`);
  an account stays erased exactly when no write puts something back in it (`UndoesExactly`, `StaysErasedExactly`).
- A sign-in that crosses a deletion links a member to the deleted customer
  (`CustomerResolution.DeletionCrossesResolution`); its links are frozen exactly when no step stores one that was absent
  (`LinksOfDeletedChangeExactly`, `LinksAreFrozenExactly`).
- An owner whose customer id is empty counts as no owner, exactly then a binding breaks the membership index
  (`CustomerRuns.BindingKeepsTheIndexExactly`).
- An applied import reconciles exactly when no two entries share a balance key, unless both expect nothing; a member id
  that spells out a unit and another member id makes one fail (`MemberImportReconciliation.ReconcilesExactly`,
  `SpelledOutKeyFails`).
- A reload of the port registry that crosses a start forgets the port, and the next environment can be given it
  (`PortRegistry.ReloadCrossesAStart`); exactly such reloads break the agreement of registry and environments, and exactly
  the ports of forgotten environments are given out while in use (`StepKeepsInvExactly`, `GivenInUseExactly`,
  `HarmfulReloadsExactly`).

Where comment and code differ, the code is followed: the service's comment says that a recovery's predecessor is always an
orphan nobody holds, which the first item refutes.

## Model

| member | source | states |
|---|---|---|
| CredentialSafety.OneLiveKeyPerOperation | apps/cloud/src/credential-operations.ts:373-461 | In every run in which nothing else issues on the environment, with crashes, retries, lost acknowledgements and refusals at any step, two live keys that the service had minted are the same key |
| CredentialSafety.TheLiveKeyIsTheSealedOne | apps/cloud/src/credential-operations.ts:398-461 | Once an operation is issued, its environment has no live minted key but the one in the handoff, which lives until it is revoked, and an envelope that is kept opens to that handoff |
| CredentialSafety.UndisturbedRunsAreSafe | apps/cloud/src/credential-operations.ts:301-461 | The invariant of the service and its issuer together: live minted keys stand, so that a zero-overlap rotation finds them; a flight that may mint with an overlap has no earlier key; a recorded key is the only one that may live |
| CredentialOrphans.OrphanSurvivesExactly | apps/cloud/src/credential-operations.ts:388-395 | In every run, whatever else issues: from the time a recovery asks for its key until it gets one, a key that is live before it gets it, such as an orphan, stays live if and only if it is not the key that the recovery's snapshot found standing |
| CredentialOrphans.AnotherIssuanceKeepsTheOrphanAlive | apps/cloud/src/credential-operations.ts:388-395 | A run of service and issuer from any initial state without a standing key: an attempt gets its key and the process dies, another operation issues, and the recovery leaves two live keys of one operation and the other operation's key dead |
| CredentialOrphans.ChosenUntilTheMint | apps/cloud/src/managed-data-plane.ts:351-389 | From its snapshot until it is answered, a zero-overlap request rotates the key it found, or that key is dead, in every interleaving |
| CredentialOrphans.RecordedKeysDieInRecovery | apps/cloud/src/credential-operations.ts:373-386 | In every run the key that an earlier attempt recorded is dead from the recovery's revocation on, for ever |
| CredentialReplay.OneFlightPastTheCheck | apps/cloud/src/credential-operations.ts:273-299 | Of all flights for one environment and idempotency key, at most one is past the fingerprint check at any time |
| CredentialReplay.EverybodyIsHandedTheSame | apps/cloud/src/credential-operations.ts:301-371 | All callers ever handed a credential under one idempotency key are handed the same one, and asked for the same kind and the same overlap |
| CredentialReplay.IssuedForEver | apps/cloud/src/credential-operation-store.ts:227-274 | An issued operation never changes again, except that its envelope may be erased |
| CredentialReplay.LaterCallsAreAnsweredFromTheRecord | apps/cloud/src/credential-operations.ts:328-348 | Calls made after an operation was issued are answered with its handoff, refused as a conflict if they ask for another kind or another overlap, or told it has expired; none of them reaches the issuer |
| CredentialService.FingerprintsAgreeExactly | apps/cloud/src/credential-operations.ts:191-203 | Fingerprints agree exactly when environment, kind and overlap do |
| CredentialReplay.RecordsComeFromCalls | apps/cloud/src/credential-operations.ts:301-326 | In every run each record was made by a call, and says for ever which environment, key, kind, overlap and subject that call had |
| CredentialReplay.CallsShareExactly | apps/cloud/src/credential-operations.ts:273-299 | A call joins a flight if and only if one is filed for the same key, kind and overlap; any other gets its own, and a flight that ends is filed no longer |
| CredentialReplay.OverlapsAskedFor | apps/cloud/src/credential-operations.ts:328-396 | A flight comes to mint as the first attempt of its key, with the overlap its caller asked for, or as a recovery, with none |
| CredentialReplay.OverlapsAreKept | apps/cloud/src/credential-operations.ts:398-411 | A flight waits for the issuer with the record and the overlap it came to mint with |
| CredentialReplay.FailuresReachTheCaller | apps/cloud/src/credential-operations.ts:301-461 | A failed store call, a lost acknowledgement, a refused revocation and a refused mint each end the flight with their own error |
| CredentialReplay.PurgesAndTicks | apps/cloud/src/credential-operation-store.ts:283-293 | A purge erases exactly the envelopes whose retention is over and changes nothing else |
| CredentialReplay.ReplayOutcome | apps/cloud/src/credential-operations.ts:350-371 | A replay gives the handoff for exactly its retention period and the expiry answer ever after |
| CredentialReplay.RunKeepsInv | apps/cloud/src/credential-operations.ts:273-461 | What every interleaving keeps: one owner for a key, envelopes that open to what was handed out, one running flight for each in-flight key, each phase in step with its record |
| ManagedCredentials.AskingAgain | apps/cloud/src/credential-operations.ts:301-371 | After a delivery, asking again changes no record: another kind or another overlap gets the conflict, the same request the same handoff until it expires and the expiry answer after |
| ManagedCredentials.FirstRequestIsMinted | apps/cloud/src/credential-operations.ts:301-337 | A new idempotency key makes one record that says what was asked for, and the issuer is asked with the overlap asked for; its answer is what the record and the caller are told, and a handoff is kept for a day |
| ManagedCredentials.KnownRequestIsAnswered | apps/cloud/src/credential-operations.ts:338-396 | A known key: a conflict when kind or overlap differ, the handoff while it is kept, no mint while a recorded key cannot be revoked, and otherwise a mint with zero overlap |
| ManagedCredentials.IssueIsARun | apps/cloud/src/credential-operations.ts:273-461 | Whatever one uninterrupted issuance stores and answers, the protocol reaches from the same state: the object refines the protocol |
| ManagedCredentials.AssertIdempotencyKey | apps/cloud/src/credential-operations.ts:205-222 | A key is accepted if and only if, trimmed, it has 1 to 255 characters and only the allowed ones; a blank one is reported as missing |
| ManagedCredentials.ManagedCredentialService.Issue | apps/cloud/src/credential-operations.ts:273-299 | The new records and the answer of an issuance, for every state of the owning record and every answer the issuer gives to the subject and overlap it is asked with; a bad key changes nothing |
| ManagedCredentials.ManagedCredentialService.Recover | apps/cloud/src/credential-operations.ts:373-396 | A failed revocation aborts with the records unchanged; otherwise the record is reopened and minted again |
| ManagedCredentials.ManagedCredentialService.Mint | apps/cloud/src/credential-operations.ts:398-461 | A refused issuance leaves the record failed; a minted one leaves it issued with the handoff sealed in it |
| Handoffs.OpensOnlyWhereSealed | apps/cloud/src/credential-operations.ts:125-188 | An envelope opens under its own key, environment and operation, and every other combination gives the error the code gives |
| CredentialStore.MemoryCredentialOperationStore.Claim | apps/cloud/src/credential-operation-store.ts:204-215 | Claims a key exactly when nobody owns it, and otherwise returns the record that does, unchanged |
| CredentialStore.MemoryCredentialOperationStore.RecordIssuedKey | apps/cloud/src/credential-operation-store.ts:217-225 | Sets the key id of one record, or reports it unknown |
| CredentialStore.MemoryCredentialOperationStore.Complete | apps/cloud/src/credential-operation-store.ts:227-249 | Issues one record with its key, envelope and expiry, keeps a known replacement expiry, clears its error |
| CredentialStore.MemoryCredentialOperationStore.Fail | apps/cloud/src/credential-operation-store.ts:251-262 | Fails one record with its message and time |
| CredentialStore.MemoryCredentialOperationStore.Reopen | apps/cloud/src/credential-operation-store.ts:264-274 | Makes one record pending again without key, error and completion |
| CredentialStore.MemoryCredentialOperationStore.PurgeExpiredHandoffs | apps/cloud/src/credential-operation-store.ts:283-293 | Erases exactly the expired envelopes, keeps everything else, and counts what it erased |
| MerchantIssuer.RotationsRunOneAtATimeInOrder | apps/cloud/src/managed-data-plane.ts:305-316 | In every interleaving one request at most is past the chain; all that came before it are answered and all after it wait |
| MerchantIssuer.OneLiveKeyWithoutExpiry | apps/cloud/src/managed-data-plane.ts:305-389 | In every interleaving of issuances, revocations and tenant rotations, of two live merchant keys at most one has no expiry |
| MerchantIssuer.KeysRun | apps/cloud/src/managed-data-plane.ts:351-389 | A request that will create a key finds none standing, and the key a request will rotate is the only one that can stand |
| MerchantIssuer.CreationNeedsNoStanding | apps/cloud/src/managed-data-plane.ts:377-388 | Adopting by creating a key keeps the standing key unique if and only if none stands |
| MerchantIssuer.UnsavedRotationThenAdoption | apps/cloud/src/managed-data-plane.ts:374-388 | A rotation that took effect but is reported as failed leads to two standing keys |
| MerchantIssuer.RotatingRequestsAreAnswered | apps/cloud/src/managed-data-plane.ts:351-389 | A request that found a standing key: a bad overlap is refused, a usable key is rotated, and a key that is gone or dead is replaced by a new one |
| MerchantIssuer.CreatingRequestsAreAnswered | apps/cloud/src/managed-data-plane.ts:363-372 | A request that found none is given a new merchant key without an expiry |
| MerchantIssuer.UnservedRequests | apps/cloud/src/managed-data-plane.ts:328-333 | Without a runtime a request is refused, and a crash loses exactly the requests not answered yet; no key changes |
| MerchantIssuer.OthersShareTheTable | packages/server/src/access-control.ts:531-547 | A revocation deactivates one key, and the tenant's own creations and rotations reach the same table; no request moves |
| TenantKeys.RotationMovesStanding | packages/server/src/access-control.ts:418-529 | A rotation keeps the standing key unique, moves it to the replacement, and the rotated key no longer stands |
| TenantKeys.RotatesExactly | packages/server/src/access-control.ts:418-529 | Which rotations are refused and why; the others give the old key the earlier of its expiry and the end of the overlap, a day by default, the new one its name and the expiry asked for or the old one, and leave every other key |
| TenantKeys.ZeroOverlapKillsExactlyTheRotatedKey | packages/server/src/access-control.ts:418-529 | A zero-overlap rotation ends the life of the key it rotates and of no other |
| RuntimeManager.StartsAreBoundedByRemovals | apps/cloud/src/managed-data-plane.ts:411-433 | Starts of an environment are the times it left the cache, plus one exactly while it is cached |
| RuntimeManager.RunKeepsInv | apps/cloud/src/managed-data-plane.ts:391-433 | No rejected promise stays cached, `started` mirrors exactly the cached promises that succeeded, and no runtime is owned by two calls or closed twice |
| RuntimeManager.LostExactly | apps/cloud/src/managed-data-plane.ts:289-399 | In every run, a runtime that started is neither cached nor closed nor waiting to be closed if and only if it stood behind one whose close threw in the same suspend or close call |
| RuntimeManager.LostForEver | apps/cloud/src/managed-data-plane.ts:391-399 | What stood behind a close that threw is out of every hand in every later state |
| RuntimeManager.NoOtherRuntimeIsLost | apps/cloud/src/managed-data-plane.ts:289-296 | Every other runtime that started is in exactly one place: cached, waiting for the one call that owns it, or closed |
| RuntimeManager.FailingShutdownLosesOne | apps/cloud/src/managed-data-plane.ts:391-399 | A run from the empty manager: two runtimes start, the first close of the shutdown throws, and the second runtime runs on and is never closed |
| RuntimeManager.ClosedForEver | apps/cloud/src/managed-data-plane.ts:391-414 | After shutdown nothing is cached and nothing starts again |
| RuntimeManager.RequestsShareOneStart | apps/cloud/src/managed-data-plane.ts:411-433 | A request starts a runtime exactly when the manager is open and the environment is not cached, and then caches it; other environments keep theirs |
| RuntimeManager.SuspensionTakesOneOut | apps/cloud/src/managed-data-plane.ts:289-296 | A suspended environment is neither cached nor started, its runtime is queued to be closed, and every other environment keeps its entries |
| RuntimeManager.CachedUntilTakenOut | apps/cloud/src/managed-data-plane.ts:411-433 | In every run a cached start stays the one its environment is answered with until that environment is suspended, everything is closed, or the start fails; and then never again |
| RuntimeManager.SuspendedRuntimesAreClosed | apps/cloud/src/managed-data-plane.ts:289-296 | In every run the runtime of a suspended environment is never cached again and, if it starts, waits to be closed or has been closed: no other failing close makes it lost |
| RuntimeManager.TurnsTakeTheHead | apps/cloud/src/managed-data-plane.ts:391-399 | A turn of a closing call takes the head of its own queue, all of the queue when the close throws, and nothing else |
| RuntimeManager.ShutExactly | apps/cloud/src/managed-data-plane.ts:289-399 | In every run the runtimes whose close was called are exactly those that were the head of a closing call when it took its turn |
| RuntimeManager.ManagedPostgresDataPlaneManager.RuntimeFor | apps/cloud/src/managed-data-plane.ts:411-433 | Concurrent first requests get the same promise, which is the cached one; none is given after shutdown |
| RuntimeManager.ManagedPostgresDataPlaneManager.OnStartFailed | apps/cloud/src/managed-data-plane.ts:423-428 | A failed start is evicted only if it is still the cached one |
| RuntimeManager.ManagedPostgresDataPlaneManager.Suspend | apps/cloud/src/managed-data-plane.ts:289-296 | A cached environment is neither cached nor started afterwards, its promise is queued to be closed, and the others stay cached |
| RuntimeManager.ManagedPostgresDataPlaneManager.Close | apps/cloud/src/managed-data-plane.ts:391-399 | Takes every cached promise exactly once and empties the cache |
| ProvisioningQueue.LeasesAreDisjoint | apps/cloud/src/memory-repository.ts:658-690 | Two claims of a job with no settlement between them hold it at disjoint times |
| ProvisioningQueue.SettledForEver | apps/cloud/src/memory-repository.ts:692-738 | A job that succeeded or failed never changes, whatever stalled workers call later |
| ProvisioningQueue.EnvironmentsMirrorTheirJobs | apps/cloud/src/memory-repository.ts:308-331 | Without attachment and status overrides, every environment has the status of its job, and a ready one the URLs of the call that completed it |
| ProvisioningQueue.RunKeepsInv | apps/cloud/src/memory-repository.ts:658-738 | Lease fields are present exactly while a job runs, a pending job has attempts left, each environment has one job |
| ProvisioningQueue.JobsMoveByClaimAndSettlement | apps/cloud/src/memory-repository.ts:658-738 | A step that neither claims nor settles a job leaves it as it was |
| ProvisioningQueue.SlugsAreUnique | apps/cloud/src/memory-repository.ts:308-331 | In every run no two environments of a project have the same slug |
| ProvisioningQueue.CreatedExactly | apps/cloud/src/memory-repository.ts:308-331 | An environment and its pending job are created if and only if id and slug are free |
| ProvisioningQueue.ClaimedExactly | apps/cloud/src/memory-repository.ts:658-690 | A valid claim takes the first job that is pending or whose lease is over, counts the attempt and holds it for the lease; everything else stays |
| ProvisioningQueue.NotClaimedExactly | apps/cloud/src/memory-repository.ts:662-675 | A blank worker, a lease under five seconds, and a queue of settled and leased jobs claim nothing |
| ProvisioningQueue.CompletedExactly | apps/cloud/src/memory-repository.ts:692-713 | A running job succeeds with the URLs it is given, an empty admin URL keeping the old one; any other job stays |
| ProvisioningQueue.FailedExactly | apps/cloud/src/memory-repository.ts:715-738 | A running job is retried if it has had fewer than five attempts and a time is given, and fails otherwise; any other job stays |
| ProvisioningQueue.SetByHandExactly | apps/cloud/src/memory-repository.ts:364-415 | Attaching an environment and overriding its status change that environment and no job |
| ProvisioningWorker.FiveCallsAJob | apps/cloud/src/provisioning.ts:51-94 | However the provisioner behaves, at most five calls a job find work, and then every job is settled |
| ProvisioningWorker.RunResultIsTheJobStatus | apps/cloud/src/provisioning.ts:51-94 | What an uninterrupted call returns is the status the repository gave the job, and no other job changed |
| ProvisioningWorker.AttemptsCountClaims | apps/cloud/src/memory-repository.ts:658-690 | In every run the attempts of a job grow by exactly the number of its claims |
| ProvisioningWorker.ReportsAgreeExactly | apps/cloud/src/provisioning.ts:73-89 | In every run, a call whose provisioner fails while the job runs says what the repository does with the job, unless the attempts it saw were fewer than five and the claims by others meanwhile brought them to five; if the job runs no more, it throws and changes nothing |
| ProvisioningWorker.SupersededClaimReportsARetry | apps/cloud/src/provisioning.ts:73-89 | A run from the empty repository: a fourth attempt outlasts its lease, another worker claims the job, and the fourth reports a retry of the job that its own report has just failed |
| ProvisioningWorker.BackoffDoubles | apps/cloud/src/provisioning.ts:75-80 | Retries wait two, four, eight and sixteen seconds, and after five attempts there is none; the cap is not reached |
| ProvisioningWorker.TurnIsTwoSteps | apps/cloud/src/provisioning.ts:51-94 | A call that finds work is one claim and one settlement of the queue |
| ProvisioningWorker.HalvesMakeATurn | apps/cloud/src/provisioning.ts:51-94 | The two halves of a call that nothing comes between are a turn |
| ProvisioningWorker.EndedExactly | apps/cloud/src/provisioning.ts:67-89 | What the second half does and reports for any state of the job: nothing and an error if it runs no more, otherwise the settlement the answer asks for |
| ProvisioningWorker.MemoryCloudRepository.CreateEnvironment | apps/cloud/src/memory-repository.ts:308-331 | Creates an environment with its pending job exactly when neither its id nor its slug is taken |
| ProvisioningWorker.MemoryCloudRepository.ClaimProvisioningJob | apps/cloud/src/memory-repository.ts:658-690 | Claims the first claimable job in order of creation, and leaves everything else |
| ProvisioningWorker.MemoryCloudRepository.CompleteProvisioningJob | apps/cloud/src/memory-repository.ts:692-713 | Settles a running job whoever claimed it, and makes its environment ready |
| ProvisioningWorker.MemoryCloudRepository.FailProvisioningJob | apps/cloud/src/memory-repository.ts:715-738 | Returns a running job to the queue, or fails it when its attempts or its retry time are gone |
| ProvisioningWorker.CloudProvisioningWorker.RunOnce | apps/cloud/src/provisioning.ts:51-94 | A whole call with nothing between: idle while another call waits for its provisioner, otherwise one turn |
| ProvisioningWorker.CloudProvisioningWorker.Begin | apps/cloud/src/provisioning.ts:51-66 | A call up to the provisioner: idle and without effect while another waits, otherwise the claim, or the failure of a job whose environment is gone |
| ProvisioningWorker.CloudProvisioningWorker.Resume | apps/cloud/src/provisioning.ts:67-94 | The rest of the call on the repository as others have left it, and the worker is free again |
| Calendar.PeriodContainsItsInstant | apps/cloud/src/service.ts:107-111 | A period contains its instant if and only if the year is not between 0 and 99 |
| Calendar.PeriodsTile | apps/cloud/src/service.ts:107-111 | Instants share a period exactly when one lies in the other's, other periods do not overlap, and the period of an end starts there, across year ends |
| Calendar.PeriodsExist | apps/cloud/src/service.ts:107-111 | Every instant has a period except in the two months cut short by the ends of the time range |
| Calendar.InstantsOfAPeriod | apps/cloud/src/service.ts:107-111 | The instants given the period of a month: those of the month, and for the twentieth century those nineteen centuries before |
| Calendar.MarchOfTheYearFifty | apps/cloud/src/service.ts:107-111 | 15 March of the year 50 is given March 1950 |
| Calendar.MonthIs | apps/cloud/src/service.ts:107-111 | Months are disjoint half-open intervals that cover time: an instant lies in exactly the month it is computed to lie in |
| Calendar.YearsAddUp | apps/cloud/src/service.ts:108-109 | Adding up month lengths gives the closed form of section 21.4.1 of ECMA-262 for the first day of every year |
| Calendar.YearFromTimeIsTheStandards | apps/cloud/src/service.ts:108-109 | The computed year is the one whose first day is at or before the instant and the next year's after it |
| IsoText.IsoStringsDiffer | apps/cloud/src/service.ts:110 | Different representable instants are written differently |
| IsoText.IsoStringReadsBack | apps/cloud/src/service.ts:110 | A written instant has the form of the standard, and its fields, read as numbers, give the instant back |
| IsoText.JoinedInstants | apps/cloud/src/memory-repository.ts:750-757 | Two instants joined by a colon can be told apart although each is written with colons |
| UsageMetering.CountersAreSums | apps/cloud/src/memory-repository.ts:607-633 | After any sequence of calls, each counter is the sum of the quantities accepted for its environment, metric and period |
| UsageMetering.CountersAreMonths | apps/cloud/src/service.ts:710-726 | The counter of a month is what was accepted for events of that month, and for the twentieth century also of the same month nineteen centuries before |
| UsageMetering.CountersAreWhatWasAsked | apps/cloud/src/service.ts:669-731 | After any sequence of requests, the counter of a month is the sum of the quantities of the requests answered as new that happened in it, and for the twentieth century also nineteen centuries earlier |
| UsageMetering.AnsweredExactly | apps/cloud/src/service.ts:669-731 | The answer to every request, in terms of its own fields and the meter: each refusal, the duplicate, the exceeded limit and the acceptance |
| UsageMetering.RecordedAsAsked | apps/cloud/src/service.ts:710-731 | An accepted request adds its quantity to the one counter of its environment, metric and month, under its trimmed key; any other answer leaves the meter alone |
| UsageMetering.DuplicatesAreRepeats | apps/cloud/src/memory-repository.ts:614-619 | A call is a duplicate if and only if the same environment, metric and idempotency key were accepted before; every call that is not accepted changes nothing |
| UsageMetering.AcceptedOnce | apps/cloud/src/memory-repository.ts:614-631 | No two accepted calls are for the same event |
| UsageMetering.WithinTheLimit | apps/cloud/src/memory-repository.ts:626-631 | A counter that is not zero is within the hard limit that the last call it accepted was given |
| UsageMetering.RemainingIsWhatFits | apps/cloud/src/service.ts:955-970 | A new event is accepted if and only if it fits in what the usage report says remains, which then shrinks by it |
| UsageMetering.EventKeysDiffer | apps/cloud/src/memory-repository.ts:614-618 | Event keys agree exactly when environment, metric and idempotency key do, although the last may hold colons |
| UsageMetering.CounterKeysDiffer | apps/cloud/src/memory-repository.ts:750-757 | Counter keys agree exactly when environment, metric and period do |
| UsageMetering.MemoryUsageRepository.RecordUsage | apps/cloud/src/memory-repository.ts:607-633 | Records, or changes nothing for a duplicate or an exceeded limit, in this order |
| UsageMetering.MemoryUsageRepository.UsageForEnvironment | apps/cloud/src/memory-repository.ts:635-656 | Reports exactly the metrics that have a counter, with its value |
| UsageMetering.CloudUsageService.RecordUsage | apps/cloud/src/service.ts:669-731 | Meter and answer are those of the request as characterised above |
| OperatorRuns.NeverStranded | apps/cloud/src/operator-service.ts:245-279 | In every interleaving in which no reactivation crosses an unguarded deactivation, a directory with operators has an active platform admin |
| OperatorRuns.StrandsExactly | apps/cloud/src/memory-repository.ts:501-528 | A write strands a directory if and only if it is an unguarded deactivation of the only active platform admin |
| OperatorRuns.ReactivationCrossesDeactivation | apps/cloud/src/operator-service.ts:245-279 | From any directory with one active and one inactive platform admin, a reactivation that crosses a deactivation strands it |
| OperatorRuns.ObjectIsNeverStranded | apps/cloud/src/operator-service.ts:165-421 | The service object, serving any calls of known operators one after another, always keeps an active platform admin |
| OperatorRuns.OneBootstrap | apps/cloud/src/operator-service.ts:458-494 | However many callers find the directory empty at once, one bootstrap succeeds |
| OperatorRuns.ChainsNeverGrow | apps/cloud/src/operator-service.ts:345-376 | Along any chain of rotations expiries never grow, in every interleaving |
| OperatorRuns.RotationInherits | apps/cloud/src/operator-service.ts:315-396 | A rotation grants what the rotated key has or an earlier time that was asked for; the rotated key ends when the overlap that was asked for is over, or at its own expiry if that is earlier |
| OperatorRuns.KeysOnlyLose | apps/cloud/src/operator-service.ts:315-421 | While no two rotations of one key are in flight together, a key's expiry only moves earlier and it is never reactivated |
| OperatorRuns.DeadForEver | apps/cloud/src/operator-service.ts:120-132 | Then a secret whose key was revoked or has expired never authenticates again |
| OperatorRuns.CrossingRotationsRevive | apps/cloud/src/memory-repository.ts:548-562 | Two rotations of one key that cross do that: they revive the key the first one cut over |
| OperatorRuns.RevivesExactly | apps/cloud/src/memory-repository.ts:548-562 | A dead key is usable after a write if and only if the write is a rotation of it, it was not revoked, and the end it is given is still to come |
| OperatorRuns.DeadKeysReviveExactly | apps/cloud/src/memory-repository.ts:548-562 | In every run, a dead key is usable again at some time if and only if a rotation settles that gives it such an end while it is dead |
| OperatorRuns.SerialRunsAreCalm | apps/cloud/src/operator-service.ts:165-421 | Calls made one after another meet both conditions |
| OperatorRuns.SecretsAreUnique | apps/cloud/src/memory-repository.ts:581-584 | Every reachable directory has one key for a secret |
| OperatorRuns.TimeEndsKeys | apps/cloud/src/operator-service.ts:120-132 | Time alone ends exactly the keys whose expiry has come |
| Operators.Normalized | apps/cloud/src/operator-service.ts:77-83 | The distinct trimmed ids that are not blank, each once |
| Operators.NormalizedInOrder | apps/cloud/src/operator-service.ts:77-83 | The ids keep the order in which they come first |
| Operators.AddressesAreParts | apps/cloud/src/operator-service.ts:194-197 | An address is valid if and only if it is a local part, an at sign and a domain with a dot inside, without blanks and further at signs |
| Text.TrimExactly | apps/cloud/src/operator-service.ts:194 | Trimming takes the blanks off both ends, all of them and nothing else |
| Operators.CreatedExactly | apps/cloud/src/operator-service.ts:165-237 | An operator is created if and only if the actor may, the request is proper, and id and subject are free; otherwise nothing changes |
| Operators.CreatedAsAsked | apps/cloud/src/operator-service.ts:198-237 | The new operator has the role, subject, address and organizations asked for and one key as asked; the active platform admins grow by it exactly when it is one |
| Operators.UpdatedExactly | apps/cloud/src/operator-service.ts:245-279 | An operator is switched if and only if an administrator asks and it is not the last active platform admin that would go; nothing else changes |
| Operators.SwitchingMovesOneAdmin | apps/cloud/src/memory-repository.ts:501-528 | Switching an operator on or off adds or takes that one among the active platform admins, if it is one |
| Operators.KeyCreatedExactly | apps/cloud/src/operator-service.ts:281-306 | A key is added, with the secret and expiry asked for, if and only if an administrator asks for an operator there is |
| Operators.RotatedExactly | apps/cloud/src/operator-service.ts:315-396 | A key is rotated if and only if request and key allow it; the new key has the expiry asked for or the old one, the old key ends with the overlap or earlier, and every other key stays |
| Operators.RevokedExactly | apps/cloud/src/operator-service.ts:398-421 | An active key of the operator is revoked at the time of the call; an inactive one, and every other, stays |
| OperatorDirectory.CloudOperatorService.Authenticate | apps/cloud/src/operator-service.ts:120-132 | Gives a principal exactly when an active operator has a usable key with the secret, and then that operator's |
| OperatorDirectory.CloudOperatorService.CreateOperator | apps/cloud/src/operator-service.ts:165-237 | Directory and refusal are those of the call as characterised above |
| OperatorDirectory.CloudOperatorService.UpdateOperator | apps/cloud/src/operator-service.ts:245-279 | Guards exactly the deactivation of an active platform admin |
| OperatorDirectory.CloudOperatorService.RotateOperatorKey | apps/cloud/src/operator-service.ts:315-396 | The refusals in the order of the code, the replacement and the end of the replaced key |
| OperatorDirectory.CloudOperatorService.RevokeOperatorKey | apps/cloud/src/operator-service.ts:398-421 | Revokes an active key of the operator; an inactive one stays as it is |
| OperatorDirectory.MemoryOperatorRepository.CreateOperator | apps/cloud/src/memory-repository.ts:456-479 | Refuses a second bootstrap, a taken subject and a taken id, atomically |
| OperatorDirectory.MemoryOperatorRepository.UpdateOperator | apps/cloud/src/memory-repository.ts:501-528 | Refuses a guarded deactivation of the last active platform admin, counted atomically |
| OperatorDirectory.MemoryOperatorRepository.OperatorByApiKeyHash | apps/cloud/src/memory-repository.ts:581-595 | Gives an active key of an active operator with that hash, and none when there is none |
| CustomerRuns.ErasedForEver | apps/cloud/src/customer-memory-repository.ts:212-245 | While no write that puts something back or adds a membership settles on a deleted account, it keeps an empty profile, inactive identities, withdrawn consents, its first date and exactly its memberships for ever |
| CustomerRuns.UndoesExactly | apps/cloud/src/customer-memory-repository.ts:71-245 | For every write: an erased account stays erased if and only if the write does not give it a profile, a consent that is not withdrawn or an identity that was not linked |
| CustomerRuns.StaysErasedExactly | apps/cloud/src/customer-memory-repository.ts:71-245 | In every run an erased account stays erased throughout if and only if no such write settles on it |
| CustomerRuns.AddsExactly | apps/cloud/src/customer-memory-repository.ts:163-188 | For every write: the memberships an account retains change if and only if the write binds one it did not have |
| CustomerRuns.NoSessionAgain | apps/cloud/src/customer-service.ts:96-158 | In every interleaving no identity linked to a deleted account gets a session again |
| CustomerRuns.BindingsAreForEver | apps/cloud/src/customer-memory-repository.ts:28-69 | Identities keep their customer, memberships their member, deleted customers their date, in every interleaving |
| CustomerRuns.IdentitiesAlwaysHaveCustomers | apps/cloud/src/customer-memory-repository.ts:92-120 | Every identity points to a customer that exists |
| CustomerRuns.IndexIsMutual | apps/cloud/src/customer-memory-repository.ts:163-188 | In every reachable state memberships and member owners are inverse to each other for each tenant and program |
| CustomerRuns.BindingKeepsTheIndexExactly | apps/cloud/src/customer-memory-repository.ts:174-186 | A binding keeps that if and only if it does not take over the member of a customer whose id is empty |
| CustomerRuns.UpdateCrossesDeletion | apps/cloud/src/customer-service.ts:165-203 | A profile update that crosses the deletion leaves the account with a profile |
| CustomerRuns.SerialRunsAreQuiet | apps/cloud/src/customer-service.ts:337-380 | Calls made one after another never settle such a write on a deleted account |
| CustomerRuns.ServedInSteps | apps/cloud/src/customer-service.ts:165-380 | What the service object does with a call is its read and its write with nothing between |
| CustomerRuns.EnteredInOneStep | apps/cloud/src/customer-service.ts:96-158 | What it does with a credential that is vouched for is one sign-in; any other changes nothing |
| Customers.MemoryCustomerRepository.ResolveOrCreate | apps/cloud/src/customer-memory-repository.ts:28-69 | Answers a known identity with its customer, creates a customer for a new one, refuses a taken id |
| Customers.MemoryCustomerRepository.BindLoyaltyMembership | apps/cloud/src/customer-memory-repository.ts:163-188 | Returns an existing binding, refuses another customer's member, otherwise binds in both indexes |
| Customers.MemoryCustomerRepository.DeleteCustomer | apps/cloud/src/customer-memory-repository.ts:212-245 | Erases the profile, disables exactly the customer's identities and withdraws exactly its consents, once |
| Customers.CustomerPlatform.IntrospectSession | apps/cloud/src/customer-service.ts:96-158 | Verifies the credential with the chosen provider, and then gives a session exactly for an active identity of a customer that is not deleted; every refusal, in the order of the code |
| Customers.CustomerPlatform.UpdateProfile | apps/cloud/src/customer-service.ts:165-203 | Replaces the patched values of an active account and keeps the others |
| Customers.CustomerPlatform.SetConsent | apps/cloud/src/customer-service.ts:205-235 | Validates purpose, status, policy version and source and sets one consent of an active account |
| Customers.CustomerPlatform.LinkIdentity | apps/cloud/src/customer-service.ts:237-267 | Verifies the second credential between the read and the write, and links its identity to the account |
| Customers.CustomerPlatform.EnrollLoyalty | apps/cloud/src/customer-service.ts:269-309 | Keeps an existing membership, otherwise binds the enrolled member |
| Customers.CustomerPlatform.DeleteAccount | apps/cloud/src/customer-service.ts:337-380 | Deletes the account of a session that has not expired, once, and reports the retained memberships and the outcome of each provider's clean-up |
| Customers.VouchedExactly | apps/cloud/src/customer-service.ts:96-158 | A credential is vouched for if and only if the provider that was asked answers for itself, its kind and the tenant, with an issuer and a subject |
| Customers.IntrospectedExactly | apps/cloud/src/customer-service.ts:96-158 | A vouched credential gives a session of the linked customer unless account or identity are off, or of a new customer with the contact data given; every refusal, and what is stored |
| Customers.ProfileUpdatedExactly | apps/cloud/src/customer-service.ts:165-203 | Exactly the names and the locale in a proper patch change; every refusal leaves the store |
| Customers.ConsentSetExactly | apps/cloud/src/customer-service.ts:205-235 | One consent is set to the status, policy version and source given, or the call is refused |
| Customers.IdentityLinkedExactly | apps/cloud/src/customer-service.ts:237-267 | A vouched identity is linked to the account unless it is linked to another |
| Customers.EnrolledExactly | apps/cloud/src/customer-service.ts:269-309 | A membership is kept, or the member enrollment gave is bound unless another customer has it |
| Customers.DeletedExactly | apps/cloud/src/customer-service.ts:337-380 | A deletion empties the profile, switches off exactly the customer's identities and withdraws exactly its consents, once; expired sessions are refused |
| Customers.ReportedExactly | apps/cloud/src/customer-service.ts:337-380 | A deletion reports exactly the customer's memberships, and a clean-up status for exactly its identities |
| Customers.IdentifierBounds | apps/cloud/src/customer-service.ts:28-42 | Identifiers have 1 to 200 characters and no blanks around them |
| CustomerResolution.SuccessesAgree | packages/identity/src/directory.ts:268-319 | All resolutions that succeed for one principal and program return the same customer and member, in every interleaving with links and deletions by others |
| CustomerResolution.NoConflicts | packages/identity/src/directory.ts:286-318 | When enrollment answers by its idempotency key, no resolution fails over its member link or a missing customer |
| CustomerResolution.NoneSucceedsAfterDeletion | packages/identity/src/directory.ts:281-283 | A resolution that reads its customer after the deletion never succeeds |
| CustomerResolution.DeletionCrossesResolution | packages/identity/src/directory.ts:180-207 | One that read it before can succeed, and links a member to the deleted customer |
| CustomerResolution.LinksOfDeletedChangeExactly | packages/identity/src/directory.ts:180-207 | A step changes the member links of a deleted customer if and only if it stores one, for a resolution or for somebody else, where there was none |
| CustomerResolution.LinksAreFrozenExactly | packages/identity/src/directory.ts:180-207 | In every run the links of a deleted customer stay as they are if and only if no step does that |
| CustomerResolution.BindingsAreForEver | packages/identity/src/directory.ts:72-229 | Identities, member links and deletion dates never change once made |
| CustomerDirectory.MemoryCustomerDirectoryRepository.ResolveOrCreateCustomer | packages/identity/src/directory.ts:72-110 | Answers a known identity with its customer or creates one, refuses a taken id |
| CustomerDirectory.MemoryCustomerDirectoryRepository.LinkExternalIdentity | packages/identity/src/directory.ts:124-155 | Refuses missing and deleted customers and identities of others |
| CustomerDirectory.MemoryCustomerDirectoryRepository.LinkMember | packages/identity/src/directory.ts:180-207 | Keeps an existing equal link and refuses another member |
| CustomerDirectory.MemoryCustomerDirectoryRepository.MarkCustomerDeleted | packages/identity/src/directory.ts:209-229 | Keeps the first deletion date |
| CustomerDirectory.CustomerLoyaltyResolver.Resolve | packages/identity/src/directory.ts:268-319 | The directory and the answer of an uninterrupted resolution |
| CustomerResolution.ResolveIsARun | packages/identity/src/directory.ts:268-319 | Whatever an uninterrupted resolution stores and answers, its own steps reach from the same state: the object refines the interleaved resolution |
| CustomerDirectory.ResolvedExactly | packages/identity/src/directory.ts:268-319 | A deleted customer is refused with the directory unchanged; a success names the identity's customer, which is not deleted, and its stored member; every other refusal, and what is stored |
| CustomerDirectory.LinkedExactly | packages/identity/src/directory.ts:124-155 | An identity is linked if and only if the customer is there and not deleted and the identity is not another's |
| CustomerDirectory.BoundExactly | packages/identity/src/directory.ts:180-207 | A member is linked if and only if the customer is there and has no other member in the program |
| CustomerDirectory.MarkedExactly | packages/identity/src/directory.ts:209-229 | A deletion dates the customer once and changes nothing else |
| Csv.ParseCsvRow | packages/cli/src/member-migration.ts:85-108 | The index-skipping loop reads what the grammar reads; it rejects a row exactly when its quotes are odd in number, and yields one field more than there are commas outside quotes |
| Csv.RowRoundTrip | packages/cli/src/member-migration.ts:85-108 | Every non-empty list of fields, each quoted with doubled quotes as in section 2 of RFC 4180 or left plain where it may be, reads back exactly |
| Csv.RowShape | packages/cli/src/member-migration.ts:85-108 | Which rows are rejected, and into how many fields the others are cut |
| Csv.PlainRowsAreSplit | packages/cli/src/member-migration.ts:85-108 | A row without quotes is cut at its commas and joins back to itself |
| Csv.DocumentRoundTrip | packages/cli/src/member-migration.ts:110-121 | A document of a header and rows, however quoted and broken into lines, reads back as one record for each row |
| Csv.QuotedDocumentRoundTrip | packages/cli/src/member-migration.ts:85-121 | Every table whose fields hold no line feed can be written so that it reads back: all fields quoted, either kind of line break |
| Csv.LinesReadBack | packages/cli/src/member-migration.ts:111 | Lines with either kind of line break are read back, with or without a last one |
| Csv.RecordHolds | packages/cli/src/member-migration.ts:119 | A record holds under each header the value of the last column that has it, and nothing else |
| Csv.DocumentsAreRefusedExactly | packages/cli/src/member-migration.ts:110-121 | Which lines make no records and which error is reported: too few lines, unpaired quotes, and the first row that has not as many fields as the header |
| Csv.TextIsCutAtLineFeeds | packages/cli/src/member-migration.ts:111 | Text is cut at its line feeds and nowhere else |
| Csv.BlankLinesAreSkipped | packages/cli/src/member-migration.ts:111 | A line is kept exactly when it is not blank |
| MemberImportPlanning.PlanningSucceedsExactly | packages/cli/src/member-migration.ts:171-234 | Planning succeeds if and only if all rows are valid and external ids, identities and member ids are each distinct; the plan has an entry for each row, and its checksum is that of its contents |
| MemberImportPlanning.Collected | packages/cli/src/member-migration.ts:178 | The sources of all rows, or the first row that is refused and why |
| MemberImportPlanning.FirstDuplicate | packages/cli/src/member-migration.ts:179-196 | One pass with three sets finds the first entry that repeats something, and what |
| MemberImportPlanning.CreateMemberImportPlan | packages/cli/src/member-migration.ts:171-234 | The plan with its creation time, summary and checksum, or the error, for every input |
| MemberImportPlanning.ReadExactly | packages/cli/src/member-migration.ts:123-169 | A row is read if and only if its cells are proper; what is read of each cell, and which error comes first |
| MemberImportPlanning.PlannedExactly | packages/cli/src/member-migration.ts:179-218 | What each entry of a plan says of its source: ids given or derived, identity, expected balance, and an opening balance exactly for a balance that is not zero |
| MemberImportPlanning.PlanSaysExactly | packages/cli/src/member-migration.ts:219-234 | A plan is for its program and time, has the entry of each row, and sums its entries up |
| MemberImportPlanning.PlanningFailsExactly | packages/cli/src/member-migration.ts:171-196 | Which error is reported: the missing program, the missing rows, the first row that is not proper, then repetitions |
| MemberImportPlanning.RepetitionReportedExactly | packages/cli/src/member-migration.ts:179-196 | Of the first entry that repeats anything, an external id is reported before an identity and that before a member id |
| MemberImportPlanning.SummariesAddUp | packages/cli/src/member-migration.ts:224-228 | The summaries of two lists add up, and one entry counts once if it expects something, with what it expects |
| MemberImportPlanning.IdentityKeysDiffer | packages/cli/src/member-migration.ts:191 | Identity keys agree exactly when the identities do |
| MemberImportReconciliation.ReconcilesExactly | packages/cli/src/member-migration.ts:299-338 | An applied plan reconciles if and only if no two entries share a balance key, unless both expect nothing |
| MemberImportReconciliation.ImportReconciles | packages/cli/src/member-migration.ts:299-338 | A plan whose member ids hold no colon and whose adjustment ids are distinct, applied to a new program, always reconciles |
| MemberImportReconciliation.SpelledOutKeyFails | packages/cli/src/member-migration.ts:318-320 | A member id that spells out another member's balance key makes it fail |
| MemberImportReconciliation.ReportCovers | packages/cli/src/member-migration.ts:325-337 | Each entry is reported missing, matched or mismatched as it is; the counts add up to the plan, and the report passes exactly when every member has its exact balance |
| MemberImportReconciliation.ApplyingSucceeds | packages/reference/src/engine.ts:1017-1078 | Enrolling and posting a plan succeeds, and each balance is what all entries together posted to its key |
| MemberImportReconciliation.ImportTwiceIsImportOnce | packages/reference/src/engine.ts:1017-1078 | An import that was applied can be applied again and changes nothing |
| MemberImportReconciliation.PostedExactly | packages/reference/src/engine.ts:1017-1078 | A posting adds its amount to the member's balance in its unit, once for an adjustment id; every refusal |
| PortRegistry.NoSharedPorts | apps/cloud/src/data-plane-provisioner.ts:908-927 | No two environments that start or run share a port, up to the first reload that forgets a start |
| PortRegistry.FinishedPortsAreKept | apps/cloud/src/data-plane-provisioner.ts:908-945 | In every run, reloads included, an environment that has come up keeps its port in registry and file until it starts again, and then gets it again if it asks for it |
| PortRegistry.EnvironmentsMove | apps/cloud/src/data-plane-provisioner.ts:908-945 | What loading, starting, coming up, failing and stopping do to the registry, its file and the environments |
| PortRegistry.StepKeepsInvExactly | apps/cloud/src/data-plane-provisioner.ts:908-940 | From any state in which registry and environments agree, a step keeps the agreement if and only if it is not a reload that forgets an environment that is starting |
| PortRegistry.AgreesExactly | apps/cloud/src/data-plane-provisioner.ts:908-940 | In every run they agree throughout if and only if no reload forgets one |
| PortRegistry.AllocationIsExclusive | apps/cloud/src/data-plane-provisioner.ts:908-927 | Where the registry agrees with the running set, an allocated port is in range, nobody else's, and keeps the agreement |
| PortRegistry.AllocationOrder | apps/cloud/src/data-plane-provisioner.ts:908-927 | The preferred port is given if it is in the range, not zero and free, else the derived one if free, else the lowest free one |
| PortRegistry.FailsExactly | apps/cloud/src/data-plane-provisioner.ts:908-927 | Allocation fails if and only if every port of the range is taken by another environment |
| PortRegistry.RoomForAnother | apps/cloud/src/data-plane-provisioner.ts:908-927 | While fewer other environments are registered than the range has ports, allocation succeeds |
| PortRegistry.RegisteredPortIsKept | apps/cloud/src/data-plane-provisioner.ts:912-921 | An environment that passes its registered port keeps it |
| PortRegistry.ReloadCrossesAStart | apps/cloud/src/data-plane-provisioner.ts:929-940 | A run in which a reload that crosses a start gives its port to the next environment |
| PortRegistry.GivenInUseExactly | apps/cloud/src/data-plane-provisioner.ts:908-940 | After a reload, the port that a start is given is in use if and only if it is the port of an environment that was forgotten |
| PortRegistry.HarmfulReloadsExactly | apps/cloud/src/data-plane-provisioner.ts:908-940 | A reload lets some start of an environment be given a port in use if and only if it forgets an environment whose port is then free for that environment to take |
| PortRegistry.LocalDataPlaneProvisioner.AllocatePort | apps/cloud/src/data-plane-provisioner.ts:908-927 | Takes the first admissible candidate in the order of the code and registers it, or changes nothing |
| PortRegistry.PreferredPort | apps/cloud/src/data-plane-provisioner.ts:313-316 | The derived port lies in the range |
| CanonicalJson.SameFormExactly | scripts/check-release-manifest.ts:248-255 | Two values have equal canonical forms if and only if they differ in nothing but the order of object keys at any depth |
| CanonicalJson.SortingKeepsMeaning | scripts/check-release-manifest.ts:248-255 | Sorting keeps the meaning of every value |
| CanonicalJson.SortingTwice | scripts/check-release-manifest.ts:248-255 | A canonical form is its own canonical form |
| CanonicalJson.CanonicalOrder | scripts/check-release-manifest.ts:248-255 | In a canonical form every object lists its array indices in ascending order and then its other keys in the order of code units, each with the canonical form of its value |
| CanonicalJson.BeforeExactly | scripts/check-release-manifest.ts:252 | The order of keys is that of the first differing code units, a proper prefix first |
| CanonicalJson.DigestInput | scripts/check-release-manifest.ts:91-101 | The text that is digested depends on the meaning alone |
| ReleaseManifest.CheckPackages | scripts/check-release-manifest.ts:134-162 | A manifest's package list passes if and only if it is a rearrangement of the published packages, and otherwise the errors are exactly those that apply |

## Left out

- HTTP routing, CORS, cookies, wallets, billing, remote attachment, command lines, the admin interface: plumbing over libraries that are not part of this model.
- The Postgres repositories and stores: the in-memory ones are modelled, each call as one atomic step.
- Real cryptography, hashing and UUIDs: authenticated encryption is an ideal box, fingerprints are equal exactly for equal requests, digests are parameters, identifiers are fresh.
- The loyalty engine: only its key table (`rotateApiKey`, `createApiKey`, `revokeApiKey`), enrollment and manual adjustments, as far as credentials and imports use them.
- Audit entries, events, retention timers, the worker's polling timer and `last_used_at`: they record and trigger, and no modelled decision reads them.
- A store call that takes effect only after the process that made it has crashed: a call takes effect before the crash or never.
- CredentialSafety.UndisturbedRunsAreSafe: does not cover runs in which another operation issues on the environment, a tenant rotates the merchant key itself, or a save is reported as failed after it was applied, because two live keys are possible then.
- CredentialSafety.UndisturbedRunsAreSafe, CredentialOrphans.OrphanSurvivesExactly: a revocation that was applied in memory and whose save failed is undone by a crash in the code and kept by the model.
- MerchantIssuer.OneLiveKeyWithoutExpiry: assumes that tenants create no key of their own named like the merchant key without an expiry, and that a rotation refused for anything but validation changed no key.
- MerchantIssuer.RotationsRunOneAtATimeInOrder: keys are found in a map, so the order in which the table lists several standing keys is not modelled; there is at most one.
- RuntimeManager: restoring all runtimes at boot and starting a platform are one promise that succeeds or fails.
- ProvisioningQueue.LeasesAreDisjoint: completion is not fenced by the claim and the in-memory claim ignores `available_at`, so neither fencing nor backoff is claimed of the repository.
- UsageMetering.CountersAreSums: quantities are unbounded integers; sums beyond 2^53 are not rounded, because every accepted sum is within a hard limit.
- OperatorDirectory.CloudOperatorService.CreateOperator: the email address is put in lower case for the letters A to Z only, because the model has no case folding of other letters.
- Csv.DocumentRoundTrip: fields with line feeds are excluded, because a document is cut into lines before its rows are read.
- MemberImportReconciliation.ImportReconciles: the plan is applied to a new program, all members before any balance, with adjustment ids that are distinct in the plan; expiring point lots are not modelled.
- MemberImportPlanning.PlanningSucceedsExactly: cells are text, and the conversion of a balance cell to a number is not modelled; the digest of a plan is a parameter.
- PortRegistry.NoSharedPorts: does not cover a registry file that cannot be read, which counts as empty.
- ReleaseManifest.CheckPackages: the patterns for versions, digests and URLs, because each is one expression.
- CustomerResolution.SuccessesAgree: identifiers and principals are valid already; a request that is refused for its form takes no step.
- Backup and restore files, invitations, projects and organization memberships: they add no harder property than those above.

# Sextant: a verified model of its control plane

Sextant manages a fleet of machines from one configuration repository. This
project models how a change travels - from an edit of the fleet document, over
the gate that evaluates it, change requests and their merges, to the rollout
that moves the branches devices follow - and proves what that machinery keeps
whatever fails and however its parts interleave.

`dafny verify dfyconfig.toml` checks everything.

## The parts

| files | what they model |
|---|---|
| Fleet, Resolve, Precedence, BlastRadius, Assignments, Structural | the document, group trees, the compiled chain, which scope a key is taken from, the shape a device builds from, the radius of an edit, and what assignment and structural edits change |
| Sampling, Gate, Verdicts | one host per shape, the memo of acceptances, and both against evaluating every host |
| ConfigTx, ConfigService, ConfigRuns, ConfigFleet | the gated write transaction, its retry loop against rival writers, and whole runs of it |
| Change, ChangeFleet, ChangeProtocol, ChangeService | change requests: the radius they are gated on, in general and over real documents, the protocol over git and the store with crashes, and the service's methods run against it |
| EvalPool, EvalGate, BuildJobs | the cancelling worker pool, the two evaluation paths, and the build-job table, over all interleavings |
| RolloutPlan, RingRefs, Rollout, AutoFlow, EnrolmentRings | the decision engine, ring branches, the rollout service, self-starting runs, and enrolment's fast-forward |
| HardwareConfig, CatalogValues, Numbers | settings that follow a hardware model, the setting value printer and parser, and numbers as JSON carries them |
| Order, Text, Wrappers | sorting, strings, optional values |

## How to read it

The evaluation of one host is an arbitrary predicate over the three things a
device builds from: the source tree, the document's globals and its shape.
Failures of git, the store, the network and the builder are arbitrary choices where
a repository or service is marked faulty; where it is not, its methods say exactly
when they refuse.
Services are classes. The change service carries its own history and shows that
every method extends it by protocol steps only, so what is proved of every trace
of the protocol holds of it. The configuration service's methods state the
effect relation whole runs are made of. The rollout service keeps its invariant
through every call, wherever the call stops. Pools and job tables are
transition systems: their lemmas hold in every interleaving.

## What the code does not keep

These are proved of the code as it is, each with the exact condition or a
concrete run beside the property it limits.

- A radius without an active device is not decided as its hosts would be: one
  host is always refused, several turn into the whole fleet
  (`Gate.GuardIsExact`, `Gate.RetiredHostIsRefused`).
- An edit's radius is read off the published snapshot, before the write lock and
  before a sync. On a document that moved meanwhile it can miss a device, and HEAD
  becomes invalid with every step accepted; the exact condition is on the document
  the edit lands on (`Gate.ShieldIsExact`, `ConfigFleet.PinShieldedIff`,
  `ConfigFleet.StaleRadiusBreaksHead`).
- A change's recorded hosts date from its edits. The merge gate, run because main
  may have moved, misses a device that entered the group on main since
  (`ChangeFleet.StaleMerge`), and the submit gate a device the branch still has
  (`ChangeFleet.StaleSubmit`); the exact condition is `Change.ScopedGateIsExact`.
- A push that reports a failure may have landed
  (`ConfigService.ConfigService.ApplyRemote`).
- Adding a group skips the evaluator, and changes what devices build that already
  named it (`Structural.AddGroupIsHarmlessIff`).
- A failed commit leaves the working file edited; without a remote, repeating the
  edit then reports success and HEAD never gets it
  (`ConfigRuns.SuccessIsCommittedIff`, `ConfigRuns.RetryAfterFailedCommitLosesTheEdit`).
- A rollback of the working file that fails, or a write that fails with everything
  on disk, leaves a document no gate accepted as the base of the next write. Whole
  runs stay sound if and only if no such document fails to evaluate
  (`ConfigRuns.RunSoundIff`, `ConfigRuns.LostRollbackPoisonsIff`), and the next write
  that does not name the failing device commits it
  (`ConfigRuns.NextWriteCommitsTheFailure`).
- An edit that committed but whose record the store refused can escape the
  submit gate (`Change.CoverageCondition`).
- The startup reconcile records a change merged whose merged result was never gated
  after a crash, or a failed rollback, between a merge and its validation - and when
  the change is ready without any commit, which takes a submit whose diff git could
  not give. Nothing else does (`ChangeProtocol.UngatedIff`,
  `ChangeProtocol.CrashThenReconcileMergesUngated`,
  `ChangeProtocol.BareChangeIsRecordedMerged`).
- A crash during a submit's gate run, or a store that refuses its verdict, leaves
  the change Building for ever - and nothing else does
  (`ChangeProtocol.StrandedIff`, `ChangeProtocol.StrandedForever`).
- internal/app/change.go says merging an already merged branch again fails with
  "Already up to date"; git reports success there, and so does the model.
- internal/app/enrolment_rings.go says an error means nothing was moved: true
  exactly when the first ring is the one refused
  (`EnrolmentRings.EnsureRingsContain`). It also moves branches during a run
  (`EnrolmentRings.MidRunAdvanceIff`).
- The same file says identical shapes mean an identical build. The rest of the tree
  is not compared, nor is the revision moved to: a core bump passes the guard and
  rebuilds the ring (`EnrolmentRings.RingKeepsItsBuilds`,
  `EnrolmentRings.CoreBumpPassesTheGuard`).
- A wave's sign-off may be given before the wave soaked, or was promoted
  (`RolloutPlan.SignOffHoldsFromTheStart`), and a new run may replace a paused or
  halted one.
- The failure budget is compared after rounding down: a settled wave with a broken
  share less than one percent over it neither halts nor converges
  (`RolloutPlan.NeitherConvergedNorBroken`).
- The parser accepts a list item with a carriage return inside, which the printer
  then refuses; numbers beyond 2^53 can arrive as their neighbours; and the printer
  does not take the parser's own numbers and lists
  (`CatalogValues.WhatParsesSurvivesJson`,
  `CatalogValues.NextNumberArrivesAsItsNeighbour`,
  `CatalogValues.ParsedNumbersAndListsDoNotPrint`).
- Hosts of a build request are joined on NUL and not checked for it, so two requests
  can share a job (`BuildJobs.KeyIsThePieces`, `BuildJobs.NulSharesAKey`).
- Without a way to read old revisions, enrolment moves no ring and reports success
  (`EnrolmentRings.EnsureRingsContain`).
- Configuring a hardware model accepts a filter in an unknown match mode, which
  reaches nobody; emptying it also deletes an overlay profile's policy and
  silences other assignments of the same policy.

## Model

| member | source | states |
|---|---|---|
| Fleet.GroupAncestry | internal/domain/fleet/groups.go:15-31 | The loop returns exactly the recursive parent walk, cut at a missing or repeated group. |
| Fleet.AncestryIsReachability | internal/domain/fleet/groups.go:15-31 | For any parent links, cyclic or dangling: a group is in the walk exactly when it is reachable over existing parents, and each appears once. |
| Fleet.ScopePositions | internal/domain/fleet/chain.go:53-68 | The loops number the scopes org, groups in first-seen ancestry order, device last - the position map of the specified chain order. |
| Fleet.Place | internal/domain/fleet/chain.go:57-64 | One ancestry only appends positions for groups not placed before; the others keep theirs. |
| Fleet.PlaceOf | internal/domain/fleet/chain.go:53-68 | The i-th group of the order sits at position i + 1 and the organisation at 0. |
| Fleet.DeviceIsLast | internal/domain/fleet/chain.go:66-68 | The device stands after every other scope of its chain. |
| Fleet.TargetIsOnTheChain | internal/domain/fleet/chain.go:143-156 | A target is on a device's chain exactly when it is the organisation, a group one of the device's groups reaches, or the device. |
| Fleet.Membership | internal/domain/fleet/filter.go:107-112 | The loops collect exactly the ancestors of the device's groups. |
| Fleet.FilterMatches | internal/domain/fleet/filter.go:79-97 | The loop, ended by the mode's deciding rule, decides as the filter does: no rules and unknown modes match nothing. |
| Fleet.OperatorsAgree | internal/domain/fleet/filter.go:99-168 | For an enrolled device and a known attribute, ne is not-eq and in is eq to one of the values. |
| Fleet.RulesReadTheirField | internal/domain/fleet/filter.go:119-168 | An eq rule compares the field its attribute names. |
| Fleet.ModesCombine | internal/domain/fleet/filter.go:79-97 | A further rule narrows an all-filter and widens an any-filter; one rule alone means the same in both, none selects nothing. |
| Fleet.GroupFilterCoversTheSubtree | internal/domain/fleet/filter.go:105-117 | A filter on a group matches exactly the devices one of whose groups reaches it over parent links. |
| Fleet.GroupPartMembers | internal/domain/fleet/chain.go:71-139 | The inline group contributors are exactly those of the ordered groups that set or lock something. |
| Fleet.PolicyPartMembers | internal/domain/fleet/chain.go:113-138 | The policy contributors are exactly the contributions of the assignments. |
| Fleet.InlineGroups | internal/domain/fleet/chain.go:79-112 | Walking the position map in any order collects exactly the group contributors. |
| Fleet.ChainFor | internal/domain/fleet/chain.go:71-139 | The assembled chain has exactly the canonical chain's contributors, whatever order the map was walked in. |
| Resolve.Scan | internal/domain/fleet/resolve.go:71-117 | One pass of the resolver keeps the extreme contributor of those seen. |
| Resolve.ResolveKey | internal/domain/fleet/resolve.go:71-117 | The two passes give the resolution of the key: a lock first, else the most specific value. |
| Resolve.BestIsExtreme | internal/domain/fleet/resolve.go:71-117 | The kept contributor carries the key and none that carries it beats it; none is kept exactly when none carries it. |
| Resolve.ChainRanksDistinct | internal/domain/fleet/chain.go:71-139 | No two contributors of one device's chain tie on specificity, inline-ness and assignment order together. |
| Resolve.OrderIndependent | internal/domain/fleet/resolve.go:53-117 | A key resolves to the same value, source and lock from every ordering of the chain. |
| Resolve.Precedence | internal/domain/fleet/resolve.go:71-117 | A locked key takes the most general locking contributor, an unlocked one the most specific; the winner beats every other. |
| Precedence.AncestorsComeFirst | internal/domain/fleet/groups.go:15-31 | A walk is root first: whatever is above a group - reached from it over parent links, and not the other way - stands before it. |
| Precedence.ScopesAreRootFirst | internal/domain/fleet/chain.go:53-68 | So does a device's whole scope order, over all the groups it lists. |
| Precedence.SpecificityIsThePlace | internal/domain/fleet/chain.go:71-156 | A contributor's specificity is its scope's place: organisation 0, the i-th group i, the device after the last. |
| Precedence.OwnScopesOnTheChain | internal/domain/fleet/chain.go:71-139 | A scope has a contributor of its own exactly when it sets or locks something. |
| Precedence.WinnerOnTheNumbers | internal/domain/fleet/resolve.go:71-117 | An unlocked key is taken from a contributor of the largest specificity that sets it, a locked one from the smallest that locks it; within one, inline first, then the smaller order. |
| Precedence.ResolvesWhenSet | internal/domain/fleet/resolve.go:53-117 | A key resolves exactly when some scope of the device sets it, itself or by an assigned policy, and to a lock exactly when one locks it. |
| Precedence.MoreSpecificWins | internal/domain/fleet/resolve.go:71-117 | On the document, unlocked: the device before its groups, a group before what is above it or reached from an earlier listed one, any group before the organisation. |
| Precedence.MoreGeneralLockWins | internal/domain/fleet/resolve.go:71-117 | ... and locked: the other way round, among the scopes that lock it. |
| Precedence.WithinTheScope | internal/domain/fleet/resolve.go:71-117 | Within the winning scope: its own value if it has one, else that of the policy assigned first. |
| Precedence.DevicesOwnValue | internal/domain/fleet/resolve.go:53-117 | End to end: what a device sets itself is what it builds from unless somebody locks the key. |
| Precedence.OrganisationsLock | internal/domain/fleet/resolve.go:53-117 | What the organisation sets and locks is what every device builds from. |
| Precedence.ShapeIsExactly | internal/domain/fleet/classes.go:150-206 | Two devices have one shape exactly when they have the same model, class and pin, reach the same groups under the same pins, resolve every key to the same value and lock, and get the same apps of each kind. |
| Resolve.Dedup | internal/domain/fleet/apps.go:35-48 | The loop trims, drops blanks and repeats and sorts. |
| Resolve.DedupMeaning | internal/domain/fleet/apps.go:35-48 | The result holds exactly the trimmed non-blank entries, ascending, once each, and deduplicating it again gives the same list. |
| Resolve.AppsAreTheUnion | internal/domain/fleet/apps.go:150-168 | Apps are additive: a device gets exactly the trimmed non-blank names some scope on its chain lists, once each, ascending. |
| Resolve.ResolveApps | internal/domain/fleet/apps.go:153-168 | The loops over organisation, group ancestry and device gather exactly the specified lists. |
| Resolve.KeptMeaning | internal/domain/fleet/apps.go:35-48 | What is kept of a list is each non-blank entry once. |
| BlastRadius.AffectedHosts | internal/app/hosts.go:13-43 | A group's radius is the sorted, duplicate-free list of active devices with it in their ancestry; a device is its own radius unless retired; anything else is the whole fleet. |
| BlastRadius.Contains | internal/app/hosts.go:24-36 | The inner loop finds the group exactly when some listed group's ancestry holds it. |
| BlastRadius.AncestryFrame | internal/domain/fleet/groups.go:15-31 | Rewriting a group's record, its parent included, keeps it in or out of every walk, and leaves every walk without it untouched. |
| BlastRadius.RadiusStable | internal/app/hosts.go:13-43 | The radius read before an edit of the group is the radius after it, re-parenting included. |
| BlastRadius.PolicyFrame | internal/domain/fleet/chain.go:113-138 | A document that agrees on what a device's filters and targets look at gives it the same policy contributors. |
| BlastRadius.GroupEditFrame | internal/app/hosts.go:13-43 | Editing a group changes neither chain, apps nor shape of any device outside its radius - cyclic parents and group filters included. |
| BlastRadius.GroupEditChainFrame | internal/domain/fleet/chain.go:71-139 | ... for the compiled chain. |
| BlastRadius.GroupEditAppsFrame | internal/domain/fleet/apps.go:153-168 | ... for the resolved apps and the group pins. |
| BlastRadius.DeviceEditFrame | internal/app/hosts.go:13-20 | Editing one device's record changes no other device's chain or shape. |
| BlastRadius.PinReachesExactlyTheRadius | internal/app/hosts.go:13-43 | The radius is tight: moving a group's pin changes a device's shape exactly when the group is in its ancestry. |
| BlastRadius.GroupEditCovered | internal/app/hosts.go:13-43 | A group edit under its AffectedHosts changes no device and no globals outside the hosts named. |
| BlastRadius.DeviceEditCovered | internal/app/hosts.go:13-20 | A device edit naming the device does too. |
| Assignments.SettingsParallel | internal/domain/fleet/resolve.go:71-117 | Settings resolve the same from chains that differ only in how their assignments are numbered. |
| Assignments.PolicyPartVoices | internal/domain/fleet/chain.go:113-138 | The policy part of a chain is what each assignment says, numbered in order. |
| Assignments.SameVoicesSameShape | internal/domain/fleet/chain.go:71-139 | A device told the same in the same order builds the same, wherever the assignments stand. |
| Assignments.AssignmentEditFrame | internal/domain/fleet/policy.go:91-126 | Assigning or unassigning at a target leaves a device alone whose chain the target is not on. |
| Assignments.AssignmentEditCovered | internal/http/api/handlers.go:306-328 | AffectedHosts of the target, read off the document the edit lands on, covers it. |
| Structural.RetiringIsHarmless | internal/domain/fleet/device.go:160-195 | Retiring a device affects no other device, under any evaluator. |
| Structural.NewGroupReaches | internal/domain/fleet/device.go:202-222 | Adding a group changes a device's shape exactly when a membership or parent link naming it beforehand puts it in the device's ancestry. |
| Structural.AddGroupIsHarmlessIff | internal/domain/fleet/device.go:202-222 | So it meets the structural contract under every evaluator exactly when no active device has the new group in its ancestry. |
| Structural.DanglingMembershipChangesShape | internal/domain/fleet/device.go:202-222 | A device listed in a group that does not exist yet is such a device. |
| Sampling.SampleHosts | internal/domain/fleet/classes.go:72-93 | Zero or one tag comes back as given; otherwise the sorted list of the first active tag of every shape in the input. |
| Sampling.EquivalenceClasses | internal/domain/fleet/classes.go:36-49 | The classes partition exactly the active devices by shape, members ascending and once each. |
| Sampling.Representatives | internal/domain/fleet/classes.go:54-62 | One host per shape of the whole fleet: the first in sort order, ascending. |
| Sampling.EveryShapeSampled | internal/domain/fleet/classes.go:72-93 | Every shape an active device of the pool builds has a representative in the sample. |
| Sampling.OneHostPerShape | internal/domain/fleet/classes.go:72-93 | ... and only one. |
| Sampling.SampleDeterministic | internal/domain/fleet/classes.go:64-93 | Two samples of the same document are the same list, though maps are walked in any order. |
| Sampling.LeadersAreTheSample | internal/domain/fleet/classes.go:72-93 | The map of least tags kept by the loop holds the sample, each host under one shape. |
| Gate.SampleDecides | internal/domain/fleet/classes.go:64-93 | Evaluating the sample passes exactly when evaluating every active device of the pool would. |
| Gate.TodoDecides | internal/app/config.go:377-395 | With a sound memo, skipping memoised hosts decides as evaluating the whole sample; an empty sample falls back to the whole fleet. |
| Gate.MemoAndSamplingRefineTheFullGate | internal/app/config.go:377-405 | Sampling and memo together decide exactly as evaluating each active host of the radius alone - and what they decide when the radius has no active host: one host is refused, several become the whole fleet. |
| Gate.GuardIsExact | internal/app/config.go:377-405 | Under every evaluator the sampled gate agrees with the radius exactly when the radius is unbounded or names an active device - or names several hosts of a fleet that builds nothing. |
| Gate.RetiredHostIsRefused | internal/domain/fleet/classes.go:66-75 | A radius of one retired host: refused by every evaluator, though no active host of it could fail. |
| Gate.MemoChangesNoOutcome | internal/app/verdicts.go:24-37 | Dropping verdicts or adding sound ones never changes an outcome. |
| Gate.ShieldIsExact | internal/app/config.go:377-405 | An accepted edit is safe under every evaluator if and only if the radius is unbounded, names no active host, or vouches together with the base for every device: its build is a base build or that of a host named. |
| Gate.ShieldProtects | internal/app/config.go:377-405 | A shielded edit that is accepted leaves every active device evaluating. |
| Gate.Unvouched | internal/app/config.go:377-405 | For an unshielded one, an evaluator that rejects a single build accepts it on a valid base and leaves an invalid document. |
| Gate.CoversShields | internal/app/config.go:370-380 | A radius outside which nothing changed shields the edit. |
| Gate.AdmittedIsValid | internal/app/config.go:377-405 | From a valid base, whatever applyTx admits of a shielded edit is valid, memo and sampling included. |
| Gate.HarmlessIsExact | internal/app/config.go:220-230 | A structural edit affects no evaluator's verdict exactly when every device it leaves building built the same before. |
| Verdicts.RecordedMeaning | internal/app/verdicts.go:100-117 | Recording keeps the memo duplicate-free and at most 4096 keys, invents none, and evicts exactly the oldest beyond the bound. |
| Verdicts.VerdictCache.Record | internal/app/verdicts.go:100-117 | The in-place append and eviction loop leaves exactly the specified newest keys. |
| Verdicts.VerdictCache.Known | internal/app/verdicts.go:89-97 | A key is known exactly when it is recorded. |
| Verdicts.VerdictCache.Evict | internal/app/verdicts.go:111-116 | Evicting drops from the oldest end down to the bound and nothing else. |
| Verdicts.KeysForMembers | internal/app/verdicts.go:130-153 | The keys are exactly those of the sampled hosts that build. |
| Verdicts.PartitionHosts | internal/app/verdicts.go:130-153 | The loop splits the sample into the hosts without a recorded verdict and the keys to record; without a source key nothing is memoised. |
| ConfigTx.Repo.Sync | internal/adapters/git/git.go:214-228 | A sync hard-resets onto whatever the remote has by then, or fails and leaves the checkout alone; the remote only grows by others. |
| ConfigTx.Repo.Push | internal/adapters/git/git.go:280-295 | A push arrives only as a fast-forward; a lost race is a conflict; one that reports another failure may have arrived all the same. |
| Gate.DecisionIsRefinement | internal/app/config.go:377-405 | The transaction's decision is the host-by-host one of the radius. |
| ConfigTx.SampledWithinRadius | internal/app/config.go:377-395 | No sampled host lies outside a bounded radius. |
| ConfigTx.RecordedFrom | internal/app/config.go:396-405 | Every verdict recorded is for a device of the new document inside the radius; the memo keeps its bound. |
| ConfigTx.AcceptedIsRemembered | internal/app/verdicts.go:100-153 | What was accepted is not evaluated again: while the memo has room, every active device of the radius has its verdict in it. |
| ConfigTx.Narrow | internal/app/config.go:377-395 | Sampling then partitioning yields the sampled radius, the unmemoised rest and the keys to record. |
| ConfigService.ConfigService.Decide | internal/app/config.go:377-405 | Under a sound memo, acceptance means the radius passes; a refusal without a fault means it does not. |
| ConfigService.ConfigService.ApplyTx | internal/app/config.go:342-410 | Each outcome with its whole effect on working file, log and memo: refused and no-op change nothing, a rejection restores the file, a commit adds exactly the mutated document, an acceptance records exactly the keys of the sampled hosts, and a write or rollback that fails leaves the old file, a torn one or all it was writing. |
| ConfigService.ConfigService.ApplyOnce | internal/app/config.go:275-285 | The snapshot becomes the applied document on success and is untouched otherwise. |
| ConfigService.ConfigService.ApplyLocal | internal/app/config.go:234-243 | Without a remote: one transaction; success exactly on a commit or a no-op. |
| ConfigService.ConfigService.ApplyRemote | internal/app/config.go:234-265 | With a remote others push to, and without faults: refused exactly when the last base tried has no readable document, the edit refuses it or the gate does, or when five bases took the edit and others overtook every one. Faults included: when ours landed, the remote is the base plus at most one commit, the mutation of that base, and checkout, snapshot and remote agree; otherwise it only has others' commits. |
| ConfigService.ConfigService.Attempt | internal/app/config.go:246-263 | One pass of the loop: sync, apply, push. Without faults it ends the loop exactly when the fresh base does not take the edit. |
| ConfigService.ConfigService.Resync | internal/app/config.go:314-336 | A tick lands checkout and snapshot on the remote branch or changes no snapshot; the memo is untouched. |
| ConfigService.GatedMemoStaysSound | internal/app/config.go:396-405 | A gated transaction adds only verdicts the evaluator gave. |
| ConfigRuns.EditKeepsValid | internal/app/config.go:228-285 | An accepted edit, shielded by its radius in the document it lands on or structural under its contract, leaves every active device evaluating. |
| ConfigRuns.StepSoundIff | internal/app/config.go:342-410 | Valid HEAD, valid working document and a sound memo together, under its contract: a step keeps them, whatever fails in it, if and only if it does not leave a document that fails to evaluate in the working file - by a lost rollback, or a write that failed complete. |
| ConfigRuns.RefusalIsOfTheDocument | internal/app/config.go:396-404 | A genuine refusal means the document does not evaluate, unless the radius was a single retired host. |
| ConfigRuns.LostRollbackPoisonsIff | internal/app/config.go:396-404 | So behind a genuine refusal a failed rollback costs soundness exactly when it left the rejected document. |
| ConfigRuns.RunSoundIff | internal/app/config.go:228-285 | ... over any sequence of Apply, ApplyStructural, Sync and lost verdicts, with every gated edit shielded where it lands and faults anywhere: sound at every point if and only if no step poisons. |
| ConfigRuns.UnshieldedEditBreaksHead | internal/app/config.go:342-410 | That last condition is needed: for every clean world and unshielded edit some evaluator accepts it faultlessly and HEAD is invalid after it. |
| ConfigRuns.FaultFreeStaysClean | internal/app/config.go:342-410 | Without faults the tree is clean after every step and an accepted write is in HEAD when reported. |
| ConfigRuns.SuccessIsCommittedIff | internal/app/config.go:355-365 | A reported success is in HEAD exactly when it committed or found the tree clean. |
| ConfigRuns.RetryAfterFailedCommitLosesTheEdit | internal/app/config.go:355-410 | The other half is real: after a failed commit without a remote, repeating the edit is a no-op success HEAD never gets. |
| ConfigRuns.FailuresOutsideTheRadiusStay | internal/app/config.go:377-405 | An accepted edit its bounded radius covers leaves a valid document exactly when every device that failed on the base is one of its hosts or no longer builds. |
| ConfigRuns.NextWriteCommitsTheFailure | internal/app/config.go:396-404 | From every working document with a failing device, a covered, accepted write that does not name it lands faultlessly, contract kept, and HEAD is invalid. |
| ConfigRuns.LostRollbackPoisonsTheNextWrite | internal/app/config.go:396-404 | Both halves in one concrete run: a rejected document stays, and the next, narrower write commits it. |
| ConfigFleet.PinCoveredIff | internal/app/config_settings.go:64-64 | A pin edit is covered exactly when the hosts are the whole fleet or include every active device with the group in its ancestry in the document it lands on - the hosts are read off the snapshot. |
| ConfigFleet.PinShieldedIff | internal/app/rollout.go:691-697 | ... and is safe under every evaluator exactly when each such device builds the shape of a host named, or no host named builds. |
| ConfigFleet.GroupEditMeetsTheContract | internal/http/web/groups.go:185-190 | Any group edit is safe under hosts that include the group's radius in the document it lands on. |
| ConfigFleet.DeviceEditMeetsTheContract | internal/app/config.go:210-218 | A device edit names its device on any base: it cannot be stale. |
| ConfigFleet.PinGroup | internal/app/rollout.go:691-697 | The caller as it runs: radius off the snapshot, then the retry loop. An attempt that landed on a valid base leaves a valid document when that base and the old radius shield it. |
| ConfigFleet.StaleRadiusIsNoShield | internal/http/web/groups.go:206-210 | The radius read while one device is in a group does not shield its pin once a device of another model joined. |
| ConfigFleet.StaleRadiusBreaksHead | internal/app/config.go:234-256 | Two concrete runs, by a write of this console and by a rival's commit synced: every step accepted without a fault, and HEAD invalid. |
| Change.CR.Transition | internal/domain/change/change.go:149-159 | The status moves exactly on a legal step and is untouched otherwise. |
| Change.CR.RecordHosts | internal/domain/change/change.go:84-99 | The loop widens the record to the specified union; no hosts make it whole-fleet. |
| Change.GateHostsAreTheUnion | internal/domain/change/change.go:103-108 | What a submit is handed is nothing, for the whole fleet, exactly when a stored edit was unbounded or none named a host; else exactly the hosts stored edits named, once each. |
| Change.WhoMay | internal/domain/change/change.go:39-57 | The status table read by where it leads: gated from draft or failed, a verdict only from building, merged only from ready, abandoned unless building or settled. |
| Change.MergedWasGated | internal/domain/change/change.go:39-57 | Every path of the status table from Draft to Merged passes Building to Ready. |
| Change.ReadyWasGated | internal/domain/change/change.go:39-57 | ... and every path to Ready does. |
| Change.RecordIsTheUnion | internal/domain/change/change.go:84-99 | Over any history of edits the record is exactly the union of the stored radii, each host once, whole-fleet exactly from the first unbounded edit on. |
| Change.CoverageCondition | internal/app/change.go:270-287 | The scope covers every edit if and only if it is the whole fleet or each edit whose record was lost named only hosts that stored ones name. |
| Change.StoredEditsAreCovered | internal/app/change.go:270-287 | With every record stored, no edit escapes the scope. |
| Change.LostRecordEscapes | internal/app/change.go:253-288 | A commit whose record the store then refuses can escape it: a concrete history. |
| Change.GateScope | internal/app/change.go:568-581 | One host per shape of the candidate within the recorded radius, or of all of it; the raw radius when the candidate cannot be read. |
| Change.ScopeRepresentsEveryShape | internal/app/change.go:568-581 | Every shape an active device of the recorded radius builds has a representative in the scope. |
| Change.ScopeDecides | internal/app/change.go:568-581 | Gating the scope decides exactly as evaluating every active device of the radius, when it is unbounded or has one; the remaining case is stated too. |
| Change.UnnamedIsUntouched | internal/app/change.go:253-288 | A device no edit of the branch named builds from what it built on the base. |
| Change.HonestBranchIsShielded | internal/app/change.go:253-288 | Edits whose radii cover them in the branch's own documents, all recorded, shield the branch. |
| Change.ScopedGateIsExact | internal/app/change.go:316-346 | A scoped gate proves the whole document against a valid base, under every evaluator, exactly when base and scope vouch for every build - for a submit against the branch's base and for a merge against main. |
| Change.SubmitProvesTheBranch | internal/app/change.go:316-346 | From a valid base, a shielded branch whose scoped gate passes leaves every active device evaluating, with no memo and no earlier verdict used. |
| Change.MergeProvesMain | internal/app/change.go:482-498 | The merge gate proves a merged document that main and the recorded hosts vouch for. |
| ChangeFleet.MergeIsCoveredIff | internal/app/change.go:482-498 | Merging a pin edit into main as it is by then: the recorded hosts cover it exactly when they name every active device with the group in its ancestry on the merged document. |
| ChangeFleet.MergeIsSafeIff | internal/app/change.go:482-498 | ... and the merge gate keeps main valid under every evaluator exactly when each such device builds the shape of a recorded host, or no recorded host builds. |
| ChangeFleet.MergeOfGroupEdit | internal/app/change.go:482-498 | Any group edit merged over hosts that name the group's radius on main. |
| ChangeFleet.StaleMerge | internal/app/change.go:483-494 | A device that joined the group on main after the edit: branch gated, main valid, merged result accepted, and it does not evaluate. |
| ChangeFleet.StaleSubmit | internal/http/web/change_ops.go:64-65 | A radius taken from main's snapshot for a branch cut earlier: the submit gate passes a branch that does not evaluate. |
| ChangeProtocol.MainMoves | internal/app/change.go:482-498 | A step adds at most one commit to main, and removes at most the merge a rollback refuses. |
| ChangeProtocol.StoreMoves | internal/app/change.go:170-561 | Every record a step stores is a new draft, the same status or a legal transition; Merged only for a change whose branch main contains. |
| ChangeProtocol.StepKeepsInv | internal/app/change.go:170-732 | Git and store agreement, the submit window and what the lock holder knows are jointly inductive over every step, crashes included. |
| ChangeProtocol.MergedIsInMain | internal/app/change.go:454-513 | In every reachable state, crash between any two steps included, a change recorded merged is in main, and stays recorded and in main for good. |
| ChangeProtocol.NoWriteIsLost | internal/app/change.go:487-498 | No direct write that ever landed on main is lost, and their order is kept: a rollback discards its own merge only. |
| ChangeProtocol.SubmitWindow | internal/app/change.go:297-315 | While a submit's gate runs with the lock free, whatever interleaves: the change is Building, its branch is what the submit began with, and no second submit of it runs. |
| ChangeProtocol.VerdictLands | internal/app/change.go:410-449 | A verdict's transition is always legal and lands. |
| ChangeProtocol.WhatMergesWasAccepted | internal/app/change.go:316-533 | What is ready or merged is exactly the branch an accepted submit gated, not a commit more. |
| ChangeProtocol.ReconcileSettles | internal/app/change.go:682-732 | After a reconcile git answered throughout, no ready change with a live branch is already in main. |
| ChangeProtocol.TidyRunsProveEveryMerge | internal/app/change.go:482-498 | Without a crash or failed rollback between landing and verdict, every merge on main but the one being validated passed the gate. |
| ChangeProtocol.ProofsKeptIff | internal/app/change.go:492-497 | A step from a state whose merges are all proved leaves them so exactly unless it is one of those two over a merge commit of a change not proved before. |
| ChangeProtocol.UnprovedIff | internal/app/change.go:482-498 | In a reachable state an unproved merge of a change is on main exactly when such a step left it there and no later merge of that change was accepted. |
| ChangeProtocol.UngatedIff | internal/app/change.go:682-732 | A change is recorded merged without its merged result ever having been gated exactly when a reconcile recorded it whose branch had no commits, or whose merge an earlier step had left unproved. |
| ChangeProtocol.TidyRecordsAreProved | internal/app/change.go:454-513 | While git answers for the diffs of submits and no crash or failed rollback falls in that window, whatever is recorded merged passed the gate as merged. |
| ChangeProtocol.BareTookALostDiff | internal/app/change.go:325-342 | A change that is ready without a commit passed a submit whose diff git could not give. |
| ChangeProtocol.CrashThenReconcileMergesUngated | internal/app/change.go:682-732 | From any idle state with one ready change: a crash between merge and validation, then a reconcile, records it merged without its merged result ever being gated. |
| ChangeProtocol.BareChangeIsRecordedMerged | internal/app/change.go:682-732 | A change nobody edited, submitted while git cannot answer for its diff, is recorded merged by the next reconcile without any merge. |
| ChangeProtocol.StrandedForever | internal/app/change.go:357-449 | A change that is Building with no submit in flight stays so in every run that follows; no operation, reconcile included, leaves that status. |
| ChangeProtocol.StrandsExactly | internal/app/change.go:410-449 | A step strands a change exactly when its submit is in flight and the process dies, or its verdict arrives and the store refuses it. |
| ChangeProtocol.StrandedIff | internal/app/change.go:357-449 | A change is stranded in a reachable state exactly when such a step happened to it. |
| ChangeProtocol.BuildingStays | internal/app/change.go:305-315 | Nothing but its own verdict moves a change out of Building. |
| ChangeService.ChangeService.Open | internal/app/change.go:172-198 | Without faults refused exactly for a bad id, no title, or an id taken; a branch off main and a draft record, or neither, unless removing the branch fails too; other writers' commits are kept. |
| ChangeService.ChangeService.Edit | internal/app/change.go:253-288 | Without faults refused exactly unless it is a draft or failed change with a branch that takes the edit; then that branch has one commit more when the edit changes something, and the change is a draft. |
| ChangeService.ChangeService.BeginSubmit | internal/app/change.go:357-379 | Building is stored before the gate may run, for a branch the run remembers; without faults exactly for a draft or failed change with a branch. A failure changes nothing. |
| ChangeService.ChangeService.FinishSubmit | internal/app/change.go:325-449 | The run's change is still Building on the run's branch, and exactly its verdict is recorded; a branch git shows to have no commits is refused without the gate. |
| ChangeService.ChangeService.Merge | internal/app/change.go:454-513 | Outcome by outcome, a failed snapshot reload among them: recorded only after the merged result was accepted; a conflict or rollback leaves exactly what other writers left. Without faults a conflict is git's, a rollback the gate's, and everything else is recorded. |
| ChangeService.ChangeService.MergeLocked | internal/app/change.go:482-513 | The part under the write lock adds at most one merge commit, and takes it back exactly on a rolled-back refusal. |
| ChangeService.ChangeService.Abandon | internal/app/change.go:549-561 | Without faults exactly where the status table allows; recorded after the branch is torn down. |
| ChangeService.ChangeService.Reconcile | internal/app/change.go:682-732 | Only ready changes main contains are corrected, to merged, and only settled changes lose their branch; if git answered for all, none is left waiting, and without faults no settled change keeps a branch. |
| EvalPool.StepKeepsInv | internal/adapters/nix/gate.go:126-177 | Every step of feeder, workers, error channel and cancel keeps each batch accounted for. |
| EvalPool.ChannelHasRoom | internal/adapters/nix/gate.go:130-160 | A failing worker never blocks on the error channel. |
| EvalPool.NilMeansAllPassed | internal/adapters/nix/gate.go:126-177 | For every interleaving, worker and batch count: nil comes back only after every batch was evaluated and passed. |
| EvalPool.ErrorIsHonest | internal/adapters/nix/gate.go:136-176 | Unless the caller's context ended, a returned error is a batch's own rejection, never the cancellation it caused. |
| EvalPool.PoolDecides | internal/adapters/nix/gate.go:126-177 | Over any complete run: nil exactly when no batch is rejected, else a rejected batch's own error. |
| EvalPool.StepDoesWork | internal/adapters/nix/gate.go:126-177 | Every step lowers a bound on the work left. |
| EvalPool.RunIsBounded | internal/adapters/nix/gate.go:126-177 | So every run is finite, bounded by the work at its start. |
| EvalPool.NeverStuck | internal/adapters/nix/gate.go:126-177 | Until the pool returns, the feeder or a worker can move without the caller. |
| EvalPool.PoolReturns | internal/adapters/nix/gate.go:126-177 | Every pool with a worker has a complete run, and it answers nil exactly when no batch is rejected. |
| EvalGate.Chunk | internal/adapters/nix/chunk.go:12-25 | The batches concatenate to the list, none longer than the size, one batch without a size. |
| EvalGate.BatchesDecide | internal/adapters/nix/chunk.go:12-25 | All batches pass exactly when the whole list does. |
| EvalGate.BatchCount | internal/adapters/nix/chunk.go:12-25 | The number of batches is the length over the size, rounded up. |
| EvalGate.EvalInOrder | internal/adapters/nix/gate.go:126-135 | The sequential path accepts exactly when every batch passes. |
| EvalGate.PoolDecidesHosts | internal/adapters/nix/gate.go:126-177 | The pool over the chunks of a list returns nil exactly when every host of it passes. |
| EvalGate.ExpandHost | internal/adapters/nix/gate.go:194-210 | One host with every variant, or a refusal on a malformed name. |
| EvalGate.ExpandVariants | internal/adapters/nix/gate.go:194-210 | Every host with every variant, in order, exactly when all names are well-formed. |
| EvalGate.ParseJobLines | internal/adapters/nix/gate_jobs.go:148-179 | The failed hosts are exactly those blamed by a line and the requested ones without a line; no result at all is an error. |
| EvalGate.EvalWithJobs | internal/adapters/nix/gate_jobs.go:55-108 | Accepted exactly when the scan was clean, the exit good, nothing blamed and every host reported. |
| EvalGate.PathsAgree | internal/adapters/nix/gate_jobs.go:89-179 | With truthful lines the jobs path accepts exactly when the batch path would and no host's line is missing. |
| EvalGate.ValidateDecides | internal/adapters/nix/gate.go:90-121 | Validate, whichever path it takes and however it is set up: nil exactly when the hosts resolve, every name they resolve to passes and, on the jobs path, none lost its line; so every variant of every host listed is well-formed and passes, and a failed discovery is never nil. |
| BuildJobs.KeyIsThePieces | cmd/gate-runner/build.go:43-48 | Two requests share a job exactly when they name the same revision and, every host cut at its NULs, the same names in sorted order. |
| BuildJobs.KeyIdentifiesTheRequest | cmd/gate-runner/build.go:43-48 | For hosts without a NUL: exactly when they name the same revision and the same hosts in any order. |
| BuildJobs.NulSharesAKey | cmd/gate-runner/build.go:89-100 | The hosts are not checked: one name with a NUL in it shares the job of the two names around it. |
| BuildJobs.RevisionsAreHex | cmd/gate-runner/build.go:36-41 | A revision is six to forty lowercase hex digits. |
| Text.SameJoin | cmd/gate-runner/build.go:43-48 | Two lists join to the same text exactly when they have the same pieces. |
| BuildJobs.Server.HandleBuild | cmd/gate-runner/build.go:75-125 | A refused request touches nothing; a good one starts the job only when its key is new and reports its phase. |
| BuildJobs.Server.HandleBuildCancel | cmd/gate-runner/build.go:56-73 | Every switch in the table is fired and the table emptied, and counted; unauthorised calls do nothing. |
| BuildJobs.Server.RecordVerdict | cmd/gate-runner/build.go:138-153 | The locked end of a build: its key removed when cancelled, else done without an error and failed with the error's text, and its switch gone. |
| BuildJobs.PhaseIff | cmd/gate-runner/build.go:131-154 | Over any run: a key reads done exactly when a build of it came back without an error, uncancelled, and failed with a text exactly when one came back with that text. |
| BuildJobs.StepKeepsInv | cmd/gate-runner/build.go:56-154 | One owner per building key, switches of exactly the uncancelled owners, one holder of the slot: inductive over polls, cancels and goroutines. |
| BuildJobs.BuildingMeansOwned | cmd/gate-runner/build.go:56-154 | A key reads building exactly while one goroutine owes it a verdict, and at most one build runs. |
| BuildJobs.VerdictsAreStable | cmd/gate-runner/build.go:100-125 | Done and failed never change in any run. |
| BuildJobs.CancelledJobIsRemoved | cmd/gate-runner/build.go:138-147 | A job queued, running or just back at a cancel ends removed, never failed or done. |
| BuildJobs.SomeTaskMoves | cmd/gate-runner/build.go:131-154 | While a goroutine is left, one of them can move. |
| RolloutPlan.MinPresent | internal/domain/rollout/rollout.go:92-104 | The evidence floor is at least one device and never more than a non-empty cohort has. |
| RolloutPlan.EvidenceMeans | internal/domain/rollout/rollout.go:84-104 | By default half the cohort must be reachable; a wave naming a number needs that many or everybody. |
| RolloutPlan.GatesMean | internal/domain/rollout/rollout.go:121-148 | Both health gates without their divisions; the rounding shifts the failure budget by up to one percent. |
| RolloutPlan.NeitherConvergedNorBroken | internal/domain/rollout/rollout.go:121-148 | A wave whose present devices are all settled neither converges nor halts exactly in that rounding gap, though its budget is exceeded. |
| RolloutPlan.SettledWaveThatWaits | internal/domain/rollout/rollout.go:137-148 | Two broken of thirty-nine under the default threshold are such a wave. |
| RolloutPlan.AnswersAreExact | internal/domain/rollout/rollout.go:389-482 | Each answer for a promoted wave exactly when: halt on a broken one, done, sign-off or advance on a soaked one; never a second promotion. |
| RolloutPlan.WavesInOrder | internal/domain/rollout/rollout.go:389-482 | A run reaches a wave only after every earlier one was promoted and left for cause: nobody to release to, or converged, soaked, fully released and signed off. |
| RolloutPlan.RecordsTrailTheRing | internal/app/rollout.go:674-745 | Nothing is recorded about waves not reached, no convergence without promotion, no wave passed unpromoted. |
| RolloutPlan.ConvergenceWasSeen | internal/app/rollout.go:722-728 | A recorded convergence was observed on that wave at that moment. |
| RolloutPlan.CompletedMeansEveryWave | internal/domain/rollout/rollout.go:389-482 | A completed run left every wave for cause, the last included. |
| RolloutPlan.CompletedPromotedEveryWave | internal/domain/rollout/rollout.go:389-482 | ... and promoted every one. |
| RolloutPlan.HaltedIff | internal/app/rollout.go:674-745 | Over any run: it is halted exactly when a tick saw its promoted wave too broken, or the build of the wave to promote failed, and nobody cancelled it since. |
| RolloutPlan.CompletedIff | internal/app/rollout.go:674-745 | ... completed exactly when a tick found nothing left: past the last wave, or the last one soaked. |
| RolloutPlan.WaveLeftIff | internal/app/rollout.go:674-745 | ... has a wave behind it exactly when a tick left it: empty, or soaked, not the last and signed off. |
| RolloutPlan.PromotedIff | internal/app/rollout.go:674-713 | ... records a promotion, with its time, exactly when a tick promoted the wave with its build check cleared. |
| RolloutPlan.ClockIff | internal/app/rollout.go:713-728 | ... shows a soak clock started at a time exactly when a tick then first saw the wave converge and no widening reset it. |
| RolloutPlan.RequestIff | internal/app/rollout.go:80-116 | ... records a requested build exactly when a tick first found it still building and the wave was not promoted on it since. |
| RolloutPlan.ApprovedIff | internal/app/rollout.go:600-643 | ... records a sign-off exactly when one was given while the wave was current. |
| RolloutPlan.PlanNeverChanges | internal/app/rollout.go:425-433 | A run keeps its own wave plan and target. |
| RolloutPlan.SignOffHoldsFromTheStart | internal/domain/rollout/rollout.go:266-273 | A sign-off counts from the moment its wave is current, soaked or not: the gate no longer holds the run. |
| Rollout.WorkKeeps | internal/app/rollout.go:674-697 | A pin commit or a clearance keeps branch ownership and every promoted wave shipped. |
| Rollout.MoveKeeps | internal/app/rollout.go:164-182 | Moving the branch of the current, pinned, cleared wave - set, pushed, either or both - does too. |
| Rollout.FollowKeeps | internal/app/rollout.go:237-247 | Between runs any branch may follow main: what a run did stays what it did. |
| Rollout.PromotedWavesAreOffered | internal/app/rollout.go:705-713 | While a run is in flight the branches of its promoted waves are at the target locally and remotely, whatever became of the pins. |
| Rollout.ForeignMoveKeepsIff | internal/app/rollout.go:213-229 | Somebody else moving a branch in flight leaves the run owning its branches exactly when it moves it to the target of a group the run released, or to where the run found it, locally and remotely. |
| Rollout.RolloutService.Others | internal/http/web/groups.go:195-213 | Plans, devices and pins may change at any time, a promoted group's pin included. |
| Rollout.RecordKeeps | internal/app/rollout.go:713-750 | The record may change in any way that promotes nothing but the current wave, shipped. |
| Rollout.LaterWavesStayPut | internal/app/rollout.go:220-229 | While a run is in flight, a branch no wave up to the current one covers is where the run found it, locally and remotely. |
| Rollout.RolloutService.EnsureRingBuilt | internal/app/rollout.go:80-116 | A wave is cleared only without a builder, without active devices, or with its release reported done for exactly those devices. |
| Rollout.WaveHostsAre | internal/app/rollout.go:80-95 | The wave's hosts are the active devices of its groups. |
| Rollout.BuilderDecides | internal/app/rollout.go:80-116 | A release goes ahead without a builder, without hosts, or once it is built; a failed build halts, everything else waits. |
| Rollout.RolloutService.PinWave | internal/app/rollout.go:691-697 | Only the wave's groups are pinned and only to the target; success means all of them, and without faults fails only for a group that is gone. |
| Rollout.RolloutService.MoveRingRef | internal/app/rollout.go:164-182 | Success means local and remote are both at the revision, even when the local branch already was. |
| Rollout.RolloutService.MoveWave | internal/app/rollout.go:705-712 | Only the wave's branches move and only to the target; success means all moved and pushed. |
| Rollout.RolloutService.PromoteWave | internal/app/rollout.go:675-713 | A promotion is ready only with the wave cleared, pinned, moved and pushed; any failure leaves ownership intact for the retry. |
| Rollout.RolloutService.Execute | internal/app/rollout.go:673-750 | For every answer of the engine and every failure: ownership and shipped waves are kept, and only a promotion touches pins or branches, those of the current wave. |
| Rollout.RolloutService.Tick | internal/app/rollout.go:647-754 | A tick is one step of the run record under the engine's decision on what was observed and what the builder answered, or none - without faults only when the observation failed or a group of the wave is gone; nothing moves unless the run is active, and it halts exactly on a broken wave or a failed build. |
| Rollout.RolloutService.FollowHead | internal/app/rollout.go:213-249 | Nothing while a run is active, paused or halted; otherwise every unpinned plan branch goes to main's head and no pinned one moves. |
| Rollout.RolloutService.StartWith | internal/app/rollout.go:502-549 | A new run over the full or scoped plan; without faults refused exactly over an active one, or without target, plan or a group named. It remembers where it found the branches. |
| Rollout.ScopedReaches | internal/app/rollout.go:512-527 | A scoped run starts with the test wave and reaches the named groups and no others. |
| Rollout.ExpeditedShortens | internal/app/rollout.go:528-537 | An expedited run soaks five minutes at the most and changes nothing else. |
| Rollout.RolloutService.Operate | internal/app/rollout.go:600-643 | Pause, resume, approve and cancel are each one step of the record, without faults exactly from the statuses they start from, or an error that changes nothing. |
| AutoFlow.NonMachineCommitsSince | internal/app/rollout.go:366-390 | A run is warranted exactly when somebody else's commit sits above the baseline or the baseline is out of the window; the risk reported is the newest marked one. |
| AutoFlow.MachineTrail | internal/app/rollout.go:350-390 | A trail of machine commits alone warrants a run exactly when it is at least 200 long. |
| AutoFlow.PromotedBaseline | internal/app/rollout.go:328-348 | The baseline is the first pin in plan order, and at head means every pin is. |
| AutoFlow.PlanPinsAre | internal/app/rollout.go:328-348 | The pins gathered are exactly the non-empty pins of the plan's existing groups. |
| AutoFlow.BaselineIsTheFirst | internal/app/rollout.go:328-348 | The baseline is the pin of the first pinned group, wave by wave in plan order. |
| AutoFlow.MaybeAutoStart | internal/app/rollout.go:277-322 | A run starts itself, to main's head over the full plan, or is refused by StartWith, exactly when the stored run and main's head could be read, the engine is idle, the pins are behind, somebody's commit warrants it and none of those is marked high-risk. |
| AutoFlow.CompletedSetsTheBaseline | internal/app/rollout.go:324-348 | A full-ladder run that promoted every wave leaves every pin of the plan at its target, while nobody moves those pins. |
| AutoFlow.OwnCommitsStartNothing | internal/app/rollout.go:266-322 | After a completed full-ladder run with its pins untouched, machine commits alone on top of its target make a run start itself exactly when there are at least 200 of them. |
| EnrolmentRings.LevelledShape | internal/app/enrolment_rings.go:188-206 | Clearing the group pins changes a device's shape in its pins and in nothing else. |
| EnrolmentRings.MembersChangedBetween | internal/app/enrolment_rings.go:135-186 | The sorted list of exactly the members at the old pin, not being enrolled, whose levelled shape or globals differ. |
| EnrolmentRings.GuardComparesDocuments | internal/app/enrolment_rings.go:35-46 | The guard passes if and only if every such member is built by the newer document if by the older, from the same shape and globals; group pins alone may differ. |
| EnrolmentRings.GuardProtects | internal/app/enrolment_rings.go:135-186 | On the documents alone: it passes exactly when the pin can be read and every device of the old document, not being enrolled, with a listed group from which the ring is reached over parent links, keeps the globals, whether it builds, and its inputs. |
| EnrolmentRings.RingKeepsItsBuilds | internal/app/enrolment_rings.go:35-41 | Moving a ring rebuilds none of its members exactly when none builds at either revision, or the guard passes against the document at the new one and the rest of the tree is the same. |
| EnrolmentRings.SnapshotHasToBeTheRevision | internal/http/web/enroll.go:252-254 | Once the guard passed against the snapshot: exactly when the trees agree and the members build at the revision what the snapshot says. |
| EnrolmentRings.CoreBumpPassesTheGuard | internal/app/enrolment_rings.go:35-41 | A core bump between pin and enrolment passes the guard and rebuilds the member. |
| EnrolmentRings.StaleSnapshotPassesTheGuard | internal/http/web/enroll.go:252-254 | So does a revision newer than the snapshot. |
| EnrolmentRings.RingsToMove | internal/app/enrolment_rings.go:86-105 | The pinned rings not at the revision in the ancestry of an enrolled device, ascending. |
| EnrolmentRings.RingsInQuestion | internal/app/enrolment_rings.go:86-105 | Those are the pinned groups not at the revision that a group listed by an enrolled device reaches over parent links. |
| EnrolmentRings.AdvanceRing | internal/app/enrolment_rings.go:107-125 | One ring is moved and pushed only past its guard; a refusal touches nothing. |
| EnrolmentRings.EnsureRingsContain | internal/app/enrolment_rings.go:70-127 | The rings moved are an initial segment of the sorted list, each leaving every other member untouched, and an error names the ring after them: nothing was moved exactly when a refusal names the first. A git failure needs a fault. A repository that cannot read old revisions is a success that moved nothing. |
| EnrolmentRings.ErrorAfterAMove | internal/app/enrolment_rings.go:65-69 | The comment that an error means nothing was moved is stronger than the code: a concrete pair of rings. |
| EnrolmentRings.MidRunAdvanceIff | internal/app/enrolment_rings.go:117-123 | Runs are not consulted: moving a lagging ring during one leaves the run its branches exactly when the revision is where the run found that branch on both sides, or its own target for a released group an operator re-pinned. |
| HardwareConfig.Document.ConfigureHardware | internal/domain/fleet/hardware_config.go:38-98 | In place: refused exactly when the specification refuses, and otherwise exactly its document. |
| HardwareConfig.Document.Unconfigure | internal/domain/fleet/hardware_config.go:103-113 | Removes the pair's assignments, the policy, and the filter unless another assignment uses it. |
| HardwareConfig.Document.DeleteOurs | internal/domain/fleet/hardware_config.go:92-94 | Deletes exactly the assignments of the pair and keeps the others in order. |
| HardwareConfig.Document.EnsureFilter | internal/domain/fleet/hardware_config.go:62-73 | A filter of that name is reused only while it selects exactly the model, and created otherwise. |
| HardwareConfig.Document.EnsurePolicy | internal/domain/fleet/hardware_config.go:75-89 | The settings under the name, description and controls an earlier configuration had; refused for an overlay profile's policy or a lock on an unset key. |
| HardwareConfig.PolicyKeepsItsTexts | internal/domain/fleet/hardware_config.go:75-89 | An earlier name stays unless it was blank, description and controls stay, nothing else does. |
| HardwareConfig.Document.PutPolicy | internal/domain/fleet/policy.go:16-44 | Written exactly when it says something and locks only what it sets. |
| HardwareConfig.Document.Assign | internal/domain/fleet/policy.go:91-112 | Appended exactly when policy and filter exist and no equal triple does. |
| HardwareConfig.ModelFilterMatches | internal/domain/fleet/filter.go:79-168 | A filter over exactly one model matches exactly its devices - or nobody in an unknown match mode. |
| HardwareConfig.ChainCarries | internal/domain/fleet/chain.go:113-138 | An assignment is on a device's compiled chain exactly when it contributes. |
| HardwareConfig.ReachesExactlyTheModel | internal/domain/fleet/hardware_config.go:38-98 | After configuring, exactly one assignment carries the settings, on a device's chain exactly when it is of the model, the target is on its chain and the filter's match mode is known. |
| HardwareConfig.OddMatchModeReachesNobody | internal/domain/fleet/hardware_config.go:133-138 | The last condition bites: a hand-edited mode passes the reuse check and reaches nobody. |
| HardwareConfig.ConfiguringAgain | internal/domain/fleet/hardware_config.go:30-38 | Repeating changes nothing; retargeting leaves the one assignment at the new target; all others keep their place. |
| HardwareConfig.EmptyingRemovesTheContribution | internal/domain/fleet/hardware_config.go:57-59 | Emptying leaves no assignment of the pair and nothing of the policy on any device. |
| HardwareConfig.OtherAssignmentsSayTheSame | internal/domain/fleet/hardware_config.go:38-113 | Assignments of other policies stay, and say to a device what they said exactly unless they named this model's filter while it did not exist and configuring it makes them reach that device. |
| HardwareConfig.OtherModelsAreUntouched | internal/domain/fleet/hardware_config.go:38-113 | Configuring or emptying a model leaves the resolved settings and the shape of every device of another model unchanged, unless an assignment hands that device the model's policy - another one, or its own under a filter edited to select other devices. |
| HardwareConfig.EmptyingSilencesOtherAssignments | internal/domain/fleet/hardware_config.go:100-113 | Another assignment of the same policy stays in the list but goes silent when the model is emptied. |
| HardwareConfig.OverlayPolicyCanOnlyBeDeleted | internal/domain/fleet/hardware_config.go:57-82 | A policy from an overlay profile refuses settings and yields to emptying. |
| HardwareConfig.NoneOfOurs | internal/domain/fleet/hardware_config.go:92-94 | What DeleteFunc keeps is exactly what is not of the pair. |
| CatalogValues.ParseLines | internal/domain/fleet/catalog.go:247-261 | The loop gives the trimmed non-blank lines, at least one. |
| CatalogValues.PrintItems | internal/domain/fleet/catalog.go:293-309 | The loop joins text items by lines and refuses other items and line breaks. |
| CatalogValues.BooleansSurvive | internal/domain/fleet/catalog.go:200-313 | A boolean printed and parsed is itself. |
| CatalogValues.TogglesTake | internal/domain/fleet/catalog.go:210-218 | A toggle takes its five spellings and nothing else. |
| CatalogValues.RangesAre | internal/domain/fleet/catalog.go:224-232 | Zero is refused by positive types, less than zero by those that say so in any of three words, more by none. |
| CatalogValues.ControlsAre | internal/domain/fleet/catalog.go:140-168 | Secret before hint before type; "integer" anywhere in a type before what it starts with. |
| CatalogValues.OptionsAre | internal/domain/fleet/catalog.go:173-188 | The options of an enumeration are the names it was written with. |
| CatalogValues.TimeRangesAre | internal/domain/fleet/catalog.go:239-246 | A time range is two times of day. |
| CatalogValues.IntegersSurvive | internal/domain/fleet/catalog.go:219-233 | A JSON whole number is parsed as what its float64 prints as, when that is a machine integer in the type's range, and refused otherwise; it arrives as written exactly when it is one and prints as itself. |
| CatalogValues.SmallIntegersSurvive | internal/domain/fleet/catalog.go:276-292 | Up to 2^53 either way it does. |
| CatalogValues.NextNumberArrivesAsItsNeighbour | internal/domain/fleet/catalog.go:288-292 | 2^53 + 1 arrives as 2^53, without an error. |
| CatalogValues.FractionsAreRefused | internal/domain/fleet/catalog.go:288-292 | A fraction is refused, never truncated. |
| Numbers.SmallNumbersPrint | internal/domain/fleet/catalog.go:288-292 | Whole numbers up to 2^53 print as written after decoding. |
| Numbers.IntOfDecimal | internal/domain/fleet/catalog.go:219-223 | A text reads as an integer only when it is that integer's own spelling. |
| CatalogValues.ListsSurvive | internal/domain/fleet/catalog.go:247-313 | A list survives exactly when it has items, each non-blank, trimmed and free of line breaks. |
| CatalogValues.ParsedNumbersAndListsDoNotPrint | internal/domain/fleet/catalog.go:281-312 | Handed what the parser just returned for a number or a list, the printer refuses; it takes texts and booleans. |
| CatalogValues.WhatParsesSurvivesJson | internal/domain/fleet/catalog.go:200-313 | Sent out and back as JSON, what any control accepted prints and parses as itself, unless it is a number its float64 does not print as or a list item holds a carriage return. |
| CatalogValues.CarriageReturnDoesNotPrint | internal/domain/fleet/catalog.go:299-305 | Such an item exists. |
| Text.SplitJoin | internal/domain/fleet/catalog.go:251-309 | Splitting undoes joining when no part holds the separator. |

## Left out

- Hashes: source keys, globals keys, class keys and the 64 bits kept of a build key are taken as injective; unmarshalable settings cannot occur.
- Document encoding: decoding a canonical file gives the document encoded; a file that decodes to the same document but other bytes is told apart only as non-canonical.
- The source key of a dirty working tree, and source trees that differ between evaluations of one transaction.
- Overlay writes (auxApply), which sample from the snapshot without reloading after a sync.
- ChangeProtocol.MergedIsInMain: for a repository without a remote; with one, the push after a merge runs outside the write lock and a sync may discard the merge first.
- Publishing change branches to the remote, gate refs by name and the realisation build after a submit's gate, which only add ways for a verdict to be a rejection.
- The four-eyes check before a merge, notifications, scrubbing of errors and the callback after a merge.
- Worktrees: an edit needs the change's branch; a leaked or missing worktree directory is not modelled.
- Change.LostRecordEscapes: states the escape for two edits over an arbitrary document; Change.ScopedGateIsExact says when a device behind it can fail.
- ConfigFleet.PinGroup: models the pin edit among the edits that read their radius off the snapshot; other group edits have the one-way ConfigFleet.GroupEditMeetsTheContract, since one that changes no shape is safe under any radius.
- Structural edits other than adding a group and retiring a device; access, secret references and assurance are outside the document modelled or part of its globals.
- The two-step start of a self-started run is one step here: an operator's start between the check and StartWith is not modelled.
- Pins are edited by others between the rollout service's calls, not between the steps of one call.
- Enrolment is not one of the rollout service's calls; EnrolmentRings.MidRunAdvanceIff states what it does to a run.
- Runs persisted before plan snapshots existed, which read the current plan instead of their own.
- Cohort release of a capped wave marks devices one gated commit at a time; only its success or failure is modelled, and that a wave counts as released is taken from the observation.
- The texts of reasons, waiting notes and timestamps other than those the engine compares.
- A wave's percentages are exact integer division on non-negative counts, as in the code.
- EvalPool.RunIsBounded: counts steps of the pool itself; how long one evaluation takes, and its timeout, are not modelled.
- Evaluation errors are texts; their distilling and sanitising is not modelled.
- Infrastructure hosts a gate may list beyond the fleet's devices.
- The build of a revision itself, the cache it publishes to, and slot order among queued builds.
- JSON numbers that are fractions, negative zero or too large for a float64: a fraction is carried by the digits it prints as, the other two do not occur.
- Type names are lowered for ASCII letters only.
- Filter and hardware edits of a document the write transaction then rejects: the half-edited copy is thrown away.
- Retention, erasure, diagnostics, imaging, identity, the web console, the command line and the device agent.

# Cthuwu verification

A Dafny model of the stateful core of the Cthuwu repository: the Rust runtime (`cthuwu/`), the TypeScript sidecar
(`agent/`), the deployment workflow (`contracts/scripts/`) and the workspace scripts (`scripts/`). Each module models
one component with its branches, edge cases, limits and error conditions, and proves what that component is for.
`dafny verify dfyconfig.toml` checks the whole project (Dafny 4.11).

## How the model is built

- **Protocols** are state machines over their durable or observable steps. Requests interleave at every await, any of
  them may stop between two steps, and whatever a provider, a clock or another process answers is an arbitrary input.
  Each has an invariant, a lemma that one step keeps it, and theorems over all runs.
- **Objects that the code updates in place** are classes with the same fields. Their methods are proved against the
  functions of the specification, where the properties are stated.
- **Formats** (action texts, RLP, the contact note) have an encoder, an independently written decoder, and the round
  trip between them.
- Signatures and hashes (HMAC, SHA-256, Keccak, fingerprints, CREATE addresses) are free constructors, hence injective.
  Replacing a file is atomic, creating one exclusively fails when it exists.

| module | component |
|---|---|
| `Nature`, `AwakeningAction`, `AwakeningLog`, `AwakeningRitual`, `AwakeningRecovery`, `AwakeningObjects` | the awakening ritual, its signed log, replay and recovery |
| `SignerJournal`, `ReferralBounty`, `BrandingLoop` | nonce and mint allocations, referral payouts, the Branding completion loop |
| `LogReader`, `Discovery` | the five-worker log reader and checkpointed identity discovery |
| `LivenessGate`, `Enrollment` | admission of liveness probes, enrollments, groups and one-use grants |
| `Rlp`, `DeploymentWorkflow` | the RLP encoder and the deployment commands |
| `ReleasePromotion` | source updates and release activation |
| `SearchIndex`, `SearchRanking` | the incremental index and the merged search ranking |
| `ContactNote`, `ContactOnboarding` | the contact note and the onboarding transitions |
| `JsonlBridge`, `ConversationHistory`, `Economics` | the request bridge, the conversation journal, the economic arithmetic |
| `Text`, `Integers`, `Wrappers` | ASCII text as the Rust standard library sees it; integer bounds; `Option` and `Result` |

## What the proofs found

- **Zero adjustment** (cthuwu/src/awakening.rs:343-378): a delta of zero passes the guards in memory, but its text does
  not parse, so the log refuses it. It joins the reused event id and the reused rerolled id as the only reasons
  (`AwakeningRitual.LogAdmitsExactly`).
- **Lost acknowledgement** (cthuwu/src/awakening.rs:882-931): an append that reached the disk but was reported as failed
  blocks every further transition until recovery. Whenever a ritual that is behind gets a transition accepted, memory and
  replay agree afterwards exactly if it opens an epoch or start time, phase and counters agreed before; two foreign
  appends that cancel each other break that (`MissedAppendBlocksUntilRecovery`, `StaleTransitionExactly`,
  `StaleByTwoDiverges`).
- **Renewed proof** (agent/src/erc8004.ts:1289-1364, 2786-2814): the mint allocation lets an exact replay pass with a
  newer discovery proof (`SignerJournal.MintCheckExactly`), but the nonce allocation goes only to the identical request,
  whose fingerprint covers the proof (`WriteIsSentExactly`); so that registration is stopped, and never sent in any
  interleaving (`RenewedProofIsStopped`, `RefreshedProofIsNeverSent`).
- **Avatar phase** (agent/src/erc8004.ts:3902-3977): it is reported as pending before the mint and never sent after it
  (`BrandingLoop.AvatarIsPendingButNeverNext`).
- **Revoked approvals** (agent/src/erc8004.ts:2193-2317): continuing from checkpoints can block a mint that a full scan
  would allow, never the other way round (`CheckpointsNeverHideAnIdentity`, `CheckpointsMayBlockMore`).
- **Two stopped operations** (scripts/code.py:615-619): the second announcement replaces the first, so the active release
  can differ from the state file unexplained; which stops do that is decided before the operation starts
  (`ReleasePromotion.StopExplainedExactly`, `SecondStopLosesTheCandidate`).
- **Captured sections** (cthuwu/src/contact.rs:734-740): a line that ends like a later heading captures that section, and
  an affinity id spelled `none` is lost (`ContactNote.RoundTripExactly`).
- **Short relief** (cthuwu/src/economics.rs:355-398): a requirement can be marked fully funded although its relief falls
  short, exactly when the shortfall exceeds the relief rate and the whole balance may be spent
  (`Economics.FallsShortExactly`, `FundedButShort`).
- **Forgotten receipt** (contracts/scripts/estimate-deployment-funding.ts:754-866): an accepted inspection without
  receipts drops a recorded one, and a reconciliation after confirmation can contradict the public record
  (`DeploymentWorkflow.ReceiptSurvivesExactly`, `InspectMayForgetReceipt`, `ReceiptAgreesExactly`).
- **Operator entries** (cthuwu/src/conversation_history.rs:195-204): forgetting one inbox also removes every operator
  entry; the other recent entries of other inboxes all stay (`ForgetExactly`, `ForgetLosesOperatorEntry`).

## Model

| member | source | states |
|---|---|---|
| Nature.TentacleNature.Adjust | cthuwu/src/personality.rs:327-339 | succeeds exactly when the Nature is valid and the sum stays in 0..100; then exactly that slider moved by the delta, the result is valid, and it equals the old Nature only for delta zero |
| Nature.TentacleNature.Reroll | cthuwu/src/personality.rs:232-235 | succeeds exactly when the Nature is valid and the draw has a new well-formed id and sliders in range; identifier, sliders and ban are then the drawn ones and schema, generation and parent are kept |
| AwakeningAction.LoggableIffTextParsesBack | cthuwu/src/awakening.rs:205-263 | the normalized text of an action parses back to it if and only if its parameters are in the documented ranges |
| AwakeningAction.ResponsesExactly | cthuwu/src/awakening.rs:44-78 | exactly which operator responses mean which action: short printable text of one or three words in any case and spacing, a named trait and a nonzero delta up to a hundred |
| AwakeningAction.PostAdjustmentsExactly | cthuwu/src/awakening.rs:221-250 | exactly which logged texts mean a later adjustment: three words, a named trait and a value up to a hundred |
| AwakeningAction.ZeroAdjustDoesNotParse | cthuwu/src/awakening.rs:44-83 | a zero adjustment has a text, but no parser accepts it |
| AwakeningAction.NormalizedTextIsInjective | cthuwu/src/awakening.rs:205-263 | two loggable actions never share a text |
| AwakeningLog.PrefixAccepted | cthuwu/src/awakening.rs:1008-1122 | every prefix of an accepted log is accepted |
| AwakeningLog.EntryAccepted | cthuwu/src/awakening.rs:1008-1122 | each entry of an accepted log was accepted in the state its own prefix leads to |
| AwakeningLog.AcceptedExactly | cthuwu/src/awakening.rs:1008-1122 | the one pass of verification accepts a history if and only if every entry is authentic, in its place (number, link, time, event), and its action fits there: phase, source, Nature and new identifiers, told by index and without the pass |
| AwakeningLog.StateMeaning | cthuwu/src/awakening.rs:1008-1122 | what verification carries along is exactly the count, last entry, phase, event ids and Nature ids of the history |
| AwakeningLog.SameHeadSameLog | cthuwu/src/awakening.rs:1125-1146 | two accepted logs that end in the same signature are the same log |
| AwakeningLog.AcceptedLogForm | cthuwu/src/awakening.rs:1177-1289 | every accepted log is a run of contiguous epochs from one; each is opened by a local forced reroll (after the first), goes through pending adjustments and rerolls to one terminal action, and only post-confirmation adjustments follow, never after a kill; all but the last epoch are complete |
| AwakeningLog.FittingLogIsShort | cthuwu/src/awakening.rs:1148-1165 | a log within the size limit is too short for the 32-bit counters to overflow |
| AwakeningRitual.GuardsImplyRules | cthuwu/src/awakening.rs:343-551 | the guards in memory imply the phase and Nature rules of verification |
| AwakeningRitual.CommandsAreObeyed | cthuwu/src/awakening.rs:343-551 | for every command: exactly which phase, source, sliders, draws and counters let it through, and field by field what it makes of the ritual (phase with time and operator, Nature, counters, epoch) and which action is recorded |
| AwakeningRitual.FollowsOneWay | cthuwu/src/awakening.rs:343-551 | that description leaves nothing open: at most one ritual follows from a command |
| AwakeningRitual.LogAdmitsExactly | cthuwu/src/awakening.rs:1008-1122 | a transition the guards allow is accepted by verification if and only if its event id is unused, a rerolled id is unused and it is not the zero adjustment |
| AwakeningRitual.LogTakesExactly | cthuwu/src/awakening.rs:1008-1122 | the same told from the command: the log of an agreeing ritual accepts an allowed command if and only if its event id is new, a drawn id is new, and an adjustment moves its slider |
| AwakeningRitual.SimulationStep | cthuwu/src/awakening.rs:553-623 | when the log accepts a transition, replaying the longer log from the original start time rebuilds exactly the ritual committed in memory |
| AwakeningRitual.InSyncMeaning | cthuwu/src/awakening.rs:553-623 | a ritual that agrees with its log has the log's Nature, epoch, phase and time, and counters that cannot overflow |
| AwakeningRitual.MissedAppendBlocksUntilRecovery | cthuwu/src/awakening.rs:882-931 | after an append that reached the disk but was reported as failed, the log refuses every further transition of the stale ritual |
| AwakeningRitual.StaleTransitionExactly | cthuwu/src/awakening.rs:882-931 | for any ritual that agrees with a prefix of its log and any accepted transition: memory and replay agree afterwards if and only if the transition is a forced reroll, or the ritual already agreed with the whole log in start time, phase and both counters |
| AwakeningRitual.StaleByTwoDiverges | cthuwu/src/awakening.rs:882-931 | such a ritual exists for every pending one: two foreign adjustments that cancel each other let its confirmation through, after which memory and replay disagree |
| AwakeningRecovery.AcceptedLogReplays | cthuwu/src/awakening.rs:553-623 | every accepted log replays successfully, whoever wrote it |
| AwakeningRecovery.RecoveryExactly | cthuwu/src/awakening.rs:304-339 | recovery succeeds if and only if the saved Nature is missing, the head or the head's signed immediate predecessor; it yields the log's ritual and reports a repair exactly when the saved Nature differs from the head |
| AwakeningRecovery.NextKeepsRecoverable | cthuwu/src/awakening.rs:304-339 | no transition, save, crash, restart or loss of the Nature file leaves the recoverable states, and none shortens the log |
| AwakeningRecovery.RunsAlwaysRecover | cthuwu/src/awakening.rs:304-339 | over any run with crashes between any durable writes, recovery succeeds at every point, yields the head and loses no logged transition |
| AwakeningObjects.LogFile.VerifyEntries | cthuwu/src/awakening.rs:1008-1122 | one pass with running phase, time and identifier sets decides acceptance of the whole history |
| AwakeningObjects.LogFile.CheckEntry | cthuwu/src/awakening.rs:1015-1100 | the checks of one iteration decide one step of that history |
| AwakeningObjects.LogFile.EncodedSizeFits | cthuwu/src/awakening.rs:1148-1165 | the running size check decides whether the encoded log fits the limit |
| AwakeningObjects.LogFile.ReadEntries | cthuwu/src/awakening.rs:960-1006 | reading yields the stored history exactly when it fits and verifies |
| AwakeningObjects.LogFile.Append | cthuwu/src/awakening.rs:882-958 | the file holds the longer history exactly when it verifies, fits and nobody replaced the file between the two reads; success additionally needs the final sync |
| AwakeningObjects.FromVerifiedEntries | cthuwu/src/awakening.rs:553-623 | the loop over the entries of the last epoch computes the replayed ritual |
| AwakeningObjects.RitualObject.Prepare | cthuwu/src/awakening.rs:343-551 | lets through exactly the allowed commands; the candidate is what the command makes of the ritual and the action is the command's own |
| AwakeningObjects.RitualObject.Transition | cthuwu/src/awakening.rs:343-551 | success means that the command was allowed, memory is what it makes of the ritual, and the one entry appended names actor, event, time, action, both Natures, epoch and phase of it; it succeeds exactly when the append does, otherwise memory is unchanged, and a ritual that agreed with its log still does |
| SignerJournal.AssertTransactionNonceWindow | agent/src/erc8004.ts:588-620 | a nonce is allowed exactly between the confirmed and pending counts, and below pending only under an exact existing allocation; each refusal has its own code |
| SignerJournal.Install | agent/src/erc8004.ts:1199-1231 | create-exclusive: an existing file is never replaced and nothing else appears |
| SignerJournal.SignerState.InstallSignerAllocation | agent/src/erc8004.ts:1199-1231 | tells whether the file was new and leaves existing files alone |
| SignerJournal.SignerState.AuthorizeSignerNonce | agent/src/erc8004.ts:1289-1364 | a registry nonce is granted exactly to its identical allocation or, when pending, to the first that asks; each refusal has its own code |
| SignerJournal.SignerState.AuthorizeBrandingSignerNonce | agent/src/erc8004.ts:1463-1574 | a Branding or referral request gets the confirmed count as its nonce exactly when at most one transaction is pending and the nonce file is free and pending or holds the identical request |
| SignerJournal.SignerState.BindMintAuthorizationUse | agent/src/erc8004.ts:2786-2814 | the mint allocation is given out once, and again only to the same action at the same nonce |
| SignerJournal.UninterruptedAuthorization | agent/src/erc8004.ts:1289-1364 | the two durable steps of an authorization, when nothing comes between them, grant and write exactly what the undivided call does |
| SignerJournal.NextKeepsInv | agent/src/erc8004.ts:3198-3288 | every step of every interleaved request keeps the journal invariant and only adds files and broadcasts |
| SignerJournal.RunKeepsInv | agent/src/erc8004.ts:3198-3288 | so does every run with stops between any two steps and arbitrary pending and latest reports |
| SignerJournal.OneActionPerNonce | agent/src/erc8004.ts:1289-1364 | all broadcasts at one nonce come from one exact request; their calldata can differ only in a wallet signature, which covers the owner read from the chain and the deadline |
| SignerJournal.BrandingIsNeverQueued | agent/src/erc8004.ts:1463-1483 | in every run a Branding or referral transaction is sent at the pending nonce or one below it, never further |
| SignerJournal.BroadcastsWereAskedFor | agent/src/erc8004.ts:2969-3010 | every transaction ever sent was asked for by a request of the run and its calldata carries exactly what that one asks, argument by argument |
| SignerJournal.OneRegistration | agent/src/erc8004.ts:2816-2933 | all registrations ever broadcast share one action id, nonce and request |
| SignerJournal.ReplacementNeedsEarlierAllocation | agent/src/erc8004.ts:3247-3279 | a broadcast below the pending nonce has an identical allocation that another, earlier request had left on disk |
| SignerJournal.AllocationRulesForever | agent/src/erc8004.ts:1289-1364 | an allocation on disk rules its nonce in every continuation of the run |
| SignerJournal.MintCheckExactly | agent/src/erc8004.ts:2816-2933 | an uninterrupted registration passes the mint check if and only if it carries a proof, discovery allows it, and its nonce is covered or, once the mint allocation exists, it replays that action and nonce, whatever its proof |
| SignerJournal.WriteIsSentExactly | agent/src/erc8004.ts:3247-3279 | an uninterrupted registry write past that check is broadcast if and only if its nonce is in the window and its nonce file is absent at the pending nonce or holds the identical request, proof included; nothing else is sent |
| SignerJournal.BrandingIsSentExactly | agent/src/erc8004.ts:1463-1574 | an uninterrupted Branding or referral request is broadcast if and only if at most one transaction is pending and its nonce file allows it, with its own destination and data |
| SignerJournal.RenewedProofIsStopped | agent/src/erc8004.ts:2786-2814 | a run in which a registration is sent, passes the mint check again with a newer proof, and is then stopped at its nonce file whatever is reported |
| SignerJournal.RefreshedProofIsNeverSent | agent/src/erc8004.ts:1289-1364 | in every interleaving, a registration that carries a newer discovery proof than its nonce was allocated with is never broadcast |
| ReferralBounty.RunKeepsInv | agent/src/erc8004.ts:4759-4873 | every run of payout attempts with stops anywhere keeps journal, allocation and broadcasts in agreement |
| ReferralBounty.OnePayoutPerAcolyte | agent/src/erc8004.ts:4759-4873 | every payout ever broadcast for one acolyte has one journaled nonce and one calldata |
| ReferralBounty.PayoutsAreAskedFor | agent/src/erc8004.ts:4759-4862 | every payout ever broadcast transfers the canonical token, to the referrer and in the amount that a request of the run named for this acolyte and that the journal keeps, under the journaled nonce |
| ReferralBounty.AttemptIsPaidExactly | agent/src/erc8004.ts:4759-4873 | an uninterrupted attempt is broadcast if and only if it is funded, at most one transaction is pending, the nonce file allows it, and the journal is absent or holds the same unsent payout at that nonce; its hash is then recorded |
| ReferralBounty.ConfirmedIsRecovered | agent/src/erc8004.ts:4788-4802 | a journaled nonce that was confirmed is never sent again: its hash is recovered into the journal, or the attempt gives up |
| ReferralBounty.NoPayoutAfterRecording | agent/src/erc8004.ts:4779-4782 | once the journal keeps a hash, nothing is broadcast for that acolyte again, whatever follows |
| ReferralBounty.AtMostOneMined | agent/src/erc8004.ts:4759-4873 | so a chain can hold at most one payout per acolyte |
| ReferralBounty.NoPayoutAfterConfirmation | agent/src/erc8004.ts:4714-4757 | once the confirmed count shows the journaled nonce as used, nothing is broadcast for that acolyte again |
| BrandingLoop.AvatarIsPendingButNeverNext | agent/src/erc8004.ts:3902-3977 | the avatar phase is reported exactly while unminted, but is never the phase that is sent |
| BrandingLoop.SnapshotsAndPhases | agent/src/erc8004.ts:3617-3755 | a snapshot is accepted exactly for a consistent view with the exact quote (upkeep rounded up) or the exact parties and consent; which phases it leaves pending, and that none are left exactly when the Branding is complete |
| BrandingLoop.SendsAreFunded | agent/src/erc8004.ts:4249-4331 | whatever the chain does, an approval or mint is only sent when the ether and the quoted upkeep are there, and a name only for a minted Branding that lacks it |
| BrandingLoop.EffectIsProgress | agent/src/erc8004.ts:4290-4331 | whatever the chain did meanwhile, a send whose effect shows leaves strictly less to do |
| BrandingLoop.TraceIsShort | agent/src/erc8004.ts:4249-4331 | at most one approval, one mint and one name write are sent, in this order |
| BrandingLoop.NothingLeftIsComplete | agent/src/erc8004.ts:3617-3755 | a consistent snapshot without pending phases satisfies the final verification |
| BrandingLoop.CompleteBranding | agent/src/erc8004.ts:4249-4355 | the loop ends under any chain behaviour after at most three justified sends; completion means the Branding is complete in the last snapshot, a funding result means that snapshot falls short and lists its pending phases, and a cooperating chain leads to completion |
| LogReader.RangesPartition | agent/src/erc8004.ts:1932-1946 | the ranges are consecutive, at most ten thousand blocks long and cover the interval exactly |
| LogReader.BuildRanges | agent/src/erc8004.ts:1932-1946 | the loop builds these ranges |
| LogReader.StepKeepsInv | agent/src/erc8004.ts:1951-2014 | every step of every worker keeps claims, stored chunks and budget in agreement |
| LogReader.ClaimedOnce | agent/src/erc8004.ts:1951-1959 | no range is claimed twice in any interleaving |
| LogReader.SuccessIsOneScan | agent/src/erc8004.ts:2015-2025 | a successful call stored every range and returns exactly what one sequential scan returns, in order, charging the budget once per log |
| LogReader.SuccessReturnsWhatIsWanted | agent/src/erc8004.ts:1988-2025 | told from the chain alone: a successful call returns every log that is in the interval, asked for and accepted, exactly as often as the chain has it, and nothing else |
| LogReader.OutcomeIsScheduleFree | agent/src/erc8004.ts:1988-2004 | when the provider answers every read, success is decided by the logs alone: if and only if every raw chunk and the total are within the limits |
| LogReader.FailureIsFinal | agent/src/erc8004.ts:2005-2014 | after a failure no range is assigned, the failure is never replaced, and no logs are returned |
| LogReader.StepIsProgress | agent/src/erc8004.ts:1951-2014 | every step of a worker that has not stopped reduces the remaining work, so a call ends only after all workers have stopped |
| LogReader.SharedProgress.Claim | agent/src/erc8004.ts:1954-1959 | an idle worker takes the next range or stops, as the protocol step says |
| LogReader.SharedProgress.Receive | agent/src/erc8004.ts:1988-2004 | an answered read is charged, checked and stored in its own chunk, as the protocol step says |
| LogReader.SharedProgress.Turn | agent/src/erc8004.ts:1951-2014 | one uninterrupted turn of one worker updates the shared variables as the protocol step says and keeps the invariant |
| LogReader.SharedProgress.Result | agent/src/erc8004.ts:2024-2025 | the concatenation of the chunks, or the first failure |
| Discovery.Classify | agent/src/erc8004.ts:2084-2119 | an agent blocks a mint exactly when it has any relationship and is not provably another tentacle's; it is the same tentacle exactly when it is authorized or verified, names no other tentacle, and names this one or its inbox |
| Discovery.FullFinds | agent/src/erc8004.ts:2193-2317 | what a scan from the deployment block finds: the wallet's own ids, everything of every owner approved at the observed block, all operator owners and all registrations |
| Discovery.FullFindsHoldings | agent/src/erc8004.ts:2193-2371 | told from the registry's events alone: a full scan finds exactly the agents that the wallet ever owned, was approved for or was the agent wallet of, those ever owned by an owner who approves it now, the owners that ever decided about it, and its own registrations |
| Discovery.NothingHeldIsOverlooked | agent/src/erc8004.ts:2193-2317 | through any chain of checkpoints: whatever the wallet holds at the observed block, and whatever an owner who then approves it owns, is found |
| Discovery.AuthorizedMintsAreSafe | agent/src/erc8004.ts:2492-2544 | so no mint is authorized while such an agent is authorized or verified for the wallet and not provably another tentacle's |
| Discovery.ContinuedFinds | agent/src/erc8004.ts:2193-2317 | through any chain of checkpoints: the same owners and registrations as one full scan, and its ids plus those of every owner approved at any checkpoint |
| Discovery.ExtraIdsHaveAnOwner | agent/src/erc8004.ts:2282-2317 | every extra id was owned by someone approved at an earlier checkpoint |
| Discovery.CheckpointsNeverHideAnIdentity | agent/src/erc8004.ts:2492-2544 | continued discovery authorizes a mint if and only if the full scan does and no id of an earlier approved owner blocks it |
| Discovery.CheckpointsMayBlockMore | agent/src/erc8004.ts:2492-2544 | the converse fails: an approval that was revoked after a checkpoint keeps blocking |
| Discovery.CollectIds | agent/src/erc8004.ts:2251-2265 | the loop over the logs collects exactly the associated ids, or stops at the limit exactly when there are too many |
| Discovery.CollectOperators | agent/src/erc8004.ts:2267-2281 | the loop collects exactly the operator owners and the newly granted ones, or stops at the limit |
| Discovery.CollectRegistrations | agent/src/erc8004.ts:2354-2371 | the carried registrations and those of the new logs |
| Discovery.EnumerateOwner | agent/src/erc8004.ts:2282-2317 | an owner who is approved now contributes everything from the deployment block after a new grant, and from the checkpoint otherwise |
| Discovery.EnumerateOwners | agent/src/erc8004.ts:2282-2317 | in any order, exactly the ids of all owners approved now |
| Discovery.DiscoverAgents | agent/src/erc8004.ts:2121-2381 | the whole call computes the discovered set and fails exactly outside its block window or bounds; a full scan misses no agent that the wallet, or an owner who approves it, holds at the observed block |
| LivenessGate.KeyIsInjective | agent/src/chat-control.ts:712-714 | the joined replay key names one sender and one request |
| LivenessGate.WindowsAreBounded | agent/src/chat-control.ts:736-772 | no stretch of more admissions than the limit fits in sixty seconds |
| LivenessGate.PruneKeepsViews | agent/src/chat-control.ts:716-734 | pruning the collections by time is the same as pruning the history they show |
| LivenessGate.SizesAgree | agent/src/chat-control.ts:701-734 | replay map, global list and the sum of the sender lists have equal size |
| LivenessGate.RecentIsBounded | agent/src/chat-control.ts:716-772 | one window holds at most the limit, two windows at most twice the limit |
| LivenessGate.GrantsAreFew | agent/src/chat-control.ts:774-806 | at most 512 grants are alive |
| LivenessGate.RepeatIsStillLive | agent/src/chat-control.ts:736-772 | a query admitted before with the same deadline is still remembered while its deadline is ahead, although its replay entry is pruned |
| LivenessGate.AdmissionTests | agent/src/chat-control.ts:736-772 | the tests on the collections decide exactly what the history says |
| LivenessGate.AdmissionKeepsHistory | agent/src/chat-control.ts:736-772 | an admission keeps both rate limits and admits no exact query twice, ever |
| LivenessGate.LivenessControlGate.Bounds | agent/src/chat-control.ts:701-806 | at most 256 admissions, 257 senders and 512 grants, so the capacity checks never fire |
| LivenessGate.CoversIsKeyed | agent/src/chat-control.ts:808-827 | grants are filed under their own sender and request, so one lookup finds every grant that covers a join |
| LivenessGate.LivenessControlGate.Prune | agent/src/chat-control.ts:716-734 | the four loops compute the pruned collections and keep the invariant |
| LivenessGate.LivenessControlGate.PruneSenderLists | agent/src/chat-control.ts:721-727 | the nested loop shifts every list and deletes the empty ones |
| LivenessGate.LivenessControlGate.AdmitQuery | agent/src/chat-control.ts:736-772 | admits exactly the admissible queries of the history and records exactly those |
| LivenessGate.LivenessControlGate.IssueGrant | agent/src/chat-control.ts:774-806 | a grant is issued exactly once for a live admission of this sender and request and this agent, and nothing else changes |
| LivenessGate.LivenessControlGate.HasGrant | agent/src/chat-control.ts:808-827 | true exactly when an unexpired grant names this inbox, address, request and agent |
| LivenessGate.LivenessControlGate.ConsumeGrant | agent/src/chat-control.ts:829-838 | consumes exactly that grant |
| LivenessGate.LivenessControlGate.RevokeGrant | agent/src/chat-control.ts:840-842 | removes exactly one key |
| Enrollment.UpsertMembers | agent/src/chat-control.ts:2085-2093 | after an enrollment every inbox has one entry: the new one for the sender, the old one for everybody else |
| Enrollment.SortedIsInOrder | agent/src/chat-control.ts:2090-2093 | the saved list is ordered by inbox |
| Enrollment.ByInboxFinds | agent/src/chat-control.ts:2138-2140 | the lookup finds exactly the enrolled inboxes with their own entries |
| Enrollment.RetainedIsUnique | agent/src/chat-control.ts:2143-2194 | a sweep keeps one enrollment per remaining member, so the enrolled inboxes are the group without the tentacle |
| Enrollment.EveryMemberIsJudgedAlone | agent/src/chat-control.ts:2143-2194 | under any mix of answers each member is judged by its own: an enrolled member with an address stays exactly while the registry is silent, with the old entry, or assigns it to this tentacle, with the new revision; anybody else is removed and keeps no entry |
| Enrollment.SilenceChangesNothing | agent/src/chat-control.ts:2165-2168 | a registry that is silent for everyone removes nobody, and what is kept are exactly the old entries of the members |
| Enrollment.EnrolledWereAssigned | agent/src/chat-control.ts:2014-2194 | over any run of joins and sweeps with stops, one enrollment per inbox, and each was positively assigned here at this address and revision by an answer in the run |
| Enrollment.OneEnrollmentPerGrant | agent/src/chat-control.ts:2027-2102 | over any run of joins and sweeps, no grant admits two enrollments that needed one |
| Enrollment.ChatControlService.Admit | agent/src/chat-control.ts:2014-2067 | admits exactly the senders the rules allow: a liveness assignment needs an earlier enrollment or an unexpired grant for this inbox, address and agent |
| Enrollment.ChatControlService.Enroll | agent/src/chat-control.ts:2014-2123 | the answer is an assignment with the resolved revision exactly when the rules admit the sender and everything awaited is answered; whatever fails, the enrollments are the old ones or the old ones with this sender; and an assignment that needed a grant had it and has spent it |
| Enrollment.ChatControlService.Decide | agent/src/chat-control.ts:2136-2183 | the loop over the members removes and keeps exactly what the rules of the sweep say |
| Enrollment.ChatControlService.PruneMovedAssignments | agent/src/chat-control.ts:2125-2194 | wherever it stops, group and enrollments are untouched or exactly what the sweep decided, and after a completed sweep they agree |
| Enrollment.HandleLivenessQuery | agent/src/chat-control.ts:2229-2270 | exactly which result each query gets; only an admitted query for this agent is answered, only together with its grant, and a failed response leaves no grant |
| Rlp.BigintBytesIsTheMinimalForm | contracts/scripts/estimate-deployment-funding.ts:236-242 | the integer encoding is the one byte string without leading zero that has the integer's value |
| Rlp.DecodeEncode | contracts/scripts/estimate-deployment-funding.ts:246-259 | the Appendix B decoder undoes the encoder on every nested value with representable lengths, whatever follows |
| Rlp.PrefixFree | contracts/scripts/estimate-deployment-funding.ts:246-259 | the encoding is prefix-free, hence injective |
| Rlp.DecodeAcceptsOnlyEncodings | contracts/scripts/estimate-deployment-funding.ts:246-259 | whatever the decoder accepts was produced by the encoder |
| Rlp.CreatePreimageIsInjective | contracts/scripts/estimate-deployment-funding.ts:677-681 | two CREATE preimages agree only for the same sender and nonce |
| Rlp.SetAt | contracts/scripts/estimate-deployment-funding.ts:230-230 | a slice of the buffer is replaced and the rest kept |
| Rlp.ConcatBytes | contracts/scripts/estimate-deployment-funding.ts:226-234 | the filled buffer is the concatenation |
| DeploymentWorkflow.RunKeeps | contracts/scripts/estimate-deployment-funding.ts:525-866 | over any sequence of commands estimate, intent, submission and records name one deployment, phases only move forward, and what is fixed stays fixed |
| DeploymentWorkflow.OneDeployment | contracts/scripts/estimate-deployment-funding.ts:1039-1212 | once prepared, every record ever written names the prepared CREATE address, nonce and creation code, and all records name one transaction |
| DeploymentWorkflow.EstimatesExactly | contracts/scripts/estimate-deployment-funding.ts:525-600 | an estimate is accepted exactly before preparation and for the same deployer, and is ready exactly when no fund is missing |
| DeploymentWorkflow.PreparesExactly | contracts/scripts/estimate-deployment-funding.ts:683-743 | exactly the funded estimate of this code at this pending nonce is prepared, for its CREATE address |
| DeploymentWorkflow.InspectsExactly | contracts/scripts/estimate-deployment-funding.ts:754-842 | exactly the transaction that creates the prepared code from the deployer and nonce, at the predicted address and with the hash submitted before, is recorded as the submission |
| DeploymentWorkflow.ReconcilesExactly | contracts/scripts/estimate-deployment-funding.ts:844-866 | exactly a receipt of the predicted address replaces the receipt, and nothing else |
| DeploymentWorkflow.FinalizesExactly | contracts/scripts/estimate-deployment-funding.ts:1039-1184 | a deployment is recorded exactly when the chain shows its transaction and its code at its address in the block of the receipt; the record names what was prepared and submitted |
| DeploymentWorkflow.FinalizeAgainCompletes | contracts/scripts/estimate-deployment-funding.ts:1185-1212 | finalization that stopped between its two writes is completed by running it again, and running it once more changes nothing |
| DeploymentWorkflow.ReceiptAgreesExactly | contracts/scripts/estimate-deployment-funding.ts:844-866 | a command breaks the agreement of the confirmed receipt with the public record if and only if it is a reconciliation that sees another block |
| DeploymentWorkflow.ReceiptSurvivesExactly | contracts/scripts/estimate-deployment-funding.ts:754-866 | a recorded receipt survives a command if and only if it is not an accepted inspection without a receipt or with another block, nor an accepted reconciliation with another block |
| DeploymentWorkflow.InspectMayForgetReceipt | contracts/scripts/estimate-deployment-funding.ts:754-842 | a run from the empty state whose first inspection records a receipt and whose second, accepted without receipts, drops it |
| DeploymentWorkflow.DeploymentFiles.EstimateFunds | contracts/scripts/estimate-deployment-funding.ts:525-600 | loads, checks, assigns and saves as the estimate step says |
| DeploymentWorkflow.DeploymentFiles.Prepare | contracts/scripts/estimate-deployment-funding.ts:683-743 | loads, checks, assigns and saves as the prepare step says, and reports the predicted address it stored |
| DeploymentWorkflow.DeploymentFiles.Inspect | contracts/scripts/estimate-deployment-funding.ts:754-842 | loads, checks, assigns and saves as the inspect step says |
| DeploymentWorkflow.DeploymentFiles.ReconcileReceipt | contracts/scripts/estimate-deployment-funding.ts:844-866 | replaces only the receipt of the submission, as the reconcile step says |
| DeploymentWorkflow.DeploymentFiles.FinalizeDeployment | contracts/scripts/estimate-deployment-funding.ts:1039-1212 | writes the record before the state, as the finalize step says, stops included |
| DeploymentWorkflow.VerifyRuntimeTemplate | contracts/scripts/estimate-deployment-funding.ts:886-911 | accepts exactly when lengths agree, all references lie inside, and the code agrees everywhere outside them |
| ReleasePromotion.AncestorTransitive | scripts/code.py:467-470 | the ancestor relation that fast-forward moves rely on is transitive |
| ReleasePromotion.PicksDescend | scripts/code.py:474-484 | a candidate built by cherry-picks descends from the source head |
| ReleasePromotion.RunGrows | scripts/code.py:298-325 | no sequence of durable writes moves HEAD off its history or touches an existing release |
| ReleasePromotion.BuildScriptIsOk | scripts/code.py:615-619 | quiet saves, a ready release and a sound promotion are all that stopping anywhere relies on |
| ReleasePromotion.EveryScriptIsOk | scripts/code.py:452-565 | all four operations prepare quietly and promote a candidate whose release is ready |
| ReleasePromotion.StopAnywhere | scripts/code.py:452-565 | wherever one operation stops, HEAD only descended and the active record names a complete release; from agreeing records, any disagreement with the state file is exactly the pending candidate |
| ReleasePromotion.RunStaysValid | scripts/code.py:452-719 | over any run of stopped and finished operations, HEAD only descends and what is active is complete |
| ReleasePromotion.FinishingRestoresAgreement | scripts/code.py:698-719 | whatever stopped before, a promotion that finishes makes all records agree again |
| ReleasePromotion.UpdateAchieves | scripts/code.py:505-526 | a finished update installs and moves to a related tip ahead, exactly if there is a release and nothing changed meanwhile, and notes it; otherwise nothing is promoted and a related tip is noted as reviewed |
| ReleasePromotion.ForceUpdateAchieves | scripts/code.py:528-565 | a finished force update installs the tip whenever it can, and moves the source to it only when the source is clean and the tip ahead |
| ReleasePromotion.AcceptAchieves | scripts/code.py:452-503 | a finished accept moves to the picks stacked on the old head, installs the last one and notes each with the reason; otherwise only release directories change |
| ReleasePromotion.InstallAchieves | scripts/code.py:698-719 | a finished install activates the present source without moving it and notes the commits of an operation that had stopped on the way to it |
| ReleasePromotion.StopExplainedExactly | scripts/code.py:452-619 | from any valid state, agreeing or not: the exact condition, readable before the operation, under which a stop after k writes leaves HEAD and active release explained by the state file |
| ReleasePromotion.SecondStopLosesTheCandidate | scripts/code.py:615-619 | it can fail: two stopped operations in a row from an agreeing state leave an active release that nothing explains |
| ReleasePromotion.CodeWorkspace.Perform | scripts/code.py:298-325 | one durable write, or none when the process stops first |
| ReleasePromotion.CodeWorkspace.BuildRelease | scripts/code.py:628-690 | an existing directory is kept, a new one appears complete |
| ReleasePromotion.CodeWorkspace.Promote | scripts/code.py:615-619 | announce, move, activate, record, in this order, stopping anywhere |
| ReleasePromotion.CodeWorkspace.BuildAndPromote | scripts/code.py:485-502 | nothing is promoted unless the release exists and nothing changed during the build |
| ReleasePromotion.CodeWorkspace.Install | scripts/code.py:698-719 | stops or finishes exactly in the states of its script |
| ReleasePromotion.CodeWorkspace.Accept | scripts/code.py:452-503 | stops or finishes exactly in the states of its script |
| ReleasePromotion.CodeWorkspace.Update | scripts/code.py:505-526 | stops or finishes exactly in the states of its script |
| ReleasePromotion.CodeWorkspace.ForceUpdate | scripts/code.py:528-565 | stops or finishes exactly in the states of its script |
| SearchIndex.NineLinesShareAWindow | scripts/workspace.py:123-125 | any nine consecutive lines of a document are together in one window before the cut |
| SearchIndex.IdentifierIsInjective | scripts/workspace.py:126-126 | an identifier names one path and one line, whatever the path contains |
| SearchIndex.PiecesAreDistinct | scripts/workspace.py:121-127 | no two windows of the documents share an identifier |
| SearchIndex.IndexIsDetermined | scripts/workspace.py:115-145 | two consistent indexes of the same documents and model, incremental or rebuilt, agree in both tables up to the values of the vectors |
| SearchIndex.Refresh | scripts/workspace.py:128-136 | one window: both tables show it afterwards, every other row is kept, and an up-to-date row costs nothing; it fails exactly when its embedding request is not answered |
| SearchIndex.RemoveStale | scripts/workspace.py:137-142 | exactly the rows of vanished windows leave both tables |
| SearchIndex.KnowledgeIndex.Index | scripts/workspace.py:115-145 | a successful run leaves both tables an index of the current documents and reports exactly the stale and removed windows; it fails exactly when one of the requests it needs is not answered, and then changes nothing |
| SearchIndex.KnowledgeIndex.IndexDocument | scripts/workspace.py:121-136 | the windows of one document, with one request for each stale one |
| SearchIndex.KnowledgeIndex.Search | scripts/workspace.py:148-186 | the merged ranking filtered by the files as they are now, cut at the limit |
| SearchIndex.KnowledgeIndex.Collect | scripts/workspace.py:168-184 | the result loop computes that filtered prefix |
| SearchIndex.OnlyCurrentExcerpts | scripts/workspace.py:170-183 | everything returned is in a file as it is now, under its own line, was not to be hidden, and carries its own score |
| SearchRanking.Score | scripts/workspace.py:154-167 | the score dictionary holds every identifier of either ranking with the sum of its reciprocal ranks |
| SearchRanking.RankedIsRight | scripts/workspace.py:168-169 | the sorted result holds every identifier exactly once, by score and then by identifier |
| SearchRanking.AgreementComesFirst | scripts/workspace.py:154-169 | what both rankings found comes before everything only one of them found, however far down; what one ranking alone found keeps its order |
| ContactNote.SectionAt | cthuwu/src/contact.rs:734-756 | a section starts after the first line that merely ends like its heading and ends at the next heading |
| ContactNote.SectionReads | cthuwu/src/contact.rs:734-756 | what each section of any printed note reads back as, in terms of the fields |
| ContactNote.ParseOfPrinted | cthuwu/src/contact.rs:360-418 | parsing any printed canonical contact gives exactly this contact |
| ContactNote.SharingIsTold | cthuwu/src/contact.rs:296-313 | the printed note claims consent exactly when it was given under the present terms, and denies it exactly when sharing is off |
| ContactNote.RoundTripExactly | cthuwu/src/contact.rs:360-418 | the round trip holds if and only if no section is captured by different text and the affinity id is not the word none |
| ContactNote.RoundTrip | cthuwu/src/contact.rs:360-418 | it holds whenever no field line ends like a later heading, whatever else the lines look like, up to line endings |
| ContactNote.HeadingLineBreaksTheRoundTrip | cthuwu/src/contact.rs:734-740 | a field line that is a later heading does capture that section |
| ContactOnboarding.AnswersAreTrimmed | cthuwu/src/contact.rs:615-618 | a stored answer has the form the note needs |
| ContactOnboarding.SharingIsAnswered | cthuwu/src/contact.rs:620-632 | eight words agree to sharing, five refuse, in any case and with any blanks, and nothing else is an answer |
| ContactOnboarding.ContactRecord.AdvanceOverKnownFields | cthuwu/src/contact.rs:248-262 | the stage moves to the first open question and nothing else changes |
| ContactOnboarding.ContactRecord.MoveOn | cthuwu/src/contact.rs:175-181 | settles the record at the first open question and keeps it printable |
| ContactOnboarding.ContactRecord.RecordAnswer | cthuwu/src/contact.rs:135-181 | an accepted answer is stored exactly where it was asked for, sharing is enabled exactly by an agreeing word; a refused answer changes at most the time |
| ContactOnboarding.ContactRecord.Skip | cthuwu/src/contact.rs:183-200 | a skip marks exactly the current question |
| ContactOnboarding.ContactRecord.SkipRemainingOnboarding | cthuwu/src/contact.rs:231-240 | ends without consent; the current question and every later open one are marked, and every other answer is kept |
| ContactOnboarding.ContactRecord.SetField | cthuwu/src/contact.rs:202-214 | replaces or clears exactly one field |
| ContactOnboarding.ContactRecord.RecordNatureInteraction | cthuwu/src/contact.rs:327-354 | computes the new relationship signals and refuses a foreign identifier without change |
| ContactOnboarding.OneGainPerDay | cthuwu/src/contact.rs:327-350 | any later observation of a counted day moves nothing but the last contact |
| ContactOnboarding.InteractionIsWorth | cthuwu/src/contact.rs:327-350 | the first interaction of a later day earns five points from a returning contact and one otherwise, up to a hundred; the affinity grows with the same Nature and starts at one with another |
| ContactOnboarding.SignalsAreEarned | cthuwu/src/contact.rs:327-350 | over any history and clock, each counted day earns one to five points of loyalty up to a hundred, the affinity grows by at most one a counted day, and without a counted day neither moves |
| ContactOnboarding.LoyaltyNeverFalls | cthuwu/src/contact.rs:327-350 | between any two points of a history, loyalty and its day never fall |
| JsonlBridge.SettledAtMostOnce | agent/src/protocol.ts:174-210 | over any interleaving each entered request is settled at most once and only by its own id |
| JsonlBridge.WaitsOrSettled | agent/src/protocol.ts:199-210 | a request waits exactly until it is settled, and a closed bridge has settled them all |
| JsonlBridge.OneExtraForRejection | agent/src/protocol.ts:123-155 | at most one request beyond the limit waits, and only while it holds the rejection slot |
| JsonlBridge.NoGroupRejection | agent/src/protocol.ts:111-115 | group traffic never becomes a rejection frame |
| JsonlBridge.EverythingHasItsCause | agent/src/protocol.ts:123-310 | over every run a request is settled as ignored or replied only by a line that says exactly this under its own id, and rejected only by a bad line, a failed write, its timer or the close; each was requested and has one frame |
| JsonlBridge.LinesSettle | agent/src/protocol.ts:212-310 | a line for a waiting request settles this one at once, with what the line says |
| JsonlBridge.RunKeepsInv | agent/src/protocol.ts:123-210 | every interleaving of requests, lines, failures, timeouts and close keeps the invariant |
| JsonlBridge.Bridge.Send | agent/src/protocol.ts:123-172 | accepts exactly an unused id while open and not both full and rejecting; then one entry and one frame are added, as a rejection exactly when full |
| JsonlBridge.Bridge.ObserveGroup | agent/src/protocol.ts:111-115 | group overload is answered locally without any change |
| JsonlBridge.Bridge.SettleById | agent/src/protocol.ts:187-197 | settles at most the waiting request of this id |
| JsonlBridge.Bridge.HandleLine | agent/src/protocol.ts:212-310 | a line settles at most the request it names, with the outcome of its form |
| JsonlBridge.Bridge.FailWrite | agent/src/protocol.ts:168-197 | a failed write rejects whoever waits under its id by now, as the protocol step says |
| JsonlBridge.Bridge.TimeOut | agent/src/protocol.ts:174-185 | the timer settles its own request if it still waits |
| JsonlBridge.Bridge.Release | agent/src/protocol.ts:149-152 | clears the rejection flag once the rejected request is settled |
| JsonlBridge.Bridge.Close | agent/src/protocol.ts:199-210 | settles everything that waits, once |
| ConversationHistory.DropOldestDropsFewest | cthuwu/src/conversation_history.rs:82-93 | eviction drops the fewest oldest entries that bring the size below the limit |
| ConversationHistory.EvictionKeepsNewest | cthuwu/src/conversation_history.rs:82-93 | an eviction by size drops at least the oldest entry, and with one entry more the limit would be reached |
| ConversationHistory.WritesKeepTheNewest | cthuwu/src/conversation_history.rs:77-93 | every write keeps a suffix within a thousand entries and eight MiB, and keeps everything when it fits |
| ConversationHistory.RunKeepsStored | cthuwu/src/conversation_history.rs:141-204 | over any run keys stay unique and both limits hold, so every read succeeds |
| ConversationHistory.RecordsExactly | cthuwu/src/conversation_history.rs:141-187 | recording refuses a text that is too long, appends a new message with its normalized address, ignores a repeated one, puts a reply to the entry of its message and drops it when there is none |
| ConversationHistory.ForgetExactly | cthuwu/src/conversation_history.rs:195-204 | forgetting an inbox leaves exactly the recent entries of the others, in order and without an eviction, so a recent entry of somebody else is lost if and only if it is an operator entry |
| ConversationHistory.ForgetLosesOperatorEntry | cthuwu/src/conversation_history.rs:195-204 | a run from the empty journal in which forgetting one inbox loses the operator's entry of another |
| ConversationHistory.ForgetRemoves | cthuwu/src/conversation_history.rs:195-204 | on any journal, forgetting removes every entry of the inbox and every operator entry |
| ConversationHistory.ForgottenStaysForgotten | cthuwu/src/conversation_history.rs:141-204 | nothing of that inbox comes back until a new message, however late its replies arrive |
| ConversationHistory.History.Write | cthuwu/src/conversation_history.rs:77-101 | the loop over a running byte count keeps exactly the entries of the specification |
| ConversationHistory.History.Read | cthuwu/src/conversation_history.rs:60-76 | exactly the entries younger than two weeks |
| ConversationHistory.History.RecordScoped | cthuwu/src/conversation_history.rs:141-187 | records as the step says, refuses exactly bad ids and oversized texts, and answers true exactly for an accepted message of an inbox without recent entries |
| ConversationHistory.History.ForgetInbox | cthuwu/src/conversation_history.rs:195-204 | the retain loop leaves exactly the recent entries of the others |
| Economics.ApplyScoreAdjustment | cthuwu/src/economics.rs:658-669 | defined exactly for basis points; stays between the base score and full credit and reaches both ends |
| Economics.AdjustmentIsMonotone | cthuwu/src/economics.rs:658-674 | monotone in the base score and in the adjustment despite half-up rounding of the shrinking headroom |
| Economics.RevenueIsConserved | cthuwu/src/economics.rs:604-653 | every valid policy distributes every revenue exactly, and no share exceeds its rate or misses it by a unit |
| Economics.EffectsOf | cthuwu/src/economics.rs:152-190 | effects exist exactly for a valid policy and a valid trustworthy snapshot, and are themselves valid |
| Economics.EffectsAreChecked | cthuwu/src/economics.rs:152-190 | exactly the numeric conditions: every balance and rate at most ten thousand, relief never free, schema one |
| Economics.RequirementsAreChecked | cthuwu/src/economics.rs:355-370 | a requirement is computed exactly for the true effects of its policy and snapshot and for scores in basis points |
| Economics.SharesAreChecked | cthuwu/src/economics.rs:604-653 | a distribution is refused exactly when the shares exceed the whole |
| Economics.EffectsFollowTheirSources | cthuwu/src/economics.rs:152-190 | each effect is the product of its own balance and rate to the nearest unit, and eligibility is the minimum stake |
| Economics.AdjustmentClosesItsShare | cthuwu/src/economics.rs:658-674 | the adjustment closes its share of the distance to full credit, to the nearest unit |
| Economics.SurvivalIsExact | cthuwu/src/economics.rs:355-398 | a fully funded requirement closes the shortfall if and only if the shortfall is at most the relief rate, and then spends the least amount that does |
| Economics.FallsShortExactly | cthuwu/src/economics.rs:355-398 | a requirement is marked fully funded and yet falls short if and only if threshold minus starvation relief minus score exceeds the relief rate and the whole balance may be spent |
| Economics.FundedButShort | cthuwu/src/economics.rs:355-398 | a valid record that reaches this: fully funded, everything spent, a sixth of the shortfall left |
| Economics.UnfundedSpendsWhatThereIs | cthuwu/src/economics.rs:355-398 | otherwise everything available is spent and the relief never exceeds the shortfall |

## Left out

- Cryptography: HMAC, SHA-256, Keccak, EIP-712 and ERC-1271 are free constructors; their strength is not modelled.
- File modes, symbolic links, fsync errors inside atomic replacement, and path containment.
- The JSON text of logs, journals, state files and provider answers; an entry is its fields, and its encoded length an arbitrary function of it.
- RPC, XMTP, ENS and contract calls: their answers are arbitrary inputs, except where a module states an assumption.
- LivenessGate: the clock is assumed not to run backwards; the 256-bit bound of agent ids is not checked.
- ReferralBounty: attempts for one acolyte are serial, because the journal itself does not guard against two at once; balance reads, receipts and gas are reports.
- SignerJournal: the wallet is the one production wallet; receipt waiting, gas and signing are not modelled.
- LogReader: retries and their delays are folded into one failed or answered read.
- Discovery.DiscoverAgents: the log budget of the reads, the candidate limit of the later inspection, the recent scope, the reorganization check of the observed block and the matching of registration transactions are not part of it.
- Enrollment.ChatControlService.Enroll: joins and sweeps are serialized, but a liveness query may change the gate while a join waits; what the contract says of the gate is for a join without such a query.
- Enrollment.HandleLivenessQuery: the two waits of a query are one step here; other queries and joins in between may use or revoke its grant.
- Enrollment: the two groups are sets of inboxes; their metadata, administrators and retention settings are booleans in the plan, and the durable store is the two group ids and the enrollments.
- ReleasePromotion: Git, builds and configuration checks are inputs (a commit graph, a build result, and whether anything changed meanwhile); timestamps, divergence texts and review reports are left out, and a deferred decision changes no release.
- SearchIndex.KnowledgeIndex.Search: full-text matching and vector similarity are inputs; only how their rankings merge is modelled.
- SearchRanking.RankedIsRight: scores are exact reals, so two sums that floating point rounds to one value are not a tie here.
- ContactNote: text is a sequence of characters with the Unicode white space of the Rust standard library; characters above the basic plane play no role.
- ContactOnboarding: `set_sharing_consent`, `defer_onboarding`, display names and profile views, which touch no other rule.
- ConversationHistory: text lengths are counted in characters of the model, which stand for bytes; reports and their pages are left out.
- JsonlBridge: operator notices and their acknowledgements, which never touch the pending map; the size limit of outgoing frames is part of a failed write.
- DeploymentWorkflow: fee and gas estimation, funding notifications, confirmations and the quoted chain facts are inputs.
- Economics: burn intents, provenance records and Nature appetites, which only copy and compare.
- Nature: inheritance, mutation bands, rendering and the signed Nature file itself.
- Other files of the repository: configuration, prompts, doctor, coaching, deduplication, deadlines, identity loading, catch-up, gossip, evolution, SVG drawing, the web client and the contracts themselves.

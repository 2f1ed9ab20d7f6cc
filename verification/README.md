# Verified model of the subnet service's stateful cores

This project models the parts of the service whose correctness depends on state kept over time, and proves what
they promise over every run:

- **single-writer ownership** of the data volume (`OwnerGuard.dfy`, `OwnerProtocol.dfy`): marker classification, the
  module's globals as a class, and a step system over processes, open file descriptions, inodes and the path binding.
  Acquisition, retreat, publication and release go one system call or one assignment per step, an acquisition and a
  release may interleave within a process, and a fork may fall between any two steps;
- the **loop stall guard** (`StallGuard.dfy`, `StallGuardRuns.dfy`): strikes, the watch on a scoring run, one-shot
  revive and withdrawal, the two deadlines;
- **subnet membership** (`ChainRead.dfy`, `SubnetUniverse.dfy`, `UniverseHistory.dfy`, `UniverseProvider.dfy`,
  `UniverseRestarts.dfy`): the two-source merge, the 48-hour grace, the shrink guard, publishing, persisting, reloading
  and restarting;
- the **chain data path** (`ScaleDecoder.dfy`, `LiveSubnetsIpc.dfy`, `PriceBatch.dfy`, `RpcDeadline.dfy`): the SCALE
  compact decoder (section "Length and Compact Encoding" under "SCALE Codec", Appendix A of the Polkadot Protocol
  Specification), framing over a fragmenting stream, the deadline-bounded batch, the permit and hang-up protocol;
- the **numeric and ledger loops** (`PumpTracker.dfy`, `PumpReadings.dfy`, `TaostatsClient.dfy`, `OutcomeLedger.dfy`,
  `OutcomePrices.dfy`): Page CUSUM and the six-phase cycle ledger, the call limiter and rotating batch, write-once
  outcome grading and author tallies.

Objects the source updates in place are classes here, loops are loops. Each such method is proved equal to a
specification function (`Step`, `Refreshed`, `Handled`, ...), and the theorems are about runs of those functions. Clock
readings, network and kernel answers, what other processes do and the order in which threads finish are parameters or
free choices. Floating-point values are reals. `PumpReadings.dfy` and `OutcomePrices.dfy` state what the evidence, the
phases and the credits mean in prices, returns and volumes alone.

## What the proofs found

- A batch with `limit` zero and one usable priority id selects that id: `BatchShape` gives the exact condition.
- A name or symbol element above 255 makes the pool decoder raise, since `bytes(...)` stands outside its handler:
  `PoolRoundTrip`. A truncated compact encoding reads as zero and consumes one byte instead of failing:
  `CutEncodingReadsZero`.
- An accuracy score of exactly zero reads as 0.5, so a subnet whose every prediction failed never becomes more
  sensitive, against the docstring of `adapt_parameters`: `AdaptationMovesIff`, `ZeroScoreIsNotLow`.
- A re-accumulation detected twice on unchanged data turns into an accumulation, exactly when the subnet rests after a
  decline or a distribution: `DetectionSettlesIff`, with two equal prices as input in `ReAccumulationIsBrief`.
- Rounding before grading moves the thresholds to 5.005 and 2.005 percent: `GradeIff`.
- A seven-day price is recorded exactly by a pass that comes seven days late for the 24-hour price, and is that price,
  because the query never reads the column back and a finished row is never visited again: `MaturedIsRecordedIff`.
- `pump_pct_max` is the latest percentage. It is the largest exactly when the latest recorded price tops every other:
  `PctMaxIsLargestIff`; a pump at one hour and none at four leave it empty: `LatestIsNotLargest`.
- A message is credited to its author at most once exactly when no pass scores two receipts of it: `CountedOnceIff`;
  two price snapshots of one message are such receipts: `TwoSnapshotsCountTwice`.
- The after-fork hook closes only what the globals name. A child forked while another thread is inside a release past
  the clearing of `_owner_lock_fd`, or by the acquiring thread while `_pending_lock_fd` does not name the open lock
  file, keeps a descriptor of its parent's lock file; from a parent that has lost track of none, those two are exactly
  the cases: `HookLeavesTheUnnoted`, with `ForkInsideRelease` as input. The child can do nothing with it:
  `ForkedChildIsHarmless`, `OnlyTheHolderLetsGo`.
- A child that went on with the acquisition it was forked from would pass beside its parent, on the lock they share,
  exactly if `_pending_lock_fd` did not name the open lock file at the fork: `ReturningChildPassesIff`.
- An exception after the publication would make an acquisition report failure although the process owns the lock:
  `TryAcquireWriteOwnerLock`. Only an `atexit` registration and a log line run there, and no input is known to make
  either raise.
- With TaoMarketCap incomplete a refresh asks the chain about ids 0 to 199 only, so a chain read that leaves out a
  member of 200 or more starts no grace clock, against the owner rule in the code's own comment. One read starts the
  clock exactly if TaoMarketCap was complete or the id is below 200: `UnheardReadIsIgnored`; while TaoMarketCap stays
  incomplete such a member never leaves: `UnaskedNeverLeaves`; over a run the clock follows the chain reads exactly if
  the first read to leave the member out was one that asked: `FollowsChainIff`.
- After a listing, a first restart within the grace finds the netuid exactly when a refresh since has written, or the
  older file (without one, the registry) has it: `RestartKeepsIff`, with `UnwrittenListingIsLost` as input.
- Rows and outcomes of every batch a request can lead to agree exactly when the request repeats no netuid:
  `AgreeIffDistinct`; a netuid asked for twice can have its row and count as expired: `RepeatedNetuidCanDisagree`.

## Model

| member | source | states |
|---|---|---|
| OwnerGuard.BootstrapAcceptedIff | internal/owner_guard.py:122-218 | a bootstrapped marker is accepted by an environment exactly when each of app, pin and machine that it insists on is the bootstrapping one's |
| OwnerGuard.MarkerAdmitsOneMachine | internal/owner_guard.py:171-178 | no marker, however written, is valid on two different named machines |
| OwnerGuard.ValidIff | internal/owner_guard.py:122-178 | a marker is valid exactly when it is readable, of this version, well formed, and has everything the environment insists on |
| OwnerGuard.ReasonHappened | internal/owner_guard.py:360-401 | whatever reason the write guard gives, that very condition is violated |
| OwnerGuard.OwnerModule.OwnerInvariantsReason | internal/owner_guard.py:360-401 | the first violated condition in order, and the terminal flag latched by every loss and by nothing else |
| OwnerGuard.OwnerModule.ForgetInheritedOwner | internal/owner_guard.py:279-295 | the child closes exactly the descriptors it inherited, unlocks none, and keeps only the terminal flag |
| OwnerGuard.OwnerModule.ReleaseWriteOwnerLock | internal/owner_guard.py:298-325 | unlock and close by the recorded owner, close only by any other process; globals cleared either way |
| OwnerGuard.OwnerModule.TryAcquireWriteOwnerLock | internal/owner_guard.py:492-633 | success exactly under `Acquirable`, else the first obstacle, unexpected exceptions included; a refusal restores the globals and gives back exactly the descriptor and lock it took, unless the exception comes after the publication |
| OwnerGuard.ObstacleHappened | internal/owner_guard.py:492-633 | whatever an acquisition reports as its failure has happened, and it reports none exactly under `Acquirable` |
| OwnerProtocol.PublicationAddsUp | internal/owner_guard.py:599-609 | the five separate assignments, uninterrupted, record what the sequential acquisition records |
| OwnerProtocol.ReleaseAddsUp | internal/owner_guard.py:302-321 | the seven reads and assignments, uninterrupted, leave the globals the sequential release leaves, and it unlocks what was recorded unless that was another process's |
| OwnerProtocol.StepKeepsInv | internal/owner_guard.py:268-633 | every step of any process and of the environment keeps: what a process records, or holds in a local of an acquisition or of a release before its unlock, is locked, and no two running processes can act on one description |
| OwnerProtocol.RunsKeepInv | internal/owner_guard.py:268-633 | the same over every run |
| OwnerProtocol.PassingMeansHolding | internal/owner_guard.py:360-401 | passing the guard implies the descriptor's inode is the one at the lock path now and the process holds its exclusive lock |
| OwnerProtocol.PassesIff | internal/owner_guard.py:360-401 | a write goes through exactly if the process, the lock path and the marker path show what it recorded, said of the system and not of the guard |
| OwnerProtocol.PassingFindsItsMarker | internal/owner_guard.py:395-400 | over every run: a process that passes with a marker on record finds exactly that marker at the marker path, and it stood there when the process acquired |
| OwnerProtocol.OwnerFindsItsMarker | internal/owner_guard.py:395-400 | every owner whose publication is complete has a marker on record, so it passes only over the one its acquisition saw |
| OwnerProtocol.AtMostOneWriter | internal/owner_guard.py:360-461 | in every reachable state at most one process passes, and no other running process can act on its lock |
| OwnerProtocol.SpreadCheckHeldTheLock | internal/owner_guard.py:369-401 | a guard call whose three stat calls fall at three instants: at the first the path named the owner's inode, the process held its lock and no other process would have passed |
| OwnerProtocol.ForkedChildIsHarmless | internal/owner_guard.py:279-340 | before its hook a child is refused if its parent's pid is on record; the hook closes what the globals name and leaves nothing to act on or to pass with, while every lock stays |
| OwnerProtocol.HookLeavesTheUnnoted | internal/owner_guard.py:279-340 | the hook leaves a child exactly the descriptors its parent had open without noting them; none, from an orderly parent, iff it was inside no unnoted part of a release or an acquisition |
| OwnerProtocol.TidyLasts | internal/owner_guard.py:298-325 | a process whose releases and acquisitions never overlap loses track of no descriptor |
| OwnerProtocol.ForkInsideRelease | internal/owner_guard.py:302-325 | from any owner: three steps of a release, a fork and the hook leave parent and child with the lock file open |
| OwnerProtocol.ReturningChildPassesIff | internal/owner_guard.py:526-609 | a child that published the acquisition it was forked from would pass iff the open lock file was not noted as pending at the fork |
| OwnerProtocol.OnlyTheHolderLetsGo | internal/owner_guard.py:268-325 | a lock taken is given up only by its own process's unlock, in a release or a retreat, or by its death |
| OwnerProtocol.CheckLatchesLoss | internal/owner_guard.py:360-401 | one check by an owner is terminal exactly when it would be refused |
| OwnerProtocol.TerminalStays | internal/owner_guard.py:362-363 | a terminal loss lasts for the rest of the process, across releases |
| OwnerProtocol.SupersededOwnerStaysRefused | internal/owner_guard.py:360-401 | an owner that checks while another process holds the path never passes again |
| OwnerProtocol.DisownedIsTerminal | internal/owner_guard.py:369-401 | an owner that checks while the lock path or the marker path shows something else than it recorded, or nothing, is terminal |
| OwnerProtocol.DisownedNeverPassesAgain | internal/owner_guard.py:360-401 | and never passes again in the run, even after the old lock file and marker have come back |
| OwnerProtocol.OwnershipLasts | internal/owner_guard.py:360-633 | owning the path survives everything but a step of one's own release, one's death and a rebinding of the path |
| OwnerProtocol.HandOverNeedsReleaseOrRebind | internal/owner_guard.py:298-325 | two different processes pass at two times only with a release step or death of the first, or a rebinding, between |
| StallGuard.TickProgressSeconds | internal/loop_stall_guard.py:116-149 | the deadline is the least value not below 60 s, the stuck threshold, write timeout plus 60 s and the override |
| StallGuard.WatchActiveTick | internal/loop_stall_guard.py:351-386 | keeps, refreshes or replaces the watch object as `WatchActive` says |
| StallGuardRuns.WatchIsOfOneRun | internal/loop_stall_guard.py:351-386 | a watch is replaced exactly by a tick naming another run; else first sight stays, and progress time moves exactly with the progress |
| StallGuardRuns.ExcusedIff | internal/loop_stall_guard.py:471-511 | old output is excused exactly by a tick that moved within its deadline and is under the cap, or a failing probe under the cap |
| StallGuard.TickWatch.Observe | internal/loop_stall_guard.py:336-339 | progress time moves only when the progress component changes |
| StallGuard.GuardLoop.Check | internal/loop_stall_guard.py:448-559 | one check of the loop, early exits included, is `Step` |
| StallGuard.GuardLoop.Loop | internal/loop_stall_guard.py:399-559 | a whole loop is a run of steps |
| StallGuardRuns.LoopEndsInRun | internal/loop_stall_guard.py:399-559 | the state the loop ends in is the last state of the run the theorems speak of |
| StallGuardRuns.StaleCountsTheSuffix | internal/loop_stall_guard.py:448-511 | the counter is the length of the longest unbroken suffix of striking checks |
| StallGuardRuns.StrikeIff | internal/loop_stall_guard.py:448-541 | a check strikes exactly when the age is known and too old, no tick excuses it, and no revive still due finds another owner or a tick that just started |
| StallGuardRuns.ExitNeedsOldOutput | internal/loop_stall_guard.py:448-559 | over runs: an exit follows as many successive checks as configured that each saw an age known and too old |
| StallGuardRuns.FreshOutputClears | internal/loop_stall_guard.py:457-462 | over runs: after a check with a fresh age no strike stands, no watch is kept and the withdrawal is available again |
| StallGuardRuns.UnknownAgeClears | internal/loop_stall_guard.py:448-455 | after an unknown age no strike stands and the withdrawal is available, but the watch is kept |
| StallGuardRuns.ExitIffEnoughConsecutiveStrikes | internal/loop_stall_guard.py:543-559 | the process exits iff killing is on and enough checks in a row strike |
| StallGuardRuns.BoundedDetection | internal/loop_stall_guard.py:58-70 | a run stuck past first sight plus the cap is killed within the strikes needed, however its token moves or its probe flaps |
| StallGuardRuns.FrozenTickDetected | internal/loop_stall_guard.py:344-348 | a tick that stops advancing is killed by the no-progress deadline already |
| StallGuardRuns.DeadSchedulerDetected | internal/loop_stall_guard.py:490-541 | with no tick at all, one withdrawal at most delays the exit |
| StallGuardRuns.HealthyRunIsNeverStruck | internal/loop_stall_guard.py:329-386 | a run under the cap whose progress never repeats and moves in time is not struck while its probe answers, even when its id is lost after first sight |
| StallGuardRuns.OneWithdrawalPerEpisode | internal/loop_stall_guard.py:520-533 | between two withdrawn strikes the age was fresh or unknown |
| StallGuardRuns.ReviveAtMostOncePerProcess | internal/loop_stall_guard.py:520-541 | a revive that counts happens at most once per process |
| ChainReads.ParsedIsAdmissible | internal/chain_read.py:32-51 | the strict parser admits only full pins with ordered netuids in range and a harmless label |
| ChainReads.ParsedIff | internal/chain_read.py:32-51 | the strict parser takes a value exactly if its pin is full and its netuids are ints from 1 to 65535 in order; a label out of shape is dropped, not refused |
| ChainReads.ParseRoundTripIff | internal/chain_read.py:32-54 | a read survives `to_dict` and `parse` exactly when it is admissible |
| SubnetUniverse.ComputeMembership | internal/subnet_universe.py:329-387 | the loop's dictionaries are the entries of the candidates that stay and the evidence of those that leave; ids ascend |
| SubnetUniverse.MergeByChain | internal/subnet_universe.py:202-259 | a chain verdict decides; without one an earlier negative stands, then a TaoMarketCap listing, then what was there; the clock is set at the first exclusion and kept |
| SubnetUniverse.MergeTells | internal/subnet_universe.py:202-259 | which sources an entry names, when they dispute it and when it still lacks an observation |
| UniverseHistory.RefreshTells | internal/subnet_universe.py:329-387 | a refresh keeps what was held, marked degraded, or publishes ascending ids with their own rows, ok only with a chain read |
| UniverseHistory.OkIffComplete | internal/subnet_universe.py:576-678 | a build that resolves a membership is ok exactly when both sources were complete and some entry lacks no observation |
| UniverseHistory.OkIff | internal/subnet_universe.py:576-678 | with a chain read that names a subnet: ok exactly when both sources were complete |
| UniverseHistory.NewcomerIff | internal/subnet_universe.py:329-387 | a netuid enters exactly when the chain lists it, or TaoMarketCap does and no chain read that asked about it leaves it out |
| UniverseHistory.RootJoins | internal/subnet_universe.py:329-387 | root is a member of every universe in which a subnet was listed |
| UniverseHistory.OnlyFullReadsEmpty | internal/subnet_universe.py:622-660 | a universe with members is emptied only by a refresh with both sources complete whose chain read names no subnet |
| UniverseHistory.FallbackIff | internal/subnet_universe.py:610-645 | when exactly a refresh publishes the registry fallback, and that it then lists the registry without root, all unobserved |
| SubnetUniverse.StaysOrDrops | internal/subnet_universe.py:351-381 | a prior member either keeps an entry or is dropped, never both, and then with evidence that a later clock still accepts |
| SubnetUniverse.DepartureNeedsEvidence | internal/subnet_universe.py:277-326 | a netuid leaves only in a cycle whose own chain read excludes it, the grace after it turned negative; root never |
| SubnetUniverse.ShrinkGuardNeverBlocks | internal/subnet_universe.py:305-312 | with a clock that does not run backwards, every id missing from a build carries evidence the guard accepts, on each return path |
| UniverseHistory.EffectivePublishes | internal/subnet_universe.py:753-780 | a refresh that resolves a membership publishes it |
| UniverseHistory.EntryIsFold | internal/subnet_universe.py:351-381 | a member's entry is the merge folded over what was seen since it entered |
| UniverseHistory.FoldFollowsTheProbe | internal/subnet_universe.py:202-259 | over any probe verdicts: negative iff the clock is set, and the clock is the first exclusion since the last listing, whatever the other source said |
| UniverseHistory.ClockFollowsVerdicts | internal/subnet_universe.py:351-381 | the same for a member over the effective cycles of a run |
| UniverseHistory.ExclusionIsHeardIff | internal/subnet_universe.py:163-171 | a member's probe verdict is an exclusion iff a chain read leaves it out and TaoMarketCap was complete or the id is in the scan range |
| UniverseHistory.EntryFollowsReads | internal/subnet_universe.py:576-624 | over the chain reads of every cycle, held and retained builds included, a member's clock follows those exclusions |
| UniverseHistory.NegativeSinceIsFirstExclusion | internal/subnet_universe.py:214-259 | over the chain reads themselves: negative iff some read left the member out with no listing since, the clock being the first such read's, if that read was made by a refresh that asked about it |
| UniverseHistory.FollowsChainIff | internal/subnet_universe.py:581-608 | and only if, when no two cycles stamp it alike |
| UniverseHistory.UnheardReadIsIgnored | internal/subnet_universe.py:582-608 | one chain read that leaves a positive member out starts its clock iff TaoMarketCap was complete or the id is in the scan range; else it stays positive and published |
| UniverseHistory.UnaskedNeverLeaves | internal/subnet_universe.py:582-608 | while no refresh asks about it, a positive member stays one, whatever the chain reads leave out |
| UniverseHistory.ListedStaysForTheGrace | internal/subnet_universe.py:202-290 | a netuid listed by a cycle's chain read is in every snapshot published less than 172800 s later |
| UniverseHistory.RootNeverLeaves | internal/subnet_universe.py:277-290 | root, once a member, is a member for ever |
| UniverseRestarts.ListedSurvivesRestarts | internal/subnet_universe.py:693-782 | a listed netuid stays a member for the grace across refreshes, reloads and restarts, if some refresh from the listing one on wrote before the first reload or restart |
| UniverseRestarts.KeptSurvives | internal/subnet_universe.py:693-782 | what is in memory and in the file stays so, whichever later writes fail |
| UniverseRestarts.RestartKeepsIff | internal/subnet_universe.py:693-745 | a first restart within the grace finds it iff a refresh since the listing one has written, or the older file, or without one the registry, has it |
| UniverseRestarts.UnwrittenListingIsLost | internal/subnet_universe.py:693-745 | an older file without it, a failed write and a restart lose it |
| UniverseProvider.PersistRoundTripIff | internal/subnet_universe.py:475-520 | a snapshot survives `to_dict` and `from_dict` exactly when its ids are sorted, its chain admissible and "ok" backed |
| UniverseProvider.ReloadedOkIsPinned | internal/subnet_universe.py:491-520 | whatever the file holds, a reloaded "ok" has a full pin and no netuid is lost |
| UniverseProvider.BuildSnapshot | internal/subnet_universe.py:576-678 | the build with its early returns is `BuildFrom` |
| UniverseProvider.Provider.RefreshOnce | internal/subnet_universe.py:753-782 | publish and persist of one refresh, with both retentions |
| UniverseProvider.Provider.AtomicPersist | internal/subnet_universe.py:734-745 | an emergency snapshot or a failed write leaves the file alone; a replaced file is noted with its mtime unless reading that fails |
| UniverseProvider.Provider.ReloadFromDiskIfStale | internal/subnet_universe.py:710-732 | only a newer, non-empty file replaces the snapshot |
| UniverseProvider.ReloadTakesUpNewerFile | internal/subnet_universe.py:710-732 | a file newer than noted and not empty is taken up with its ids, entries and rows, its mtime noted; it is the very snapshot written exactly under the round-trip condition |
| UniverseProvider.NextReloadTakesItUp | internal/subnet_universe.py:710-732 | over runs: the next reload takes up what another provider wrote, whatever refreshes failed to write came between |
| UniverseProvider.ReloadIff | internal/subnet_universe.py:710-732 | a reload changes something exactly if the file is there, newer and not empty; a second one changes nothing |
| UniverseProvider.OwnWriteIsNotReloaded | internal/subnet_universe.py:693-732 | a provider does not read back what it wrote and noted |
| UniverseProvider.StartIsNoted | internal/subnet_universe.py:693-745 | a start holds a usable file and has noted it, else the registry |
| UniverseProvider.RefreshNeverFallsBack | internal/subnet_universe.py:753-778 | no refresh turns a usable universe into the registry fallback |
| UniverseProvider.NeverBackToEmergency | internal/subnet_universe.py:710-782 | no refreshes, reloads and foreign writes do, and the file never holds an emergency snapshot |
| UniverseProvider.RunsStayWellFounded | internal/subnet_universe.py:576-782 | in every run "ok" has a chain read and an emergency snapshot maps all its ids |
| UniverseProvider.GuardNeverCutsARefresh | internal/subnet_universe.py:753-778 | from any start a provider can have, the shrink guard cuts no refresh |
| ScaleDecoder.EncodableIff | internal/chain_client.py:181-188 | the numbers the reference encoding covers are those below 2^536 |
| ScaleDecoder.DecodeScaleCompact | internal/chain_client.py:165-188 | the shift-and-or loop computes the decoding function, never consuming more than it is given |
| ScaleDecoder.CompactRoundTrip | internal/chain_client.py:165-188 | decoding an encoded number and any tail gives the number and exactly its encoded length |
| ScaleDecoder.CutEncodingReadsZero | internal/chain_client.py:173-184 | a truncated encoding reads as zero and one byte |
| ScaleDecoder.ReadCompactVec | internal/chain_client.py:214-220 | the vector loop is `CompactVecAt` and makes no more rounds than there are bytes left |
| ScaleDecoder.VectorsFitTheData | internal/chain_client.py:208-220 | a vector that was read has fewer elements than the bytes it was read from |
| ScaleDecoder.PoolRoundTrip | internal/chain_client.py:191-255 | an encoded `Some(info)` gives back the raw reserves, nothing when the TAO side is empty, an exception when a name is not bytes |
| ScaleDecoder.DecodedIsPool | internal/chain_client.py:191-255 | a pool comes only out of an encoded `Some` with a TAO side and names that are bytes |
| LiveSubnetsIpc.HeaderRoundTrip | internal/live_subnets_ipc.py:115-133 | the length header unpacks to what was packed |
| LiveSubnetsIpc.FrameRoundTrip | internal/live_subnets_ipc.py:94-133 | a frame the sender accepts is never rejected for size and parses to its body whatever follows |
| LiveSubnetsIpc.ParsedIsFrame | internal/live_subnets_ipc.py:94-112 | only a frame parses as one |
| LiveSubnetsIpc.CutFrameNeedsMore | internal/live_subnets_ipc.py:94-112 | an incomplete frame looks like nothing else |
| LiveSubnetsIpc.Outgoing.SendExact | internal/live_subnets_ipc.py:33-63 | success, exactly when the script of partial sends carries the data, wrote all of it; failure a proper prefix |
| LiveSubnetsIpc.Outgoing.SendFramedBody | internal/live_subnets_ipc.py:115-132 | the same for a frame; an oversized body writes nothing |
| LiveSubnetsIpc.Incoming.ReadExact | internal/live_subnets_ipc.py:66-91 | success exactly when the stream and the fragments carry the bytes, and then takes exactly those |
| LiveSubnetsIpc.Incoming.RecvBody | internal/live_subnets_ipc.py:94-112 | a body is exactly the frame at the position, the stream is left at the next one, anything else closes |
| LiveSubnetsIpc.Incoming.RecvMessage | internal/live_subnets_ipc.py:94-112 | the same with unpickling, whose failure closes too |
| LiveSubnetsIpc.Outgoing.SendFramedBodies | internal/live_subnets_ipc.py:115-132 | one send after another puts whole frames on the wire and, where one fails, a proper prefix of its frame |
| LiveSubnetsIpc.Incoming.RecvBodies | internal/live_subnets_ipc.py:94-112 | one receive after another is `ParseMany` of the wire, or closes |
| LiveSubnetsIpc.FramesStayInSync | internal/live_subnets_ipc.py:33-153 | k receives over back-to-back frames return the first k bodies and stop at a boundary |
| LiveSubnetsIpc.NothingAfterTheCut | internal/live_subnets_ipc.py:94-112 | a receiver gets no more bodies than were sent whole before a cut frame |
| LiveSubnetsIpc.Transfer | internal/live_subnets_ipc.py:33-153 | both ends together, however the transfers are cut and wherever either fails: what arrives is a prefix of what was sent whole, in order |
| LiveSubnetsIpc.MessageRoundTrip | internal/live_subnets_ipc.py:94-153 | for any pickling that unpickling undoes, the message sent is the message received |
| PriceBatch.CollectCompleted | internal/chain_client.py:947-960 | the loop's rows, outcomes and remaining futures are those of the completion order up to the cut |
| PriceBatch.CollectedIff | internal/chain_client.py:947-963 | a position of the request is collected exactly if its completion comes before the deadline, under any order of events |
| PriceBatch.CompletionGrows | internal/chain_client.py:949-960 | one more event collects one more future, at the end, exactly if it completes one that is out and the deadline has not passed |
| PriceBatch.OutcomeTells | internal/chain_client.py:896-904 | a row is ok, a missing price and an RPC error are told apart, and no worker reports an expiry |
| PriceBatch.BatchTellsTheCopies | internal/chain_client.py:943-984 | for any request: one outcome per netuid, expired iff a copy of it was not completed, else that of a completed copy; a row exactly for each completed copy that got one |
| PriceBatch.LastCopyDecides | internal/chain_client.py:951-957 | of completed copies of a netuid the one that completed last gives the outcome |
| PriceBatch.DistinctBatchSettles | internal/chain_client.py:943-984 | for distinct netuids: each has exactly its own outcome, rows are the ok ids strictly ascending, expired iff some id was not completed |
| PriceBatch.AgreeIffDistinct | internal/chain_client.py:943-984 | every row has outcome ok, under any work, completion order and cut, iff the request repeats no netuid |
| PriceBatch.RepeatedNetuidCanDisagree | internal/chain_client.py:954-962 | a netuid requested twice with its row collected and its outcome expired |
| PriceBatch.GetSubnetPriceRowsBatch | internal/chain_client.py:943-984 | for any request, completion order and cut the result is `BatchOf` |
| PriceBatch.MetaTellsTheBatch | internal/live_subnets_fetch_child.py:74-100 | completed and missing partition the request; complete iff all ok; reason is the deadline iff some id expired |
| PriceBatch.CollectChainRows | internal/live_subnets_fetch_child.py:54-166 | the lite branch end to end over the request made distinct and sorted |
| RpcDeadline.SockHolder.Register | internal/rpc_deadline.py:47-52 | a socket registered after expiry is handed over to be hung up at once |
| RpcDeadline.SockHolder.Expire | internal/rpc_deadline.py:54-59 | expiry hands over every socket registered so far |
| RpcDeadline.PermitsAreConserved | internal/rpc_deadline.py:142-169 | free permits plus unfinished attempts are four, each permit is released exactly once |
| RpcDeadline.AdmittedIffRoom | internal/rpc_deadline.py:145-146 | an attempt is admitted iff fewer than four are unfinished |
| RpcDeadline.ExpiryHangsUpEverySocket | internal/rpc_deadline.py:36-67 | once expiry and all registrations have returned, every registered socket is hung up |
| RpcDeadline.AnsweredIsUntouched | internal/rpc_deadline.py:169-174 | an attempt that answered was never hung up and answered what its worker set |
| RpcDeadline.OutcomeWasSet | internal/rpc_deadline.py:151-162 | an outcome on record is one its own worker set |
| RpcDeadline.CallerIsNeverStuck | internal/rpc_deadline.py:169-174 | a waiting caller can always move on |
| PumpTracker.Tracker.RecordPriceSnapshot | datastore/pump_tracker.py:207-256 | the subnet's history is extended and trimmed, its states created once, other subnets untouched |
| PumpReadings.RecordTells | datastore/pump_tracker.py:207-256 | the last 600 observations are kept, each with the return from the price before it |
| PumpTracker.Tracker.UpdateCusum | datastore/pump_tracker.py:259-320 | the evidence step with its threshold and its rolling history, others untouched |
| PumpReadings.EvidenceRisesIff | datastore/pump_tracker.py:259-320 | one update raises the evidence exactly when (last return less the mean of the earlier ones) times the volume factor exceeds the drift times sigma |
| PumpReadings.FlatReturnsDecay | datastore/pump_tracker.py:271-300 | without spread the evidence falls by the drift, cut at zero |
| PumpReadings.LargerReturnNotLess | datastore/pump_tracker.py:259-320 | with everything earlier equal a larger last return never gives less evidence |
| PumpReadings.ZeroSpreadIff | datastore/pump_tracker.py:100-106 | the spread is nothing exactly when all returns agree |
| PumpReadings.VolumeFactorTells | datastore/pump_tracker.py:281-294 | the factor is the last volume over the mean of the earlier ones, kept between zero and ten |
| PumpReadings.ParabolicIff | datastore/pump_tracker.py:313-318 | a move is parabolic exactly when it is more than twice the mean size of the earlier ones |
| PumpReadings.ThresholdIsReadOff | datastore/pump_tracker.py:305-312 | in every run the rolling history is the evidence of the last sixty updates, and the threshold its 95th percentile, or one |
| PumpTracker.Tracker.AdaptParameters | datastore/pump_tracker.py:835-868 | the drift step on the subnet, others untouched |
| PumpReadings.AdaptationStep | datastore/pump_tracker.py:835-861 | how far one adaptation moves the drift, for every score |
| PumpTracker.Tracker.DetectPhase | datastore/pump_tracker.py:323-369 | the detected phase, and exactly the transition to it |
| PumpReadings.DetectionTells | datastore/pump_tracker.py:323-363 | what a freshly detected phase takes, from prices and evidence: a last price that rose for markup, that did not rise and is near the peak for distribution, that fell for decline |
| PumpReadings.DetectionFollows | datastore/pump_tracker.py:323-363 | what is enough for each pump, distribution and decline |
| PumpReadings.NearPeakIff | datastore/pump_tracker.py:336-342 | near the peak: within three percent of every price of the window |
| PumpReadings.FlatIff | datastore/pump_tracker.py:336-341 | flat: every price of the window within one percent of every other |
| PumpTracker.Tracker.OnPhaseChange | datastore/pump_tracker.py:397-427 | the open cycle advanced in place, closed into the ledger when it completes |
| PumpReadings.LegIsMeasuredFromEntry | datastore/pump_tracker.py:407-422 | however a leg moves between markup and parabolic, its magnitude is the gain from the price at its first phase to the highest price since |
| PumpReadings.OtherStepsKeepMagnitude | datastore/pump_tracker.py:397-427 | no step but leaving the pump phases for distribution or decline measures a leg |
| PumpTracker.Tracker.CloseCycle | datastore/pump_tracker.py:429-462 | one more stored cycle, the last fifty kept |
| PumpReadings.ClosedCycleTells | datastore/pump_tracker.py:424-462 | a closed cycle holds the phases left, the magnitude measured and the depth of the last price below the peak |
| PumpTracker.EvidenceIsBestSuffix | datastore/pump_tracker.py:276-301 | after any run the accumulator is the largest sum of increments over a stretch ending now, the empty one included, under a changing drift |
| PumpTracker.PercentileIsNearTheTop | datastore/pump_tracker.py:108-120 | the percentile lies between two neighbours in order, with at most a twentieth of the others above the upper and at least that above the lower |
| PumpTracker.ThresholdIsAtLeastOne | datastore/pump_tracker.py:311-312 | in every run the threshold is at least one |
| PumpTracker.PumpNeedsEvidence | datastore/pump_tracker.py:344-349 | a pump is entered only when some stretch ending now adds up to more than 0.8 |
| PumpTracker.VolumeAmplifiesIff | datastore/pump_tracker.py:279-296 | volume amplifies evidence iff it is above its recent average and damps it iff below |
| PumpTracker.EvenVolumeIsNeutral | datastore/pump_tracker.py:279-303 | with an even volume the increment is the plain standardised return minus the drift |
| PumpTracker.DriftStaysInRange | datastore/pump_tracker.py:848-861 | the drift stays between 0.2 and 0.5 |
| PumpTracker.AdaptationMovesIff | datastore/pump_tracker.py:843-861 | when exactly an adaptation lowers and raises the drift |
| PumpTracker.ZeroScoreIsNotLow | datastore/pump_tracker.py:846-846 | a score of zero changes nothing |
| PumpTracker.DetectionSettlesIff | datastore/pump_tracker.py:344-363 | detecting again on unchanged data differs iff the subnet rests after a decline or a distribution; a third time always agrees |
| PumpTracker.ReAccumulationIsBrief | datastore/pump_tracker.py:354-358 | two equal prices after a decline are such a case |
| PumpTracker.StepKeepsLedger | datastore/pump_tracker.py:371-462 | every step keeps each list quiet at its start, without repeated neighbours, without a quiet phase after a decline |
| PumpTracker.LedgerAlwaysOk | datastore/pump_tracker.py:397-462 | in every run each closed cycle has a decline and a non-negative magnitude, a positive one only with a pump phase |
| PumpTracker.LedgerTellsTheStory | datastore/pump_tracker.py:397-462 | closed lists and the open one, concatenated, are the latest phases left in order; all of them iff at most fifty cycles closed |
| TaostatsClient.Client.RateLimit | fetchers/taostats_client.py:92-101 | the call's grant and the pruned list with it appended |
| TaostatsClient.PruningLeavesFive | fetchers/taostats_client.py:95-95 | pruning never leaves more than five timestamps |
| TaostatsClient.WaitIff | fetchers/taostats_client.py:92-101 | a call waits exactly if five grants lie within the minute, and then until the oldest is a minute old and a tenth of a second more |
| TaostatsClient.CountedAreRecent | fetchers/taostats_client.py:95-95 | what a call counts are the grants of the last minute |
| TaostatsClient.SixGrantsSpanAMinute | fetchers/taostats_client.py:92-101 | any six successive grants of a run span at least a minute |
| TaostatsClient.Client.SelectBatch | fetchers/taostats_client.py:154-192 | the batch and the stored offset of one call |
| TaostatsClient.UniverseIsDistinct | fetchers/taostats_client.py:154-164 | the universe has no repeated id |
| TaostatsClient.UniverseGrowsAtTheEnd | fetchers/taostats_client.py:154-164 | the universe keeps the order of first mention |
| TaostatsClient.PriorityPassTakesAll | fetchers/taostats_client.py:168-180 | usable priority ids are left out only when the limit is filled |
| TaostatsClient.PriorityGrowsAtTheEnd | fetchers/taostats_client.py:168-180 | earlier priority ids are selected first |
| TaostatsClient.BatchShape | fetchers/taostats_client.py:168-192 | distinct ids of the universe, priority ids first, and within the limit iff the limit is positive or no priority id is usable |
| TaostatsClient.BatchIsFull | fetchers/taostats_client.py:168-192 | with priority ids or without, a batch has as many ids as the limit and the universe allow |
| TaostatsClient.EveryIdIsSelected | fetchers/taostats_client.py:182-192 | without priority ids, successive batches with room for the universe select every id |
| OutcomeLedger.GradeIff | message_intel/price_tracker.py:284-295 | the grade by unrounded thresholds; a percentage iff not stable, within 0.005 of the change |
| OutcomePrices.GradeFollowsPrice | message_intel/price_tracker.py:284-295 | a recorded horizon is graded by how far its price lies above or below the snapshot price, in prices only |
| OutcomePrices.RightIff | message_intel/self_learning.py:125-135 | which change makes a call right: above 2.005 percent for an upward one, below -2.005 for a downward one, in between for the rest |
| OutcomeLedger.Database.GetUnresolvedOutcomes | message_intel/models.py:630-652 | the receipts without an outcome row or without a 24-hour time, with the row they had, in the order of their messages |
| OutcomeLedger.UnresolvedAscend | message_intel/models.py:650-650 | with one receipt per message that order is strict |
| OutcomePrices.UnresolvedIsComplete | message_intel/models.py:630-652 | no receipt whose row is missing or lacks its 24-hour time is left out |
| OutcomeLedger.Database.SavePriceOutcome | message_intel/models.py:402-507 | column by column, the first value stays; one row per message |
| OutcomeLedger.Database.IncrementAuthorReliability | message_intel/models.py:554-591 | one more message under the trimmed id and name, one more correct one if so, their rounded ratio |
| OutcomePrices.AuthorIsTrimmed | message_intel/models.py:554-591 | the author credited is the id with white space taken off both ends and nothing else; a blank one has a stand-in |
| OutcomeLedger.PriceTracker.GatherOutcome | message_intel/price_tracker.py:350-377 | the columns a pass gathers for one message |
| OutcomePrices.SavesIff | message_intel/price_tracker.py:350-377 | a turn saves exactly when price and snapshot are usable and a horizon is due that has no price |
| OutcomePrices.DataTells | message_intel/price_tracker.py:350-377 | each horizon due gets the price found and its stamp, and the time to the pump to a hundredth of an hour |
| OutcomeLedger.PriceTracker.HandleMessage | message_intel/price_tracker.py:319-421 | what one message's turn does to the tables |
| OutcomePrices.CreditsFollowPrices | message_intel/price_tracker.py:379-416 | over runs, in prices: a bullish or up call is credited as right exactly if the one-hour price is more than 2.005 percent above the snapshot price, another bearish or down call if it is as much below, the rest in between |
| OutcomePrices.ScoresIff | message_intel/price_tracker.py:379-412 | a turn counts exactly if it is the first save of a message with a verdict; one that saves nothing changes nothing |
| OutcomeLedger.PriceTracker.CheckOutcomes | message_intel/price_tracker.py:297-433 | a pass, even one cut short, is its turns in order over the list read at its start |
| OutcomeLedger.SaveKeepsFilled | message_intel/models.py:424-474 | a save keeps filled columns; the one-hour price changes iff the data is a legacy correction |
| OutcomeLedger.SaveMakesGoodRow | message_intel/price_tracker.py:355-377 | from a good row or none a save makes a good row that keeps what was recorded |
| OutcomeLedger.MaturedIsRecordedIff | message_intel/price_tracker.py:359-377 | a usable reading leaves exactly the earlier and the matured horizons recorded, and a seven-day price iff it comes seven days late |
| OutcomeLedger.PctMaxIsLargestIff | message_intel/price_tracker.py:370-375 | `pump_pct_max` is the largest recorded percentage iff the latest recorded price is a move that tops every other |
| OutcomeLedger.LatestIsNotLargest | message_intel/models.py:448-455 | a run that leaves it empty after a pump |
| OutcomeLedger.PassKeeps | message_intel/price_tracker.py:323-433 | a pass, however far it gets, keeps the tables in order and loses nothing |
| OutcomeLedger.RunsKeepWorldOk | message_intel/price_tracker.py:297-433 | in every run: one row per message, horizons in order, graded from their own prices, dated when due, each message credited once at most to its author and as right iff its one-hour grade says so, tallies equal to the credits |
| OutcomeLedger.RecordedOnce | message_intel/models.py:424-455 | what is recorded at some point of a run is unchanged at its end, a finished row entirely |
| OutcomeLedger.PassCredits | message_intel/price_tracker.py:379-412 | a pass credits a message once for every receipt of it that it scores |
| OutcomeLedger.CountedOnceIff | message_intel/price_tracker.py:379-412 | in any run, with any number of snapshots: a message is credited at most once iff no pass scores two receipts of it |
| OutcomeLedger.TwoSnapshotsCountTwice | message_intel/price_tracker.py:379-412 | two snapshots of one message read by one pass credit it twice |

## Left out

- The dev-skip path of the owner guard, `reset_owner_guard_for_tests`, the scheduled exit after a terminal loss, and
  whether the acquire lock is usable after a fork in the parent. `_forget_inherited_owner` assigns a local
  `_skip_dev_active`, so a child keeps its parent's flag (internal/owner_guard.py:279-295); this belongs to that path.
- OwnerProtocol.PassingMeansHolding: takes the guard's three stat calls at one instant, like the other results about
  `Passes`; OwnerProtocol.SpreadCheckHeldTheLock is about three instants.
- OwnerProtocol.AtMostOneWriter: the same instant for all three stat calls; and a child of the acquiring thread does not
  return into the acquisition, which would break it exactly as OwnerProtocol.ReturningChildPassesIff says.
- Owner guard: a live inode number and a descriptor number are not reused, `_owner_root` never changes, the checks of
  `_open_write_lock` are one answer, and at most one release runs in a process at a time.
- Stall guard: the boot grace, the sleep between checks, the resolver revive, environment parsing and logging.
- Universe: the injected probe of the builder (a test seam), the contents of rows, the wording of messages, which are
  constructors here; the refresh lock and the reader role; JSON text. `cap_reached` is always false in the code.
- HTTP, SQLite, pickle, threads as such: answers, tables, an injective encoding, interleavings.
- SCALE: decoding of names as UTF-8, the rounded reserves and the derived price; inputs that are lists holding values
  outside 0..255.
- Price batch: the pool fields of a row, and the test and full branches of `collect_chain_rows`.
- RPC deadline: timeouts that raise before a permit is taken, the streaming of the body, and how long a worker takes.
- TaostatsClient.EveryIdIsSelected: only without priority ids, because the offset advances by the full limit even when
  priority ids took part of the batch. The extra request after a 401 bypasses the limiter. The API-key check, the cache
  and the metrics are left out.
- PumpTracker.Tracker.UpdateCusum: the standard deviation is a parameter described by its square; values are reals.
- PumpTracker.Tracker.OnPhaseChange: without start time, durations and the rounding of the magnitude.
- PumpTracker.Tracker.CloseCycle: without timestamps, durations, rounding and the recomputation of the profile.
- PumpTracker.LedgerAlwaysOk: does not say that a leg starts at the true pump start, because `pump_start_idx` is not
  rebased when the history is trimmed; proneness is not modelled, and `cycle_id` repeats once fifty cycles are stored.
- OutcomeLedger.PriceTracker.HandleMessage: whether a call is eligible is a free choice, a failed increment included;
  the fetching of prices is not modelled.
- OutcomeLedger.RunsKeepWorldOk: one snapshot and one verdict per message; OutcomeLedger.CountedOnceIff needs neither.
- Routes, caches, notifications, sentiment scores and the job scheduler: nothing of them is needed here.

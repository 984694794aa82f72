# DSN: a verified model

DSN is a deterministic BFT settlement chain. This project models its consensus, staking, state and
codec logic in Dafny 4.11 and proves what the chain relies on: no two blocks of one height and round
are both finalized, a breach of this would leave verified votes that name who signed twice and that
are punished when reported, tokens are conserved, every node orders, executes, hashes and restores
the same state to the same result, and what is written to the wire or to a snapshot is read back.

Check it with `dafny verify dfyconfig.toml`.

## How it is laid out

| part | files |
|---|---|
| machine integers, bytes, sorting, sums, binary forms | Basics, Arithmetic, Sorting, MapSum, Wire, Layouts |
| voting, commit proofs, safety over runs and its exact limit, the simulated round | Validators, Votes, Voting, CommitProofs, Safety, Tightness, Finality, Harness |
| evidence and punishment | Slashing, Accountability |
| staking ledger, its invariant, what each operation does, the epoch transition, economy | Ledger, Registry, StakingEffects, Epochs, Rewards, Economy |
| the same operations as an object with loops, and runs of that object | StakingState, StoreRuns |
| supply law, epoch machine and lifecycle over whole runs | Flows, Runs, EpochRuns, Lifecycle, SetHashes |
| proposer selection | Proposer |
| state store, roots, images, chunks, restoring | Accounts, StateStore, Histories, Roots, RootEntries, Images, ImageReading, Snapshots, Chunks, FastSync |
| transactions, blocks, mempool | Transactions, Registrations, Applier, Blocks, Agreement, Funding, Cutting, BlockCodec, Mempool, PoolBlocks |
| addresses | Base58 |

Machine arithmetic is explicit: `uint64` sums and products go through `Wrap64`, amounts are bounded
by 128 bits, and a claim that needs more room says so. Hashing and signature verification are
function parameters about which nothing is assumed. A Go map is ranged over in an arbitrary order,
and `sort.Slice` promises only a sorted permutation; where a list comes out unique, that is proved.
An operation of the staking package that stops with an error leaves behind whatever it had written,
so a failed step carries a ledger too, and runs go on from there.

The registry invariant (`Registry.Inv`) says: the bonded total is the sum of stakes over validators
that are not removed; voting power is the stake of an active validator and zero otherwise; the
by-sequence index numbers all registered IDs from 1 without gaps or repeats; the public-key and
operator indexes are exact inverses over validators that are not removed.

A run (`Runs.IsRun`) is any sequence of registrations, delegations, unstakings, slashes, evidence
reports, block beginnings and blocks of transfers. A registration passes the stored epoch, and its
stake counts as entering from outside, because RegisterValidator leaves the deduction to its caller.
A fitting run is one whose tokens, together with those about to come in, stay below 2^64, which is
what the 64-bit voting powers of the source rely on.

## What does not hold as one might expect

Each of these is stated exactly, with the condition under which the code does meet the property.

- The two-thirds test wraps: it is right for every vote count exactly when three times the total
  power fits in 64 bits (`Validators.TwoThirdsExact`, `Validators.TwoThirdsWraps`).
- Slash amounts, reward portions, the fee share and the two cuts of the issuance wrap in the same way
  (`Registry.SlashAmountExact`, `Rewards.PortionExact`, `Flows.FeeShareExact`, `Economy.TreasuryCutExact`,
  `Economy.ValidatorCutExact`). Payouts sum to the pool all the same.
- Slash by amount breaks the bonded total exactly when it takes something from a removed validator
  (`Registry.SlashKeepsInv`, on a ledger in `Registry.SlashCanBreak`). A registration breaks it exactly
  when it passes every check and the total then overflows (`Registry.RegisterKeepsInv`, on a ledger in
  `Registry.RegisterCanBreak`).
- Less than a third of Byzantine power is enough for safety but not needed: two blocks of one height
  and round can both reach a majority in some run exactly when two quorums share no honest validator
  (`Tightness.SafetyExactly`). With three equal validators one Byzantine is too many
  (`Tightness.ThirdBreaks`).
- A commit proof built from collected votes is accepted exactly when all of them are valid
  precommits, because collection does not look at a vote's type (`CommitProofs.BuiltProofAccepted`,
  a rejected one in `CommitProofs.PrevoteInProof`). Validation does not compare rounds, so votes shared
  by two conflicting proofs are double-sign evidence exactly when their rounds agree
  (`CommitProofs.ConflictingProofs`, two proofs without evidence in `CommitProofs.RoundsApart`).
- Accounts and entries go into one tree, so different contents can have one root: exactly when the last
  account could as well be the first entry, or the first entry the last account
  (`RootEntries.AmbiguousExactly`, on a single account in `RootEntries.LoneAccount`).
- Cutting an image into chunks fails to round-trip exactly when length plus size minus one overflows
  64 bits (`Chunks.CutIsComplete`).
- The empty byte string does not survive Base58 (`Base58.Base58RoundTrip`).
- A block whose signature is longer than 8192 bytes is encoded but not decoded
  (`BlockCodec.BlockRoundTrip`).
- A refused transaction leaves no trace exactly when it is no registration that passes every check
  made before its stake is deducted (`Registrations.RefusedTraceless`); registering a key a second time
  is refused after the stake is gone (`Registrations.RegisteredTwice`).
- BuildBlock cuts the pending list before sorting it. When all pending transactions together execute
  and every sender pays from its own balance, all orders that build give one body exactly when no
  transaction fits, all fit, or they have one sender (`Cutting.OrderMattersExactly`; two senders and
  room for one in `Cutting.RoomForOne`). If incoming transfers pay for some, those three cases still
  give one body (`Cutting.OrderIrrelevant`). Pools with equal live transactions list them in one order
  and so give one body however many are cut off (`PoolBlocks.OneBodyPerPool`).
- What the pool accepts need not execute: from a sender whose nonce it tracks it looks neither at
  signature nor balance (`PoolBlocks.TrackedUnchecked`). A block of transactions that their senders can
  pay beforehand executes exactly when each of them fits, with its nonce the next after those selected
  before it (`PoolBlocks.BuildFromPool`, `Funding.ExecutesExactly`).
- One offence is not punished once but once per encoding. After one report, another against the same
  validator is refused as a duplicate exactly when its hash is that of the first or was processed
  before, and otherwise costs the offender a further share (`Slashing.SecondReport`). Swapping the votes
  or changing a signature makes another encoding (`Slashing.OrderMatters`, `Slashing.SignatureMatters`,
  with figures in `Slashing.ToldAgain`). An encoding is punished at most once (`Lifecycle.EvidenceOnce`).
- Processing evidence reads what the votes say; their signatures only enter the hash
  (`Slashing.SignaturesOnlyHashed`). That a vote was signed is checked where it is counted.
- A vote whose signature is longer than 1024 bytes is encoded but not decoded (`Slashing.VoteRoundTrip`).
- A block in order fails to begin exactly when it closes an epoch and someone due for release has no
  operator account and is not given one by a reward or the treasury's cut (`EpochRuns.BeginExactly`, on
  a ledger in `EpochRuns.BeginCanFail`).
- A failed restore keeps the old contents exactly as far as the checks made before loading reject the
  data; after that the contents are already the image's (`FastSync.PersistentState.Restore`).

Where comments and code of the source disagree, the model follows the code. The comment on
EpochAtHeight puts blocks 1-99 in epoch 1, while the code puts 1 to blocksPerEpoch there. The comment
on IsEpochBoundary says the next block triggers the transition, while BeginBlock runs it at the
boundary block itself. DistributeRewards computes burn and treasury shares that nobody is paid and no
figure records, so both are burned.

## Model

| member | source | states |
|---|---|---|
| `Validators.TwoThirdsExact` | consensus/voting.go:108-121 | the 64-bit two-thirds test decides correctly for every vote count if and only if three times the total fits in 64 bits |
| `Validators.TwoThirdsWraps` | types/commit.go:22-29 | a concrete total at which no votes at all pass the test |
| `Validators.QuorumIntersection` | consensus/voting.go:108-121 | two sets holding two thirds of the power share validators with at least one third of it |
| `Validators.Index` | staking/snapshot.go:31-36 | the ID index holds exactly the IDs of the list, each with a record of the list that has that ID |
| `Votes.SignBytesInjective` | types/vote.go:44-58 | what a signature covers determines every field of the vote except the signature |
| `Layouts.SignBytesLayout` | types/vote.go:44-58 | what is signed is 65 bytes: type, height, round, block hash and validator at their places |
| `Voting.CountSound` | consensus/voting.go:61-95 | one more vote, accepted or refused, keeps the ballots genuine and the counter equal to the power of exactly those who voted |
| `Voting.CountExactly` | consensus/voting.go:61-95 | a vote is counted, at its signer's power, if and only if it is the member's own, for the polled height, round and block, verifies and is its first; otherwise nothing changes |
| `Voting.MajorityMeaning` | consensus/voting.go:108-121 | on sound ballots the majority test means that the voters hold at least two thirds of the snapshot's power |
| `Voting.SortedVotes` | consensus/voting.go:131-139 | the votes of a map, ranged over in any order and sorted, are one and the same list |
| `Voting.VotingState.constructor` | consensus/voting.go:33-42 | a new voting state is empty and sound |
| `Voting.VotingState.AddPrevote` | consensus/voting.go:50-52 | counts or refuses the vote for the exact reason, keeps both ballot boxes sound, and leaves the precommits alone |
| `Voting.VotingState.AddPrecommit` | consensus/voting.go:56-58 | the same for precommits, leaving the prevotes alone |
| `Voting.VotingState.CountVote` | consensus/voting.go:61-95 | the six refusals in their order, and the new vote map and counter |
| `Voting.VotingState.BuildCommitProof` | consensus/voting.go:126-149 | a proof exists exactly on a precommit majority, and lists the precommits in ascending validator order whatever the map order |
| `CommitProofs.ValidateCommitProof` | consensus/block_validator.go:221-326 | accepts exactly the proofs that satisfy every check; what that comes to is `CommitProofs.AcceptedByCounting` |
| `CommitProofs.CheckPrecommits` | consensus/block_validator.go:264-313 | the precommit loop accepts exactly lists of good, ascending, distinct precommits and returns their summed power |
| `CommitProofs.AcceptedByCounting` | consensus/block_validator.go:221-326 | a proof whose votes are of one round is accepted if and only if its votes are valid precommits in ascending order, counting them one after the other the way addVote does refuses none (so each is a member's, signed with its key, and its first) and ends in a majority, and its height, hashes and powers match header, snapshot and counter |
| `CommitProofs.AcceptedMeansQuorum` | consensus/block_validator.go:221-326 | every accepted proof has distinct signers from the snapshot whose true summed power is at least two thirds of the true total |
| `CommitProofs.BuiltProofAccepted` | consensus/voting.go:126-149 | a built proof passes every check if and only if all its votes are valid precommits |
| `CommitProofs.PrevoteInProof` | consensus/voting.go:126-149 | the sole validator's prevote counted as a precommit gives a majority whose proof is rejected |
| `CommitProofs.AccountableSafety` | types/evidence.go:49-84 | two majorities for different blocks of one height and round expose a third of the power, and each overlapping pair of votes is evidence exactly when both votes are valid and of one type |
| `CommitProofs.ConflictingProofs` | consensus/block_validator.go:221-326 | two accepted proofs for different blocks share a third of the power; a shared signer's votes are evidence exactly when their rounds agree |
| `CommitProofs.RoundsApart` | consensus/block_validator.go:221-326 | the sole validator's precommits of two rounds give two accepted proofs of one height and are refused as evidence for their rounds |
| `Safety.SignKeepsInv` | consensus/bft_harness.go:246-371 | an honest or Byzantine signing step keeps the run invariant |
| `Safety.DeliverKeepsInv` | consensus/voting.go:61-95 | delivering any vote to any node and phase keeps the run invariant |
| `Safety.RunKeepsInv` | consensus/bft_harness.go:246-371 | every reachable network state satisfies the invariant |
| `Safety.NoConflictingMajorities` | consensus/bft_harness.go:246-371 | with less than a third of the power Byzantine, in every run and at all nodes, two blocks of one height and round never both have a majority, in either phase |
| `Finality.ProofBacked` | consensus/block_validator.go:221-326 | where nobody forges an honest signature, the block of an accepted proof of the round has the support of two thirds of the power, Byzantine validators included |
| `Finality.OneFinalBlock` | consensus/block_validator.go:221-326 | with less than a third of the power Byzantine and no honest signature forged, in every run, two accepted proofs of one height and round are for one block |
| `Safety.ThirdIsTooMuch` | consensus/voting.go:116-121 | at exactly one third of Byzantine power two quorums may share no honest validator |
| `Tightness.ConflictNeedsSplit` | consensus/bft_harness.go:246-371 | in any run, majorities for two blocks come from two quorums without a common honest validator |
| `Tightness.SplitConflicts` | consensus/bft_harness.go:246-371 | two quorums without a common honest validator can be led, by a run in which everyone honest keeps the rules, to precommit majorities for two blocks |
| `Tightness.SafetyExactly` | consensus/bft_harness.go:246-371 | some run gives two blocks of one height and round a majority if and only if two quorums share no honest validator |
| `Tightness.ThirdBreaks` | consensus/voting.go:116-121 | with exactly one third of the power Byzantine there is a run with two conflicting precommit majorities |
| `Harness.Cast` | consensus/bft_harness.go:280-300 | signing a vote and adding it to its voting state is a signing and a delivery of the protocol, and a good signature of a snapshot member is counted |
| `Harness.CollectPrevotes` | consensus/bft_harness.go:259-320 | phase 1 stays within the rules and collects every good prevote for the first block |
| `Harness.Prevoted` | consensus/bft_harness.go:322-329 | exactly the blocks with a prevote majority, whatever the map order |
| `Harness.CollectPrecommits` | consensus/bft_harness.go:331-370 | phase 3 stays within the rules, collects every good precommit, and commits exactly the prevoted blocks that reach a majority |
| `Harness.SimulateVoting` | consensus/bft_harness.go:246-371 | the round is a run of the protocol in which everyone whose vote counts has voted; unless the two-thirds test wraps, a block is committed if and only if it has a precommit majority at the end of that run; with less than a third of the power voting twice at most one block is committed, and with two thirds taking part with good signatures the first one is |
| `Slashing.VoteRoundTrip` | types/vote.go:81-140 | an encoded vote is read back whole, whatever follows it, or refused if and only if its signature is longer than 1024 bytes |
| `Slashing.DoubleSignRoundTrip` | types/evidence.go:88-120 | valid evidence is read back from its encoding |
| `Slashing.SlashOutcome` | staking/slashing.go:143-204 | against a validator that is not removed ApplySlash always succeeds, with the exact ledger it leaves |
| `Slashing.SlashDocks` | staking/slashing.go:143-204 | the offender loses the share, the total drops by as much, nobody else's record changes, and a nonzero slash takes it out of the active set |
| `Slashing.EvidencePunishes` | consensus/slashing.go:42-87 | valid new evidence against a validator that is not removed is always carried out, and is refused as a duplicate from then on |
| `Slashing.OrderMatters` | types/evidence.go:123-129 | the same two votes in the other order are also valid evidence with a different encoding |
| `Slashing.SignatureMatters` | types/evidence.go:123-129 | other signature bytes of an admissible length make valid evidence with a different encoding |
| `Slashing.SecondReport` | consensus/slashing.go:42-87 | after a report is carried out, any valid report is refused as a duplicate if and only if its hash is that of the first or was processed before; otherwise, against the same validator, it takes the configured share of what is left or is refused for a share over the limit |
| `Slashing.SwappedReport` | consensus/slashing.go:42-87 | the case of the same two votes in the other order |
| `Slashing.SlashedTwice` | consensus/slashing.go:42-87 | a stake of 1000000 at five per cent, under any two reports that the hash tells apart, goes to 950000 and then 902500 |
| `Slashing.ToldAgain` | consensus/slashing.go:42-87 | these figures for the votes swapped and for a signature changed |
| `Slashing.SignaturesOnlyHashed` | consensus/slashing.go:42-87 | two valid new reports that differ only in signature bytes have the same effect except for the mark they leave |
| `Accountability.ReportsBite` | consensus/slashing.go:91-98 | reporting a list of offenders punishes every one of them, whatever the order |
| `Accountability.ConflictIsPunished` | consensus/slashing.go:42-87 | if two blocks of one height and round both get a precommit majority, reporting everyone who signed both slashes all of them out of the active set, and they held a third of the power |
| `Lifecycle.EvidenceOnce` | consensus/slashing.go:17-30 | over any run, evidence that was carried out is refused without effect ever after |
| `Registry.StoreKeepsInv` | staking/registry.go:239-252 | rewriting a record and adjusting the bonded total by the change of stake keeps the registry invariant |
| `Registry.RegisterKeepsInv` | staking/registry.go:125-199 | registration keeps the invariant if and only if one of its checks refuses it or the bonded total can take the stake, and follows the transition table |
| `Registry.RegisterCanBreak` | staking/registry.go:125-199 | with 2^128 - 1 bonded, a second registration leaves an inconsistent registry |
| `Registry.BondKeepsInv` | staking/staking.go:26-79 | Bond keeps the invariant, even when it stops after deducting |
| `Registry.SlashKeepsInv` | staking/staking.go:84-123 | Slash keeps the invariant if and only if the validator is unknown or not removed, or nothing is taken, or the total is too small to take it from |
| `Registry.SlashCanBreak` | staking/staking.go:84-123 | of two validators one is removed and then slashed by one token, which leaves an inconsistent total |
| `Registry.ApplySlashKeepsInv` | staking/slashing.go:143-204 | ApplySlash keeps the invariant, never underflows, and changes nothing when it fails |
| `Registry.SlashAmountBound` | staking/slashing.go:110-118 | a slash never exceeds the stake |
| `Registry.SlashAmountExact` | staking/slashing.go:110-118 | the slash is the exact number of basis points if and only if stake times percentage fits in 64 bits |
| `Registry.SlashAmountWraps` | staking/slashing.go:110-118 | a concrete stake whose full slash wraps to nothing |
| `Registry.ActivateKeepsInv` | staking/registry.go:348-362 | activation keeps the invariant and follows the table |
| `Registry.JailKeepsInv` | staking/registry.go:365-379 | jailing keeps the invariant and follows the table |
| `Registry.UnjailKeepsInv` | staking/registry.go:382-396 | unjailing keeps the invariant and follows the table |
| `Registry.StartUnstakeKeepsInv` | staking/registry.go:399-410 | starting to unstake keeps the invariant and follows the table |
| `Registry.RemoveKeepsInv` | staking/registry.go:413-447 | removal keeps the invariant: indexes lose exactly the removed keys and the total loses exactly its stake |
| `Registry.ReleaseKeepsInv` | staking/staking.go:127-151 | releasing stake keeps the invariant |
| `Ledger.ActiveTotal` | staking/registry.go:316-321 | the sort of the active set never ties, so the sorted list is unique |
| `Ledger.ActiveOrdered` | staking/registry.go:316-321 | along the active list powers never rise, and validators of equal power stand in ascending order of ID |
| `StakingEffects.RegisterMeans` | staking/registry.go:125-199 | a registration succeeds if and only if ID, key and operator are free, the stake is at least 100000, the commission at most 10000 basis points, and the total does not overflow; it then adds exactly one pending record, three index entries and the stake to the total, and nothing else |
| `StakingEffects.ActivateMeans` | staking/registry.go:348-362 | activation succeeds if and only if the validator is pending, and then only its status, power and activation epoch change |
| `StakingEffects.JailMeans` | staking/registry.go:365-379 | jailing succeeds if and only if the validator is active, and then only its status, power and term change |
| `StakingEffects.UnjailMeans` | staking/registry.go:382-396 | unjailing succeeds if and only if the validator is jailed, and then only its status, power and term change |
| `StakingEffects.UnstakeMeans` | staking/registry.go:399-410 | a request to unstake succeeds if and only if the validator is active, which then loses its power and is unstaking for exactly the epoch asked for; nothing else changes |
| `StakingEffects.ReleaseMeans` | staking/staking.go:127-151 | a release succeeds if and only if the validator is unstaking and its operator has an account that can take the stake; it then moves exactly the stake from the total to that account, removes the validator and frees its key and operator; otherwise nothing changes |
| `StakingEffects.BondMeans` | staking/staking.go:26-79 | bonding succeeds if and only if the account covers the amount, the validator is pending or active, and stake and total can take it; the balance loses, and stake and total gain, exactly the amount; when only a sum overflows the amount is gone from the balance, and any other failure changes nothing |
| `StakingEffects.SlashMeans` | staking/staking.go:84-123 | a slash by amount of a validator that is not removed always succeeds and takes the amount, or all there is, from stake and total, leaving the status alone; a failure changes nothing |
| `StakingEffects.ApplySlashMeans` | staking/slashing.go:143-204 | a slash by percentage succeeds if and only if the validator is not removed and the percentage is at most 10000 basis points; it takes the share from stake and total and jails an active validator for the term |
| `StakingEffects.ConflictExactly` | types/evidence.go:49-84 | evidence is valid if and only if the two votes are of one kind, validator, height and round, for different blocks, each with a signature of 1 to 512 bytes |
| `StakingEffects.EvidenceMeans` | consensus/slashing.go:42-87 | evidence is carried out if and only if it is valid and new, its validator is not removed, and the rate set for the offense is within 10000 basis points; it then marks the evidence with the height and slashes at that rate, and otherwise changes nothing |
| `StakingEffects.StakeLeft` | staking/slashing.go:208-232 | two prevotes cost the double-prevote rate of the stake and two precommits the double-precommit rate, to the token while the product fits in 64 bits |
| `StakingState.StakingStore.UpdateValidator` | staking/registry.go:239-252 | stores the record with the power its status and stake call for, and changes nothing else |
| `StakingState.StakingStore.RegisterValidator` | staking/registry.go:125-199 | refines the registration step: all four writes, the counter, the total, and every refusal; keeps the invariant exactly when the total does not overflow |
| `StakingState.StakingStore.ActivateValidator` | staking/registry.go:348-362 | refines the activation step; keeps the registry invariant and the transition table |
| `StakingState.StakingStore.JailValidator` | staking/registry.go:365-379 | refines the jailing step; keeps the registry invariant and the transition table |
| `StakingState.StakingStore.UnjailValidator` | staking/registry.go:382-396 | refines the unjailing step; keeps the registry invariant and the transition table |
| `StakingState.StakingStore.StartUnstake` | staking/registry.go:399-410 | refines the unstaking step; keeps the registry invariant and the transition table |
| `StakingState.StakingStore.RemoveValidator` | staking/registry.go:413-447 | refines removal, with both index deletions; keeps the registry invariant and the transition table |
| `StakingState.StakingStore.Bond` | staking/staking.go:26-79 | refines bonding, including what is left behind when it stops half way; keeps the registry invariant and the transition table; what bonding does is `StakingEffects.BondMeans` |
| `StakingState.StakingStore.Slash` | staking/staking.go:84-123 | refines slashing by an amount; keeps the invariant exactly when nothing is taken from a removed validator |
| `StakingState.StakingStore.ReleaseStake` | staking/staking.go:127-151 | refines the release of stake; keeps the registry invariant and the transition table |
| `StakingState.StakingStore.ApplySlash` | staking/slashing.go:143-204 | refines slashing by percentage, with jailing; keeps the registry invariant and the transition table |
| `StakingState.StakingStore.ProcessEvidence` | consensus/slashing.go:42-87 | refines evidence processing, with the processed mark; keeps the registry invariant and the transition table |
| `StakingState.StakingStore.GetActiveValidators` | staking/registry.go:294-324 | the loop and sort give the one list of active validators, holding exactly the active records, by falling power and then rising ID |
| `StakingState.StakingStore.ProcessEpochTransition` | staking/epoch.go:93-168 | the three loops and the counter refine the epoch transition; keeps the registry invariant |
| `StakingState.StakingStore.ActivateDue` | staking/epoch.go:112-126 | the first loop is the activation sweep |
| `StakingState.StakingStore.ReleaseDueOnes` | staking/epoch.go:129-143 | the second loop is the release sweep, stopping at the first failure |
| `StakingState.StakingStore.UnjailDueOnes` | staking/epoch.go:146-160 | the third loop is the unjail sweep |
| `StakingState.StakingStore.CreateSnapshot` | staking/snapshot.go:41-87 | stores the frozen active set with its total and hash, and moves the latest epoch only forward; keeps the registry invariant |
| `StakingState.StakingStore.CreditTreasury` | staking/treasury.go:17-54 | refines crediting the treasury |
| `StakingState.StakingStore.IssueEpochTokens` | staking/economics.go:74-122 | refines issuance, with both cuts and all four figures; what issuing does is `Economy.IssueMeans` |
| `StakingState.StakingStore.PayAll` | staking/rewards.go:69-93 | the payment loop pays each recipient its amount, skips zeros and stops at an overflow |
| `StakingState.StakingStore.DistributeValidatorRewards` | staking/rewards.go:17-96 | refines reward distribution from the prior epoch's snapshot |
| `StakingState.StakingStore.FinalizeBlock` | consensus/system.go:77-84 | refines fee distribution: only the validators' share is paid; keeps the registry invariant |
| `StakingState.StakingStore.DistributeFees` | staking/staking.go:156-227 | pays the active validators their share of the fees and nobody else |
| `StakingState.StakingStore.CloseEpoch` | consensus/system.go:25-51 | refines issuance, rewards and transition at a boundary; keeps the registry invariant |
| `StoreRuns.Do` | consensus/system.go:16-84 | any operation of a run, carried out on the store, has exactly its outcome on the ledger |
| `StoreRuns.Drive` | consensus/system.go:16-84 | any sequence of operations on the store goes through the ledgers of a run; while tokens fit in 64 bits the registry stays consistent and tokens change by exactly what enters, is minted and is burned |
| `StakingState.StakingStore.PayShares` | staking/staking.go:185-224 | apportions and pays the fee share along the active list |
| `StakingState.StakingStore.BeginBlock` | consensus/system.go:16-73 | refines the block hook and returns the current epoch and the set hash of its snapshot; keeps the registry invariant |
| `Epochs.SweepPointwise` | staking/epoch.go:112-126 | a sweep in registration order visits everyone once, so it is a change of each record by itself |
| `Epochs.EpochSpan` | staking/epoch.go:67-74 | epoch e is exactly the heights after (e - 1) * blocksPerEpoch up to e * blocksPerEpoch, and epoch 0 is height 0 |
| `Epochs.BoundaryExactly` | staking/epoch.go:77-83 | a boundary is exactly the last height of its epoch |
| `Epochs.ReleasedPrefix` | staking/epoch.go:129-143 | the release loop pays exactly those due so far, keeps the invariant and conserves tokens, and stops exactly when someone due cannot be paid |
| `Epochs.TransitionMeaning` | staking/epoch.go:93-168 | a transition succeeds if and only if the height belongs to the next epoch and everyone due can be paid; it then moves every validator as its own record says and pays the released operators; even half way it keeps the invariant and creates no tokens |
| `EpochRuns.BeginInOrder` | consensus/system.go:16-73 | a block in order never meets the epoch mismatch and leaves the epoch at height / blocksPerEpoch |
| `EpochRuns.EpochMachine` | consensus/system.go:16-73 | over any run with blocks in order and an account for everyone due for release, every block begins, the stored epoch is height / blocksPerEpoch and exactly the epochs so far have snapshots |
| `EpochRuns.BeginExactly` | consensus/system.go:16-73 | a block in order begins if and only if it closes no epoch or everyone due for release has an operator account or is given one, as the treasury by its cut or by a reward |
| `EpochRuns.BeginCanFail` | consensus/system.go:16-73 | a ledger on which the first block fails to begin |
| `EpochRuns.RewardedAccounts` | staking/rewards.go:17-96 | after issuance and rewards exactly those have an account that had one or were paid something |
| `EpochRuns.OpenedExactly` | consensus/system.go:16-73 | over any run with blocks in order, all blocks begin if and only if those accounts are there at every boundary |
| `EpochRuns.NeverMismatched` | staking/epoch.go:101-105 | the first block of such a run that fails to begin does not fail over its epoch |
| `EpochRuns.SnapshotsFrozen` | staking/snapshot.go:41-127 | over any run a snapshot, once taken, is never rewritten |
| `EpochRuns.OneSetHashPerEpoch` | consensus/system.go:53-72 | all blocks of one epoch return the same set hash, whatever happens to the live set |
| `SetHashes.StepFreezes` | staking/snapshot.go:41-87 | over any run, a step adds a snapshot only for the epoch then reached, and it holds the validators active then |
| `SetHashes.RunHashes` | staking/snapshot.go:131-150 | every snapshot of a run carries the hash of its own members |
| `SetHashes.HashTellsMembers` | staking/snapshot.go:131-150 | two snapshots of a run have one hash if and only if they have the same members, unless their encodings collide |
| `SetHashes.RunKeepsLatest` | staking/snapshot.go:107-127 | over any run the recorded latest epoch is that of the last snapshot there is |
| `Layouts.ValidatorLayout` | staking/validator.go:108-160 | a validator is 143 bytes with each field at its place, its status a number from 0 to 4 |
| `Lifecycle.RunKeepsPendingNext` | staking/validator.go:235-256 | over any run, every pending validator waits for exactly the next epoch |
| `Lifecycle.PendingActivates` | staking/epoch.go:112-126 | every pending validator becomes active at the very next transition |
| `Lifecycle.SlashedStaysOut` | staking/slashing.go:187-203 | a validator slashed while active by a nonzero amount in epoch e, directly or through reported evidence, is in no active list and no new snapshot before epoch e + jailEpochs |
| `Lifecycle.JailEnds` | staking/epoch.go:146-160 | a jailed validator becomes active at a transition if and only if its term has run out |
| `Lifecycle.UnstakedLeave` | staking/epoch.go:129-143 | no unstaking validator survives a transition at or past its unstake epoch |
| `Lifecycle.UnstakingStays` | staking/epoch.go:129-143 | over any run, a validator unstaking for an epoch stays registered and unstaking for it until a block closes the epoch before |
| `Lifecycle.UnstakeHonoured` | staking/registry.go:399-410 | an accepted request to unstake is kept as asked: no transition before that epoch lets the validator go |
| `Validators.SnapshotRoundTrip` | staking/snapshot.go:153-225 | a stored snapshot is read back as it was frozen |
| `Validators.ValidatorRoundTrip` | staking/validator.go:112-225 | an encoded validator is read back, whatever follows it |
| `Economy.IssuanceBound` | staking/economics.go:50-72 | the overflow exit is never taken, and an epoch never mints more than a twentieth of the supply |
| `Economy.IssuanceMonotone` | staking/economics.go:50-72 | a larger supply never issues less |
| `Economy.CutsWithinIssuance` | staking/economics.go:85-100 | the treasury's and validators' cuts never exceed what was issued |
| `Economy.TreasuryCutExact` | staking/economics.go:86-88 | the treasury's cut is a tenth of the issuance, rounded down, if and only if ten times it fits in 64 bits |
| `Economy.ValidatorCutExact` | staking/economics.go:85-100 | the validators' cut is nine tenths, rounded down, if and only if ninety times the issuance fits in 64 bits |
| `Economy.CutsExhaust` | staking/economics.go:85-100 | while they fit, the two cuts leave at most one token of the issuance |
| `Economy.CutFigures` | staking/economics.go:85-100 | the cuts of 158548, and an issuance whose cuts wrap to nothing |
| `Economy.IssuanceExactly` | staking/economics.go:42-72 | with 31536000 / blocksPerEpoch epochs to a year, an epoch issues the largest amount that over a year stays within a twentieth of the supply, and nothing when an epoch is longer than a year |
| `Economy.IssueMeans` | staking/economics.go:74-122 | issuing credits a tenth to the zero address and to no one else, books the issuance in total, issued and per-epoch figures, and files nine tenths as the epoch's pool |
| `Economy.PaidOutExactly` | staking/rewards.go:17-48 | an epoch is paid out if and only if it is not epoch 1, its pool is not empty, and the snapshot of the epoch before has validators with power |
| `Economy.CreditAllOnly` | staking/rewards.go:69-93 | payments change nothing of an account but its balance, and open missing accounts empty |
| `Economy.CreditAllPays` | staking/rewards.go:69-93 | payments reach exactly those they are meant for, add up, and never fail while everything fits in 128 bits |
| `Rewards.Apportion` | staking/rewards.go:50-66 | the two loops over an array fill it with the payouts |
| `Rewards.PayoutsAddUp` | staking/rewards.go:50-66 | payouts sum to exactly the pool, whether or not the 64-bit products wrap |
| `Rewards.PortionExact` | staking/rewards.go:56-60 | a portion is the exact floor if and only if pool times power fits in 64 bits |
| `Rewards.PortionWraps` | staking/rewards.go:56-60 | a concrete pool whose floor wraps to nothing |
| `Rewards.PayoutsFair` | staking/staking.go:193-204 | every non-first validator gets the floor of its exact share, the first its floor plus a remainder smaller than the number of validators, and payouts never increase along the list |
| `Flows.FeeShareExact` | staking/staking.go:236-240 | the validators' share is 70% of the fees if and only if the product fits in 64 bits |
| `Flows.FeeShareWraps` | staking/staking.go:236-240 | concrete fees whose share wraps to nothing |
| `Flows.ActivePower` | staking/registry.go:294-324 | the active set's true power never exceeds the bonded total |
| `Flows.FrozenOK` | staking/snapshot.go:41-87 | a snapshot has distinct members, their true total, and the order of falling power and rising ID |
| `Flows.RewardsFair` | staking/rewards.go:17-96 | completing an epoch pays its whole pool to the reward addresses (or operators) of the prior snapshot; while products fit everyone but the first gets the exact floor, the first less than one token per validator more, and more power never means less pay |
| `Flows.FeesFair` | staking/staking.go:156-227 | closing a block pays 70% of its fees to the operators along the active list, with the same fairness, and nothing when there is no active power |
| `Flows.RewardFlow` | staking/rewards.go:17-96 | the whole reward pool enters circulation |
| `Flows.FinalizeFlow` | staking/staking.go:156-227 | exactly the validators' fee share enters circulation |
| `Flows.BlockFlow` | consensus/block_builder.go:77-150 | a block of transfers takes out its fees less the validators' share, or the fees applied so far when it stops |
| `Flows.CloseFlow` | consensus/system.go:22-45 | closing an epoch adds exactly the treasury's cut and the paid pool, and moves the supply figures by the issuance |
| `Flows.StepFlow` | consensus/system.go:16-84 | every operation keeps the invariant and true snapshots and moves the tokens in accounts and stake by exactly what it brings in, mints and burns |
| `Runs.RunKeepsInv` | staking/registry.go:125-447 | every ledger of every run satisfies the registry invariant |
| `Runs.GenesisStarts` | staking/registry.go:82-118 | a new chain, with any accounts and any supply, meets everything the run theorems ask of a first ledger |
| `Runs.SupplyLaw` | staking/economics.go:74-122 | over any run, accounts plus stake change by exactly what entered, was minted and was burned; total and issued supply grow by the same issuance |
| `Runs.UnissuedConstant` | staking/economics.go:74-122 | total supply less issued supply never changes |
| `Runs.MintedWithinIssued` | staking/economics.go:74-122 | over any run no more is minted than is booked as issued |
| `Runs.MintedWithinBooked` | staking/economics.go:74-122 | while the supply figures do not wrap, what a run mints is at most the growth of the stored issued supply |
| `Proposer.Slot` | consensus/proposer.go:27-43 | the validator in whose share of the power range the offset lies |
| `Proposer.Locate` | consensus/proposer.go:30-46 | neither safety exit is ever taken, for any powers, and the validator found is the one whose share the offset lies in |
| `Proposer.SumPowers` | consensus/proposer.go:16-20 | the power total in 64-bit arithmetic |
| `Proposer.WeightedProposerAtHeight` | consensus/proposer.go:11-47 | round robin exactly when the total is zero, else the validator at the height's offset |
| `Proposer.ProposerFairness` | consensus/proposer.go:11-47 | in any T consecutive heights, T the total power, every validator proposes exactly as often as its power says |
| `Proposer.ProposerOwns` | consensus/proposer.go:22-43 | the proposer is the validator whose share of the power, laid end to end in list order, holds the height modulo the total |
| `StateStore.CopyAccounts` | state/memory.go:312-319 | a deep copy: same records, all objects new |
| `StateStore.InMemoryState.GetAccount` | state/memory.go:65-74 | hands out the live object itself |
| `StateStore.InMemoryState.SetAccount` | state/memory.go:76-82 | stores the caller's object; remembered contents are untouched |
| `StateStore.InMemoryState.DeleteAccount` | state/memory.go:84-90 | removes the account; remembered contents are untouched |
| `StateStore.InMemoryState.SetBytes` | state/memory.go:103-109 | writes the entry; remembered contents are untouched |
| `StateStore.InMemoryState.DeleteBytes` | state/memory.go:112-118 | removes the entry; remembered contents are untouched |
| `StateStore.InMemoryState.TakeSnapshot` | state/memory.go:284-294 | issues the next id and remembers the present contents under it |
| `StateStore.InMemoryState.RevertToSnapshot` | state/memory.go:297-309 | succeeds exactly for outstanding ids, puts back the remembered contents in new objects, and forgets that id and all later ones |
| `Histories.RevertRestores` | state/memory.go:284-309 | in any history of commands, reverting to the id a Save command issued succeeds and restores the contents at that moment, unless an id at or below it was reverted in between |
| `Histories.Step` | state/memory.go:65-118 | every command, with any pointers the caller holds, has exactly its effect on objects, entries, outstanding ids and handles; a change through a pointer shows under every address it is stored at and nowhere else |
| `Histories.Drive` | state/memory.go:284-330 | any sequence of commands produces a history of exactly those commands |
| `Histories.SaveWorkBack` | state/memory.go:284-309 | saving, then any commands that revert nothing at or below the new id, then reverting to it gives back the contents and outstanding ids there were |
| `Histories.HistoriesAgree` | state/memory.go:65-118 | the commands determine every event and the contents after every step, up to the identity of the objects |
| `Histories.Execute` | vm/vm.go:58-102 | a failed or reverted execution leaves contents and outstanding ids unchanged and drops the events; a successful one leaves exactly the contents the contract's commands produced and keeps earlier ids valid |
| `Roots.Insertions` | state/restore.go:53-85 | the insertion loops produce the canonical sequence for every map order; what it holds is `RootEntries.CanonicalHolds` |
| `Roots.InsertAccounts` | state/memory.go:154-171 | accounts are inserted in ascending address order for every map order |
| `Roots.InsertEntries` | state/memory.go:174-187 | entries are inserted in ascending key order for every map order |
| `Roots.CommitMemory` | state/memory.go:146-190 | the root is the tree over the canonical sequence of the contents, so committing twice gives the same root |
| `RootEntries.CanonicalHolds` | state/memory.go:146-190 | as many insertions as accounts and entries: first every account under its address in ascending order, then every entry in ascending key order |
| `RootEntries.CanonicalMembers` | state/memory.go:162-187 | a pair is inserted if and only if it is an account's binary form under its address or an entry |
| `RootEntries.CanonicalInjective` | state/persistent.go:162-198 | equal insertions mean equal contents when no entry of 144 bytes lies under a key of 20 |
| `RootEntries.RootTells` | state/restore.go:53-91 | two such contents share a root if and only if they are equal, unless the tree collides on their insertions |
| `RootEntries.AmbiguousExactly` | state/memory.go:162-187 | other contents have the same insertions if and only if the last account could be the first entry or the first entry the last account: a key with all accounts at or before it and all entries at or after it, that is an account and no entry, or no account and an entry of 144 bytes under 20 |
| `RootEntries.LoneAccount` | state/memory.go:162-187 | an account alone is inserted as the entry that holds its binary form |
| `Layouts.AccountLayout` | state/account.go:56-89 | an account is 144 bytes with each field at its place |
| `Accounts.AccountShaped` | state/account.go:91-128 | every 144 bytes are the binary form of an account |
| `FastSync.PersistentState.Commit` | state/persistent.go:162-198 | the root of the same canonical sequence, for contents it does not change |
| `Accounts.AccountRoundTrip` | state/account.go:56-128 | an encoded account is read back, whatever follows it |
| `Snapshots.Collect` | state/snapshot.go:57-71 | entries collected in any map order and sorted are one and the same list |
| `Snapshots.CreateSnapshot` | state/snapshot.go:53-93 | the image of the contents, in ascending order |
| `Snapshots.SerializeSnapshot` | state/snapshot.go:134-234 | writes a sorted form of the image with its checksum, and an image already in ascending order as it is |
| `Snapshots.AscendingSortsToItself` | state/snapshot.go:180-203 | an image in ascending order has only itself as sorted form |
| `Snapshots.DeserializeSnapshot` | state/snapshot.go:236-384 | the reading loops compute the reader's specification, with every check |
| `Images.ImageRoundTrip` | state/snapshot.go:134-384 | an image survives serialization if and only if its keys ascend and its entries are within the limits |
| `Images.ReadEntriesFit` | state/snapshot.go:298-373 | whatever is read is strictly ascending and within the limits |
| `Images.ImageRefused` | state/snapshot.go:336-373 | one entry over the limits and the whole image is refused |
| `ImageReading.HeaderReads` | state/snapshot.go:236-297 | a header is read if and only if there are 144 bytes that start with the magic and version 1; each field is read from its place |
| `ImageReading.ReadsExactly` | state/snapshot.go:236-384 | data is read as an image if and only if it ends with the hash of what comes before and holds, behind a header with their numbers, the image's entries in ascending order and within the limits |
| `Chunks.ChunkSnapshot` | state/snapshot.go:396-447 | cuts the data into consecutive pieces, numbered, counted and hashed, or refuses |
| `Chunks.PiecesJoin` | state/snapshot.go:417-444 | the pieces in order make up the data |
| `Chunks.PiecesCount` | state/snapshot.go:406-409 | their number is the length over the size, rounded up |
| `Chunks.ReassembleSnapshot` | state/snapshot.go:461-502 | succeeds exactly when the chunks are, in some order, a complete intact set, and then returns their data in order |
| `Chunks.CompleteMeans` | state/snapshot.go:461-502 | in a set that is put together every chunk has its own number, its own hash, the hash of the whole, and the count that is there |
| `Chunks.CutIsComplete` | state/snapshot.go:396-502 | cutting gives a complete set if and only if the rounded-up count does not overflow |
| `Chunks.OverflowNeverComplete` | state/snapshot.go:472-475 | after an overflow no order of the chunks is accepted |
| `Chunks.OverflowWraps` | state/snapshot.go:406-409 | a concrete size at which the count wraps to zero |
| `FastSync.PersistentState.Restore` | state/restore.go:15-147 | succeeds exactly when every check passes, and then holds what the image loads to, under its root; a failure never changes the root, keeps the contents if the data is rejected before loading, and otherwise leaves what had been loaded |
| `ImageReading.RestoresExactly` | state/restore.go:15-91 | data restores if and only if it has the expected hash, where one is given, and holds an image with a nonzero root whose accounts decode and whose contents have that root |
| `FastSync.AccountsComeBack` | state/restore.go:40-46 | the accounts of an image load back to the same map |
| `FastSync.KVsComeBack` | state/restore.go:49-51 | the entries of an image load back to the same map |
| `FastSync.ImageRestores` | state/restore.go:15-91 | a committed state's image restores if and only if its root is not zero and its entries are within the limits |
| `FastSync.Transmit` | state/snapshot.go:396-502 | cut at any size, shuffled in any way and put together, the data comes back if and only if it can be cut at that size |
| `FastSync.SyncNode` | state/restore.go:15-147 | commit, create, serialize, cut, shuffle, reassemble and restore give the same accounts, entries and root, succeeding if and only if the root is not zero, the entries fit and the size can be used |
| `Base58.IndexByte` | types/address.go:162-165 | the position of a letter in the alphabet, or -1 |
| `Base58.Base58Encode` | types/address.go:108-145 | the division, reversal and padding loops compute the base-58 text |
| `Base58.Base58Decode` | types/address.go:148-179 | the decoding loops compute the byte string, skipping foreign characters |
| `Base58.ReverseInPlace` | types/address.go:130-133 | the swap loop reverses |
| `Base58.Base58RoundTrip` | types/address.go:108-179 | decoding undoes encoding if and only if the data is not empty; the empty string comes back as one zero byte |
| `Base58.ParseAddress` | types/address.go:50-66 | decodes, checks checksum and length, and drops the version byte |
| `Base58.AddressRoundTrip` | types/address.go:33-66 | every address is parsed back from its text |
| `Base58.AddressChecksum` | types/address.go:69-83 | address text decodes to 25 bytes: a zero, the address, and the first four bytes of the hash of the hash of those 21 |
| `Base58.ParsedExactly` | types/address.go:50-106 | text is an address if and only if it decodes to 25 bytes of which the last four are what the double hash of the first 21 starts with |
| `Base58.DigitsAndCapitals` | types/address.go:11-12 | the digits and capitals of the alphabet, each at its place |
| `Base58.SmallLetters` | types/address.go:11-12 | the small letters of the alphabet, each at its place |
| `Transactions.TransactionRoundTrip` | types/transaction.go:100-206 | an encoded transaction is read back, whatever follows it |
| `Transactions.RegistrationRoundTrip` | types/transaction.go:243-285 | a registration message is read back from its encoding, whatever follows it |
| `BlockCodec.HeaderRoundTrip` | consensus/gossip.go:24-42 | a header is read back without its events root |
| `BlockCodec.EventRoundTrip` | types/event.go:18-78 | an encoded event is read back, whatever follows it |
| `BlockCodec.TransactionsRoundTrip` | consensus/gossip.go:45-52 | a list of transactions is read back, whatever follows it |
| `BlockCodec.EventsRoundTrip` | consensus/gossip.go:76-83 | a list of events is read back, whatever follows it |
| `BlockCodec.BlockRoundTrip` | consensus/gossip.go:19-199 | a decoded message gives back everything but events root, commit proof and evidence, if and only if the signature is within the reader's limit |
| `BlockCodec.MessageFramed` | consensus/gossip.go:86-110 | a message is byte 1, the length of the block and the block |
| `BlockCodec.EncodeBlockMessage` | consensus/gossip.go:19-92 | the writer fails exactly when a transaction or an event cannot be encoded, and otherwise writes the message |
| `BlockCodec.DecodeBlockMessage` | consensus/gossip.go:95-199 | the reading loops compute the reader's specification |
| `Applier.ApplyTransaction` | state/applier.go:15-231 | for every type of transaction and any sharing of objects: refused or accepted for the exact reason, with the entries written; stored pointers stay, only the sender's and the recipient's objects change, and a transfer between addresses of one object moves only the fee; with an object per address the contents are exactly the specified ones |
| `Applier.EffectUnshared` | state/applier.go:15-231 | with an object per address the effect on objects is the effect on accounts |
| `Applier.Enter` | state/applier.go:87-214 | the registration branch checks, debits the sender in place and writes the entries in order |
| `Applier.WriteEntries` | state/applier.go:138-210 | the duplicate check and the five writes, stopping where the source stops |
| `Registrations.RefusedTraceless` | state/applier.go:15-231 | a refused transaction leaves the store as it was if and only if its stake was not taken |
| `Registrations.RegisteredTwice` | state/applier.go:125-142 | a second registration of a key is refused as taken and still costs the stake, without fee or nonce |
| `Registrations.Recorded` | state/applier.go:87-214 | an accepted registration is on record under the ID of its key, where there was none |
| `Registrations.KeysApart` | state/applier.go:134-205 | entries of different kinds never share a key |
| `Registrations.EntriesStep` | state/applier.go:144-210 | what a registration does to slots, epoch, counter and bonded total |
| `Registrations.EntriesMean` | state/applier.go:144-210 | an accepted registration files its ID under key and operator and counts itself, and no entry changes but these, record and total |
| `Registrations.RecordLayout` | state/applier.go:149-181 | the record is 79 bytes with each field at its place, the stake left-aligned in its 16 |
| `Registrations.ApplyAnyConserves` | state/applier.go:15-231 | accounts lose exactly the fee of an accepted transaction and the stake of a registration, accepted or not |
| `Registrations.RunAllConserves` | consensus/block_builder.go:85-140 | however far a block gets, accounts have lost the fees of what was applied and the stakes that were taken |
| `Registrations.TransfersOnly` | state/applier.go:15-86 | a block without registrations does to the accounts what its transfers do, and nothing to the entries |
| `Applier.Transfer` | state/applier.go:44-86 | credits and debits through pointers, for any sharing: if sender and recipient are one object nothing moves, otherwise the amount does, and no third object changes |
| `Transactions.ApplyTxConserves` | state/applier.go:43-227 | a transaction takes exactly its fee out of the accounts |
| `Transactions.TransferReads` | state/applier.go:44-52 | a standard payload of a recipient and eight bytes of amount is read as that transfer |
| `Transactions.AcceptedExactly` | state/applier.go:15-62 | a transaction is accepted if and only if it is well-formed and timely, its sender is known, signed it, is at the nonce before, and can pay fee and amount, and the recipient can take the amount |
| `Transactions.AppliedMeans` | state/applier.go:43-227 | the sender loses fee and amount and gains one nonce, the recipient gains the amount, and no account changes otherwise |
| `Transactions.ExecuteConserves` | consensus/block_builder.go:85-140 | however far a block gets, exactly the fees of its applied transactions are gone |
| `Blocks.ConsecutiveNonces` | state/applier.go:32-35 | in a block that executes, each sender's nonces run consecutively from its account nonce + 1 |
| `Blocks.StrictlyIncreasing` | consensus/block_builder.go:70-75 | a sorted body whose nonces run consecutively is strictly increasing: senders never fall in byte order, and the nonces of one sender rise |
| `Blocks.OneBody` | consensus/block_builder.go:67-75 | if one way of sorting the transactions has consecutive nonces, every way of sorting them is the same body |
| `Funding.ExecutesExactly` | state/applier.go:15-231 | a list whose senders can pay beforehand executes in full if and only if its registrations have room and every transaction has the right key, the next nonce and, if it registers, a good message and a free slot |
| `Cutting.OrderIrrelevant` | consensus/block_builder.go:56-75 | when all pending transactions execute together, every order that builds gives one body if no transaction fits, all fit, or they have one sender, even if incoming transfers pay for them |
| `Cutting.OrderMattersExactly` | consensus/block_builder.go:56-75 | if also every sender pays from its own balance, every order that builds gives one body if and only if one of those three holds |
| `Cutting.WithoutExecutes` | consensus/block_builder.go:85-140 | leaving out a stretch none of whose senders come after it keeps a self-paid list executing |
| `Funding.ReadyExecutes` | state/applier.go:15-231 | a self-paid list with room whose transactions are ready executes in full |
| `Funding.ExecutedReady` | state/applier.go:15-231 | each transaction of a self-paid list that executes was ready |
| `Cutting.RoomForOne` | consensus/block_builder.go:56-75 | two senders and room for one transaction: both orders build, with different bodies |
| `Blocks.ExecuteBody` | consensus/block_validator.go:118-174 | the execution loop applies each transaction's effect on the objects in turn and stops at the first refusal; with an object per address it reaches the specified contents and fee total |
| `Blocks.BuildBody` | consensus/block_builder.go:55-140 | selects, sorts and executes; with an object per address a body that builds has consecutive nonces and is strictly increasing |
| `Agreement.BuildThenValidate` | consensus/block_validator.go:118-210 | a block that was built is accepted by a validator starting from equal contents, with the same fees and state root, and both end with equal contents; every order of the same transactions builds the same body when none are cut off |
| `Agreement.Build` | consensus/block_builder.go:55-156 | builds exactly when the sorted selection executes and its fees are shared out, and states its fees and state root |
| `Agreement.Validate` | consensus/block_validator.go:118-210 | accepts exactly the bodies that execute, whose fees are shared out, and whose fees and state root are as stated |
| `Agreement.OneCandidate` | consensus/block_validator.go:176-210 | a validator accepts one fee summary and one state root per body and store |
| `Agreement.FinalizedPays` | staking/staking.go:185-224 | sharing out the fees pays each account exactly what is due to it and leaves the entries alone |
| `Agreement.PayOut` | staking/staking.go:185-224 | pays through pointers, skips zeros and stops at an overflow, as the payment loop on values does |
| `PoolBlocks.BuildFromPool` | mempool/pool.go:227-243 | the block built from what a pool lists is the only one its live transactions can give and keeps the best-paying ones; if senders can pay beforehand it executes if and only if it has room for its registrations and every transaction fits |
| `PoolBlocks.OneBodyPerPool` | consensus/block_builder.go:55-75 | equal live transactions give one body, however many are cut off |
| `PoolBlocks.CutKeepsBest` | mempool/pool.go:351-362 | whatever a block keeps pays at least as much as whatever was cut, and nothing is cut while there is room |
| `PoolBlocks.FitsExactly` | consensus/block_builder.go:55-140 | a sorted selection that is self-paid executes if and only if every transaction fits, counting nonces without regard to order |
| `PoolBlocks.TrackedUnchecked` | mempool/pool.go:141-191 | from a sender whose nonce is tracked, the verdict depends on neither signature nor accounts |
| `PoolBlocks.UnverifiedStops` | state/applier.go:27-30 | a transaction its sender's key does not verify stops every block it is in |
| `Mempool.Pool.constructor` | mempool/pool.go:44-53 | a new pool is empty and valid |
| `Mempool.Pool.Submit` | mempool/pool.go:76-224 | accepts or refuses, registrations included, for the exact reason, keeping index, size bound and tracked nonces |
| `Mempool.Pool.AcceptsExactly` | mempool/pool.go:76-224 | a transaction gets in if and only if it is well-formed with a good payload, there is room, its intent is new and its nonce is next; of a sender not tracked yet, account, signature and means are asked too |
| `Mempool.Pool.Remove` | mempool/pool.go:246-259 | removes from the map and the index together |
| `Mempool.Pool.Expire` | mempool/pool.go:314-321 | deletes exactly the expired entries, whatever the map order |
| `Mempool.Pool.PendingTxs` | mempool/pool.go:227-243 | returns the one list of unexpired transactions; along it fees never rise, equal fees are older first, and ties of both go by ID |
| `Mempool.Pool.Unindex` | mempool/pool.go:338-345 | removes the entry with that ID from the index and keeps the rest |
| `Mempool.LiveTotal` | mempool/pool.go:351-362 | the order never ties two pool transactions, so the sorted list is unique |
| `Mempool.LiveExactly` | mempool/pool.go:314-321 | a transaction is listed if and only if some entry holds it that was submitted no longer than the time to live ago |
| `Mempool.AcceptedOnce` | mempool/pool.go:188-201 | over any run a later accepted transaction of a sender has a higher nonce, so no sender and nonce are accepted twice |
| `Mempool.OneAcceptedPerNonce` | mempool/pool.go:188-201 | no two transactions ever accepted have the same sender and nonce |
| `Mempool.AcceptMore` | mempool/pool.go:188-201 | accepting the next nonce keeps each sender's accepted nonces consecutive and tracked |
| `Sorting.SortedIsListing` | state/memory.go:158-160 | a sorted arrangement of distinct, comparable elements is unique |
| `Basics.LessExactly` | state/memory.go:158-160 | the byte order: a proper prefix comes first, and otherwise the first byte that differs decides |
| `Wire.BigEndian` | types/address.go:182-233 | byte i of a number in w bytes is its digit of weight 256 to the power w - 1 - i |

## Left out

- Ledger: the key-value entries of the staking package are typed maps; the text form of their keys, and so the possibility that two families of keys collide, is not modelled.
- Ledger: the registration counter is unbounded, and the consensus ID is an argument of registration rather than derived from the public key.
- Validators.ValidatorRoundTrip: a status byte above 4 is rejected when read, where the source keeps it as an unknown status.
- Slashing.EvidencePunishes: covers double-sign evidence; the other two kinds of evidence are always refused without a write, and are not modelled.
- Finality.OneFinalBlock: is about proofs whose votes are of the round of the run, since validation compares no rounds; proofs of different rounds are the subject of CommitProofs.ConflictingProofs.
- Safety.NoConflictingMajorities: is about one height and round, as the voting states are; signatures of honest validators are taken to be unforgeable, and timeouts and later rounds are not modelled.
- Harness.SimulateVoting: blocks are their header hashes; building them, the HasVoted marks and the assertions of the test are not modelled.
- Flows.StepFlow: operations run one at a time; the raw Slash and the manual JailValidator and UnjailValidator calls are not part of runs; a block of a run consists of transfers, and a registration among them only pays its fee.
- Histories.Step: byte slices of the key-value store are values, so changing a stored slice in place is not modelled; account objects are.
- Histories.Execute: the contract is any sequence of store commands that leaves earlier snapshot ids alone; wazero, gas and host functions are not modelled.
- Roots.CommitMemory: the Merkle tree is an arbitrary function of the inserted sequence; its internals are not modelled.
- FastSync.SyncNode: lengths of keys and values stay below 2^32 and the image below 2^63, as Go slices on the platforms in question do; accounts in the persistent store are values, and the database write after the root check is not modelled.
- Agreement.BuildThenValidate: starts from the pending list on one side and from the body on the other; evidence and BeginBlock come before it; whom the fees are paid to is an arbitrary function of the store and the fees; header fields other than fees and state root, signatures of blocks and contract execution are not modelled, and every address has an account object of its own.
- Registrations.ApplyAny: a Go panic ends a transaction as a refusal of its own kind with what was written before it; a stored nil slice is taken as an empty one.
- PoolBlocks.BuildFromPool: every address has an account object of its own, as in a store that was loaded, copied or reverted.
- Mempool.Pool.Submit: does not cover persistence; decoding checks on contract transactions are one predicate, and each call reads the clock once.
- Base58.Base58Decode: texts are sequences of code points; how Go decodes invalid UTF-8 is not modelled.
- Transactions.ApplyTxConserves: the timestamp window is an arbitrary predicate shared by everyone.
- The sparse Merkle tree, SHA-256, Ed25519, BoltDB, the contract metadata codec, fork choice, the fast-sync engine's goroutines, P2P, gossip, RPC, CLI, explorer, configuration and the floating-point economics simulation are not part of this model.

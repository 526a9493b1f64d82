# Verified models of Iona OS

This project models the hard core of Iona OS in Dafny and proves what it promises: one height of its BFT
consensus engine, its EVM interpreter and state database, its paged database file, the IONAFS installer, the stake
ledger, block execution and the gossip layer.

| part | files |
|---|---|
| shared definitions | `Common`, `Power`, `Utf8` |
| consensus engine, tally, validator set, double-sign guard, evidence | `Messages`, `Validators`, `Quorum`, `DoubleSign`, `Evidence`, `EngineSpec`, `EngineLaws`, `Engine`, `Certificates` |
| the network of engines | `Protocol`, `Locking`, `NodeSteps`, `Agreement`, `Validity`, `Accountability`, `Disagreement` |
| EVM | `U256`, `EvmState`, `EvmFrame`, `EvmArith`, `EvmSteps`, `EvmRun`, `EvmTransact`, `EvmLaws`, `EvmNested`, `EvmPrograms`, `EvmExample` |
| storage | `PageStore`, `Ionafs`, `Installer`, `DiskImage` |
| ledger, execution, gossip | `StakeLedger`, `BaseFee`, `Execution`, `GossipCodec`, `GossipNode` |

`dafny verify dfyconfig.toml` checks everything.

## How the models are built

Code that changes objects step by step is a class whose methods are proved against functions on values; the promises
are lemmas about those functions, over all inputs, all runs or all reachable states.

* **Consensus.** A node is its consensus state, guard, clock and block store; `Next` gives its successor and messages
  for every input. A network is a node for each correct validator, all votes sent and all signatures made. A run is
  any sequence of clock ticks, proposals, votes and blocks in which signatures of correct engines are not forged;
  Byzantine validators are under no other constraint. Public keys and hashes are numbers, so the order of the maps
  is the order of numbers. A guard has room for the messages of the height; a restarted engine, which forgets its
  lock, counts as Byzantine.
* **Where agreement stops.** Within a round, less Byzantine power than two quorums must share, which a third is, is
  harmless. Across rounds it is harmless as long as nobody prevotes against its lock; those who do count as Byzantine
  in that round. Only a proposer does, because in the propose step the engine prevotes its own proposal without
  consulting its lock, and `DisagreementWithoutFaults` shows where that leads. Quorums are computed on 64 bits, so
  twice the total power must fit. A network is at a height other than the two of `CollideIff`, where a signed proposal
  can be a signed vote.
* **EVM.** The results of arithmetic opcodes, Keccak and contract addresses are parameters: every statement about
  runs holds for all of them, and `EvmArith` puts the 256-bit routines in the place of ADD, MUL and SUB. Nested runs
  get a database of their own, as in the code, so their writes are lost. A slice out of bounds, and an addition that
  overflows, aborts the run; the 63/64 share of gas is computed modulo 2^64. A read that fills the account cache is
  shown to be invisible and is left out of the interpreter's steps.
* **Page store.** Every page file has 4096 bytes and files after the last page hold zeros; `open` and all operations
  keep that. Overflowing offset arithmetic is the answer `Panicked`.
* **Installer.** The image is a sequence of bytes and a write past its end extends it. In a crash each sector is
  written whole or not at all, in any order. Paths are their UTF-8 bytes, and reading one decodes with U+FFFD in place
  of what is not UTF-8. An offset of 2^63 or more is refused by the operating system.
* **Execution.** Hashes, signature checks, the payload interpreter and the protocol version are parameters; the
  payload does not touch nonces. An overflow is the answer `Panicked`.

Where the code does less than its comments say, the model follows the code and says exactly when the promise is
kept: `MulExactIff` for multiplication, `FailedRollsBack` and `FailedAfterCreate` for the rollback of transactions,
`CertificateProvesIff` for certificates, `BuiltIffVerified` for blocks, `SupplyKeptIff` for the supply,
`OverdrawnIff` for stakes, `TargetFitsIff` for the base fee, `CrashInPlace`, `FoundAgainIff` and `PathFitsIff` for the
installer, `RestartLosesStorage` for account files, `RoundTripIff` for gossip messages.

## Model

| member | source | states |
|---|---|---|
| Agreement.EnginesAgree | src/consensus/engine.rs:487-976 | Agreement: along every run of one height in which, in every round, the Byzantine validators and the engines that prevoted against their own lock in that round hold less power than two quorums must share, no two correct engines decide different blocks, in the same round or in different ones |
| Agreement.LoyalEnginesAgree | src/consensus/engine.rs:507-522 | So with less Byzantine power than two quorums must share, a third in particular, engines agree along every run in which nobody prevotes against its lock |
| Agreement.BoundedEnginesAgree | src/consensus/engine.rs:487-976 | And along every run whatsoever if Byzantine power plus the power of any one validator is less than that |
| Agreement.DefiersPropose | src/consensus/engine.rs:507-522 | Only the proposer of a round prevotes against its lock in it: proposals, late blocks and votes never make an engine do so |
| Agreement.RunLockPersists | src/consensus/engine.rs:696-888 | Lock persistence along every run under the condition of agreement: once precommits for a block have a quorum in a round, no later round has a prevote quorum for another block |
| Agreement.RoundAgrees | src/consensus/engine.rs:826-888 | Along every run in which Byzantine power is less than what two quorums must share, two decisions whose certificates are of the same round name the same block |
| Agreement.DecisionsCertified | src/consensus/engine.rs:826-888 | Every decision along every run, whatever the Byzantine power, carries a certificate of one round with distinct voters that hold a quorum, and the certificate check accepts it |
| Validity.PrevotesExecute | src/consensus/engine.rs:696-744 | Along every run, a prevote for a block that a correct engine sends in reply to a proposal names the block proposed, the proposal is of this height and of the proposer of its round, and the block is in the engine's store and executes for that proposer |
| Validity.DecisionsExecute | src/consensus/engine.rs:826-888 | Along every run, a block that a correct engine decided was in its store when it decided, executed for the proposer of the round of the certificate, and was handed out with that certificate |
| Validity.NextDecides | src/consensus/engine.rs:778-888 | Only a verified precommit makes an engine decide, and no input changes a decision |
| EngineLaws.EngineDecides | src/consensus/engine.rs:487-976 | An engine that gets a good proposal with a block that executes, then prevotes for it from validators with a quorum, then precommits for it from validators with a quorum, each in any order, decides the block and hands it out, whatever its lock and its guard |
| EngineLaws.ProposalLaw | src/consensus/engine.rs:696-754 | On a good proposal an engine prevotes the block if it is in the store, executes and is not against the lock, and nil otherwise, unless the guard refuses; it stores the block sent along and requests one that is missing |
| EngineLaws.BlockLaw | src/consensus/engine.rs:957-976 | A block that completes the proposal of the round is prevoted in the prevote step, nil if it is against the lock; any other block is only stored |
| EngineLaws.ProposalRefusedIff | src/consensus/engine.rs:667-680 | A proposal is refused, without effect, unless it is signed by the proposer of its round and is of the height and round of the engine |
| EngineLaws.VoteRefusedIff | src/consensus/engine.rs:683-694 | A vote is refused, without effect, unless it is signed by a validator and is of the height and round of the engine; the only other error is a decided block that does not execute |
| EngineLaws.SentIsSigned | src/consensus/engine.rs:561-631 | Every vote and proposal an engine sends is its own, of its height and round, with the signature of its own bytes; a proposal is sent only by the proposer of the round, with the block it stored |
| EngineLaws.ProposeLaw | src/consensus/engine.rs:487-530 | The proposer proposes at the first tick of a round if the guard allows; the propose step ends with a complete proposal in the fast mode or when its time is over, with a prevote for the complete proposal or nil |
| EngineLaws.TimeoutLaw | src/consensus/engine.rs:487-559 | A vote step ends when its time is over and not before, in the next round below the last one, whose proposer proposes; the lock and all votes are kept |
| EngineLaws.AdvanceLaw | src/consensus/engine.rs:539-559 | A new round starts without a proposal unless the engine is its proposer and may sign |
| EngineLaws.CountLaw | src/consensus/engine.rs:778-820 | A vote that gives no choice a quorum, or that is not of the current step, is counted as the last one of its voter and does nothing else |
| EngineLaws.ReportLaw | src/consensus/engine.rs:756-776 | The first vote under a key stays indexed, and a later one is reported if and only if its choice differs, as the second of the two |
| EngineLaws.LockLaw | src/consensus/engine.rs:796-825 | A quorum of prevotes for a block locks the engine on it in this round, and it precommits the block if the guard allows |
| EngineLaws.NilLaw | src/consensus/engine.rs:778-888 | A quorum for nil, of prevotes or of precommits, ends the round |
| EngineLaws.DecideLaw | src/consensus/engine.rs:826-888 | A quorum of precommits decides the block if it is in the store and executes for the proposer of the round; a missing block is requested, and one that does not execute is an error |
| EngineLaws.DecidedIsFinal | src/consensus/engine.rs:487-500 | An engine that has decided answers nothing but blocks, and those change only its store |
| EngineLaws.CommitStepWaits | src/consensus/engine.rs:487-537 | In the commit step the clock only runs |
| Agreement.NoCorrectEngineAccused | src/consensus/engine.rs:756-797 | Along every run, whatever the Byzantine power, no correct engine is named in evidence that a correct engine detects |
| Agreement.StepPreserves | src/consensus/engine.rs:633-665 | Every enabled input of every correct engine keeps the network invariant: guarded signing, locks, ballots, index, certificates and signatures, whatever the Byzantine power |
| Agreement.InitGood | src/consensus/engine.rs:310-326 | The network invariant holds of fresh engines that have signed nothing at this height |
| Agreement.RunGood | src/consensus/engine.rs:487-976 | The network invariant holds after every run, with the prevotes against locks of that run as its only exceptions |
| Agreement.TickGood | src/consensus/engine.rs:487-537 | A clock tick keeps the invariant and sends only votes and proposals that the guard allows |
| Agreement.OnProposalGood | src/consensus/engine.rs:696-744 | A proposal, acceptable or not, keeps the invariant |
| Agreement.OnVoteGood | src/consensus/engine.rs:778-888 | A vote that is refused, stored, locks or decides keeps the invariant |
| Agreement.OnBlockGood | src/consensus/engine.rs:957-976 | A late block keeps the invariant |
| Agreement.BallotQuorum | src/consensus/engine.rs:891-900 | Ballots that reach the quorum threshold in one engine are a quorum of votes that were sent, counting Byzantine validators for every choice |
| Agreement.DecisionsAgree | src/consensus/engine.rs:826-888 | Two decisions in a network that keeps the invariant name the same block, under the condition of agreement |
| Locking.LockPersists | src/consensus/engine.rs:746-753 | By induction on rounds: a precommit quorum for one block leaves no room for a later prevote quorum for another |
| Locking.PrecommitQuorumsAgree | src/consensus/engine.rs:803-888 | Two precommit quorums, of any two rounds, name the same block |
| Locking.PrevoteStep | src/consensus/engine.rs:507-522 | Entering the prevote step records the prevote of the round and respects the lock, except where the engine is exempt |
| Locking.LockStep | src/consensus/engine.rs:803-822 | Locking on a prevote quorum and precommitting keeps the relation between lock, votes and quorums |
| Locking.AdvanceStep | src/consensus/engine.rs:539-559 | Moving to a later round leaves the propose step unlocked in that round and every recorded vote in place |
| Protocol.SharedVoter | src/consensus/quorum.rs:275-287 | Two quorums share a correct validator outside any set that holds the Byzantine ones and less power than the overlap of quorums |
| Protocol.SharedLoyalVoter | src/consensus/quorum.rs:275-287 | Under the condition of agreement two quorums share a correct validator that did not prevote against its lock in a given round |
| Protocol.QuorumUnique | src/consensus/quorum.rs:275-287 | At most one choice of a type and round has a quorum when Byzantine power is below the overlap of quorums and nobody correct votes twice |
| Protocol.ThirdIsMinority | src/consensus/quorum.rs:275-287 | Byzantine power of at most a third of the total is below that overlap |
| NodeSteps.Authentic | src/consensus/messages.rs:650-664 | A verified vote under the key of a correct engine was sent by it: its signature is over a vote, not over a proposal |
| NodeSteps.BroadcastCore | src/consensus/engine.rs:920-955 | Broadcasting a vote casts exactly what the guard allows and records it |
| NodeSteps.SentIsOnce | src/consensus/double_sign.rs:486-580 | No correct engine ever sends two votes of one type and round for different choices |
| Disagreement.DisagreementWithoutFaults | src/consensus/engine.rs:507-522 | A run of nineteen inputs with no faulty validator in which two engines decide different blocks: a proposer prevotes its own block whatever it is locked on |
| Accountability.DoubleVotesReported | src/consensus/engine.rs:756-797 | Over every sequence of inputs, any two accepted votes of one voter, type and round for different choices lead to a report, and every report made passes validation |
| Accountability.LogStepKeeps | src/consensus/engine.rs:778-797 | Every input keeps the index of first votes in step with the votes accepted so far |
| Engine.Engine.DoTick | src/consensus/engine.rs:487-537 | The tick method computes the specified next node and messages |
| Engine.Engine.DoAdvanceRound | src/consensus/engine.rs:539-559 | Likewise for advancing the round |
| Engine.Engine.DoMaybePropose | src/consensus/engine.rs:561-631 | Likewise for proposing |
| Engine.Engine.DoOnProposal | src/consensus/engine.rs:696-744 | Likewise for a proposal, with the error it returns |
| Engine.Engine.DoOnVote | src/consensus/engine.rs:778-888 | Likewise for a vote, with the error it returns |
| Engine.Engine.DoOnBlockReceived | src/consensus/engine.rs:957-976 | Likewise for a block that was requested |
| Engine.Engine.DoBroadcastVote | src/consensus/engine.rs:920-955 | Likewise for broadcasting a vote through the guard |
| Engine.Engine.RecordVoteAndDetectEvidence | src/consensus/engine.rs:756-776 | Likewise for the vote index and the evidence found |
| Engine.Engine.Tally | src/consensus/engine.rs:891-900 | The tally of a slot finds the choice that reaches the quorum threshold exactly when there is one |
| Engine.Engine.CollectVotes | src/consensus/engine.rs:902-917 | The loop over the ballots of a slot lists the votes for a choice in key order |
| Engine.BestFindsQuorum | src/consensus/engine.rs:891-900 | The strongest bucket reaches the threshold exactly when some choice does, and then it is that choice |
| Engine.CheckCertificate | src/consensus/engine.rs:128-144 | The verification loop returns the first fault of the votes, or the missing power |
| Certificates.FirstFaultIs | src/consensus/engine.rs:128-144 | The fault it returns is that of the first vote that has one |
| Certificates.CollectSorted | src/consensus/engine.rs:902-917 | The votes of a certificate are listed in the order of their voters |
| Certificates.CertificateSound | src/consensus/engine.rs:128-144 | With distinct voters, a certificate is accepted if and only if every voter is known, every signature verifies and the voters hold a quorum, whatever the votes are for |
| Certificates.CertificateProvesIff | src/consensus/engine.rs:128-144 | All power that an accepted certificate counts is that of validators who precommitted its block in one round if and only if its voters are distinct and every vote is a precommit of its height, of that round, for its block; they are then a quorum |
| Certificates.AnyQuorumAccepted | src/consensus/engine.rs:128-144 | Signed votes of distinct validators with a quorum are accepted as a certificate for every height and block |
| Certificates.ForeignVotesAccepted | src/consensus/engine.rs:128-144 | So nil prevotes of another height pass as a certificate of a block that nobody precommitted |
| Certificates.SpareVoteHarmless | src/consensus/engine.rs:128-144 | A certificate that proves its block still does, and is accepted, with any valid vote appended |
| Certificates.RepeatedVoteAccepted | src/consensus/engine.rs:128-144 | One vote listed often enough is accepted as a certificate, so the distinctness of voters is needed |
| Certificates.CollectedCertificate | src/consensus/engine.rs:826-858 | The certificate that an engine collects from its ballots has distinct voters and passes the check |
| Quorum.QuorumIsTwoThirds | src/consensus/quorum.rs:275-287 | A power meets the threshold if and only if it is more than two thirds of the total |
| Quorum.QuorumWraps | src/consensus/quorum.rs:275-281 | The threshold is two thirds plus one exactly when twice the total fits 64 bits; above that it is too small |
| Quorum.QuorumsIntersect | src/consensus/quorum.rs:275-287 | Two sets of quorum power share at least twice the threshold less the total, which is more than a third of the total |
| Quorum.OverlapIsThird | src/consensus/quorum.rs:275-287 | A third of the total is less than that overlap, and what is less than the overlap is at most one unit above a third |
| Quorum.VoteTally.AddVote | src/consensus/quorum.rs:348-420 | A vote is counted for its voter once, or moved when duplicates are allowed; buckets stay the recounted power of the voters assigned to them |
| Quorum.VoteTally.Merge | src/consensus/quorum.rs:481-505 | Merging takes the other tally's assignments over its own, and buckets stay exact while the sums fit 64 bits |
| Quorum.VoteTally.Clear | src/consensus/quorum.rs:468-478 | Clearing leaves a consistent empty tally |
| Quorum.VoteTally.Best | src/consensus/quorum.rs:423-435 | The best choice has the largest bucket, the greatest key among equals; none exactly when nothing was counted |
| Quorum.VoteTally.QuorumCandidate | src/consensus/quorum.rs:459-465 | The candidate is the first bucket that meets the threshold; none exactly when no bucket does |
| Quorum.ReassignConsistent | src/consensus/quorum.rs:348-420 | Moving a voter between buckets keeps every bucket equal to its recount |
| Quorum.OneQuorumBucket | src/consensus/quorum.rs:453-465 | When the powers come from one validator set, at most one bucket meets the quorum |
| Quorum.BestIsCandidate | src/consensus/quorum.rs:423-465 | When some bucket meets the quorum, the best choice and the quorum candidate are the same |
| Quorum.RecountIsPower | src/consensus/quorum.rs:438-441 | The recount of a choice is the power of the set of its supporters |
| Validators.ValidatorSet.New | src/consensus/validator_set.rs:319-363 | Construction succeeds exactly for non-empty lists of distinct validators with positive power, and caches the exact total while it fits 64 bits |
| Validators.ValidatorSet.Add | src/consensus/validator_set.rs:438-460 | Adding succeeds exactly for a new key with positive power, appends, and keeps the cached total exact |
| Validators.ValidatorSet.Remove | src/consensus/validator_set.rs:463-487 | Removing succeeds exactly for a known key that is not the last, and keeps list, lookup and total in step |
| Validators.ValidatorSet.UpdatePower | src/consensus/validator_set.rs:490-515 | Updating changes one power and nothing else, and keeps the total in step |
| Validators.TotalIsSum | src/consensus/validator_set.rs:382-391 | The total over the list is the sum of the powers over the keys |
| Validators.VSet.ProposerIsMember | src/consensus/validator_set.rs:393-416 | The proposer of every height and round is a member of the set, under all four strategies |
| Validators.ProposersDiffer | src/consensus/validator_set.rs:393-416 | In round robin, proposers of one height less than a full turn of rounds apart are different |
| Validators.EveryoneProposes | src/consensus/validator_set.rs:393-416 | And every validator proposes in one of any such turn of rounds |
| Validators.HeightDecides | src/consensus/validator_set.rs:393-416 | By height only, the proposer is the same in all rounds, and every validator proposes at one of any turn of heights |
| Validators.FixedProposer | src/consensus/validator_set.rs:393-416 | A fixed proposer is always the one at the index, counted around the list |
| Messages.VoteSignBytesInjective | src/consensus/messages.rs:650-664 | Votes with the same sign bytes agree on type, height, round and choice |
| Messages.ProposalSignBytesInjective | src/consensus/messages.rs:630-647 | Proposals with the same sign bytes agree on height, round, block and proof round |
| Messages.VoteAndProposalBytesDiffer | src/consensus/messages.rs:630-664 | Except at two heights, a vote and a proposal of one height never have the same sign bytes |
| Messages.CollideIff | src/consensus/messages.rs:630-664 | Some vote and some proposal of a height have the same sign bytes if and only if the height is 0 or 0x0101010101010101 |
| Messages.ZeroHeightCollides | src/consensus/messages.rs:630-664 | At height 0 a prevote and a proposal with the same sign bytes |
| Messages.RepeatedHeightCollides | src/consensus/messages.rs:630-664 | At height 0x0101010101010101 a precommit and a proposal with the same sign bytes |
| DoubleSign.NoDoubleSign | src/consensus/double_sign.rs:279-580 | Over every run of checks, records, prunings, restarts, reloads and failed writes without eviction, whose heights go back no further than the window that pruning keeps, no two released messages conflict, as long as the file is persisted and no write to it is lost, or is never read back |
| DoubleSign.StepRemembers | src/consensus/double_sign.rs:279-390 | Every step keeps in memory, and on a file that is not lost, each released message that could still conflict |
| DoubleSign.RefusedForConflict | src/consensus/double_sign.rs:408-580 | After any run, a message that is refused clashes with another one for the same slot that was in the file at the start, was put into it, or was offered for signing before |
| DoubleSign.RefusesIff | src/consensus/double_sign.rs:408-545 | The guard refuses exactly when it remembers another message of the same kind, height and round, and for votes of the same type |
| DoubleSign.ObserveIff | src/consensus/double_sign.rs:364-390 | At a new highest height exactly what lies within the window is kept, in memory and, if something was dropped, in the file |
| DoubleSign.EvictionForgets | src/consensus/double_sign.rs:393-405 | A full guard that evicts releases a conflicting proposal: the run without eviction is needed |
| DoubleSign.GoingBackForgets | src/consensus/double_sign.rs:364-390 | A run that goes back to a pruned height releases a conflicting proposal |
| DoubleSign.UnpersistedForgets | src/consensus/double_sign.rs:307-325 | A guard that does not persist releases a conflicting proposal after a restart |
| DoubleSign.LostWriteForgets | src/consensus/double_sign.rs:307-325 | So does one whose write was lost before the restart |
| DoubleSign.DoubleSignGuard.Check | src/consensus/double_sign.rs:486-545 | The check refuses exactly the messages that conflict with a recorded one, after pruning for the height seen |
| DoubleSign.DoubleSignGuard.DoRecord | src/consensus/double_sign.rs:548-580 | Recording adds the message, evicts beyond the limit, and persists |
| DoubleSign.DoubleSignGuard.DoPrune | src/consensus/double_sign.rs:364-390 | Pruning drops exactly what lies below the window of heights |
| DoubleSign.DoubleSignGuard.EnforceMaxEntries | src/consensus/double_sign.rs:393-405 | Eviction removes least keys until the limit holds |
| DoubleSign.DoubleSignGuard.Load | src/consensus/double_sign.rs:279-337 | Loading or reloading takes the set of the file and the height of its last key; without a file nothing changes, and an empty set leaves the highest height alone |
| Evidence.ValidEvidenceConvicts | src/evidence.rs:258-323 | With signature checks on, validated evidence holds two verified votes of one voter, height, round and type; they are different messages if and only if they name different choices, and they do if the declared choices are those of the votes |
| Evidence.EquivocationAcceptedIff | src/evidence.rs:258-323 | Two votes put together pass if and only if they are of one voter, height, round and type, name different choices, both blocks unless nil counts, and carry good signatures unless those are not checked |
| Evidence.EvidenceRefusedBecause | src/evidence.rs:258-323 | Every refusal names the first check that fails |
| Evidence.RelabelledEvidencePasses | src/evidence.rs:258-323 | Evidence whose declared choices differ passes although it holds one vote under two signatures, since the declared choices are what is compared |
| PageStore.Lifetime | src/blockchain/redb_adapter.rs:383-661 | Over any number of openings, each with its own cache size and dirty limit, and any operations in each, every answer is the one a plain zero-extended byte array would give, and so is the array at the end |
| PageStore.WholeLifetime | src/blockchain/redb_adapter.rs:383-661 | The same for a database that starts without any file: every answer is that of an array that starts empty |
| PageStore.Session | src/blockchain/redb_adapter.rs:383-672 | One opening: reads, writes, growths, flushes and closes answer as on a byte array, and dropping the handle leaves the array in the files |
| PageStore.ReadAfterWrite | src/blockchain/redb_adapter.rs:441-507 | On the byte array, a read returns the bytes of a write where it covers them and what was there before elsewhere |
| PageStore.LengthAfterWrite | src/blockchain/redb_adapter.rs:468-507 | After a write the array has whole pages, and none more than the write needs |
| PageStore.DatabaseFile.ReadAt | src/blockchain/redb_adapter.rs:441-465 | A read returns the bytes of the array, zeros after its end, whatever was evicted or flushed, or the error |
| PageStore.DatabaseFile.WriteAt | src/blockchain/redb_adapter.rs:468-507 | A write extends the array to whole pages and replaces the bytes, also when it flushes in the middle, or changes nothing and reports why |
| PageStore.DatabaseFile.WritePages | src/blockchain/redb_adapter.rs:478-507 | The page loop overwrites exactly the range; the dirty map stays below its limit after every page |
| PageStore.DatabaseFile.ReadPage | src/blockchain/redb_adapter.rs:620-648 | A page reads as dirty copy, cached copy or file, all the same, and caching it changes nothing that can be read |
| PageStore.DatabaseFile.Flush | src/blockchain/redb_adapter.rs:512-543 | Flushing empties the dirty map, leaves the array as it is, and the files alone then hold it |
| PageStore.DatabaseFile.GrowTo | src/blockchain/redb_adapter.rs:569-600 | Growing appends zero pages up to the requested size and never shrinks |
| PageStore.DatabaseFile.Close | src/blockchain/redb_adapter.rs:553-562 | Closing keeps the array and leaves it in the files |
| PageStore.DatabaseFile.Open | src/blockchain/redb_adapter.rs:383-417 | A database opened on well-formed files stands for the array they hold |
| PageStore.Create | src/blockchain/redb_adapter.rs:420-429 | A new database is two pages of zeros; an existing one is refused |
| PageStore.PageCache.Insert | src/blockchain/redb_adapter.rs:303-319 | The cache stays within capacity, lists its keys once each in insertion order, and evicts exactly its oldest page when a new one does not fit |
| PageStore.WritePage | src/blockchain/redb_adapter.rs:480-503 | Replacing part of one page replaces that part of the array |
| PageStore.FlushPage | src/blockchain/redb_adapter.rs:526-534 | Moving a dirty page to its file changes no byte |
| PageStore.GrowFiles | src/blockchain/redb_adapter.rs:581-586 | Zero pages written after the end extend the array by zeros and change no page that could be read |
| PageStore.SuperblockRoundTrip | src/blockchain/redb_adapter.rs:650-656 | The page count is read back from the superblock as written |
| DiskImages.InstallAll | scripts/install-to-ionafs.py:259-351 | For every sequence of installs the image stays well-formed, its files are those of a map that the installs update, and each answer is the one the map gives |
| DiskImages.InstallMeaning | scripts/install-to-ionafs.py:323-351 | On a well-formed image one install replaces or adds one file of the map, takes a free slot only for a new path, and leaves every other file alone |
| DiskImages.InstallPlaced | scripts/install-to-ionafs.py:323-341 | An installed file that fits in the sectors of the one it replaces keeps its extent; any other extent starts after all files. One entry changes, and the path is in no other |
| DiskImages.FirstInstall | scripts/install-to-ionafs.py:242-300 | On an image without a file system a forced install makes one that holds exactly that file; without force nothing happens |
| DiskImages.DryRun | scripts/install-to-ionafs.py:306-322 | A dry run writes nothing, on any image, and on a well-formed one gives the answer the install would |
| DiskImages.InstallRefused | scripts/install-to-ionafs.py:259-300 | Too much data, and an image too small for an index, are refused |
| DiskImages.DiskImage.InstallFile | scripts/install-to-ionafs.py:259-351 | The whole procedure on any image: size limit, initialisation, dry run, place, the three writes, and every refusal |
| DiskImages.DiskImage.WriteIndex | scripts/install-to-ionafs.py:158-166 | The loop writes the entries one after the other at the start of the index |
| DiskImages.DiskImage.ReadIndex | scripts/install-to-ionafs.py:145-156 | The loop reads all 120 entries, or reports an image that is too small |
| DiskImages.InstallCounts | scripts/install-to-ionafs.py:333-341 | The number of files and of free slots follow the kind of install |
| Installer.CrashSafe | scripts/install-to-ionafs.py:343-351 | When a file gets new space, a crash in the middle of any of the three writes, with any of its sectors written, leaves every earlier file readable, and the path holds its old or its new content |
| Installer.CrashInPlace | scripts/install-to-ionafs.py:327-345 | When space is reused, stopping after the data write gives the old content with its first sectors replaced: the files are unchanged if and only if padded new data and old content agree on their common length |
| Installer.CrashInPlaceOthers | scripts/install-to-ionafs.py:327-345 | A crash in the middle of that write, with any of its sectors written, costs no other file |
| Installer.FoundAgainIff | scripts/install-to-ionafs.py:104-137 | An installed file is found again under its path if and only if the path is read back as written; otherwise nothing is found under it |
| Installer.ReplacesFiles | scripts/install-to-ionafs.py:323-351 | After the three writes the files are those before with the installed one |
| Installer.ReplacesGood | scripts/install-to-ionafs.py:323-351 | After the three writes extents are again inside the data area, pairwise disjoint, and paths unique |
| Installer.PlanApart | scripts/install-to-ionafs.py:195-222 | The chosen extent meets no file but the one it replaces |
| Installer.FindByPath | scripts/install-to-ionafs.py:168-173 | The first valid entry with the path, or none if there is none |
| Installer.FindFreeSlot | scripts/install-to-ionafs.py:175-180 | The first empty entry, or none if there is none |
| Installer.GetDataEndLba | scripts/install-to-ionafs.py:195-210 | The loop computes the end of the data area |
| Ionafs.DataEnd | scripts/install-to-ionafs.py:195-210 | The end lies after every valid file of the data area, and is the start of the area or the end of some file |
| Ionafs.EntryRoundTrip | scripts/install-to-ionafs.py:115-128 | An entry is read back with its numbers, and with its path cut to 31 bytes and decoded with replacement |
| Ionafs.PathFitsIff | scripts/install-to-ionafs.py:115-128 | A path is read back as written if and only if it is UTF-8 without NUL and has at most 31 bytes, or has 32 or 33 bytes and ends with U+FFFD, which decoding puts back where the cut falls into it |
| Ionafs.IndexRoundTrip | scripts/install-to-ionafs.py:145-166 | Every entry of a written index is read back so |
| Utf8.DecodedSameIff | scripts/install-to-ionafs.py:118-118 | Decoding with replacement leaves exactly the well-formed UTF-8 strings alone |
| Utf8.DecodedPrefix | scripts/install-to-ionafs.py:118-125 | Decoding the first bytes of a text gives its characters up to there, and one U+FFFD for a character that is cut |
| Ionafs.SuperblockRoundTrip | scripts/install-to-ionafs.py:86-101 | The superblock is read back as written |
| Ionafs.ReadDataIs | scripts/install-to-ionafs.py:234-239 | Reading a file inside the image gives exactly its bytes, none for an empty one |
| Installer.InitialisedGood | scripts/install-to-ionafs.py:242-253 | A freshly initialised image is well-formed and holds no file |
| U256.Add | src/blockchain/revm_port.rs:591-601 | Byte-wise addition with carry is addition modulo 2^(8n), for words of any length |
| U256.Sub | src/blockchain/revm_port.rs:604-614 | Byte-wise subtraction with borrow is subtraction modulo 2^(8n) |
| U256.Mul | src/blockchain/revm_port.rs:617-650 | The limb loops compute the product modulo 2^256, short by 2^192 when one carry is lost |
| U256.MulExactIff | src/blockchain/revm_port.rs:630-643 | The product is right modulo 2^256 if and only if the sum of the third limb and the carry of the first product of the second row fits a limb |
| U256.MulSmallOperand | src/blockchain/revm_port.rs:630-643 | No carry is lost when either operand fits in one limb |
| U256.LosesCarryExample | src/blockchain/revm_port.rs:630-643 | 2^128 - 1 times 2^128 + 2^64 - 1 loses the carry |
| U256.MulLoops | src/blockchain/revm_port.rs:630-643 | The nested loops over an array of limbs accumulate the products in the specified order |
| EvmArith.Compute | src/blockchain/revm_port.rs:704-721 | ADD, MUL and SUB on words, computed by these routines on their 32 bytes |
| EvmArith.ArithPushes | src/blockchain/revm_port.rs:704-721 | With the routines in place each of the three opcodes replaces its two operands by the sum, product or difference and pays for it |
| EvmArith.MulOpcodeExactIff | src/blockchain/revm_port.rs:710-715 | MUL pushes the product modulo 2^256 if and only if the routine loses no carry |
| EvmState.CommitTransparent | src/blockchain/revm_port.rs:406-428 | Committing never changes what any read returns |
| EvmState.TransferConserves | src/blockchain/revm_port.rs:446-463 | A transfer, also to oneself, keeps the sum of balances over any accounts that include both parties |
| EvmState.TransferEffect | src/blockchain/revm_port.rs:446-463 | A transfer changes two balances by the value, and nothing else of any account |
| EvmState.TransferIff | src/blockchain/revm_port.rs:446-463 | A transfer happens if and only if there is nothing to move, or the sender has the value and the balance of the receiver does not overflow; a sender that has less is told so |
| EvmState.StorageRoundTrip | src/blockchain/revm_port.rs:337-353 | A stored word is read back, zero included, and no other word or account changes |
| EvmState.RevertUndoes | src/blockchain/revm_port.rs:390-403 | Reverting to a snapshot restores the database that was snapshotted |
| EvmState.RestartLosesStorage | src/blockchain/revm_port.rs:302-326 | After a commit and a restart balance, nonce and code are as before; the storage is as before if and only if it was empty |
| EvmState.SaveLoad | src/blockchain/revm_port.rs:414-425 | An account file keeps everything but the storage |
| EvmState.EvmStateDb.GetAccount | src/blockchain/revm_port.rs:302-326 | A read returns the uncommitted, the committed or the filed account; filling the cache is visible to no read |
| EvmState.EvmStateDb.DoCommit | src/blockchain/revm_port.rs:406-428 | The loops move every uncommitted account to the committed ones and to its file, and drop the snapshots |
| EvmState.EvmStateDb.DoTransfer | src/blockchain/revm_port.rs:446-463 | The transfer method moves the value, or reports what is missing, as specified |
| EvmState.EvmStateDb.DoSnapshot | src/blockchain/revm_port.rs:390-397 | A snapshot keeps the uncommitted accounts for a later revert |
| EvmState.EvmStateDb.DoRevert | src/blockchain/revm_port.rs:399-403 | Reverting pops the last snapshot, or does nothing when there is none |
| EvmRun.Run | src/blockchain/revm_port.rs:692-1530 | Every run ends, with nested calls and creations to any depth and calls at zero gas, by the measure gas, code in the database, code length, code left; and it ends with no more gas than it had |
| EvmRun.RunVm | src/blockchain/revm_port.rs:692-1530 | The interpreter loop, which calls itself for nested runs, ends and computes that run |
| EvmPrograms.SkipRuns | src/blockchain/revm_port.rs:1147-1158 | A run of a program that pushes a condition and a destination and jumps over a block goes on behind the block if the condition is not zero, and with the block if it is |
| EvmLaws.JumpiLaw | src/blockchain/revm_port.rs:1147-1158 | JUMPI goes on behind a JUMPDEST destination if the condition is not zero, at the next opcode if it is, and fails on any other destination |
| EvmLaws.JumpLaw | src/blockchain/revm_port.rs:1138-1146 | JUMP goes on behind a JUMPDEST destination and fails on any other |
| EvmLaws.JumpdestLaw | src/blockchain/revm_port.rs:1171-1173 | JUMPDEST costs one and does nothing |
| EvmLaws.StopLaw | src/blockchain/revm_port.rs:703 | STOP stops the run |
| EvmLaws.PopLaw | src/blockchain/revm_port.rs:1095-1098 | POP removes the top word |
| EvmLaws.PushLaw | src/blockchain/revm_port.rs:1182-1194 | PUSHn pushes the n bytes behind it, zeros behind the end of the code, as a big-endian number |
| EvmLaws.Push0Law | src/blockchain/revm_port.rs:1174-1181 | PUSH0 pushes zero where it is enabled |
| EvmLaws.DupLaw | src/blockchain/revm_port.rs:1195-1202 | DUPn pushes the n-th word from the top |
| EvmLaws.SwapLaw | src/blockchain/revm_port.rs:1203-1210 | SWAPn exchanges the top word and the one n below it |
| EvmLaws.ShortSwapLaw | src/blockchain/revm_port.rs:1203-1210 | On a stack that is too short it does nothing |
| EvmLaws.GasTaken | src/blockchain/revm_port.rs:535-545 | Gas is taken in full, or nothing changes but that the run is reverted |
| EvmLaws.WordPushed | src/blockchain/revm_port.rs:547-555 | A word goes on top of a stack that has room; a full stack reverts the run |
| EvmLaws.Popped | src/blockchain/revm_port.rs:557-561 | Operands come from the top of the stack, and from an empty stack as zeros |
| EvmLaws.AluLaw | src/blockchain/revm_port.rs:704-914 | The arithmetic opcodes hand their operands, topmost first, to the routine and replace them by its result, at their price |
| EvmLaws.ContextLaw | src/blockchain/revm_port.rs:925-1090 | ADDRESS, ORIGIN, CALLER, CALLVALUE, the sizes, GASLIMIT, SELFBALANCE, PC, MSIZE and GAS push what their names say |
| EvmLaws.AccountLaw | src/blockchain/revm_port.rs:931-1055 | BALANCE, EXTCODESIZE and EXTCODEHASH read the account named by the low 20 bytes of the operand |
| EvmLaws.CalldataLaw | src/blockchain/revm_port.rs:955-965 | CALLDATALOAD pushes the 32 bytes from an offset, with zeros behind the end |
| EvmLaws.SstoreLaw | src/blockchain/revm_port.rs:1124-1137 | SSTORE puts a word into a slot of the running account, with a refund for a slot that was empty; a static frame fails |
| EvmLaws.SloadAfterSstore | src/blockchain/revm_port.rs:1118-1137 | SLOAD gives the word that SSTORE put there, and for every other slot or account what was there before |
| EvmLaws.MstoreLaw | src/blockchain/revm_port.rs:1106-1117 | MSTORE writes the 32 big-endian bytes of a word and MSTORE8 its low byte; memory grows by words, and panics beyond its limit |
| EvmLaws.MloadLaw | src/blockchain/revm_port.rs:1099-1105 | MLOAD pushes 32 bytes of memory, zeros behind its end, and pays by the offset |
| EvmLaws.MloadAfterMstore | src/blockchain/revm_port.rs:1099-1111 | MLOAD gives the word that MSTORE wrote at the same place |
| EvmLaws.Sha3Law | src/blockchain/revm_port.rs:915-924 | SHA3 pushes the hash of a range of memory |
| EvmLaws.CopyLaw | src/blockchain/revm_port.rs:970-1046 | CALLDATACOPY, CODECOPY and RETURNDATACOPY write the part of their source that the range covers and leave the rest of memory as it was |
| EvmLaws.ExtCopyLaw | src/blockchain/revm_port.rs:1012-1028 | EXTCODECOPY does so with the code of an account |
| EvmLaws.LogLaw | src/blockchain/revm_port.rs:1211-1231 | LOGn appends one entry with its topics and a range of memory; a static frame fails |
| EvmLaws.EndLaw | src/blockchain/revm_port.rs:1380-1386 | RETURN and REVERT end the run with a range of memory as output |
| EvmLaws.ExpLaw | src/blockchain/revm_port.rs:778-786 | EXP pays by the bits of its exponent before it computes |
| EvmLaws.SelfDestructLaw | src/blockchain/revm_port.rs:1488-1503 | SELFDESTRUCT empties its account, pays the balance to the beneficiary and stops; an account that pays itself loses it |
| EvmLaws.InvalidLaw | src/blockchain/revm_port.rs:1512-1522 | Every other byte is an invalid opcode |
| EvmNested.CallLaw | src/blockchain/revm_port.rs:1280-1429 | What CALL, CALLCODE and DELEGATECALL hand to the nested run: code, caller, account, value, a range of memory as calldata and the gas granted; and when they fail |
| EvmNested.CreateLaw | src/blockchain/revm_port.rs:1232-1484 | The same for CREATE and CREATE2, with the address of the new contract |
| EvmNested.CallResumes | src/blockchain/revm_port.rs:1304-1329 | After a call: one and the output in memory, cut to the length asked for, or zero; gas and log entries come back in either case |
| EvmNested.CreateResumes | src/blockchain/revm_port.rs:1258-1278 | After a creation: the address, with the output as the code of an account, all committed, or zero |
| EvmNested.NestedRun | src/blockchain/revm_port.rs:1280-1329 | A nested run happens on an empty database, and the caller goes on with what comes back |
| EvmNested.StepEnds | src/blockchain/revm_port.rs:692-702 | A run ends when its frame stops, reverts or leaves the code: with success unless it was reverted, also for want of gas or stack |
| EvmNested.StepFails | src/blockchain/revm_port.rs:692-1522 | A step that fails ends the run with its error, and a panic aborts it |
| EvmNested.EndRuns | src/blockchain/revm_port.rs:1380-1511 | A run that comes to RETURN finishes with a range of memory as output, and one that comes to REVERT fails with it |
| EvmRun.RunKeeps | src/blockchain/revm_port.rs:535-663 | Over whole runs the stack stays within its depth, memory a multiple of 32 bytes, no balance comes from nothing, and without a deployed contract nothing is committed |
| EvmSteps.ExecuteOk | src/blockchain/revm_port.rs:692-1530 | Every opcode keeps these bounds and makes progress in the measure |
| EvmRun.SubSmaller | src/blockchain/revm_port.rs:1280-1329 | A nested run is smaller than its caller even when it gets all of zero gas |
| EvmRun.ResumedSmaller | src/blockchain/revm_port.rs:1304-1329 | The caller continues smaller than before, with no more gas than before |
| EvmSteps.CallOk | src/blockchain/revm_port.rs:1280-1429 | CALL, CALLCODE and DELEGATECALL hand on at most the gas there is, less than all of it unless there is none |
| EvmSteps.CreateOk | src/blockchain/revm_port.rs:1232-1278 | CREATE and CREATE2 pay before they run, and the new address holds the value before the contract is set |
| EvmSteps.JumpOk | src/blockchain/revm_port.rs:1138-1158 | A jump that is taken pays for it, or ends the run |
| EvmSteps.SelfDestructOk | src/blockchain/revm_port.rs:1488-1503 | SELFDESTRUCT creates no balance and no code |
| EvmSteps.SstoreOk | src/blockchain/revm_port.rs:1124-1137 | SSTORE changes no balance and no code |
| EvmSteps.PlainOk | src/blockchain/revm_port.rs:705-777 | The opcodes that pop, push one word and cost a constant keep the bounds, whatever they compute |
| EvmRun.ResumeOk | src/blockchain/revm_port.rs:1304-1329 | Returning from a nested run adds its gas, keeps the bounds, and commits only for a deployed contract |
| EvmTransact.FailedRollsBack | src/blockchain/revm_port.rs:1555-1670 | A failed transaction that creates a contract, or calls code in which CREATE and CREATE2 do not occur, leaves the database exactly as it was but for the nonce of the sender |
| EvmRun.RunWithoutCreate | src/blockchain/revm_port.rs:1232-1278 | Over whole runs, code in which CREATE and CREATE2 do not occur deploys nothing itself, whatever it calls |
| EvmTransact.FailedWithoutDeploy | src/blockchain/revm_port.rs:1555-1670 | The same for every failed transaction whose run deployed nothing |
| EvmTransact.FailedObservably | src/blockchain/revm_port.rs:1555-1670 | Such a failed transaction seen through every read: all accounts as before, one nonce one higher |
| EvmTransact.FailedAfterCreate | src/blockchain/revm_port.rs:1555-1670 | A failed transaction that did deploy a contract keeps everything the run did: there is no snapshot left |
| EvmExample.LostRollback | src/blockchain/revm_port.rs:1232-1278 | In every database, a call of one 20-byte program that creates a contract and then fails leaves the contract behind |
| EvmExample.RollbackIsLost | src/blockchain/revm_port.rs:1232-1278 | There is such a database and such a call |
| EvmTransact.GasWithinLimit | src/blockchain/revm_port.rs:1564-1577 | The gas used never exceeds the gas bought, and a rejected transaction changes nothing |
| EvmTransact.SuccessCommits | src/blockchain/revm_port.rs:1655-1660 | After a successful call every read returns what it returned at the end of the run |
| EvmTransact.CallNeverMints | src/blockchain/revm_port.rs:1555-1670 | No call transaction, successful or not, raises the sum of balances over accounts that include all it knows |
| EvmTransact.CallsNeverMint | src/blockchain/revm_port.rs:1555-1670 | Nor does any sequence of call transactions |
| EvmTransact.CreationBalances | src/blockchain/revm_port.rs:1591-1630 | A creation gives the new contract the value and takes it from nobody: exactly one balance is set, and only on success with code |
| EvmTransact.DoTransact | src/blockchain/revm_port.rs:1555-1670 | The executor computes the specified transaction |
| EvmPrograms.CallSeesContext | src/blockchain/revm_port.rs:1628-1653 | In every database, a call of a program that stores CALLER, ADDRESS, CALLVALUE and CALLDATALOAD(0) succeeds at a gas of 424 and leaves the sender, the contract, the value and the first 32 bytes of the calldata in the storage of the contract, all balances as they were and one nonce one higher |
| EvmPrograms.CallTxLaw | src/blockchain/revm_port.rs:1555-1670 | A call runs the code of its target for the sender with the value, the calldata and the gas that is left, and is committed if it finishes and reverted otherwise; what is reported is that of the run |
| EvmPrograms.CreateTxLaw | src/blockchain/revm_port.rs:1555-1670 | A creation runs its calldata on an empty database for the address of the sender and its nonce; what it returns becomes the code of the new account, and nothing else changes but the nonce |
| EvmPrograms.RefusedTxLaw | src/blockchain/revm_port.rs:1564-1587 | A transaction that buys too little gas, or whose sender is too poor, changes nothing and says what is missing |
| EvmPrograms.IntrinsicIs | src/blockchain/revm_port.rs:1564-1568 | Intrinsic gas is a base, one price for every zero byte of the calldata and another for every other byte |
| StakeLedger.RunOk | src/slashing.rs:354-534 | Over every run with stakes of at least one, the pool holds exactly what validators lost, and each validator has what it put in less what it lost until it is tombstoned |
| StakeLedger.RunOkFromStart | src/slashing.rs:341-348 | The same from the empty ledger that the code starts with |
| StakeLedger.PoolIsLostStake | src/slashing.rs:398-534 | Without removals the pool is the sum of the slashed totals |
| StakeLedger.PowerWithinStake | src/slashing.rs:390-396 | Power in use and pool together never exceed the stake put in |
| StakeLedger.AmountsFit | src/slashing.rs:354-534 | Over every run no stake, slashed total, pool or sum of active stakes exceeds the stake ever put in, so nothing overflows while that fits 64 bits |
| StakeLedger.AmountsFitFromStart | src/slashing.rs:341-348 | From the empty ledger the limit is all stake ever added |
| StakeLedger.TombstonedForEver | src/slashing.rs:398-492 | A tombstoned record never changes again unless it is removed |
| StakeLedger.ReleasedAfterDelay | src/slashing.rs:470-492 | A jailed validator becomes active only by a release, at a height at least the delay above the one it was jailed at |
| StakeLedger.ActiveAgainAfterDelay | src/slashing.rs:470-492 | Seen over a run: between jail and activity there is such a release |
| StakeLedger.ZeroStakeOverdrawn | src/slashing.rs:354-360 | A validator added with no stake loses one |
| StakeLedger.OverdrawnIff | src/slashing.rs:354-534 | No run that does not remove it takes more from a newly added validator than its stake if and only if the stake is at least one |
| StakeLedger.OffenceCosts | src/slashing.rs:398-534 | An offence takes one part in its fraction of the stake, rounded down but at least one, to the pool; the validator is tombstoned if and only if it was jailed before and repetition counts, or less than the minimum is left, and otherwise jailed at this height, counted once more; nobody else is touched |
| StakeLedger.HeardIff | src/slashing.rs:398-534 | Evidence is heard against every known validator that is not tombstoned, downtime against an active one; otherwise nothing changes |
| StakeLedger.ReleaseIff | src/slashing.rs:470-492 | A release succeeds if and only if the validator is jailed and the delay has passed, and changes its status alone; before that it says how long is left |
| StakeLedger.MembershipLaw | src/slashing.rs:354-388 | Adding succeeds once, with an active validator that has its whole stake; adding, removing and setting the height change nothing else |
| StakeLedger.StakeLedger.AddValidator | src/slashing.rs:354-360 | A new validator is added with its stake; a known one is refused |
| StakeLedger.StakeLedger.DoApplyEvidence | src/slashing.rs:398-468 | Evidence slashes, jails or tombstones as specified |
| StakeLedger.StakeLedger.DoSlashDowntime | src/slashing.rs:494-534 | Downtime slashes, jails or tombstones as specified |
| StakeLedger.StakeLedger.DoUnjail | src/slashing.rs:470-492 | A release succeeds exactly for a jailed validator whose delay has passed |
| StakeLedger.StakeLedger.TotalPower | src/slashing.rs:390-396 | The loop adds up the stake of the active validators |
| Execution.BuiltIsVerified | src/execution.rs:627-812 | A block that was built from a state is accepted from it with the same state and receipts, whatever checks are on |
| Execution.BuiltIffVerified | src/execution.rs:627-812 | A block is the one its proposer would have built if and only if it is accepted and the fields that verification does not compare are filled in as the builder does: the gas sums by kind and the protocol version, and the roots and total gas whose checks are off |
| Execution.VerifiedIsBuilt | src/execution.rs:709-812 | With both root checks on, an accepted block differs from the built one at most in the four gas sums by kind and the protocol version |
| Execution.UncheckedFields | src/execution.rs:709-812 | Whatever those five header fields say, verification gives the same answer |
| Execution.AlteredBlockAccepted | src/execution.rs:659-812 | A built block with another execution gas in its header is accepted, though nobody builds it |
| Execution.AllCounted | src/execution.rs:640-677 | The gas counted in the loop is the sum over the receipts, and splits into intrinsic and execution gas, so none of the header sums overflows |
| Execution.ChainCounts | src/execution.rs:493-812 | Over any chain of accepted blocks every sender's nonces are consecutive, from its nonce at the start to its nonce at the end |
| Execution.AppliedOnce | src/execution.rs:517-524 | No transaction is applied twice, in one block or in different ones |
| Execution.NonceAdvances | src/execution.rs:517-572 | An applied transaction carries its sender's nonce and raises it by one; no other nonce moves |
| Execution.SupplyChange | src/execution.rs:493-600 | An applied transaction changes balances plus burned by exactly its refund plus what its payload does to the balances: the refund pays back gas that was never charged |
| Execution.SupplyKeptIff | src/execution.rs:493-597 | When its payload leaves the balances alone, a transaction keeps the supply if and only if its gas limit is no more than intrinsic gas plus the gas of its payload, or the effective price is zero |
| Execution.KeyValueSupplyKeptIff | src/execution.rs:585-597 | For a key-value payload: if and only if the gas limit is the intrinsic gas, or the effective price is zero |
| Execution.SupplyGrows | src/execution.rs:591-597 | A transaction with a gas limit one above the intrinsic gas, at a price of one, raises a supply of 21000 to 21001 |
| Execution.ChainSupply | src/execution.rs:493-812 | Then over any chain of accepted blocks the supply grows by exactly the refunds |
| Execution.ApplyLoop | src/execution.rs:640-650 | The loop applies the transactions in order and stops at the first error |
| Execution.AppliedIff | src/execution.rs:493-600 | A transaction is applied if and only if it is signed by its sender where signatures are checked, is of this chain, carries the next nonce, keeps to the limits of size, gas and fee, its sender can pay, and nothing overflows |
| Execution.AppliedEffect | src/execution.rs:540-612 | What an applied transaction leaves: the sender pays the intrinsic gas at the effective price and gets the rest of the gas limit back, the proposer gets the tip, the base fee is burned, one nonce moves, and the receipt says so |
| Execution.RefusedBecause | src/execution.rs:493-560 | Every refusal names a check that fails, the first in the order of the code |
| Execution.ChainSigned | src/execution.rs:378-398 | Over any chain of accepted blocks with signature checks on, every transaction is signed by the sender whose nonce it raises |
| Execution.BuiltSays | src/execution.rs:627-706 | What the header of a built block says of its transactions, receipts and state |
| Execution.VerdictBecause | src/execution.rs:709-812 | Every rejection of a block names the first check that fails |
| Execution.BuildBlock | src/execution.rs:627-706 | Building computes the specified block |
| Execution.VerifyBlock | src/execution.rs:709-812 | Verifying computes the specified answer |
| BaseFee.FeeWithinCurves | src/execution.rs:336-356 | Over any number of blocks within twice their gas target, as long as no product overflows, the fee stays between the curves that fall and rise by an eighth a block, and within its limits |
| BaseFee.MonotoneInGas | src/execution.rs:336-356 | More gas used never means a lower next fee |
| BaseFee.MovesByAnEighth | src/execution.rs:336-356 | Up to twice the target the fee moves by at most an eighth, or by one upwards |
| BaseFee.ExactStep | src/execution.rs:336-356 | The fee moves by exactly the whole part of fee times distance to the target over eight targets, at least one upwards, within its limits |
| BaseFee.AtLeastMinimum | src/execution.rs:336-356 | The fee is never below its minimum nor above 64 bits |
| BaseFee.TargetFitsIff | src/execution.rs:336-356 | No block within twice the target overflows if and only if the fee, at least the minimum, times the target fits 64 bits |
| BaseFee.CurveFits | src/execution.rs:336-356 | Over any number of blocks nothing overflows as long as the upper curve times every target fits |
| BaseFee.FeeOverflows | src/execution.rs:336-356 | An empty block at a target of 43 million gas overflows at a fee of 10^12 |
| BaseFee.EffectivePrices | src/execution.rs:359-364 | The base fee is burned and the tip is the largest amount within both limits: the whole priority fee, or what is left up to the maximum fee; below the base fee there is none |
| GossipCodec.RoundTripIff | src/blockchain/gossipsub.rs:257-329 | A message is deserialised as sent if and only if its topic is UTF-8 of at most 255 bytes, its data has at most 65535 bytes, and the whole fits the size limit |
| GossipCodec.AcceptedIsPrefix | src/blockchain/gossipsub.rs:271-329 | An accepted message, serialised again, is a prefix of the bytes received if and only if its topic was UTF-8 |
| GossipCodec.ParsesIff | src/blockchain/gossipsub.rs:271-329 | Bytes are read as a message if and only if they are within the size limit and begin with the bytes of that message, before its topic is decoded; what follows is not looked at |
| Utf8.CharIffEncoding | src/blockchain/gossipsub.rs:303 | The characters that decoding keeps are exactly the encodings of code points other than surrogates |
| GossipNode.GossipNode.DeliveredApart | src/blockchain/gossipsub.rs:704-789 | Between two deliveries of one id at least as many ids are recorded as the history holds; the queue never exceeds the history, nor a mesh its upper degree |
| GossipNode.Drive | src/blockchain/gossipsub.rs:519-656 | Whatever arrives and whatever is asked, in any order: what was recorded, delivered, accepted and taken stays so, nothing recorded earlier is delivered later, and deliveries of one id stay apart |
| GossipNode.GossipNode.HandlePublish | src/blockchain/gossipsub.rs:704-721 | A message goes to the inbox exactly when its topic is followed and its id is not in the window |
| GossipNode.GossipNode.RecordSeen | src/blockchain/gossipsub.rs:784-789 | The queue is the window of the last recorded ids |
| GossipNode.GossipNode.Recv | src/blockchain/gossipsub.rs:629-631 | Messages are taken from the inbox in the order in which they went there, each of them once |
| GossipNode.GossipNode.AddPeer | src/blockchain/gossipsub.rs:537-545 | A new peer is added, and no known one changes |
| GossipNode.GossipNode.HandleGraft | src/blockchain/gossipsub.rs:740-753 | A graft is accepted exactly while the mesh is below its upper degree, and marks the peer |
| GossipNode.GossipNode.GraftPeers | src/blockchain/gossipsub.rs:810-839 | The best candidates by score join the mesh, at most as many as asked for |
| GossipNode.GossipNode.Balance | src/blockchain/gossipsub.rs:641-652 | The heartbeat fills a mesh that is too small from the candidates, up to its degree or until there are none left, and changes no other |
| GossipNode.GossipNode.Heartbeat | src/blockchain/gossipsub.rs:634-656 | When its time has come, the mesh of every followed topic has its lower degree or no candidate is left, nobody leaves a mesh, and exactly the peers not seen for too long go; before that nothing happens |
| GossipNode.GossipNode.HandleMessage | src/blockchain/gossipsub.rs:691-783 | What each kind of message does to the topics and meshes of a peer and to the meshes of the node; only a published one is recorded or delivered |
| GossipNode.CandidacyLaw | src/blockchain/gossipsub.rs:723-764 | A known peer that subscribes becomes a candidate for the mesh of the topic unless it is in it, one that unsubscribes is none; nothing changes for other peers and topics |
| GossipNode.MembershipNoted | src/blockchain/gossipsub.rs:740-764 | What the node notes about a peer that joins or parts |
| GossipNode.GossipNode.UpdatePeer | src/blockchain/gossipsub.rs:677-689 | A packet marks its peer as seen now and counts it, or makes a new peer |
| GossipNode.GossipNode.Poll | src/blockchain/gossipsub.rs:602-626 | Bytes that are no message are refused without effect; a message marks its peer as seen, and goes to the inbox exactly if it is published, on a followed topic and not in the window |
| GossipNode.Choose | src/blockchain/gossipsub.rs:811-820 | Sorting by score and cutting off leaves nobody better than somebody chosen |

## Left out

- Agreement.EnginesAgree: the condition is sufficient; a run that breaks it can still agree.
- EvmTransact.FailedRollsBack: code that holds a CREATE byte but never runs it also rolls back, by `FailedWithoutDeploy`; no condition on the code alone is exact.
- DoubleSign.DoubleSignGuard.DoRecord: an error in serialising the set, after which nothing is sent, is not modelled; lost writes are a step of the runs.
- Evidence.ValidEvidenceConvicts: only double votes; double proposals are checked by the same pattern.
- PageStore.Lifetime: one owner and sequential calls; sharing of the handle between threads and failing file writes are not modelled.
- EvmRun.RunVm: frames and databases are values here, so updates in place and aliasing of the interpreter are not captured; `EvmStateDb` models the updates of the database.
- GossipNode.Drive: sending, reconnection and peer scoring beyond counting messages are not modelled; time does not run backwards.
- Application state, base fee and stakes inside the engine, and the step to the next height.
- Key-value commands of transactions, and the roots' hash inputs.
- Keccak, Ed25519, blake3 and serialisation of blocks and receipts.
- Managers, global functions, metrics, logging and configuration builders.
- Kernel, drivers, user interface and boot code.

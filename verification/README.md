# A verified model of ubi2

ubi2 is a chain that streams a basic income to verified humans, with a light node, a holder vault and
deployment tools around it. This project models six of its parts in Dafny and proves what they keep over
every input, every block and every interleaving.

| part | modules | what is proved of it |
|---|---|---|
| block re-execution kernel, with the runtime it calls | `Base`, `Ledger`, `LedgerLaws`, `LedgerSupply`, `Quorum`, `Jury`, `Effects`, `World`, `Lifecycle`, `PromptContracts`, `Kernel`, `Humans`, `Nonces`, `Failures`, `KernelSupply`, `Escrow`, `StreamLaws`, `Payouts`, `Lockstep`, `Sweeps`, `Runs`, `Genesis`, `Transitions`, `Upheld`, `Vouchers`, `EffectQuorum`, `Panics`, `Transactions`, `Decisions`, `Outcomes`, `Witnesses`, `Follower` | when each kind succeeds and what it writes, no replay, one post-state for failed transactions, conservation of supply, backed escrows and exact payouts, exact sweeps, a status machine, quorum finality, one human per passport |
| transaction and effect wire forms | `BigEndian`, `EffectCodec`, `Decoding` | decoding and encoding are inverse, both ways |
| sync framing | `SyncFraming` | batches of frames are read back unambiguously |
| canonical JSON and the policy merge | `Decimal`, `Json`, `Utf8`, `CanonicalJson`, `PolicyMerge`, `PolicyMergeLaws`, `PolicyMergeCases` | the text fixes the value up to key order; the merge is idempotent and determined by the approved hash |
| sponsor monitor | `SponsorMonitor`, `SponsorMonitorLaws` | the incremental figure is the from-scratch one; each block once |
| holder vault | `VaultStore`, `VaultProtocol`, `HolderPanel` | every interleaving of tabs is serial; the busy slot is exact |
| light node | `LightNode` | the projected and displayed balance against the chain's own |

Machine widths and saturation are written out (`u64`, `u128`, `SatAdd`, ...); addresses and hashes are
numbers in big-endian order. Calls into code that is not modelled (the AI oracle, the contract interpreter,
the passport verifier, the juror PRNG, hash functions) are function parameters, so every theorem holds for
all of them. Code that updates state in place is modelled as classes (`Follower.Store`, `EffectCodec.Cursor`,
`SyncFraming.Stream`, `SponsorMonitor.Monitor`, `VaultStore.Database`, `HolderPanel.Panel`), each method
proved against a function whose laws are proved separately.

## Where the code and its comments differ

The model follows the code. Each difference below is a theorem, with the exact condition.

- A refused fee or transfer is said to change nothing. The payer's incoming streams are settled first, and
  that settlement stays (`LedgerLaws.SettleIncomingIsSilent`, `LedgerLaws.RefusedChargeWrites`). At that instant it
  shows in no reported balance (`LedgerLaws.SettleIncomingIsInvisible`), later in one base unit of the settled
  account's emission at most (`LedgerLaws.SettlingIsNearlyInvisibleLater`); after a charge at the same instant it
  writes nothing.
- An op error is said to leave the state as it was. A registration that fails for want of jurors has
  already dropped the subject's stale vouch edges (`Failures.ErrorIsNeutral`). No run from genesis leads to stale
  edges, so there it never happens (`Failures.LiveEdgesStay`, `Genesis.FailedTxFromGenesis`).
- The kernel relies on its caller to refuse stale nonces: a charged transaction two or more behind lowers
  the stored nonce (`Nonces.TxNonces`), and the next nonce commits a second time (`Transactions.StaleTxReopensNonce`,
  `Transactions.StaleTxReplays`). A charged transaction at nonce 2^64-1, which decoding accepts, fails and wraps the
  stored nonce to 0 in an optimised build, so that every earlier nonce is open again
  (`Transactions.LastNonceReopensAll`); a debug build stops there.
- Emission is said never to be lost. A revocation closes the gate without settling
  (`KernelSupply.TxKeepsWorld` gives the amount), and each early settlement drops up to one
  base unit (`LedgerLaws.EarlySettlementLoses`). The light node calls its per-second rate an exact integer; it is
  exact only every nine seconds (`LightNode.NinesAreExact`).
- A fee charged to the treasury itself is credited without being debited (`LedgerSupply.ChargeFeeConserves`).
- A validated contract effect is expected not to fail. It ends the process when it opens a stream to its own
  escrow or stops a stream that is no longer active (`Escrow.ValidatedEffectRuns`, `Witnesses.ValidatedEffectPanics`),
  and no transaction ends the process in any other way (`Panics.TxPanicsExactlyWhen`).
- A challenge against a pending human leaves it pending; it is the open case, not the status, that stops its
  finalisation (`Sweeps.ChallengedIsNotFinalized`).
- Finalisation is said to need at least two distinct verified vouchers. It counts vouches received: a voucher struck
  down meanwhile still counts (`Transitions.RevokedVoucherStillCounts`, `Witnesses.RevokedVouchersVerify`). The
  counted vouchers that have stood since they vouched are exactly the edges into the human, so two of them stand if
  and only if there are two edges (`Vouchers.CountedVouchersStandExactlyWhen`).
- A revoked human is expected to be able to register and finalise again. The upheld challenge stays on file and
  blocks every later finalisation: only a passport proof brings it back (`Upheld.RevokedReturnsByPassportOnly`).
- A contract's escrow record is said to move in lock-step with its account. They drift apart by exactly what is paid
  to the escrow unrecorded - a plain transfer to its address, or what an applied effect of this or another contract
  pays it - and what streams into it pay as time passes. They stay in step along a run if and only if both are
  nothing (`Lockstep.SlackOverARun`, `Witnesses.PlainTransferDrifts`, `Witnesses.StreamDrifts`).
- A case without an immediate quorum is said to stay open for later submissions. Every selected juror is asked when
  the case is opened, so each case is closed at once and every later submission fails, whatever the interpreter
  (`EffectQuorum.CasesOverARun`, `EffectQuorum.NoSubmissionCommits`).
- Submissions that share an effect hash are said to be identical. With an interpreter that is a function of its
  inputs all submissions of a case are (`EffectQuorum.UnanimousOverARun`). Only one that answers jurors differently
  can make the hash matter; then a quorum submitted the committed ops to the letter if and only if no more collide
  with them than their group has to spare (`EffectQuorum.CommittedVerbatimExactlyWhen`,
  `Witnesses.CollidingAnswersCommit`).
- The tally is said not to depend on the order of votes. That holds if and only if one group at most is at quorum or
  none at quorum can be committed (`Quorum.TallyIsOrderFree`), which the juries here ensure
  (`Quorum.FewItemsOneQuorum`).
- Value sent with a hub call that takes none is neither moved nor refused (`Decoding.DecodedIsEncoded`).
- The policy merge compares only the first statement about the publisher role
  (`PolicyMergeLaws.OnlyGrantMentionsExactlyWhen`, `PolicyMergeCases.LaterRoleMentionGoesThrough`).
- The monitor stores the head it sees: when the head goes back, blocks are counted twice
  (`SponsorMonitorLaws.HeadRegressCountsTwice`).

## Model

| member | source | states |
|---|---|---|
| `Follower.Store.ConsumeNonce` | crates/exec/src/apply.rs:112-132 | goes through if and only if the nonce is the stored one, and then moves only that nonce on; nobody else's account and nobody's reported balance changes; on a mismatch nothing is written and the error names both nonces |
| `Follower.Store.ApplyOne` | crates/exec/src/apply.rs:253-447 | over all 17 kinds, a success needs the stored nonce, only the sender's nonce and escrows' own move, and a failure for a settled sender leaves nothing behind but a consumed nonce, stale vouch edges aside |
| `Follower.Store.ApplyTx` | crates/exec/src/apply.rs:178-234 | fee, op, and the repair of a failed op, in place; a dropped transaction has no outcome |
| `Follower.Store.SweepSybilScan` | crates/exec/src/apply.rs:469-505 | the loop over the snapshot of pending subjects is the fold of single scans over it |
| `Follower.Store.SweepFinalize` | crates/exec/src/apply.rs:453-463 | the same for finalisation, over the list taken at its start |
| `Follower.Store.RunSweeps` | crates/exec/src/apply.rs:239-248 | scan first, then finalise what is pending afterwards |
| `Follower.Store.ApplyOps` | crates/exec/src/apply.rs:142-169 | the per-transaction loop and one sweep give the block's post-state and its outcomes in order |
| `Runs.BlockIsARun` | crates/exec/src/apply.rs:142-169 | a block equals its transactions one by one and one sweep, for every cut of the list |
| `Runs.OutcomesAreTheMinedOnes` | crates/exec/src/apply.rs:157-169 | the outcomes are in order those of the charged transactions; one per input exactly when none is dropped |
| `Nonces.TxNonces` | crates/exec/src/apply.rs:112-132 | what a transaction does to nonces, on 64 bits: dropped keeps all, success started at the stored one, mined ends just past its own; no nonce falls if and only if the number after the transaction's is not below the stored one, which shuts out stale nonces and the last 64-bit number |
| `Nonces.DispatchNonces` | crates/exec/src/apply.rs:253-447 | no runtime call changes a nonce but escrows' own, except that transfer and fund find the stored one and move it on |
| `Nonces.TxNoncesAreExact` | crates/exec/src/apply.rs:178-234 | every nonce after a transaction: the sender's is the 64-bit number after it if mined, nobody else's changes but escrows' own |
| `Nonces.ApplyOneNoncesAreExact` | crates/exec/src/apply.rs:253-447 | every nonce after the nonce step and the call: one on for a sender at the stored nonce, unless a kind that consumes its own fails |
| `Runs.IncreasingIsNonceSafe` | crates/exec/src/apply.rs:214-218 | a sequence in which each sender's nonces strictly increase from at least the stored one and stop short of the last 64-bit number is safe for the two theorems below, whatever is dropped or fails |
| `Runs.NoncesNeverFall` | crates/exec/src/apply.rs:178-234 | over every run of transactions and sweeps whose nonces are neither stale nor the last 64-bit number, stored nonces never go down |
| `Runs.NoReplay` | crates/exec/src/apply.rs:196-232 | in such a run no (sender, nonce) pair commits twice, whatever is dropped, failed or repeated in between |
| `Transactions.StaleTxReopensNonce` | crates/exec/src/apply.rs:214-232 | the excluded family: a stale charged transaction lowers the nonce and the next one commits again |
| `Transactions.StaleTxReplays` | crates/exec/src/apply.rs:214-232 | a concrete ledger and payment: it commits, a stale transaction is mined, and the same payment commits again |
| `Transactions.LastNonceReopensAll` | crates/exec/src/apply.rs:220-226 | a concrete ledger: a transaction at nonce 2^64-1 is mined and fails, the stored nonce is 0 again, and an earlier payment commits a second time |
| `Failures.ErrorIsNeutral` | crates/exec/src/apply.rs:214-218 | a failing runtime call leaves the world unchanged if and only if it is not a registration that drops stale edges before finding no juror |
| `Witnesses.FailedRequestDropsEdge` | crates/runtime/src/lifecycle.rs:184-230 | a concrete registration that fails and has dropped an edge, in a world that no run from genesis reaches |
| `Failures.LiveEdgesStay` | crates/runtime/src/lifecycle.rs:184-230 | with live vouch edges that case does not arise |
| `Failures.ApplyOneErrorIsNeutral` | crates/exec/src/apply.rs:253-447 | an op that fails for a settled sender leaves the world with just its nonce consumed, if and only if it dropped no stale edges |
| `Failures.FailedTxPostState` | crates/exec/src/apply.rs:196-232 | a failed transaction has one post-state on all three failure paths: the charged world with only the sender's nonce set past it, if and only if it is not a registration at the right nonce that dropped stale edges, which alone then differ |
| `Genesis.FailedTxFromGenesis` | crates/node/src/lib.rs:106-180 | after every run from genesis that post-state is without exception: stale edges never occur |
| `Transactions.FailedTxMoves` | crates/exec/src/apply.rs:196-232 | the reported balances after a failed transaction: the fee has moved and nothing else |
| `Transactions.TransferTxDecision` | crates/exec/src/apply.rs:178-234 | a transfer transaction is dropped exactly when the reported balance does not cover the fee, and commits exactly when the nonce is right and what the fee leaves covers the value, for every sender |
| `Transactions.TransferTxMoves` | crates/runtime/src/lib.rs:1237-1293 | reported balances of everybody after a committed transfer: sender, recipient, treasury and the rest, self-transfers included |
| `Transactions.OpenStreamTxDecision` | crates/runtime/src/lib.rs:1311-1367 | when a stream opens, in terms of the balance reported before the transaction, though the code checks the settled one |
| `Decisions.TxSucceedsExactlyWhen` | crates/exec/src/apply.rs:178-447 | for all 17 kinds: a transaction is dropped if and only if the reported balance does not cover the price of its kind, given as a number, and a mined one succeeds if and only if its nonce is the stored one and its op is admitted, as conditions on the registry, ledger, passports and contracts before it |
| `Decisions.RegistrationIsFree` | crates/exec/src/op.rs:159-186 | a registration is mined whatever its sender has, and at the stored nonce succeeds if and only if there is no live registration and there are jurors |
| `Decisions.ErrorIsTrue` | crates/exec/src/apply.rs:196-232 | the error of a mined transaction that moves no value tells the truth: the nonces differ and are both named, or the fault it names is there |
| `Decisions.LedgerErrorIsTrue` | crates/runtime/src/lib.rs:1237-1458 | so does the error of one that moves value, with the exact balance its sender has left after the fee |
| `Outcomes.TxWrites` | crates/exec/src/apply.rs:253-447 | what a successful transaction of each kind leaves on file and answers, record by record, and that it writes nothing else |
| `Outcomes.RequestRegisters` | crates/runtime/src/lifecycle.rs:184-230 | a registration starts its subject afresh, clears exactly its edges, and files a case that is decided at once: committed to the grade if and only if there are two jurors and the grade is not uncertain |
| `Outcomes.StatusMeaning` | crates/runtime/src/humanity.rs:457-492 | a case is decided by the first vote that another agrees with in verdict and confidence, counted as positions; without one it is escalated once every juror has voted and open before |
| `Outcomes.VerdictVotes` | crates/runtime/src/lifecycle.rs:403-475 | a verdict adds one vote, and what follows from the status it gives: a subject struck down, its vouchers 100 points lower and its edges cleared; or restored, with its challenger 50 points lower and barred; of the accounts only the gate of the subject moves |
| `Outcomes.ProofProves` | crates/runtime/src/lifecycle.rs:788-927 | a passport proof spends its nullifier, files its attributes and verifies its subject from now on, or adds to a verification it had |
| `Outcomes.InvocationInvokes` | crates/runtime/src/contracts.rs:716-837 | an invocation files a case with what the interpreter answers each juror about the contract as it stands; the first answer with whose hash another agrees is carried out if and only if each op is allowed and the escrow covers them, else nothing moves |
| `LedgerLaws.AccruedClosedForm` | crates/runtime/src/lib.rs:366-407 | the computed stream end never changes what is paid: rate times elapsed, capped by deposit and stop |
| `LedgerLaws.EndIsTheFirstInstant` | crates/runtime/src/lib.rs:366-396 | the computed end, where it fits 64 bits, is the first instant by which the whole deposit has flowed |
| `LedgerLaws.AccruedIsMonotone` | crates/runtime/src/lib.rs:397-407 | payouts grow with time and never exceed the deposit |
| `LedgerLaws.LiveBalanceIsExact` | crates/runtime/src/lib.rs:578-594 | the reported balance is the exact sum saturated once, wherever the saturating additions happen |
| `LedgerLaws.SettleIncomingFolds` | crates/runtime/src/lib.rs:1406-1415 | settling the inflow turns the whole reported balance into settled balance and touches nobody else's account |
| `LedgerLaws.SettleIncomingIsInvisible` | crates/runtime/src/lib.rs:1376-1415 | settling one account changes no reported balance at that instant |
| `LedgerLaws.SettlingIsNearlyInvisibleLater` | crates/runtime/src/lib.rs:1376-1415 | at any later instant it has cost the settled account at most one base unit of emission and anybody else nothing |
| `LedgerLaws.SettleIncomingIsSilent` | crates/runtime/src/lib.rs:1411-1415 | settling writes nothing if and only if there is no incoming stream or all is settled already |
| `LedgerLaws.RefusedChargeWrites` | crates/runtime/src/lib.rs:269-289 | a concrete refused charge that leaves a trace |
| `LedgerLaws.TransferMeaning` | crates/runtime/src/lib.rs:1237-1293 | when a transfer succeeds, and what every reported balance and nonce is afterwards, also when it fails |
| `LedgerLaws.ChargeFeeMeaning` | crates/runtime/src/lib.rs:269-315 | a fee is charged exactly when the reported balance covers it, in full, from sender to treasury; the treasury's own fee adds to its balance |
| `LedgerLaws.ChargeFeeSettles` | crates/runtime/src/lib.rs:269-315 | after a charge the payer is settled, so the op's own settlement at that instant writes nothing |
| `LedgerLaws.EarlySettlementLoses` | crates/runtime/src/lib.rs:470-501 | settling earlier costs at most one base unit |
| `Witnesses.SettlingEachSecondLoses` | crates/runtime/src/lib.rs:495-501 | settled after one second, an account has one base unit less after two |
| `LedgerLaws.EmissionNeverSaturates` | crates/runtime/src/lib.rs:477-485 | the emission product is exact for every 64-bit span, so its saturation never shows |
| `LedgerLaws.TicksSplit` | crates/runtime/src/lib.rs:477-485 | and exactly when the cut remainders carry |
| `LedgerSupply.ChargeFeeConserves` | crates/runtime/src/lib.rs:269-315 | supply is kept, except that a fee charged to the treasury is minted |
| `Witnesses.TreasuryFeeMints` | crates/runtime/src/lib.rs:269-315 | the treasury pays a fee and is the richer for it |
| `LedgerSupply.TransferConserves` | crates/runtime/src/lib.rs:1237-1293 | supply is kept by every transfer, successful or not, to anybody |
| `LedgerSupply.OpenConserves` | crates/runtime/src/lib.rs:1311-1367 | opening a stream only locks what it takes |
| `LedgerSupply.StopConserves` | crates/runtime/src/lib.rs:1424-1458 | stopping pays what accrued, refunds the rest and keeps the supply |
| `StreamLaws.ReportedIsExact` | crates/runtime/src/lib.rs:578-594 | every reported balance is part of the supply, so none saturates while the supply fits its width |
| `StreamLaws.OpenMeaning` | crates/runtime/src/lib.rs:1311-1367 | opening takes the deposit from the sender only, and the recipient's balance then climbs at the rate up to the deposit |
| `StreamLaws.StopMeaning` | crates/runtime/src/lib.rs:1424-1458 | stopping refunds exactly the undrawn rest and changes no other reported balance |
| `StreamLaws.StoppedForGood` | crates/runtime/src/lib.rs:1424-1458 | a stopped stream owes nothing at any time |
| `StreamLaws.OpenThenStop` | crates/runtime/src/lib.rs:1311-1458 | opening and stopping later splits the deposit exactly between recipient and sender |
| `KernelSupply.DispatchKeepsWorld` | crates/exec/src/apply.rs:253-447 | every kind keeps the registry and stream invariants, and the supply but for emission burned by a revocation |
| `KernelSupply.TxKeepsWorld` | crates/exec/src/apply.rs:178-234 | every transaction keeps the registry and stream invariants, and changes the supply by exactly the treasury's own fee, added, and the unsettled emission of a revoked human, destroyed |
| `Witnesses.RevocationBurns` | crates/runtime/src/lifecycle.rs:535-556 | a revocation takes an hour's unsettled emission with it |
| `KernelSupply.SweepsKeepWorld` | crates/exec/src/apply.rs:239-248 | the sweeps keep the invariants and the supply exactly |
| `Runs.SupplyGrowth` | crates/runtime/src/lib.rs:470-491 | between two instants supply grows only by emission, at most one period's worth per verified account |
| `Runs.SupplyOverARun` | crates/exec/src/apply.rs:142-169 | over every run the supply is accounted for to the base unit: emission accrued, plus the treasury's own fees, less what revocations destroyed; and it stays within the emission of verified accounts |
| `Runs.HumansOverARun` | crates/runtime/src/lifecycle.rs:184-556 | over every run, whatever the supply: only verified and challenged humans emit, edges and open cases are live, at most one open challenge each, nobody challenged without a case |
| `Genesis.GenesisIsOk` | crates/node/src/lib.rs:106-180 | the seeded genesis world meets every invariant the run theorems start from, with nothing issued |
| `Genesis.GenesisMeaning` | crates/node/src/lib.rs:106-180 | at genesis a founder is verified and its balance at any later instant is what has been emitted to it, one UBI an hour; everybody else has nothing; no transaction has been sent |
| `Genesis.RegistryFromGenesis` | crates/node/src/lib.rs:106-180 | from genesis, over every run: the registry invariants, the vouch capacity, the account of every pending human's vouches, and every contract case closed when it was opened |
| `Genesis.SupplyFromGenesis` | crates/node/src/lib.rs:106-180 | from genesis, over every run in time order: the exact supply |
| `Genesis.EscrowsFromGenesis` | crates/node/src/lib.rs:106-180 | from genesis, over every run that no escrow signs: every escrow is backed and none is a human |
| `Genesis.EffectsFromGenesis` | crates/node/src/lib.rs:106-180 | from genesis, over every run, no `submitEffect` transaction commits; with an interpreter that is a function of its inputs every juror of every case submitted the committed ops to the letter |
| `Genesis.RevokedFromGenesis` | crates/node/src/lib.rs:106-180 | from genesis, over every run, a human once revoked emits again only by a passport proof of its own, after registering anew |
| `Genesis.LockstepFromGenesis` | crates/node/src/lib.rs:106-180 | from any point of a run from genesis to any later one, an escrow record and its account drift apart by exactly what is paid to it unrecorded and what streams pay it in between; they stay in step if and only if both are 0 |
| `Humans.RequestKeepsHumans` | crates/runtime/src/lifecycle.rs:184-230 | registering keeps: only verified humans emit, edges and open cases are live, at most one open challenge each, nobody is challenged without a case |
| `Humans.VouchKeepsHumans` | crates/runtime/src/lifecycle.rs:236-276 | so does vouching |
| `Humans.ChallengeKeepsHumans` | crates/runtime/src/lifecycle.rs:332-386 | so does a challenge, by a human or by the scan |
| `Humans.VerdictKeepsHumans` | crates/runtime/src/lifecycle.rs:403-475 | so does a verdict, with revocation, restoration and slashing |
| `Humans.FinalizeKeepsHumans` | crates/runtime/src/lifecycle.rs:486-531 | so does finalisation |
| `Humans.ZkKeepsHumans` | crates/runtime/src/lifecycle.rs:788-927 | so does a passport proof |
| `Runs.OnePassportOneHuman` | crates/runtime/src/lifecycle.rs:788-927 | over every run, no two committed passport proofs carry nullifiers congruent modulo the order of the scalar field, whoever submits them |
| `Transitions.TxMoves` | crates/exec/src/apply.rs:178-234 | every transaction moves every human's status legally or not at all: only oneself registers or proves a passport, others challenge, a jury clears or revokes |
| `Transitions.VerifiedOnlyBy` | crates/runtime/src/lifecycle.rs:486-531 | the three ways a human becomes verified, over transactions and sweeps; by a sweep only if its last registration was found human and is five blocks old, with two vouches, unchallenged and not flagged |
| `Upheld.UpheldOverARun` | crates/runtime/src/lifecycle.rs:403-475 | over every run nobody is revoked without an upheld challenge on file, and an upheld challenge stays on file |
| `Upheld.RevokedReturnsByPassportOnly` | crates/runtime/src/lifecycle.rs:575-621 | over every run a human once revoked emits again only by a passport proof of its own after registering anew: no sweep and no jury brings it back |
| `Transitions.CapacityOverARun` | crates/runtime/src/lifecycle.rs:236-276 | over every run nobody has more vouches out than the capacity |
| `Transitions.RevokedVoucherStillCounts` | crates/runtime/src/lifecycle.rs:535-556 | revoking a voucher clears its edges and leaves everybody else as finalisable as it was |
| `Vouchers.VouchesOverARun` | crates/runtime/src/lifecycle.rs:236-276 | over every run, the vouches a pending human has received are exactly the edges into it and, apart from them, the vouches whose voucher was struck down since it gave them |
| `Vouchers.CountedVouchersStandExactlyWhen` | crates/runtime/src/lifecycle.rs:486-531 | of the vouchers counted for a human that the sweep verifies, those that have stood ever since they vouched are exactly the edges into it; so the required number stand if and only if there are as many edges; they are verified or under challenge after the sweep too |
| `Witnesses.RevokedVouchersVerify` | crates/runtime/src/lifecycle.rs:486-556 | a concrete world, with juries and votes and every registry invariant, in which two verdicts revoke both vouchers of a pending human and the sweep verifies it |
| `Sweeps.SweepMeaning` | crates/exec/src/apply.rs:453-505 | the sweeps verify, from this instant on, exactly the pending humans whose last registration case is committed to human and at least five blocks old, that have received two vouches, have no open or upheld challenge and are not flagged by the scan; no other record or account changes |
| `Sweeps.GateMeaning` | crates/runtime/src/lifecycle.rs:486-621 | the gate, which walks back over the cases, passes exactly on that condition, stated with positions in the list of cases |
| `Sweeps.SweepFiles` | crates/exec/src/apply.rs:469-505 | the cases the sweeps add are one open challenge by the hub against every flagged pending human that has none open, with its evidence, block and jury |
| `Sweeps.ChallengedIsNotFinalized` | crates/exec/src/apply.rs:239-248 | a human with an open challenge after the scan is not finalised in that block, for every oracle |
| `Escrow.ValidatedEffectRuns` | crates/runtime/src/contracts.rs:882-999 | a validated effect is carried out if and only if no stream it opens pays the escrow itself and every stream it stops is active and stopped once |
| `Escrow.ValidatesExactlyWhen` | crates/runtime/src/contracts.rs:896-942 | validation passes if and only if refunds go to parties only, streams have a rate and deposit within bounds, only streams of the escrow are stopped, nothing aborts, and the sum drawn, cut at the largest amount, is in escrow |
| `Witnesses.ValidatedEffectPanics` | crates/runtime/src/contracts.rs:953-989 | a concrete contract and validated one-op effect that end the process |
| `Panics.EffectPanicsExactlyWhen` | crates/runtime/src/contracts.rs:882-999 | an effect ends the process if and only if it passes validation and cannot be carried out |
| `Panics.TxPanicsExactlyWhen` | crates/exec/src/apply.rs:178-234 | a transaction ends the process if and only if it pays its fee, has the stored nonce and invokes a live contract whose jury commits such an effect |
| `Payouts.EffectMeaning` | crates/runtime/src/contracts.rs:882-999 | an applied effect pays everybody, other escrows included, exactly what its transfers and refunds name; only the assigned variables and the record of its own contract change, and that record moves with its account but for what the effect pays its own escrow |
| `Payouts.EffectStreams` | crates/runtime/src/contracts.rs:943-999 | the streams after an applied effect: those it opens follow in order, those it stops are stopped now, the others are as they were but for what those into the escrow paid; and the record is what it was less the sum drawn plus what the stopped streams had left |
| `Lockstep.TxSlack` | crates/runtime/src/contracts.rs:882-999 | at the instant of a transaction, for every transaction and every contract: record and account of an escrow move apart by exactly the committed plain transfer to it or what the applied effect, of whichever contract, pays it |
| `Lockstep.SweepSlack` | crates/exec/src/apply.rs:239-248 | the sweeps move neither |
| `Lockstep.GapSlack` | crates/runtime/src/lib.rs:397-407 | between two instants only the streams into an escrow move its account, by what they accrue |
| `Lockstep.SlackOverARun` | crates/runtime/src/contracts.rs:870-999 | over every run, record and account of an escrow drift apart by exactly the sum of what is paid to it unrecorded and the sum of what streams pay it in the gaps; neither is negative, so they stay in step if and only if both are 0 |
| `Lockstep.NoEscrowEverRegisters` | crates/runtime/src/lifecycle.rs:184-230 | over every run that no escrow signs, no escrow becomes a human |
| `Lockstep.EscrowLayout` | crates/runtime/src/contracts.rs:56-65 | an escrow address is the hub tag before the eight bytes of the contract number |
| `Witnesses.PlainTransferDrifts` | crates/runtime/src/lib.rs:1237-1293 | a concrete plain transfer that raises the account and not the record |
| `Witnesses.StreamDrifts` | crates/runtime/src/lib.rs:1311-1367 | a concrete stream to the escrow: nothing unrecorded when it is opened, and a second later the account is ahead of the record |
| `Escrow.TxKeepsBacked` | crates/runtime/src/contracts.rs:651-674 | every transaction keeps every escrow record covered by its account |
| `Runs.BackedOverARun` | crates/runtime/src/contracts.rs:716-837 | and so does every run |
| `Quorum.QuorumTally` | crates/runtime/src/humanity.rs:457-492 | the grouping loop computes the first item at quorum, or whether one can still come |
| `Quorum.QuorumIsUnique` | crates/runtime/src/humanity.rs:440-492 | below two quorums of votes, two items at quorum agree |
| `Quorum.FewItemsOneQuorum` | crates/runtime/src/humanity.rs:448-456 | fewer votes than two quorums, as the juries here have, leave one group at quorum at most |
| `Quorum.TallyIsOrderFree` | crates/runtime/src/humanity.rs:448-492 | the answer is one for every order of the votes, if and only if one group at most is at quorum or none at quorum can be committed; otherwise the group opened first wins |
| `Witnesses.OrderDecidesATie` | crates/runtime/src/humanity.rs:457-492 | four votes, two a side: the side that spoke first is committed |
| `Quorum.CommitmentIsFinal` | crates/runtime/src/humanity.rs:457-492 | a commitment stands whatever a given number of further votes say, if and only if no group opened before the committed one can still reach quorum with them |
| `Witnesses.LateVoteOvertakes` | crates/runtime/src/humanity.rs:457-492 | three votes and a quorum of two: one more vote overtakes the commitment |
| `Quorum.NoQuorumIsExact` | crates/runtime/src/humanity.rs:480-492 | "no quorum" is said exactly when no completion of the vote reaches one |
| `EffectQuorum.CommittedVerbatimExactlyWhen` | crates/runtime/src/contracts.rs:271-297 | in a committed case on file, a quorum of distinct jurors submitted the committed ops to the letter if and only if no more submissions collide with them than their group has to spare |
| `EffectQuorum.CasesOverARun` | crates/runtime/src/contracts.rs:716-837 | over every run and for every interpreter, every case on file has one submission of each of its jurors and was closed by the invocation that opened it |
| `EffectQuorum.LateSubmissionFails` | crates/runtime/src/contracts.rs:769-801 | so a later submission always fails and changes nothing |
| `EffectQuorum.NoSubmissionCommits` | crates/exec/src/apply.rs:436-447 | and no `submitEffect` transaction commits |
| `EffectQuorum.UnanimousOverARun` | crates/runtime/src/contracts.rs:738-750 | with an interpreter that is a function of its inputs, over every run every juror of every case submitted the committed ops to the letter, whatever the hash |
| `Witnesses.CollidingAnswersCommit` | crates/runtime/src/contracts.rs:271-297 | an interpreter that answers two jurors differently with one hash: an invocation commits ops that only one of them submitted |
| `Jury.JuryIsFair` | crates/runtime/src/humanity.rs:378-393 | for every PRNG, a jury has distinct members from the pool, as many as possible up to its size, and the whole of a small pool |
| `Jury.EveryJuryHasOneDraw` | crates/runtime/src/humanity.rs:378-393 | every ordered choice of fewer than all candidates is the jury of exactly one sequence of draws in range, so a PRNG that draws evenly chooses evenly |
| `EffectCodec.RoundTrip` | crates/runtime/src/contracts.rs:172-179 | decoding an encoded effect gives it back if and only if it has fewer than 2^32 ops |
| `EffectCodec.DecodedIsCanonical` | crates/exec/src/effect_codec.rs:28-67 | a blob that decodes re-encodes to itself |
| `EffectCodec.DecodableIffEncoded` | crates/exec/src/effect_codec.rs:7-67 | the blobs that decode are exactly the encodings |
| `EffectCodec.NoExtension` | crates/exec/src/effect_codec.rs:63-65 | no proper extension of a valid blob decodes |
| `EffectCodec.NoProperPrefix` | crates/exec/src/effect_codec.rs:81-88 | nor a proper prefix |
| `EffectCodec.CountGuardIsHarmless` | crates/exec/src/effect_codec.rs:30-36 | the early count guard refuses nothing that parsing would accept |
| `EffectCodec.Cursor.Take` | crates/exec/src/effect_codec.rs:81-88 | takes exactly the next bytes or fails in place; the position never passes the end |
| `EffectCodec.Cursor.ReadOp` | crates/exec/src/effect_codec.rs:39-62 | reads one tagged op, field by field, as the grammar says |
| `EffectCodec.DecodeEffect` | crates/exec/src/effect_codec.rs:28-67 | the cursor loop computes the specified decoding, errors included |
| `Decoding.TxRoundTrip` | crates/exec/src/op.rs:263-318 | a transaction survives encoding and decoding if and only if it obeys the routing, value and bound rules |
| `Decoding.DecodedIsEncoded` | crates/exec/src/op.rs:263-511 | an envelope that decodes obeys them and is the encoding of what it decodes to, but for an ignored value |
| `Decoding.DecodedFields` | crates/exec/src/op.rs:263-318 | sender, nonce and hash are those of the envelope; the value is its value for a transfer and a fundContract, and 0 for every other call of a hub |
| `Decoding.OneEnvelopePerTx` | crates/exec/src/op.rs:263-318 | two envelopes decode alike if and only if they differ at most in an ignored value |
| `SyncFraming.FrameRoundTrip` | crates/network/src/codec.rs:28-60 | a frame is read back with the rest untouched if and only if it respects the limit |
| `SyncFraming.ReadIsFramed` | crates/network/src/codec.rs:33-49 | whatever is read was framed within the limit |
| `SyncFraming.CutFrameFails` | crates/network/src/codec.rs:33-49 | a cut frame is an end-of-stream error, never a shorter message |
| `SyncFraming.FramesRoundTrip` | crates/network/src/codec.rs:33-60 | any sequence of messages written back to back is read back as that sequence |
| `SyncFraming.FramesAreUnambiguous` | crates/network/src/codec.rs:51-60 | two batches with the same bytes are the same batch |
| `SyncFraming.Stream.ReadOne` | crates/network/src/codec.rs:33-49 | reading from the stream follows the specified frame reader, errors included |
| `SyncFraming.Stream.WriteFrame` | crates/network/src/codec.rs:51-60 | writing appends exactly one frame |
| `Json.PrintRoundTrip` | apps/proofofhumanity/app/quick-launch-iam-administrator.ts:64-66 | parsing the `JSON.stringify` text of any value gives it back and leaves what follows, with all string escapes |
| `Json.EscapeMeaning` | apps/proofofhumanity/app/quick-launch-iam-administrator.ts:64-66 | two characters for exactly seven code units, six for the other control characters and unpaired surrogates, every other unit as it stands; all are read back |
| `Json.EscapeStep` | apps/proofofhumanity/app/quick-launch-iam-administrator.ts:64-66 | a text is written unit by unit, except that the halves of a surrogate pair stand as they are |
| `CanonicalJson.CanonRecoversSorted` | apps/proofofhumanity/app/quick-launch-image-release.ts:92-99 | parsing the canonical text yields the same value with, in every object at any depth, each key before the next by UTF-16 code units |
| `CanonicalJson.BeforeIsPrecedes` | apps/proofofhumanity/app/quick-launch-image-release.ts:95-96 | the order of keys is the one said with positions: one ends first, or has the smaller unit at the first difference |
| `CanonicalJson.CanonIsExact` | apps/proofofhumanity/app/quick-launch-image-release.ts:92-103 | two values have one canonical text if and only if they are equal up to key order |
| `CanonicalJson.CanonIsPlainPrint` | apps/proofofhumanity/app/quick-launch-image-release.ts:92-99 | the canonical text is the plain one if and only if all keys are in that order already |
| `CanonicalJson.BytesAreExact` | apps/proofofhumanity/app/quick-launch-image-release.ts:105-107 | so are the UTF-8 bytes that are hashed: no unpaired surrogate is left to be replaced |
| `Utf8.Utf8RoundTrip` | apps/proofofhumanity/app/quick-launch-image-release.ts:105-107 | every text comes back from its bytes with U+FFFD for each unpaired surrogate, and as it was if and only if it is well formed |
| `PolicyMerge.PolicyObject` | apps/proofofhumanity/app/quick-launch-iam-administrator.ts:68-84 | accepts exactly the policies of the right version whose statements are all objects, and names the first fault |
| `PolicyMerge.CheckStatements` | apps/proofofhumanity/app/quick-launch-iam-administrator.ts:115-131 | the pass with a set of seen Sids finds the first fault defined by comparing all pairs; none if and only if every statement has a Sid of its own and none has sts:AssumeRole and `*` as its action and resource or among them |
| `PolicyMerge.CloneJson` | apps/proofofhumanity/app/quick-launch-iam-administrator.ts:64-66 | cloning through text changes nothing |
| `PolicyMerge.MergePublisherGrant` | apps/proofofhumanity/app/quick-launch-iam-administrator.ts:101-164 | the merge as it executes is the specified one, errors and their order included |
| `PolicyMerge.NoFault` | apps/proofofhumanity/app/quick-launch-iam-administrator.ts:86-131 | no fault if and only if every statement has a non-empty Sid that no other has, and no statement has sts:AssumeRole as its action or among its actions and `*` as its resource or among its resources |
| `PolicyMergeLaws.MergeSucceedsExactlyWhen` | apps/proofofhumanity/app/quick-launch-iam-administrator.ts:101-164 | a merge goes through if and only if the input is a policy with the approved lower-case hash, Sids of their own, no statement that assumes every role, the grant itself as the first statement about the role if there is one, and at most 32768 bytes in the end |
| `PolicyMergeLaws.RefusedAsWildcardExactlyWhen` | apps/proofofhumanity/app/quick-launch-iam-administrator.ts:115-131 | the wildcard error is raised if and only if there is such a statement with its own Sid and everything before it in order |
| `PolicyMergeLaws.MentionMeaning` | apps/proofofhumanity/app/quick-launch-iam-administrator.ts:92-99 | the search for a text finds it if and only if some path of positions leads to it |
| `PolicyMergeLaws.MergeMeaning` | apps/proofofhumanity/app/quick-launch-iam-administrator.ts:115-164 | earlier statements kept in order, Sids distinct, exactly one publisher statement and it is the grant, other properties kept |
| `PolicyMergeLaws.TextChangesExactlyWhenAdded` | apps/proofofhumanity/app/quick-launch-iam-administrator.ts:133-150 | the canonical text stays the same if and only if the grant was already present |
| `PolicyMergeLaws.MergeIsIdempotent` | apps/proofofhumanity/app/quick-launch-iam-administrator.ts:101-164 | merging the result with its own hash returns it unchanged, if and only if the grant is not itself a wildcard |
| `PolicyMergeLaws.PublisherGrantMeaning` | apps/proofofhumanity/app/quick-launch-image-release.ts:172-182 | the grant that is built has the publisher Sid and is a wildcard only for the role `*` |
| `PolicyMergeLaws.OnlyGrantMentionsExactlyWhen` | apps/proofofhumanity/app/quick-launch-iam-administrator.ts:133-145 | no other statement of the result names the role if and only if none after the first mention does |
| `PolicyMergeCases.LaterMentionGoesThrough` | apps/proofofhumanity/app/quick-launch-iam-administrator.ts:133-145 | concrete policies on which a second mention goes through |
| `PolicyMergeCases.LaterRoleMentionGoesThrough` | apps/proofofhumanity/app/quick-launch-iam-administrator.ts:192 | the same at the name of the publisher role, for every account |
| `PolicyMergeLaws.ApprovedHashFixesOutcome` | apps/proofofhumanity/app/quick-launch-iam-administrator.ts:107-164 | two inputs admitted by one approved hash merge alike, to results equal up to key order |
| `SponsorMonitor.Monitor.StoreState` | apps/proofofhumanity/scripts/sponsor-account-monitor.ts:76-80 | an interruption before the rename leaves the old state in place |
| `SponsorMonitor.Monitor.ScanBlock` | apps/proofofhumanity/scripts/sponsor-account-monitor.ts:134-149 | the inner loop adds the block's spend on the day and its transactions, in order |
| `SponsorMonitor.Monitor.Run` | apps/proofofhumanity/scripts/sponsor-account-monitor.ts:107-159 | a run stores the carried figure plus the spend of the new blocks, or refuses or is cut short and leaves the file |
| `SponsorMonitorLaws.StoredSpendIsFromScratch` | apps/proofofhumanity/scripts/sponsor-account-monitor.ts:111-159 | over every sequence of attempts with heads and days in order, the stored figure is, over the sponsor transactions in the blocks of the day from the start block on, the sum of gas times price plus the sum of rollup fees plus the sum of the values of successful ones |
| `SponsorMonitorLaws.SpendIsThreeSums` | apps/proofofhumanity/app/lib/sponsor-budget.ts:15-26 | the spend of a day is those three sums over the blocks with 86400 day <= timestamp < 86400 (day + 1) |
| `SponsorMonitorLaws.FailedValuesDoNotCount` | apps/proofofhumanity/scripts/sponsor-account-monitor.ts:137-143 | chains that differ only in the values of failed transactions have the same spend |
| `SponsorMonitorLaws.SucceedsExactlyWhen` | apps/proofofhumanity/scripts/sponsor-account-monitor.ts:107-132 | a run goes through if and only if chain, state file, start block and number of new blocks are as required and nothing cuts it short |
| `SponsorMonitorLaws.EachBlockOnce` | apps/proofofhumanity/scripts/sponsor-account-monitor.ts:119-149 | the blocks read are one contiguous range, each once, and the reports list each sponsor transaction in it once |
| `SponsorMonitorLaws.FailuresLeaveNoTrace` | apps/proofofhumanity/scripts/sponsor-account-monitor.ts:76-132 | refused and interrupted attempts can be left out of any sequence |
| `SponsorMonitorLaws.RunAgreesExactlyWhen` | apps/proofofhumanity/scripts/sponsor-account-monitor.ts:116 | with the head not going back, a run keeps the figure right if and only if the day is the stored one or no earlier block holds spend of the new day |
| `SponsorMonitorLaws.HeadRegressAgreesExactlyWhen` | apps/proofofhumanity/scripts/sponsor-account-monitor.ts:150-159 | when the head goes back, on any day and however far: on the stored day if and only if the blocks given up hold no spend of the day, on another day if and only if the blocks kept hold none |
| `SponsorMonitorLaws.HeadRegressCountsTwice` | apps/proofofhumanity/scripts/sponsor-account-monitor.ts:150-159 | and when it then comes back they are counted twice |
| `SponsorMonitorLaws.TwoWeiForOne` | apps/proofofhumanity/scripts/sponsor-account-monitor.ts:150-159 | a concrete chain and three runs after which two wei are on file where one was spent |
| `VaultStore.Database.Initialize` | packages/sdk/src/credential-vault-indexeddb.ts:150-164 | writes only into an empty database |
| `VaultStore.Database.Observe` | packages/sdk/src/credential-vault-indexeddb.ts:180-186 | a record is seen if and only if there is one, bound as the store is, with the expected digest, for a replacement that is bound too; an unbound vault on either side is an error |
| `VaultStore.Database.Commit` | packages/sdk/src/credential-vault-indexeddb.ts:188-202 | the second half: writes only at the observed revision |
| `VaultProtocol.CommitReplacesWhatItRead` | packages/sdk/src/credential-vault-indexeddb.ts:176-202 | a commit by revision is an atomic swap by content: what it replaces equals what its operation read |
| `VaultProtocol.CommitsExactlyWhenUnchanged` | packages/sdk/src/credential-vault-indexeddb.ts:188-202 | it goes through if and only if nothing was committed since it observed, and its binding check never fails |
| `VaultProtocol.InterleavingsAreSerial` | apps/proofofhumanity/app/holder-vault-panel.tsx:196-360 | from an empty database, over every interleaving of any number of operations, dropped anywhere, the stored vault is the serial result of the committed writes, one revision each |
| `VaultProtocol.StoredIsTheLog` | apps/proofofhumanity/app/holder-vault-panel.tsx:196-360 | from an empty database, over every interleaving: the key slots stored are those of the first committed vault and then the committed ones in commit order, the payload is the one committed last, there are 1 to 16 slots and no credential twice, and every write came from a store bound to this vault |
| `VaultProtocol.CommittedStays` | apps/proofofhumanity/app/holder-vault-panel.tsx:196-360 | every committed write was asked for, and a committed slot is in every vault stored later |
| `VaultProtocol.AloneCommitsExactlyWhen` | apps/proofofhumanity/app/holder-vault-panel.tsx:245-320 | a change that nothing interrupts is committed if and only if its store is bound to the stored vault, the change is possible and revisions are left; else nothing is written |
| `VaultProtocol.AloneCreatesExactlyWhen` | apps/proofofhumanity/app/holder-vault-panel.tsx:196-230 | a new vault is stored if and only if the database is empty and the vault is well formed and bound |
| `VaultProtocol.VaultIsNeverLost` | apps/proofofhumanity/app/holder-vault-panel.tsx:196-360 | from an empty database, over every interleaving, from the moment it is occupied vault id and binding are fixed and no committed key slot is lost or moved |
| `VaultProtocol.ApplyMeaning` | packages/sdk/src/credential-vault.ts:277-315 | a slot can be added if and only if there are fewer than 16 and none has its credential; it goes behind the others, and nothing else changes; a payload is replaced, and nothing else changes |
| `HolderPanel.Panel.Start` | apps/proofofhumanity/app/holder-vault-panel.tsx:173-180 | takes the slot if it is free, keeping it exact |
| `HolderPanel.Panel.Finish` | apps/proofofhumanity/app/holder-vault-panel.tsx:181-194 | completion handling, with the operation's own last step |
| `HolderPanel.Panel.Cancel` | apps/proofofhumanity/app/holder-vault-panel.tsx:362-369 | frees the slot, aborts the signal, keeps the slot exact |
| `HolderPanel.Panel.Unmount` | apps/proofofhumanity/app/holder-vault-panel.tsx:163-171 | the same without a notice |
| `HolderPanel.Panel.ChangeSession` | apps/proofofhumanity/app/holder-vault-panel.tsx:101-107 | supersedes the current operation, and aborts it if the binding differs |
| `HolderPanel.SlotIsExact` | apps/proofofhumanity/app/holder-vault-panel.tsx:101-194 | from the moment a panel opens, over every sequence of events, the slot is taken if and only if one unfinished operation holds the current generation |
| `HolderPanel.SupersededEndsSilentlyExactlyWhen` | apps/proofofhumanity/app/holder-vault-panel.tsx:181-194 | a superseded operation never clears the slot, and is silent if and only if it fails, was aborted or would repeat the notice |
| `HolderPanel.UnabortedSuccessSpeaks` | apps/proofofhumanity/app/holder-vault-panel.tsx:101-107 | a concrete sequence in which a superseded, unaborted operation writes the notice |
| `HolderPanel.StepKeepsAbortsExactlyWhen` | apps/proofofhumanity/app/lib/holder-vault-product.ts:183-194 | superseded operations are aborted ones, unless a session change to the same binding interrupts a running one |
| `HolderPanel.SupersededAreSilent` | apps/proofofhumanity/app/holder-vault-panel.tsx:163-194 | with real session changes only, no superseded operation, however it ends, touches slot or notice |
| `HolderPanel.CurrentSpeaks` | apps/proofofhumanity/app/holder-vault-panel.tsx:173-194 | with real session changes only, the current operation on ending frees the slot and leaves the notice of success, abort or failure |
| `LightNode.ShortfallIsExact` | apps/light-node/src/main.ts:204-216 | projecting through any number of instants falls short of one projection by exactly the whole units among the cut fractions |
| `LightNode.SegmentsLoseLittle` | apps/light-node/src/main.ts:204-216 | hence it never exceeds it, and misses at most one unit per intermediate instant |
| `LightNode.NinesAreExact` | apps/light-node/src/main.ts:204-216 | nothing is missed when the intermediate instants lie multiples of nine seconds after the start |
| `LightNode.OneSecondStopLoses` | apps/light-node/src/main.ts:203-216 | through a stop after one second, two seconds come out one base unit short |
| `LightNode.ProjectionTracksTheChain` | apps/light-node/src/main.ts:211-216 | between anchors the node shows the chain's balance of a verified account less what its incoming streams pay meanwhile, to within one base unit |
| `LightNode.DisplayIsTheFloor` | apps/light-node/src/ui.ts:80-94 | the printed digits denote the amount cut to ten-thousandths of a UBI |
| `LightNode.DisplayNeverFalls` | apps/light-node/src/main.ts:211-216 | from one anchor the displayed balance never goes down |

## Left out

- The runtime's ledger, registry and contract functions are modelled on values, not as updates of a store in
  place; only the kernel (`Follower.Store`) is imperative. Order of writes is kept, aliasing does not occur.
- Nonces wrap as in an optimised build; that a debug build panics at 2^64-1 is not modelled. Per-account stream
  indexes are derived from the stream list.
- The passport binding checks (scope, roots, dates, submitter) and proof verification are one abstract
  predicate; PRNG, juror seeds, block entropy and hashes are abstract functions. The juror set is fixed.
- RLP, signature recovery, Solidity ABI decoding and selectors: `Decoding` starts from a split envelope.
- Validator sets, state roots, snapshots and persistence of the node; consensus and the network.
- SupplyOverARun: assumes a supply within 2^128, beyond which balances saturate, as do TxKeepsWorld, OpenMeaning,
  StopMeaning, OpenThenStop, EffectMeaning, EffectStreams, TxSlack, SlackOverARun and TxPanicsExactlyWhen.
- BackedOverARun: excludes transactions signed by escrow addresses, which have no key; so do TxKeepsBacked, TxSlack,
  SlackOverARun, TxPanicsExactlyWhen, NoReplay, NoncesNeverFall and IncreasingIsNonceSafe. TxNonces and
  TxNoncesAreExact say nothing about escrows' own nonces, which count their transfers and wrap with them.
- EffectMeaning: assumes backed escrows, which every run from genesis keeps; so does EffectStreams.
- ErrorIsTrue: says that the fault named is there, not which of several is named first; so does LedgerErrorIsTrue.
- TxWrites: gives the frame only of a `submitEffect` transaction, none of which commits (NoSubmissionCommits).
- NoReplay: assumes that no transaction lowers its sender's nonce, by the exact condition of TxNonces;
  IncreasingIsNonceSafe gives it for sequences with strictly increasing nonces below the last 64-bit number.
- ProjectionTracksTheChain: is about a balance that does not saturate; so is SettlingIsNearlyInvisibleLater.
- CountedVouchersStandExactlyWhen: a voucher struck down and verified again since stands in the registry but not for
  that vouch, which the condition reports as lapsed.
- JSON numbers are integers: fractions, exponents and the loss of precision beyond 2^53 are not modelled. The
  JSON parser reads what is printed, without spaces.
- The account-id, ARN and session checks, the other IAM documents, and the readiness assessors: constant
  tables and flat conjunctions.
- The monitor's chain is fixed (no reorganisations), days are numbers rather than ISO text, and its budget
  alerts and environment checks are left out.
- Vault cryptography: ciphertexts are opaque, the digest is assumed collision-free, and unlocking succeeds or
  the operation is dropped. The panel's phase, summary, and rendering are left out.
- Locale digit grouping of the light node's display, and the rest of its user interface.

# A verified model of the LXS node

LXS is a proof-of-work blockchain node with an EVM. This project models four connected parts of it and
proves, for all inputs and all runs, the properties they depend on.

**State, EVM and block transition** (`world`, `journal`, `jumpdest`, `vm`, `vm_safety`, `more_gas`, `bystander`,
`instructions`, `simple_ops`, `interpreter`, `issuance`, `transition`, `ledger`, `transactions`, `block_laws`, `alike`,
`processor`, `estimate`, `estimates_hold`). The transition is written twice. Once as functions on world values, where a
failed frame simply does not return a world; all properties are proved there. And once in the node's own form: a
`State` object changed in place under an undo journal, an interpreter object with mutable pc, gas, stack and memory,
and loops. The second is proved to compute the first, so the properties hold of it too. In particular every
execution halts, a read-only frame changes nothing, a revert is exact, and value is conserved. `Instructions`,
`SimpleOps`, `Transactions` and `BlockLaws` say what single instructions, transactions and blocks do, account by
account and byte by byte, without the functions that compute it.

**Block tree and persistence** (`chain`, `forkchoice`, `store`, `tree`, `blockchain`, `restart`, `runs`,
`lineage`, `shortfalls`, `branching`, `forgotten`, `swept`). `Chain` says what the node's tables should contain,
read off the headers alone. `Trees` is the node as a value: which blocks it accepts and where each leaves memory
and disk. The `Blockchain` object moves its head over a tree of blocks with extends, side blocks and reorgs, and is
proved to stand exactly where `Trees.Inserted` says; `Restarts.Resume` does the same for a restart. `Runs` then
speaks of every sequence of blocks and restarts: where roots do not collide, memory is right after all of them and
head is the best block ever accepted; disk is right after all those whose reorgs are clean, which every run without
a restart is. `Lineage` adds what needs no such proviso: the canonical chain always carries its retargets and its work.

**Consensus arithmetic and codecs** (`pow`, `merkle`, `digits`, `rlp`, `creation`). The retarget's bounds and
monotonicity, the Merkle tree of section 2.1 of RFC 6962, an RLP decoder that inverts its encoder both
ways, and the agreement of the two contract-address derivations.

**Two peer-to-peer machines** (`orphans`, `sync`). The bounded orphan queue with its resolver, and the
header half of a sync round with its common-ancestor search.

## How the source is represented

- `big.Int` is `int`; bytes are integers from 0 to 255; addresses and words are naturals, reduced to 160 and
  256 bits where the code reduces them.
- A header's hash is the header itself: it contains its parent, and `txRoot` is the transaction list.
  `Merkle.TxRootDeterminesTxs` is what justifies the latter. A transaction's hash is the transaction.
- Signature recovery, state and receipt roots, precompiles, the arithmetic and environment opcodes and the two
  address derivations are function-valued fields of `Rules` and `Machine`: the theorems hold for any.
- The clock and the answers of peers are parameters. `InsertBlock`, as the orphan resolver sees it, is an oracle
  that may answer differently on every call.
- Where a theorem needs state roots not to collide it assumes `Restarts.RootsDetermine` and says so.
- One operation runs at a time. A batch is applied whole.
- `sender`, value and gas price of a transaction are as the stateless checks leave them (types/tx.go:159-182).

## Where the code falls short of what it promises

- EstimateGas is documented to return the smallest sufficient limit (state/transition.go:233). For a contract that
  looks at its remaining gas it may not: `Estimate.EstimateCanMissTheLeast`. The exact condition is
  `Estimate.LeastIffMidpointsComplete`; code without GAS, calls and creations always meets it,
  `Estimate.PlainEstimateIsLeast`. Nor do the probes look at whether a creation's address is free, as the transaction
  does: `EstimatesHold.ProbeIsTheTransaction`.
- A node that reorganises back over blocks it restored after a restart may leave wrong accounts and reverse diffs on
  disk, because restored states carry no marks (core/blockchain.go:316, core/schema.go:284):
  `Shortfalls.RestartThenReorgBreaksDisk`. `Trees.InsertedAgrees` gives the exact conditions for both, which
  `Store.DiffRightIffCovered` and `Store.TableRightIffLastMarks` read off the marks;
  `Shortfalls.RestoredBlockIsUncovered` says which restored blocks fail the first.
- After a restart side branches are said to be re-learnt from peers (core/blockchain.go:279). A side block that is
  still on disk is refused as known, and its children because its state is gone: `Forgotten.RivalIsForgotten`.
  `Forgotten.LearntAgainIff` says exactly which blocks are learnt again, `Forgotten.LostStaysLost` for how
  long the others are not.
- A fork block is said to be held to the retarget of its own ancestry, and the fallback to the genesis difficulty to be
  unreachable (core/blockchain.go:461-465 and 487). The sweep of old side blocks makes it reachable:
  `SweptAncestor.ForkBlockAskedForWrongDifficulty`. `Blockchains.Blockchain.RequiredDifficulty` gives the value
  asked for on every branch, `Shortfalls.StoredIffNearOnDisk` when it is the retarget, and
  `Shortfalls.RetargetSurvivesSweepIff` when it stays so. It never reaches the canonical chain:
  `Lineage.CanonicalRetargets`.
- A peer whose header is merely ahead of our clock is not to be penalised (p2p/sync.go:30-35). On a fork it is, because
  the second check penalises on any error: `Sync.HonestForkPenalised`. `Sync.HeaderRound` says exactly when.
- The orphan count limit is not kept when it is configured as zero: `Orphans.CountLimitBroken` has the exact condition.
  An orphan larger than the byte budget is refused only after the whole queue was evicted: `Orphans.Queue.QueueOrphan`.
- README.md:60 of the node says a block mints 50 LXS; the code mints 25 (state/transition.go:18). The model follows
  the code.

## Model

| member | source | states |
|---|---|---|
| `Worlds.Put` | state/state.go:224-239 | exactly one address changes and is marked; it is stored if and only if its new value is not the empty account |
| `Worlds.TotalRemove` | state/state.go:261-267 | the sum of balances does not depend on the order of iteration |
| `Journal.RevertUndoesEveryRun` | state/state.go:354-394 | after any sequence of writes, events, burns, nested savepoints and reverts to higher ids, reverting to a savepoint gives back accounts, marks, events, burn total, journal and savepoint stack exactly |
| `Journal.RevertRestores` | state/state.go:367-394 | from any state lying ahead of a savepoint, reverting to it restores the state at which it was taken |
| `Journal.RevertAhead` | state/state.go:367-394 | reverting to a later savepoint keeps every earlier one restorable |
| `Journal.AheadTransitive` | state/state.go:74-111 | restorability composes over consecutive pieces of a run |
| `Journal.UndoSplit` | state/state.go:367-394 | undoing a journal newest-first is undoing its later part, then its earlier part |
| `Journal.ActKeepsStacked` | state/state.go:128-143 | every operation keeps savepoints stacked, none pointing before an earlier one |
| `Journal.State.constructor` | state/state.go:155-177 | a copy carries accounts, marks, events and burn total, but neither journal nor savepoints |
| `Journal.State.Set` | state/state.go:224-239 | a write changes one account, is journalled only under a savepoint, and stays undoable |
| `Journal.State.AddBalance` | state/state.go:418-438 | credit and debit change one balance and stay undoable |
| `Journal.State.SetNonce` | state/state.go:428-432 | changes one nonce and stays undoable |
| `Journal.State.SetCode` | state/state.go:346-350 | changes one account's code and stays undoable |
| `Journal.State.SetStorage` | state/state.go:323-334 | changes one slot, zero clears it, and stays undoable |
| `Journal.State.AddLog` | state/state.go:404-404 | appends one event, removable by a revert |
| `Journal.State.Burn` | state/state.go:475-480 | only a positive amount is added to the burn total |
| `Journal.State.Snapshot` | state/state.go:354-361 | pushes a savepoint and changes nothing else; its id is its position |
| `Journal.State.RevertToSnapshot` | state/state.go:367-394 | the in-place loop equals the journal's undo; an id that names no savepoint is ignored |
| `Journal.State.DiscardSnapshots` | state/state.go:397-400 | drops journal and savepoints, keeps the world |
| `Jumpdest.AnalyseJumpdests` | vm/exec.go:12-28 | marks exactly the JUMPDEST bytes that a linear decode visits as instructions |
| `Jumpdest.DecodesChain` | vm/exec.go:12-28 | beyond a position it visits, the decode from 0 is the decode from there |
| `VmSafety.StepKeepsStart` | vm/interpreter.go:92-132 | every instruction, jump or push leads from an instruction start to an instruction start or past the end |
| `Vm.MemoryCostGrows` | vm/memory.go:53-84 | growing memory never lowers its price, so the expansion charge is never negative |
| `Vm.ChargeMem` | vm/exec.go:651-670 | success covers the window, takes gas and nothing else; an empty window is free |
| `Vm.CallPay` | vm/call.go:33-98 | the gas handed over is at most what is left after the call's own price, and only an ordinary call outside read-only mode moves value |
| `Vm.FreeKinds` | vm/opcodes.go:181-239 | an opcode without a static price halts, charges for itself or is invalid |
| `Vm.Step` | vm/interpreter.go:92-132 | an instruction that continues costs more gas than the instructions it completes in nested frames |
| `Vm.Run` | vm/interpreter.go:92-132 | the loop always ends, by gas alone |
| `Vm.Execute` | vm/interpreter.go:44-64 | gives back at most the gas given, and completes at most as many instructions across all nested frames as the gas it consumed |
| `VmSafety.ReadOnlyExecute` | vm/call.go:70-140 | a read-only frame that completes ends in the very world it began in, marks, events and burn total included, whatever it calls at any depth; for the others see Interpreter.ExecuteFrame |
| `VmSafety.FailedCallKeepsWorld` | vm/call.go:142-183 | a call reports 1 or 0, and 0 means the world is exactly as before the opcode |
| `VmSafety.ExecuteEvolves` | vm/interpreter.go:44-64 | through all nesting: supply is unchanged, balances stay non-negative, nonces never fall, events only grow, and every changed account is marked |
| `VmSafety.CallEvolves` | vm/call.go:33-183 | the same for the CALL family |
| `VmSafety.CreateEvolves` | vm/call.go:192-306 | the same for CREATE and CREATE2, failed attempts included |
| `VmSafety.ExecuteAlike` | vm/interpreter.go:44-64 | worlds that differ only in marks and older events run to the same outcome, output, gas and accounts |
| `Interpreter.ExecuteFrame` | vm/interpreter.go:44-64 | the journalled, in-place interpreter shows the caller exactly the outcome of the persistent one, and stays restorable to every savepoint below it; a read-only frame leaves the world as it was however it ends, faults and reverts included |
| `Interpreter.Interp.Run` | vm/interpreter.go:92-132 | the loop over mutable pc, gas, stack and memory computes Vm.Run, with pc always at an instruction start |
| `Interpreter.Interp.Instruction` | vm/interpreter.go:92-132 | one turn of the loop is one Vm.Step |
| `Interpreter.Interp.Exec` | vm/exec.go:46-500 | the dispatch computes each opcode's turn on frame and world |
| `Interpreter.Interp.UseGas` | vm/interpreter.go:83-90 | fails exactly when the gas does not cover the cost, and then leaves none |
| `Interpreter.Interp.ChargeMem` | vm/exec.go:651-670 | pays for and grows memory exactly as Vm.ChargeMem |
| `Interpreter.Interp.JumpTo` | vm/exec.go:636-647 | the precomputed table admits exactly the destinations of the linear decode |
| `Interpreter.Interp.OpStack` | vm/exec.go:46-500 | pops, computes and pushes one word, with the dynamic charge of EXP |
| `Interpreter.Interp.OpDup` | vm/stack.go:57-64 | copies the n-th word from the top, or underflows |
| `Interpreter.Interp.OpSwap` | vm/stack.go:66-76 | the top and the word n below it trade places, every other position keeps its word, and underflow changes nothing |
| `Interpreter.Interp.OpMemory` | vm/exec.go:46-500 | hash, load and store with their memory charges |
| `Interpreter.Interp.OpCopy` | vm/exec.go:46-500 | the copy opcodes: bounds, charges and zero padding |
| `Interpreter.Interp.OpFlow` | vm/exec.go:46-500 | jumps, halts and the two ways of returning data |
| `Interpreter.Interp.OpSstore` | vm/exec.go:178-197 | price by old and new value, refused when read-only |
| `Interpreter.Interp.OpLog` | vm/exec.go:693-732 | an event with its topics and data, refused when read-only |
| `Interpreter.Interp.OpCall` | vm/call.go:33-183 | in place, under a savepoint: the callee's effects stay or are undone as Vm.CallTurn says; a static call, or any call of a read-only frame, changes nothing |
| `Interpreter.Interp.OpCreate` | vm/call.go:192-306 | in place, under a savepoint: nonce, collision, code deposit and rollback as Vm.CreateTurn says |
| `Interpreter.RunCallee` | vm/call.go:142-171 | runs precompile or contract; unless it succeeds, the journalled state is back to what it was; a read-only callee that is sent nothing changes nothing |
| `Interpreter.CallNative` | vm/precompiles.go:60-73 | a precompile charges first and fails whole |
| `MoreGas.StepMore` | vm/exec.go:46-500 | an instruction other than GAS, a call or a creation does the same with more gas and leaves the surplus |
| `MoreGas.ExecuteMore` | vm/interpreter.go:44-64 | code without those, run with more gas, ends the same way with the surplus left over |
| `Instructions.Touching` | vm/exec.go:651-670 | touching a window succeeds exactly when it fits and the difference in rent is paid; no byte changes and new ones are zero |
| `Instructions.RentIsQuadratic` | vm/memory.go:53-84 | 512 more words on top of n cost 2048 and 2n; up to 22 words cost 3 each |
| `Instructions.CallFaultsIff` | vm/call.go:33-98 | CALL, DELEGATECALL and STATICCALL fault exactly when operands, price, windows or the ban on value in a read-only frame are not met |
| `Instructions.CallMeans` | vm/call.go:33-183 | refused calls report 0 and change nothing; any other runs the callee on the world after the value moved, account by account, with its own code, the bytes of the window, its share of the gas and the right address, caller, value and read-only flag, reports whether it completed, keeps or drops its world, and hands back gas, return data and the output window |
| `Instructions.PlainCallMovesValue` | vm/call.go:142-183 | value sent to an account without code moves, account by account, and the call reports 1 |
| `Instructions.CreateFaultsIff` | vm/call.go:192-232 | CREATE and CREATE2 fault exactly when they are not paid for or the frame is read-only |
| `Instructions.CreateMeans` | vm/call.go:192-306 | a refused creation changes nothing; any other spends the creator's nonce; a taken address costs the whole share of gas; if the init code completes and its output is short enough and paid for at 200 a byte, that is the code at the new address, with the endowment; otherwise only the nonce is spent |
| `SimpleOps.SstoreMeans` | vm/exec.go:178-197 | when it is refused, its price, and that the slot reads back the word written with every other slot and account unchanged |
| `SimpleOps.LogMeans` | vm/exec.go:693-732 | when it faults, its price, and the one event added: address, topics from the stack, data from memory |
| `SimpleOps.MstoreMeans` | vm/exec.go:145-155 | 32 bytes at the offset, the word's digits from the highest down, every other byte unchanged |
| `SimpleOps.MloadMeans` | vm/exec.go:134-144 | the number whose digits are the 32 bytes at the offset |
| `SimpleOps.LoadAfterStore` | vm/exec.go:134-155 | a word stored and loaded at one offset comes back |
| `SimpleOps.Mstore8Means` | vm/exec.go:156-166 | the lowest byte of the word |
| `SimpleOps.CopyMeans` | vm/exec.go:293-380 | which source each copying opcode reads, byte by byte, zeros beyond its end, and a fault beyond the end of return data |
| `SimpleOps.McopyMeans` | vm/exec.go:403-420 | the bytes as they were before, so windows may overlap |
| `SimpleOps.PushMeans` | vm/interpreter.go:92-132 | the number spelt by the bytes that follow |
| `SimpleOps.JumpMeans` | vm/exec.go:380-386 | to a JUMPDEST of the linear decode, or a fault |
| `SimpleOps.JumpiMeans` | vm/exec.go:387-402 | jumps exactly when the second operand is not zero |
| `SimpleOps.ExpMeans` | vm/exec.go:565-585 | 10, and 50 for each byte of the exponent |
| `SimpleOps.ComputeMeans` | vm/exec.go:46-130 | an opcode that only computes gets its operands in order and leaves one word |
| `SimpleOps.HaltMeans` | vm/exec.go:483-500 | RETURN completes and REVERT reverts with the bytes of the window and the gas left, or the frame faults |
| `SimpleOps.StopMeans` | vm/interpreter.go:92-132 | STOP or the end of the code completes with no output, and a faulting instruction faults the frame |
| `SimpleOps.Tiers` | vm/opcodes.go:181-239 | the static prices, tier by tier |
| `Issuance.MintedSplit` | state/transition.go:18-33 | issuance adds up over consecutive stretches of blocks |
| `Issuance.MintedNothing` | state/transition.go:31-33 | once a block mints nothing, no later block does |
| `Issuance.RewardHalves` | state/transition.go:13-33 | 25 coins for the first million heights, and half, rounded down, a million heights later |
| `Issuance.CumulativeIssued` | state/state.go:282-307 | the era-by-era closed form equals the sum of BlockRewardAt over blocks 1 to h |
| `Ledger.ApplyTxEvolves` | state/transition.go:67-220 | an applied transaction conserves supply and soundness, marks what it changes, spends exactly its nonce, and uses between its intrinsic gas and its limit |
| `Ledger.FailedTxChangesOnlyFees` | state/transition.go:104-219 | when the code fails: fee and nonce of the sender, tip of the proposer, burn total, and nothing else, account by account |
| `Ledger.PlainSendMovesValue` | state/transition.go:104-219 | a send to a code-less address, account by account; at the burn address the value is destroyed |
| `Ledger.FeeSplit` | state/transition.go:516-530 | the burned slice and the proposer's tip add up to the fee |
| `Ledger.SettleFacts` | state/transition.go:190-219 | refund, tip and burn put back exactly what was charged |
| `Ledger.ApplyTxsSpend` | state/transition.go:75-109 | every transaction of an accepted list spends a nonce that was free before, so none occurs twice |
| `Ledger.RewardFacts` | state/transition.go:386-404 | however it is split, the reward adds exactly the issuance of its height |
| `Ledger.RewardSplit` | state/transition.go:386-404 | the treasury's cut rounds down, is destroyed at the burn address, and the miner gets exactly the rest |
| `Ledger.ApplyBlockFacts` | state/transition.go:408-506 | an accepted block adds its reward and no more, keeps balances non-negative and marks every account it changes |
| `Transactions.DataGasCounts` | types/block.go:28-41 | 4 a byte and 12 more for each that is not zero |
| `Transactions.FifthIsBurned` | state/transition.go:516-530 | a fifth of every fee is destroyed, rounded down, and the proposer gets the rest |
| `Transactions.RejectedIff` | state/transition.go:67-103 | each reason for a rejection, exactly, and that a transaction with none is applied |
| `Transactions.CallTxMeans` | state/transition.go:104-219 | a contract call runs the code on what is left of the limit after sender and target were debited and credited; it succeeds exactly when the frame completes, uses the whole limit on a fault and otherwise all but what the frame left, and ends, account by account, in the frame's world plus settlement, with the frame's new events |
| `Transactions.CreateTxMeans` | state/transition.go:138-170 | a creation fails on a taken address with the whole limit; it succeeds exactly when the init code completes and its output fits and is paid for at 200 a byte, which is added to the gas; the output is then the code at the address of sender and nonce |
| `BlockLaws.AcceptedIff` | state/transition.go:408-506 | a block is accepted exactly when it follows its parent in hash, height, time and gas limit, holds the transactions of its root, and commits to the gas, receipts and state of a trace of its transactions |
| `BlockLaws.AcceptedMeans` | state/transition.go:408-506 | its receipts are those of the trace, each with the gas of all up to it, and its world is the last one with the reward |
| `Alikeness.ApplyBlockAlike` | state/transition.go:408-506 | two parents with equal accounts and burn total accept the same blocks with the same receipts and ledger |
| `Processor.DistributeFee` | state/transition.go:521-530 | in place, what Transition.DistributeFee says |
| `Processor.CreditBlockReward` | state/transition.go:386-404 | in place, what Transition.CreditBlockReward says |
| `Processor.ApplyTx` | state/transition.go:67-220 | in place through the journal: the outcome of the persistent transition; a rejected transaction changes nothing, and no savepoint is left behind |
| `Processor.ApplyBlock` | state/transition.go:408-506 | validates on a copy, never writes the parent, and returns the outcome of the persistent transition |
| `Processor.RunOrUndo` | state/transition.go:115-208 | the undoable part is kept or undone whole, and leaves no savepoint or journal entry |
| `Processor.Settle` | state/transition.go:210-215 | refund, tip and burn in place |
| `Processor.GreedyTakesAll` | core/producer.go:105-137 | candidates that apply one after another within the limit are all taken, in order |
| `Processor.GreedyNext` | core/producer.go:105-137 | a candidate is skipped exactly when it is rejected after those taken, and ends the selection exactly when it no longer fits |
| `Processor.GreedyGrows` | core/producer.go:105-137 | what has been taken stays taken, and nothing is taken after the first that does not fit |
| `Processor.Select` | core/producer.go:105-137 | the loop over trial copies takes exactly the greedy selection, with its receipts, gas and tips |
| `Processor.BuildUnsealed` | core/producer.go:70-148 | from any candidate list: every field of the header; the block holds the greedy selection, is accepted on the same parent with the same ledger, and minerFees is the sum of the tips |
| `Processor.BuiltBlockIsValid` | state/transition.go:408-506 | a header filled from a run passes every check of ApplyBlock |
| `Estimate.TryAt` | state/transition.go:261-305 | one trial at a limit; the state, journal and savepoints are exactly as before |
| `Estimate.EstimateGas` | state/transition.go:250-337 | the limit returned completes and one less does not; otherwise it says whether the cap is too low or the message is doomed; the state is untouched |
| `Estimate.BisectEnds` | state/transition.go:318-336 | the search ends on a limit that completes, with the one below it failing |
| `Estimate.LeastIffMidpointsComplete` | state/transition.go:318-336 | the limit is the least sufficient one if and only if the message completes at each of the midpoints above it that halving visits, a list fixed by intrinsic gas, cap and the least limit |
| `Estimate.PlainMessagesAreMonotone` | state/transition.go:233-249 | for code without GAS, calls and creations, completing at a limit means completing at every higher one |
| `Estimate.MoreGasNeverHurts` | state/transition.go:318-336 | where completing at a limit means completing at every higher one, a limit is sufficient if and only if it is at least the estimate |
| `Estimate.PlainEstimateIsLeast` | state/transition.go:233-249 | so it is for such code, at every cap |
| `Estimate.EstimateCanMissTheLeast` | state/transition.go:233-235 | with the node's own cap of 30,000,000, at any address and for any caller: a contract that jumps by its remaining gas completes at 10,021,005, and the search settles above 15,010,499 |
| `Bystander.ExecuteVeil` | vm/interpreter.go:44-64 | where no instruction looks at the surroundings or at an account without code, neither makes a difference to a frame, through all nesting |
| `EstimatesHold.ProbeIsCommitment` | state/transition.go:261-305 | a probe completes exactly when the transaction's undoable part would commit on the same outcome |
| `EstimatesHold.ProbeNeedsMore` | state/transition.go:261-305 | and asks for more exactly when gas ran out, in the code or for the deposit |
| `EstimatesHold.ProbeIsTheTransaction` | state/transition.go:243-249 | where the code looks neither at its block nor at its sender's account, an applied transaction succeeds exactly when the probe at its limit completes and, for a creation, its address is free |
| `EstimatesHold.EstimateSuffices` | state/transition.go:233-249 | so, sent with the estimate as its limit it succeeds, and with one less it does not |
| `Pow.HarderMeansLower` | core/pow.go:36-41 | a higher difficulty never raises the target |
| `Pow.TargetIsExact` | core/pow.go:36-41 | the target times the difficulty is at most 2^256-1, and no larger target is |
| `Pow.LwmaDifficulty` | core/pow.go:66-124 | the loop computes the weighted retarget, clamped to 1 .. 2^64-1 |
| `Pow.NeverFallsFar` | core/pow.go:66-124 | one retarget is at least 99/600 of the window's average |
| `Pow.NeverRisesFar` | core/pow.go:66-124 | one retarget is at most 99(N+1)/(10N) of the window's average |
| `Pow.SlowerIsNeverHarder` | core/pow.go:66-124 | pointwise slower solvetimes never give a higher difficulty |
| `Pow.SteadyState` | core/pow.go:66-124 | blocks exactly on target at difficulty D give floor(99D/100) |
| `Pow.AverageIsMean` | core/pow.go:99-104 | the average is the floored mean of every difficulty after the first header's |
| `Pow.HarderHeaderCounts` | core/pow.go:75-99 | one header k harder makes the sum k more, whichever it is |
| `Pow.OnTargetKeepsTheMean` | core/pow.go:66-124 | on target with any difficulties: 99% of the floored mean |
| `Pow.LaterBlocksWeighMore` | core/pow.go:84-99 | a delay of t at place i, within the clamp, makes the weighted sum i * t more |
| `Pow.DelayBeyondClamp` | core/pow.go:84-99 | beyond the clamp a delay changes nothing |
| `Pow.SeenIsLeast` | core/pow.go:84-92 | the times used are the least strictly increasing ones not before the headers' own |
| `ForkChoice.StrictTotalOrder` | core/forkchoice.go:39-46 | fork choice is a strict total order on blocks |
| `Chain.BranchConserves` | core/blockchain.go:389-400 | after every valid branch: balances plus burned equal the pre-mine plus issuance, and no balance is negative |
| `Chain.RootCommits` | state/transition.go:490-506 | a valid header commits to the state after it |
| `Chain.LinkedCanon` | core/blockchain.go:505-516 | the height map of a linked branch is exactly that branch, with nothing above its tip |
| `Chain.CanonMeaning` | core/blockchain.go:505-516 | the same for every valid branch |
| `Chain.ForkFacts` | core/blockchain.go:958-990 | the fork of two branches lies on both, and exactly what is above it on one is off the other |
| `Chain.IndexMeaning` | core/blockchain.go:1000-1013 | the transaction index of a branch holds exactly its transactions, each at its place |
| `Chain.IndexUnwind` | core/blockchain.go:802-813 | deleting a dropped block's transactions gives its parent's index, because nonces only grow |
| `Store.AppliedBlock` | state/transition.go:408-506 | a block applied to a state with the right ledger gives the right ledger and covering marks |
| `Store.DiffRightIffCovered` | core/schema.go:154-198 | undoing the recorded diff takes the block's accounts and burn total back to its parent's if and only if the marks cover every account the block changed |
| `Store.TableRightIffLastMarks` | core/blockchain.go:815-842 | the replayed account table loads to the tip's accounts if and only if, for every address, the last replayed block that marked it, or else the ancestor, left it as the tip has it |
| `Store.CoveredMarksSuffice` | core/blockchain.go:815-842 | marks that cover every replayed block satisfy that condition |
| `Store.UndoLoads` | core/schema.go:230-251 | undoing a diff on disk and in memory load to the same accounts |
| `Store.UnwoundLoads` | core/blockchain.go:802-813 | with right diffs, unwinding gives the ancestor's accounts |
| `Trees.RequiredPositive` | core/blockchain.go:467-495 | the difficulty asked for is never zero |
| `Trees.InitialSound` | core/blockchain.go:170-213 | a fresh node is sound, agrees with its disk, and its states are covered |
| `Trees.AdmissibleIsGood` | core/blockchain.go:632-712 | a block that passes the checks is valid, its state is the true one, and the state's marks cover it |
| `Trees.InsertedSound` | core/blockchain.go:632-743 | every insertion keeps the states in memory true, head the best block ever accepted, and height map, index, burn total, weights and canonical blocks on disk those of head |
| `Trees.InsertedAgrees` | core/blockchain.go:748-859 | after a move of the head, accounts and diffs on disk are right if and only if the marks of every re-added block cover it, and the account table alone if and only if the last marks are right |
| `Trees.InsertedCovered` | core/blockchain.go:748-859 | a node whose states are all covered stays so, and its moves are clean |
| `Blockchains.WriteAccountChanges` | core/schema.go:154-198 | the loop over marked accounts writes the table and the reverse diff |
| `Blockchains.ApplyReverseDiff` | core/schema.go:230-251 | the loop over a diff restores or deletes each account; a missing diff is an error |
| `Blockchains.AddTxs` | core/blockchain.go:1000-1013 | enters a block's transactions into the index |
| `Blockchains.UnindexTxs` | core/blockchain.go:809-811 | deletes a dropped block's transactions from the index |
| `Blockchains.Blockchain.constructor` | core/blockchain.go:170-213 | the fresh node of Trees.Initial: memory, disk and indexes agree at genesis |
| `Blockchains.Blockchain.FindFork` | core/blockchain.go:958-990 | returns the highest shared block and the two paths above it; fails if and only if a block above it, other than the new head, is not on disk |
| `Blockchains.Blockchain.Unwind` | core/blockchain.go:802-813 | undoes the dropped blocks newest first; heights and transactions become the ancestor's; never fails |
| `Blockchains.Blockchain.Replay` | core/blockchain.go:815-842 | writes the added blocks oldest first; heights and transactions become the new head's; fails if and only if a state it needs is gone |
| `Blockchains.Blockchain.Prune` | core/blockchain.go:865-897 | exactly the states below the window go, and at the sweep heights exactly what GcOrphans deletes |
| `Blockchains.Blockchain.GcOrphans` | core/blockchain.go:911-956 | deletes exactly the blocks below the cutoff that are neither genesis nor canonical, with weights and diffs |
| `Blockchains.Blockchain.Extend` | core/blockchain.go:748-780 | a block on head is placed as a reorg that drops nothing |
| `Blockchains.Blockchain.Reorg` | core/blockchain.go:783-859 | succeeds if and only if the branch can be followed: its blocks on disk, their states and the fork's in memory, the fork at most `retention` below head; otherwise nothing changes |
| `Blockchains.Blockchain.RequiredDifficulty` | core/blockchain.go:467-495 | on any branch: the retarget of the branch's own last headers if they are all on disk, else the genesis difficulty |
| `Blockchains.Blockchain.Check` | core/blockchain.go:632-712 | passes if and only if the block is admissible, for every block; yields its state and its accumulated work |
| `Blockchains.Blockchain.Insert` | core/blockchain.go:632-743 | for every block: accepted if and only if it is admissible and, when heavier than head, can be followed; the new node is the one Trees.Inserted describes; a refused block changes nothing; a valid node stays valid |
| `Restarts.BackIsTrue` | core/blockchain.go:302-319 | one step back is the parent's true state when the diff is right, or when roots do not collide and the root check passes |
| `Restarts.ReloadedIff` | core/blockchain.go:241-263 | a restart is refused if and only if the root of what is on disk is not head's; without collisions, if and only if the account table is wrong |
| `Restarts.ReloadedSound` | core/blockchain.go:216-324 | what comes back is true and unmarked; with right diffs it is the whole retention window |
| `Restarts.RebuiltComplete` | core/blockchain.go:294-324 | with right diffs the root check never cuts the window short |
| `Restarts.LoadState` | core/schema.go:256-286 | loads the accounts on disk, empty records dropped, without marks |
| `Restarts.RestoreEntries` | core/blockchain.go:304-311 | replays a diff into a state in memory, dropping emptied accounts |
| `Restarts.RebuildWindow` | core/blockchain.go:294-324 | the walk back computes the recovered states and stops at the first doubt |
| `Restarts.Resume` | core/blockchain.go:216-281 | each guard refuses exactly what it should: schema, chain, unreadable head, inconsistent root; otherwise the node of Restarts.Reloaded |
| `Runs.RunKeepsMemory` | core/blockchain.go:608-743 | where roots do not collide, memory is right after every run of blocks and restarts, whatever became of the accounts on disk |
| `Runs.CleanRunKeepsDisk` | core/blockchain.go:748-859 | after every run of blocks and restarts whose reorgs are clean, disk is right and no restart is refused |
| `Runs.NoRestartIsClean` | core/blockchain.go:748-859 | every run without restarts is clean: any tree, any mix of extends, side blocks and reorgs |
| `Runs.AnyRun` | core/blockchain.go:110-160 | the object on a fresh database, through any events: it stands where the run says, and has accepted exactly the blocks that were reported accepted |
| `Runs.SumBalances` | state/state.go:261-267 | the loop computes the order-free total |
| `Runs.CheckConservation` | core/blockchain.go:389-400 | at any head of any run the check passes with the true pre-mine and with no other, and no balance is negative |
| `Runs.SameBlocksSameHead` | core/forkchoice.go:39-46 | two nodes that accepted the same blocks, in any order and with any restarts, have the same head |
| `Runs.WorkGrows` | core/blockchain.go:714-743 | stored work is the sum along the branch and grows strictly from ancestor to descendant |
| `Forgotten.RestartLosesSideBranches` | core/blockchain.go:279-280 | a restart loses exactly the side blocks on disk |
| `Forgotten.LostIsRefused` | core/blockchain.go:632-700 | a lost block is refused as known, and each of its children because its state is gone |
| `Forgotten.RememberedIff` | core/blockchain.go:294-324 | with right diffs a restart remembers exactly the canonical blocks of the window |
| `Forgotten.LearntAgainIff` | core/blockchain.go:279-280 | after a restart a valid block is learnt again if and only if it is not on disk and its parent is remembered, which with right diffs means canonical and in the window |
| `Forgotten.LostStaysLost` | core/blockchain.go:632-956 | through every later run of blocks and restarts a lost block stays lost, until the sweep takes it off disk |
| `Forgotten.RivalIsForgotten` | core/blockchain.go:279-280 | on any node in order: two rivals arrive, the node restarts, and the losing one and every block on it are refused |
| `Forgotten.FreshRivalIsForgotten` | core/blockchain.go:279-280 | that run on a fresh database |
| `Lineage.JoinKeeps` | core/blockchain.go:461-495 | a block that carries what the node asks for is right if its ancestors are all on disk, and never fills a gap below a remembered block |
| `Lineage.RunSturdy` | core/blockchain.go:632-956 | through every run: blocks on disk hang on genesis, head's branch is all there, and what a remembered block lacks lies below everything remembered |
| `Lineage.CanonicalRetargets` | core/blockchain.go:461-495 | after every run of blocks and restarts on a fresh database, each block of head's branch carries the retarget of its own ancestry, meets the target it claims, follows its parent, and holds only transactions that pass the stateless checks |
| `Lineage.RetargetWindow` | core/blockchain.go:467-495 | the retarget looks at the last 46 headers of the branch, or all of them, oldest first |
| `Lineage.HeavierMeans` | core/forkchoice.go:39-46 | more work wins, and at equal work the smaller hash |
| `Lineage.ArrivalChecks` | core/blockchain.go:632-700 | nothing is accepted that is dated more than 15 seconds ahead, known, or without a known parent in memory |
| `Lineage.ArrivalMeans` | core/blockchain.go:714-956 | where an accepted block leaves head, blocks on disk and states in memory, exactly |
| `Shortfalls.RestartThenReorgBreaksDisk` | core/blockchain.go:815-842 | on any chain: insert, restart, reorg away, reorg back; the account table is then wrong, and the next restart refuses the database unless roots collide |
| `Shortfalls.RestoredBlockIsUncovered` | core/blockchain.go:294-324 | unless a block burns exactly what it mints, a state restored without marks does not cover it |
| `Shortfalls.StoredIffNearOnDisk` | core/blockchain.go:482-492 | the retarget is asked for exactly as long as no ancestor in the window is missing |
| `Shortfalls.RetargetSurvivesSweepIff` | core/blockchain.go:865-956 | for any window and sweep interval, a branch stays held to its retarget through a sweep if and only if no ancestor it looks back over is a side block below the window |
| `Shortfalls.SweptAncestorResetsDifficulty` | core/blockchain.go:484-489 | once the sweep takes one, the genesis difficulty is asked for |
| `SweptAncestor.ForkBlockAskedForWrongDifficulty` | core/blockchain.go:461-492 | for any window and sweep interval, from any node two blocks and a window below a sweep: a run after which a fork's next block is asked for the genesis difficulty, so that one with the retarget of its own ancestry is refused unless the two are equal |
| `SweptAncestor.FreshForkAskedForWrongDifficulty` | core/blockchain.go:461-492 | that run on a fresh database, where the retarget refused is 99% of the genesis difficulty |
| `Merkle.MerkleRoot` | types/merkle.go:24-47 | the layer loop with odd-node promotion computes the tree of section 2.1 of RFC 6962; the empty list gives the zero hash |
| `Merkle.Split` | types/merkle.go:24-47 | the split point is the largest power of two below the length |
| `Merkle.PairsKeepTree` | types/merkle.go:33-45 | hashing one layer does not change the tree above it |
| `Merkle.RootDeterminesLeaves` | types/merkle.go:14-47 | without hash collisions, equal roots mean equal lists, in length and order |
| `Merkle.TxRoot` | types/merkle.go:50-56 | the tree over the transactions' hashes |
| `Merkle.TxRootDeterminesTxs` | types/merkle.go:50-56 | without collisions the root determines the transactions |
| `Rlp.TrimLeadingZeros` | rlp/rlp.go:70-76 | strips exactly the leading zeros |
| `Rlp.LengthPrefix` | rlp/rlp.go:57-63 | short form below 56, otherwise the minimal length and its width |
| `Rlp.Bytes` | rlp/rlp.go:28-34 | the string encoding, a small byte being its own |
| `Rlp.Uint` | rlp/rlp.go:38-38 | the encoding of the minimal big-endian form, zero being the empty string |
| `Rlp.List` | rlp/rlp.go:49-55 | the joined items behind a list prefix |
| `Rlp.ListOfBytes` | rlp/rlp.go:49-55 | encoding each string and listing the results is the envelope the decoder inverts |
| `Rlp.MinimalUnique` | rlp/rlp.go:168-195 | bytes without a leading zero are the minimal form of their value |
| `Rlp.ReadLen` | rlp/rlp.go:168-195 | the accumulated length, with every refusal; the accumulator never overflows |
| `Rlp.ReadItem` | rlp/rlp.go:112-164 | every slice is in bounds and something is consumed |
| `Rlp.ItemReadsBack` | rlp/rlp.go:112-164 | a written item is read back, whatever follows it |
| `Rlp.ItemWasWritten` | rlp/rlp.go:112-164 | whatever is read re-encodes to the bytes it was read from |
| `Rlp.DecodeList` | rlp/rlp.go:83-107 | the loop computes the recursive decoder |
| `Rlp.DecodedIffEncoded` | rlp/rlp.go:28-107 | an input decodes to a list if and only if it is that list's encoding |
| `Rlp.AcceptedIsCanonical` | rlp/rlp.go:83-107 | every accepted input is the encoding of what it decodes to |
| `Rlp.KnownEncodings` | rlp/rlp.go:28-63 | the first examples of the RLP specification, and the first length with a byte of its own |
| `Creation.StripZeros` | state/rlp.go:29-66 | the unchecked loop stays in bounds and gives the minimal form |
| `Creation.RlpLength` | state/rlp.go:54-66 | the same prefix as the other encoder |
| `Creation.RlpBytes` | state/rlp.go:17-24 | the same string encoding |
| `Creation.RlpUint` | state/rlp.go:29-40 | the same integer encoding |
| `Creation.RlpList` | state/rlp.go:43-49 | the same list encoding |
| `Creation.CreateAddress` | state/transition.go:358-363 | the address of [sender, nonce] |
| `Creation.CreateOpAddress` | vm/call.go:311-316 | the same address through the other encoder |
| `Creation.PreimagesDiffer` | vm/call.go:311-316 | distinct pairs of creator and nonce are hashed from distinct bytes |
| `Creation.KnownPreimage` | state/transition.go:358-363 | for the first 128 nonces, the very bytes that are hashed |
| `Orphans.OrphanBytesOf` | p2p/gossip.go:105-111 | the fixed overheads plus all calldata |
| `Orphans.FootprintAdds` | p2p/gossip.go:105-111 | 256 for the block, 160 for each transaction and its data, in any order |
| `Orphans.Queue.constructor` | p2p/gossip.go:160-183 | an empty queue with the default limits filled in |
| `Orphans.Queue.Refund` | p2p/gossip.go:334-342 | every refunded entry leaves its sender's tally and the byte total |
| `Orphans.Queue.MakeRoom` | p2p/gossip.go:331-344 | evicts oldest keys first and exactly as many as it takes |
| `Orphans.Queue.QueueOrphan` | p2p/gossip.go:302-363 | keeps every counter equal to its sum and within its limit, every parent listed once and in the order of arrival, and no block parked twice; a parked block joins its parent's bucket at the end, and a new parent the order at the end; a duplicate or over-quota block changes nothing; an oversized one is refused after emptying the queue |
| `Orphans.EvictedWaitedLonger` | p2p/gossip.go:325-344 | every key evicted has waited longer than every key kept |
| `Orphans.Queue.ResolveOrphans` | p2p/gossip.go:369-413 | terminates; the accepted blocks are exactly those offered at a turn the chain accepted, and the penalised senders exactly those of blocks refused at their turn and not merely known; releases exactly what waited for the parent or for an accepted block, parents first; the keys that stay keep their arrival and their order |
| `Orphans.CountLimitKept` | p2p/gossip.go:331-363 | every queue keeps the count limit if it is at least one, or zero with a quota or budget that never lets a block in |
| `Orphans.CountLimitBroken` | p2p/gossip.go:331-363 | for all configured limits, a new queue that was sent one empty block keeps the count limit if and only if that condition holds |
| `Orphans.ParkedRemove` | p2p/gossip.go:76-89 | the sums over the queue do not depend on the order of its keys |
| `Sync.Serve` | p2p/sync.go:136-147 | consecutive canonical headers up to the first gap, at most 256 |
| `Sync.GetHeaders` | p2p/sync.go:318-346 | refuses exactly an answer that is missing, too large, too long or holds a null; otherwise hands on its headers |
| `Sync.SharedBelow` | p2p/sync.go:392-397 | agreement of two linked branches is downward closed |
| `Sync.SharedUpToFork` | p2p/sync.go:392-397 | two branches share exactly the heights up to their fork |
| `Sync.HonestAgreement` | p2p/sync.go:380-390 | against an honest peer a probe tells exactly whether the height is shared |
| `Sync.FindCommonAncestor` | p2p/sync.go:398-425 | what is found was agreed on; against an honest forked peer it is the highest shared height, and the search gives up if and only if the fork lies below the retention floor |
| `Sync.CheckHeaderChain` | p2p/sync.go:432-472 | passes if and only if the batch starts where asked, hangs on our block, links, shows its work and is not dated ahead; "unlinked" exactly when the height fits and the attachment fails; "future" exactly when the first fault is a header dated ahead |
| `Sync.AcceptableExtends` | p2p/sync.go:432-472 | what passes extends our chain: each header lies on a branch from genesis through our block below the batch, with its work and a date not ahead |
| `Sync.VerifyHeaderPoW` | core/pow.go:128-143 | the claimed difficulty is at least the floor, and the hash meets it |
| `Sync.HeaderRound` | p2p/sync.go:208-263 | what is fetched hangs on our chain; for every honest peer the outcome, in five if-and-only-ifs, by the height of the fork and whether the batch above it holds a header dated ahead; and what is fetched from an honest peer is everything above the fork, up to its tip or 256 headers |
| `Sync.HonestForkPenalised` | p2p/sync.go:256-262 | an honest peer on a fork whose tip is a minute ahead of our clock is penalised |

## Left out

- Orphans.Queue.ResolveOrphans: does not model blocks that other goroutines queue while it runs, because one operation runs at a time.
- Sync.Serve: does not model the rate limit and the request checks of the header endpoint.
- Sync.HeaderRound: does not model the bodies, their insertion, the retry loop or the `syncing` flag of SyncFrom.
- The `steps` count of frames and outcomes exists for the bound in Vm.Execute; the node keeps no such counter.
- Overflow of uint64 nonces and of block gas totals above 2^63 is not modelled; both are naturals.
- A message call without a state (ErrNoState in the EVM) is not modelled: every frame has a world.
- The receipts table of the database is not modelled, nor is the block cache: every block in it is also on disk, because pruning drops cached blocks below the window before the sweep.
- The results of arithmetic, comparison, hashing and environment opcodes, of precompiles and of signature recovery are uninterpreted.
- Contract-internal sends to the burn address are ordinary credits, as in the code.
- Storage failures: a batch commit never fails, and what was written is what is read.
- The mempool, the mining pool, the grinder, peer scoring, rate limits, transport, RPC, CLI, wallet and contract ABI code: policy or plumbing around the parts above.
- types/eth.go: parsing wallet transactions out of decoded RLP.
- Locks, goroutines and panic recovery.

# Verification of the node's protocol logic

This project models the logic of pyJAMaz, a node for the JAM protocol (Gray Paper 0.8.0), and proves
properties of the model. `dafny verify dfyconfig.toml` checks everything. The parts, hardest first:

- **Gas model.** `GasModel` is the pipeline simulation that prices a basic block, on mutable entries as the
  program runs it. `ReorderBuffer` is a reference machine that never deletes an entry; the two are equal on
  every block. `Renaming` and `CriticalPath` say that its register tracking is the data flow of the
  instructions. `Instructions` and `BasicBlocks` are the opcode table and the decoder that feed it.
- **Work-report pipeline.** `AccumulationQueue` and `WorkPipeline` move reports from guarantee to
  accumulation over whole runs of blocks. `PipelineSafety` proves that no package is ever in two places and
  that dependencies come first; `RecentWindow` proves exactly which constants this needs.
- **Accumulation.** `SequentialAccumulation` are the rounds and their gas, `ParallelMerge` and `MergeLaws`
  the merge of a round's changes.
- **Service accounts.** `HostCalls` says what each host call does to the services one invocation sees.
  `AccumulateContext` are the objects that do it over pending changes, with their savepoint. `Footprints`,
  `Balances`, `ServiceIds` and `Availability` prove what every call keeps, `Invocation` what whole runs
  keep in both contexts, and `Rounds` what all rounds of a slot keep. `BlockAccumulation` puts invocations,
  merge and rounds together: a whole block keeps the gas bound and the services in order at once.
  `BlobHistory` does so for what past lookups find.
- **State store.** `ForkedStore` is the store as a value, `Storage.StateStorage` the object. `ForkLaws` and
  `ForkRuns` prove that it shows what a plain map from block hash to full state would show.
- **Merkle structures.** `MountainRange` and `MountainPeaks` are the in-place mountain range, `TreeProofs`
  and `ConstantDepth` the proofs of segments and their pages.
- **Tickets and memory.** `Tickets` and `Safrole` are the ticket life cycle, `HeapLayout` the initial memory
  and the growing heap; `Rounding` is their arithmetic, for any page and zone size.

The methods of classes and the methods with loops are the code as it runs; each is tied by its postcondition
to a function, and the lemmas are about the functions.

## What the code does differently from its description

- The error for misplaced tickets says that they must be sorted (pyjamaz/models/stf_output.py:132), and the
  check lets equal ids through (pyjamaz/state/components.py:529-532), so that one id can enter the
  accumulator twice, as in `Safrole.SameIdTwice`. `Safrole.DistinctNextExactly` and
  `Safrole.DistinctRunExactly` say exactly when: if two neighbouring tickets of a block share an id and the
  second is still within the lowest E, that is, if its index plus one plus the number of kept earlier ids
  below that id is at most E.
- The temporary block hash and the recorded parent of genesis are both all zeros, so reading the temporary
  block built on genesis finds a circle (pyjamaz/state/storage.py:83-84, 111-114).
  `ForkLaws.BuildingOnGenesisRaises` is the example, and `ForkLaws.CircleIff` says exactly when it happens.
- `hc_forget` deletes a blob by its hash alone (pyjamaz/hostcalls/accumulate.py:940-950), and a
  provision overwrites a blob by its hash, so past lookups are stable only under the condition of
  `Availability.ChangeLosesExactly`.
- When all public ids but those from the one just given away to the 41st after it are taken, the next id is
  the one just given away (pyjamaz/hostcalls/accumulate.py:404-412); `ServiceIds.NextIdIsNewExactly` says so, and
  `ServiceIds.LastIdIsKept` is the example.
- The outside-in order drops the middle one of an odd number of tickets (pyjamaz/utils.py:15-16), so the
  epoch must have an even number of slots.

## Model

| member | source | states |
|---|---|---|
| Instructions.CostTableIsTotal | pyjamaz/pvm/gas_model.py:74-140 | every opcode the interpreter knows has exactly one cost rule, with at least one cycle and one decode slot and units that fit the pools |
| Instructions.OpAtIsValid | pyjamaz/pvm/gas_model.py:149-244 | a known opcode at any place decodes to an operation the simulator can run, whatever bytes follow; every terminating opcode is real work |
| BasicBlocks.DecodeInstructions | pyjamaz/pvm/basic_block.py:10-27 | the decoding loop accepts exactly the blobs whose marked starts are known opcodes within reach, and tabulates each start with its argument length |
| BasicBlocks.AcceptedBlocksClose | pyjamaz/pvm/basic_block.py:10-27 | from any instruction start of an accepted blob the block is not empty and ends at a terminator |
| GasModel.CalculateBlockGas | pyjamaz/pvm/gas_model.py:258-370 | the simulation over mutable entries that deletes its retired prefix ends, and gives the gas or error of the reference machine that keeps every retired entry |
| GasModel.Clobber | pyjamaz/pvm/gas_model.py:310-318 | the registers leave every entry that owned them, and nothing else of any entry changes |
| GasModel.DecodeWork | pyjamaz/pvm/gas_model.py:300-318 | decoding gives the new entry its target registers and the owners of its sources as dependencies, and leaves the buffer as that of the reference machine after it decodes |
| GasModel.Dependencies | pyjamaz/pvm/gas_model.py:305-309 | the dependencies are the live entries that own a source register |
| GasModel.FindReady | pyjamaz/pvm/gas_model.py:323-336 | the entry to start is the first decoded one whose dependencies have no cycles left and whose units are free |
| GasModel.AcceptedBlobsAreMetered | pyjamaz/pvm/gas_model.py:258-370 | on every accepted blob and every instruction start gas is reported, at least one, at least the depth of any data-flow chain, at most the sum of cycles plus four |
| ReorderBuffer.StepKeepsInv | pyjamaz/pvm/gas_model.py:267-370 | decoding, starting and a tick each keep the shape of the buffer, at most 32 live entries and the balance of units |
| ReorderBuffer.ReachableInv | pyjamaz/pvm/gas_model.py:267-370 | in every reachable state available plus held units are the initial pools, none is negative, and at most 32 entries are live |
| ReorderBuffer.SomeEntryMoves | pyjamaz/pvm/gas_model.py:323-345 | no deadlock: if nothing can start and something is live, some live entry comes closer to retiring in the tick |
| ReorderBuffer.GasAtMostSerial | pyjamaz/pvm/gas_model.py:345-370 | the simulation reports gas exactly for blocks that end in a terminator, between one and the sum of cycles plus four |
| Renaming.OneOwner | pyjamaz/pvm/gas_model.py:295-318 | a register is owned by at most one entry |
| Renaming.OwnerMadeTheValue | pyjamaz/pvm/gas_model.py:295-318 | an entry owns a register exactly while the register's value was last produced by it, through any chain of register moves |
| Renaming.OperandsAreReady | pyjamaz/pvm/gas_model.py:323-336 | an entry that has started has each producer of its operands before it with no cycles left |
| Renaming.StepKeepsFaithful | pyjamaz/pvm/gas_model.py:295-370 | every step keeps ownership and dependencies equal to the data flow of the instructions |
| CriticalPath.DeepestIsMaximum | pyjamaz/pvm/gas_model.py:300-318 | the most cycles before an instruction can start is the maximum over its direct producers |
| CriticalPath.DepthIsLongestChain | pyjamaz/pvm/gas_model.py:300-318 | every chain of producers that ends at an instruction takes at most its depth, and one takes just as long |
| CriticalPath.GasBetweenDepthAndSerial | pyjamaz/pvm/gas_model.py:345-370 | the reported gas is at least the depth of every instruction and at most the cycles of running one by one, plus four |
| CriticalPath.GasCoversEveryChain | pyjamaz/pvm/gas_model.py:345-370 | no chain of instructions that need one another's results takes more cycles than the reported gas |
| AccumulationQueue.Edit | pyjamaz/accumulation.py:26-52 | the editing loop drops items whose package was accumulated and the dependencies that were |
| AccumulationQueue.EditedFrom | pyjamaz/accumulation.py:26-52 | an item survives editing exactly if its package was not accumulated, with just the dependencies that were not |
| AccumulationQueue.PriorityShrinks | pyjamaz/accumulation.py:70-88 | each round of the priority recursion leaves a shorter queue, so it ends |
| AccumulationQueue.PriorityIsInOrder | pyjamaz/accumulation.py:70-88 | each report of the priority queue comes after everything its item waits for |
| AccumulationQueue.PriorityIsLargest | pyjamaz/accumulation.py:70-88 | whatever can be put in dependency order at all is named by the priority queue |
| AccumulationQueue.PriorityNoTwice | pyjamaz/accumulation.py:70-88 | without repeated packages in the queue there are none in the result |
| WorkPipeline.BlockContext.SetReady | pyjamaz/models/context.py:155-169 | the ready reports are the available ones without dependencies |
| WorkPipeline.BlockContext.SetQueued | pyjamaz/models/context.py:171-185 | the queued reports are the other ones, edited by the whole history window |
| WorkPipeline.BlockContext.SetAccumulatable | pyjamaz/models/context.py:187-218 | the ring of buckets from the current one on, then the newly queued, edited by the ready reports and put in priority order |
| WorkPipeline.ProcessAssurances | pyjamaz/state/components.py:841-907 | counting assurances over the extrinsic: the reports that become available, in core order, and the cores freed by them or by the timeout; an assurance for an idle core rejects the block |
| WorkPipeline.TransitionQueue | pyjamaz/state/components.py:2756-2780 | the buckets of the ring by their age: the newly queued, emptied, or edited by what was just accumulated |
| PipelineSafety.AvailableAre | pyjamaz/state/components.py:866-903 | a report becomes available exactly if it is pending on a core with enough assurances |
| PipelineSafety.HandedOver | pyjamaz/state/components.py:841-907 | available reports are named once, were pending before the block and are pending on no core after it |
| PipelineSafety.NextQueueUnique | pyjamaz/state/components.py:2756-2780 | no package is in two buckets of the next ring nor twice in one, and none that was just accumulated |
| PipelineSafety.NextItemsWait | pyjamaz/state/components.py:2756-2780 | no item of the next ring waits for anything in the next history window, and what it no longer waits for was accumulated |
| PipelineSafety.PendingIsRecent | pyjamaz/state/components.py:1332-1375 | a package that becomes available in this very block is still found by the check for known packages, through the recent blocks |
| PipelineSafety.StillRecent | pyjamaz/state/components.py:731-737 | a report that has not timed out was reported in a block the recent history still shows, if the timeout does not exceed it |
| PipelineSafety.StepIsSafe | pyjamaz/state/components.py:841-1034 | one block: exclusiveness and the waiting invariant are kept, what is accumulated is new, named once, and after all it depends on |
| PipelineSafety.RunsAreExclusive | pyjamaz/state/components.py:1332-1375 | after any valid run the packages pending, queued and in the history window are disjoint and nowhere twice, and no queue entry waits for anything in the window |
| PipelineSafety.RunsAccumulateInOrder | pyjamaz/state/components.py:2813-2823 | in any block of any valid run, wherever gas cuts the list, each accumulated report comes after everything it depends on |
| RecentWindow.ExclusiveExactly | pyjamaz/state/components.py:1332-1375 | no run ever has a package in two places if and only if there is a recent history and the availability timeout does not exceed it |
| RecentWindow.TwinReturns | pyjamaz/state/components.py:1332-1375 | after as many empty blocks as the recent history holds, a package can be reported again in the very block that accumulates it |
| SequentialAccumulation.SingleStep | pyjamaz/state/components.py:2637-2693 | a service's gas is its always-accumulate allowance plus that of its transfers and of its digests, with those as inputs in order |
| SequentialAccumulation.ParallelAccumulation | pyjamaz/state/components.py:2353-2465 | one invocation for each service concerned in increasing order; the emitted transfers, the gas used and the outputs for the commitment are collected in that order |
| SequentialAccumulation.AllotmentsAddUp | pyjamaz/state/components.py:2637-2693 | the allotments of a round's services add up to exactly what the round reserved |
| SequentialAccumulation.RoundIsMetered | pyjamaz/state/components.py:2353-2465 | a round uses at most what it reserved and at least what its transfers cost and forward |
| SequentialAccumulation.CountFitting | pyjamaz/state/components.py:2288-2301 | the counting loop finds the longest prefix of reports that fits after the reservations |
| SequentialAccumulation.Fitting | pyjamaz/state/components.py:2288-2301 | the prefix fits if it is not empty, and with one report more it would not |
| SequentialAccumulation.NextLimit | pyjamaz/state/components.py:2320-2324 | the next limit is not negative, covers the gas set aside for its transfers, and is smaller if any transfer was emitted |
| SequentialAccumulation.FullSequentialAccumulation | pyjamaz/state/components.py:2259-2351 | the recursion ends, by reports left, then gas, then transfers and always-accumulators, and computes the rounds with their transfers, gas and commitment |
| SequentialAccumulation.GasIsBounded | pyjamaz/state/components.py:2259-2351 | gas used minus gas forwarded never exceeds the limit, every further transfer has been paid for, the given ones are processed, accumulation only stops before a report that does not fit in what is left, and whatever every round keeps holds of the final state |
| SequentialAccumulation.BlockIsBounded | pyjamaz/state/components.py:2211-2229 | with the limit of a block the reservations are covered, and the transfers processed cost at most the limit |
| ParallelMerge.MergeServiceChanges | pyjamaz/state/components.py:2587-2634 | the loops over outputs and maps take own and new accounts with their entries, let deletions win, and fail on two makers of one account |
| ParallelMerge.TakenAre | pyjamaz/state/components.py:2612-2622 | the merge fails exactly if two different writers make the same new account; otherwise each account comes from the one that may write it |
| ParallelMerge.EntriesAre | pyjamaz/state/components.py:2623-2631 | an entry is merged exactly if an owner of its account or a deletion accounts for it, deleted ones as deletions |
| ParallelMerge.OwnerIsUnique | pyjamaz/state/components.py:2612-2631 | without a conflict an account that stays has at most one owner among the outputs |
| ParallelMerge.MergeIsOrderFree | pyjamaz/state/components.py:2587-2634 | any order of the outputs gives the same maps, or a conflict in every order |
| MergeLaws.ComesFromOwner | pyjamaz/state/components.py:2612-2631 | an account that stays, and all its entries, look as its owner left them |
| MergeLaws.Unowned | pyjamaz/state/components.py:2612-2631 | an account that no output owns looks as before the round |
| MergeLaws.DeletedLeavesNothing | pyjamaz/state/components.py:2604-2634 | no entry of a deleted account survives the merge |
| MergeLaws.MergeKeepsSound | pyjamaz/state/components.py:2587-2634 | if every invocation left exact footprints, deposits and no orphans, so does the merged state |
| ServiceIds.CheckServiceId | pyjamaz/models/state.py:1595-1606 | the search ends at a public id that no account uses |
| ServiceIds.SearchEndsExactly | pyjamaz/models/state.py:1595-1606 | the search for an unused id ends if and only if there is one |
| ServiceIds.NextIdIsNewExactly | pyjamaz/hostcalls/accumulate.py:404-412 | the id kept for the next account differs from the one just given away exactly if some id is free other than it and the 41 after it |
| ServiceIds.LastIdIsKept | pyjamaz/hostcalls/accumulate.py:404-412 | an example: when all public ids but one are taken and that one is given away, the next id is the same one again |
| ServiceIds.FewAccountsLeaveRoom | pyjamaz/models/state.py:1595-1606 | with fewer accounts than public ids by more than 42 the next id is always a new one |
| AccumulateContext.ServicesState.StoreAccount | pyjamaz/models/state.py:637-673 | a stored account is seen at once over the base state, also after a deletion |
| AccumulateContext.ServicesState.DeleteAccount | pyjamaz/models/state.py:675-704 | a deleted account is no longer seen, though the base state has it |
| AccumulateContext.ServicesState.RetrieveAccount | pyjamaz/models/state.py:605-635 | a read sees the pending change, also a deletion, before the base state |
| AccumulateContext.ServicesState.FindUnusedId | pyjamaz/models/state.py:1595-1606 | the recursion over pending and base accounts is the search over those seen |
| AccumulateContext.AccumulateContext.Write | pyjamaz/hostcalls/general.py:254-361 | write over pending changes: footprint first, refused if the deposit is not covered, an empty value deletes |
| AccumulateContext.AccumulateContext.New | pyjamaz/hostcalls/accumulate.py:307-420 | new over pending changes: the checks in order, the deposit moved to the new account, its code requested, the next id found |
| AccumulateContext.AccumulateContext.Upgrade | pyjamaz/hostcalls/accumulate.py:426-481 | upgrade replaces the code hash and the gas limits of the caller only |
| AccumulateContext.AccumulateContext.Send | pyjamaz/hostcalls/accumulate.py:484-586 | transfer charges the call and the forwarded gas of a valid transfer first, and changes nothing when that cannot be paid |
| AccumulateContext.AccumulateContext.Eject | pyjamaz/hostcalls/accumulate.py:592-680 | eject checks the consent, the two items and the expired request, then takes the account, its request and its blob and adds its balance |
| AccumulateContext.AccumulateContext.Solicit | pyjamaz/hostcalls/accumulate.py:779-878 | solicit opens a request, or reopens one that became unavailable, if the deposit is covered |
| AccumulateContext.AccumulateContext.Forget | pyjamaz/hostcalls/accumulate.py:882-986 | forget closes, deletes or restarts a request by its state and age |
| AccumulateContext.AccumulateContext.Provide | pyjamaz/hostcalls/accumulate.py:1039-1124 | provide refuses lengths from 2 to the 32nd, fails on memory that cannot be read, and notes a blob once for an account that still waits for it |
| AccumulateContext.InvocationContext.constructor | pyjamaz/hostcalls/models.py:65-118 | an invocation starts with two separate contexts on the same services |
| AccumulateContext.InvocationContext.Checkpoint | pyjamaz/hostcalls/accumulate.py:265-303 | the savepoint becomes a copy of the regular context that shares nothing with it |
| AccumulateContext.InvocationContext.Execute | pyjamaz/pvm/invocation.py:135-205 | a host call pays its price, then changes the regular context alone; running out of gas or a panic ends the run |
| Footprints.CallKeepsSound | pyjamaz/models/state.py:479-511 | after any host call each account's item and octet counters equal the sums over its items and requests, no stored value is empty, everything stored has its account, and every blob answers a request |
| Footprints.WriteKeeps | pyjamaz/hostcalls/general.py:295-359 | adding, changing or deleting an item keeps the counters exact |
| Footprints.OnlyEntry | pyjamaz/hostcalls/accumulate.py:646-664 | an account with two items and a request stores just that request and at most its blob, and its octets tell the request's length |
| Footprints.EjectOrphansNothing | pyjamaz/hostcalls/accumulate.py:669-677 | a successful ejection removes the account's only request and blob and leaves nothing of it behind |
| Balances.CallConserves | pyjamaz/hostcalls/accumulate.py:367-420 | any host call keeps the sum of all balances and deferred amounts |
| Balances.CallKeepsSolvent | pyjamaz/models/state.py:403-409 | after any host call every account has at least its threshold balance |
| Balances.CallKeepsIds | pyjamaz/hostcalls/accumulate.py:395-410 | the caller stays, at most one account is added, and the next id stays unused exactly if a call that gives it away finds a free id beyond the 41 that follow it |
| Availability.HistoryIsStable | pyjamaz/models/state.py:763-773 | whatever calls, provisions and preimages happen in a slot, the availability answer for any slot before it within the expunge period does not change |
| Availability.LookupIsStable | pyjamaz/models/state.py:739-781 | the blob a past lookup gives does not change either, if each hash is only requested at its true length |
| Availability.ForgetChangesLookupExactly | pyjamaz/hostcalls/accumulate.py:940-950 | forgetting changes a past lookup exactly if it deletes a request while the blob was available, which is then of another length |
| Availability.ChangeLosesExactly | pyjamaz/models/state.py:739-781 | of all that can happen in a slot, just two things change a past lookup: a forget that deletes a request of the hash at another length, and a provision of another blob with the same hash as the one it overwrites |
| Availability.WrongLengthLosesBlob | pyjamaz/hostcalls/accumulate.py:940-950 | an example: forgetting a second request, at a wrong length, loses a blob that was available |
| Availability.ArrivedKeepsSound | pyjamaz/state/components.py:2119-2149 | a preimage that answers an open request keeps the books exact |
| Invocation.RunIsSafe | pyjamaz/pvm/invocation.py:135-205 | at every moment of every run in which each id given away leaves room for another, in the regular and in the savepoint context, the books are exact, the supply is as at the start, deposits and past availability are kept, and gas has been paid |
| Invocation.RoomyIsSpacious | pyjamaz/hostcalls/accumulate.py:404-412 | with fewer accounts and events together than public ids by more than 42, no run lacks room |
| Invocation.InvocationIsSafe | pyjamaz/hostcalls/invocation.py:184-277 | whichever context is taken at the end, balances and transfers add up to the balances before and the transfers credited, every deposit is kept, footprints are exact, and the gas used lies between what the transfers cost and the limit |
| Invocation.InvocationIsMetered | pyjamaz/pvm/invocation.py:246-250 | the gas an invocation reports is at most its limit and covers the cost and the forwarded gas of every transfer it emits, as the rounds of an accumulation assume |
| Rounds.LeftIsOrderly | pyjamaz/hostcalls/invocation.py:249-277 | the output of an invocation, whatever its code did, leaves the services it saw in order and every past answer as it was |
| Rounds.RoundIsOrderly | pyjamaz/state/components.py:2353-2556 | the merged outputs of a round's invocations keep footprints, deposits and ownership exact and every past answer as it was |
| Rounds.SlotIsOrderly | pyjamaz/state/components.py:2259-2351 | through all rounds of a slot and all preimages that arrive in it the services stay in order and no answer about a past slot changes |
| BlockAccumulation.CodeIsMetered | pyjamaz/hostcalls/invocation.py:184-277 | the output of any code is metered by the gas it was given and is one the merge accepts |
| BlockAccumulation.RoundIsGood | pyjamaz/state/components.py:2353-2556 | a round of any code, its merge and the integration of all provided preimages keep the services in order and their past as at the start of the block |
| BlockAccumulation.BlockIsSafe | pyjamaz/state/components.py:2259-2556 | the whole accumulation of a block, whatever code its services run: gas is bounded and transfers paid for, footprints, deposits and ownership are exact, and no past answer changes |
| BlobHistory.RunRecalls | pyjamaz/hostcalls/invocation.py:184-277 | at every moment of a run that names every hash at its blob's length, past lookups find in both contexts what they found before it |
| BlobHistory.MergeRecalls | pyjamaz/state/components.py:2587-2634 | if every output leaves past lookups as they were, so does the merge, also for accounts that are deleted |
| BlobHistory.BlockRecalls | pyjamaz/state/components.py:2259-2556 | through all rounds, merges and provisions of a block whose services name every hash at its blob's length, a lookup at a past slot finds the same blob or nothing as before |
| Storage.StateStorage.Get | pyjamaz/state/storage.py:120-146 | the lookup loop reads the transaction, then the change sets up the parents, then the base, and fails on a circle |
| Storage.StateStorage.AsDict | pyjamaz/state/storage.py:180-207 | the merge from the newest change set down is the full map the chain of changes gives |
| Storage.StateStorage.AsDictAt | pyjamaz/state/storage.py:214-246 | the full map of any block on the finalized branch is what its chain of changes gives; other blocks are unavailable |
| Storage.StateStorage.SetBlockHash | pyjamaz/state/storage.py:68-81 | a block is selected on a known parent with an empty transaction |
| Storage.StateStorage.Commit | pyjamaz/state/storage.py:339-350 | the transaction becomes the block's change set |
| Storage.StateStorage.DiscardCandidate | pyjamaz/state/storage.py:360-385 | the candidate's changes and parent go, and the former selection comes back |
| Storage.StateStorage.Finalize | pyjamaz/state/storage.py:255-324 | the path's changes are written oldest first in one batch, other forks and their parents are dropped, and errors leave the store as it was |
| Storage.ApplyBatch | pyjamaz/storage.py:75-91 | a batch applied on exit is its changes applied at once |
| Storage.ApplyMerged | pyjamaz/state/storage.py:296-311 | applying merged changes once is applying them one after another |
| ForkLaws.ReadersAgree | pyjamaz/state/storage.py:120-246 | reading a key and both full maps agree with the block's view at every key, also with a transaction open |
| ForkLaws.CircleIff | pyjamaz/state/storage.py:120-146 | naming a block with a parent makes its chain run in a circle exactly if the chain of the parent already has it |
| ForkLaws.BuildingOnGenesisRaises | pyjamaz/state/storage.py:83-84 | with the all-zero parent of genesis recorded, reading the temporary block built on genesis fails |
| ForkLaws.ImportRefines | pyjamaz/state/storage.py:339-350 | a committed import, also under a name in use, gives its block the parent's view updated by the writes, builds what is above that block on the new view, and changes no other view |
| ForkLaws.ReimportKeepsExactly | pyjamaz/state/storage.py:68-81 | importing again under a retained name keeps a view exactly if the name is not on its branch or every key on which the two views of that name differ was written above it |
| ForkLaws.RejectKeepsExactly | pyjamaz/state/storage.py:360-385 | discarding a candidate keeps a view exactly if the candidate is not below it, and then unchanged |
| ForkLaws.RejectFreshRefines | pyjamaz/app.py:703-716 | a rejected fresh candidate leaves every view as it was |
| ForkLaws.FinalizeRefines | pyjamaz/state/storage.py:255-324 | finalizing keeps the block and exactly its descendants, each with its view unchanged, and the base becomes the block's view |
| ForkRuns.RunRefines | pyjamaz/state/storage.py:68-385 | over any well-formed run, with imports under new and retained names, the store shows what a plain map from block to full state shows |
| MountainRange.MerkleMountainRange.GetItemCount | pyjamaz/merkle.py:119-123 | the occupied places read as binary digits |
| MountainRange.MerkleMountainRange.Insert | pyjamaz/merkle.py:129-178 | the insertion in place, with its shift and its early join, is the recursive append of Appendix E |
| MountainRange.CarryDivides | pyjamaz/merkle.py:167-178 | the divisibility test of the loop holds for exactly the places that carry |
| MountainRange.LengthIsBits | pyjamaz/merkle.py:144-145 | the bit lengths compared tell exactly when all places are taken |
| MountainPeaks.PeaksAreRuns | pyjamaz/merkle.py:119-178 | after any insertions the occupied places are the binary digits of their number and each peak is the root of the perfect tree over its run of leaves |
| MountainPeaks.TreeOfPairs | pyjamaz/merkle.py:125-127 | joining pairs of leaves first gives the same perfect root |
| ConstantDepth.Trace | pyjamaz/merkle.py:241-256 | the loop from the root down lists the siblings on the way to the leaf |
| ConstantDepth.Verify | pyjamaz/merkle.py:258-268 | the loop from the last sibling up accepts exactly proofs of hashes, with an index in range, that climb to the root |
| ConstantDepth.ProofsAreAccepted | pyjamaz/merkle.py:240-279 | the traced proof of any segment has the tree's depth and is accepted |
| ConstantDepth.AcceptedIsReal | pyjamaz/merkle.py:258-268 | if a segment that is not the real one is accepted at an index with a proof of the tree's depth, a computed pair is a collision: one of the verifier's own hash inputs, and a different one on the tree's path with the same hash |
| ConstantDepth.DepthIsLeast | pyjamaz/merkle.py:281-287 | the depth is the least whose power of two holds all segments |
| ConstantDepth.PagedProofs | pyjamaz/availability.py:170-180 | one page for every 64 segments, with the shared path and the leaf hashes, encoded and padded with zeros to whole segments |
| ConstantDepth.PagesProve | pyjamaz/availability.py:170-180 | a page's path followed by the proof inside the page is the whole proof of each of its segments |
| ConstantDepth.PagesReadBack | pyjamaz/availability.py:170-180 | each segment of pages is whole and reads back, despite its padding, as the page of its 64 segments |
| TreeProofs.ClimbTop | pyjamaz/merkle.py:263-268 | climbing by last digits and last siblings ends with the first sibling on the side of the first digit |
| TreeProofs.ClimbPairsAreJoined | pyjamaz/merkle.py:263-268 | the recorded pairs are what the climb joins: the first gives its result, the last holds its start, and each is joined into the one above it |
| TreeProofs.ClimbIsSound | pyjamaz/merkle.py:258-268 | a climb to the root from another value joins, at the first level where its pair differs from the tree's, two pairs with one branch |
| TreeProofs.TraceSplits | pyjamaz/merkle.py:241-256 | a proof is the path to a block of leaves, then the proof inside the block, at any level |
| Safrole.SafroleState.Transition | pyjamaz/state/components.py:300-517 | the marker, the sealing series and the accumulator as the transition computes them; a refused block changes nothing |
| Tickets.LowestOfLowest | pyjamaz/state/components.py:498-507 | sorting and cutting after every block is cutting once the sorted list of all |
| Tickets.OutsideInAt | pyjamaz/utils.py:15-16 | the zip of the first half with the reversed second half puts the first items at the even places and the last at the odd ones |
| Tickets.OutsideInPermutesExactly | pyjamaz/utils.py:15-16 | outside-in is a permutation exactly for an even number of items |
| Safrole.AccumulatorIsLowest | pyjamaz/state/components.py:498-511 | after any run the accumulator is the lowest E of the tickets submitted in this epoch, in order |
| Safrole.SealedByMarker | pyjamaz/state/components.py:384-426 | tickets seal a new epoch exactly if none was skipped and a marker was emitted in the one before; they are that marker, a permutation of the accumulator |
| Tickets.LowestDistinctExactly | pyjamaz/state/components.py:498-511 | adding ordered tickets to distinct other ones gives lowest tickets with an id twice exactly if two neighbours with one id both have their place among them |
| Safrole.DistinctNextExactly | pyjamaz/state/components.py:498-532 | after an accepted block on an accumulator of distinct ids, the ids are distinct exactly if no two neighbouring tickets of the block share an id while both fit below the cut |
| Safrole.DistinctRunExactly | pyjamaz/state/components.py:498-532 | over a whole run no accumulator has an id twice exactly if no block of it is such a one |
| Safrole.AscendingIsDistinct | pyjamaz/state/components.py:529-532 | if every block of the epoch is strictly ascending, no id stands twice in the accumulator |
| Safrole.SameIdTwice | pyjamaz/state/components.py:529-532 | an example: a block with two tickets of the same id is accepted, and both enter the accumulator |
| HeapLayout.RegionsAreApart | pyjamaz/pvm/types.py:292-322 | for any page size and any zone that is a multiple of it, under the size check read-only data, heap, stack and arguments follow one another, each a zone or more apart |
| HeapLayout.FitsExactly | pyjamaz/pvm/types.py:382-387 | the size check holds exactly if the heap ends a whole zone below the zones of the stack, for any page and zone size |
| HeapLayout.ProgramMemory.constructor | pyjamaz/pvm/types.py:292-322 | the memory a program starts with |
| HeapLayout.ProgramMemory.Grow | pyjamaz/hostcalls/general.py:22-62 | growing counts the writable heap pages, prices the new ones, and makes them writable if the gas allows |
| HeapLayout.GrowKeeps | pyjamaz/hostcalls/general.py:22-62 | the heap stays one run of pages, never shrinks, and the gas is that of a query plus that of the pages gained |
| HeapLayout.HeapStaysBelowStack | pyjamaz/hostcalls/general.py:22-62 | after any calls the heap ends a whole zone below the stack, and all calls cost a query each plus 121 for each page gained, for any page and zone size |

## Left out

- Signatures, ring proofs, Blake2b, Keccak, erasure coding, networking, RPC, the command line, logging and caches: a hash is any function from bytes to 32 bytes, proofs and signatures are truth values of a block.
- PVM instruction execution: a run is any finite list of gas burns and host calls; memory that cannot be read is a missing argument.
- The gas prices of the host calls other than transfer, checkpoint and grow_heap: a call has any price.
- Which error code a refused block raises, and the checks on a report or a block that concern it alone: they are summed up in one truth value.
- The privilege merge of assigners, delegator and registrar, the validator and authorizer queues, statistics, and block production.
- `bless`, `assign`, `designate`, `query`, `yield`, `lookup`, `read`, `info` and `fetch`: none of them changes accounts; an invocation's output for the commitment is any hash or none; whether the caller is manager or registrar is an argument of `new`.
- Supply over a whole round: an account ejected and made again in one invocation keeps its prior record, and a transfer to a vanished account is not credited; conservation is per invocation.
- Sizes of machine integers in accounts: balances, counters and ids are unbounded; an id from 2 to the 32nd on simply has no account.
- The serialization of a page: any codec whose encodings read back, whatever follows them.
- The Patricia trie and the super peak: pure recursions whose caches are the larger part.
- The compatibility settings of `grow_heap` other than the defaults.
- `pyjamaz/pvm/basic_block.py` from the jump targets on: the gas model only needs the instruction starts.
- The transaction's key prefixes, `put` of nothing, `update_temporary_block_hash`, `rollback`, `clear` and the map of ancestors in the store.
- AccumulationQueue.Edit: dependency lists are sets, so their order and repetitions are not captured.
- HeapLayout.ProgramMemory.Grow: page and zone sizes are rounded in integers, where the code divides as floating point; the results agree for sizes below 2 to the 53rd.
- ConstantDepth.DepthIsLeast: the depth is an integer bit length, where the code takes the ceiling of a floating-point logarithm.
- SequentialAccumulation.ParallelAccumulation: the state a round hands on is a value; that the code updates one object in place, the privileges and queues in it, and the thread-pool variant, are not captured.
- BlockAccumulation.BlockIsSafe: every id that an invocation gives away leaves room for another one; where it does not, the next id is one in use, and the next account made replaces that one.
- ParallelMerge.MergeServiceChanges: the merged changes are values; publishing and writing them to the store are not captured.
- Safrole.SafroleState.Transition: validator keys, the ring commitment and the epoch marker are not part of the state; the fallback keys are one value.

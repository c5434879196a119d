# Block production in IronDAG, verified

A Dafny 4.11 model of the half of the IronDAG node that produces blocks, with proofs of what it keeps. It covers

- the three-stream mempool and the block pipeline of `mining.rs`: pools with their counters, the drain loop, the
  in-flight and membership sets, future-nonce queues, the block number allocator, the mining workers and the block
  processor as one step system, trimming, fee settlement, the base fee and the reward schedule;
- proof of work in `pow.rs`: the difficulty test, header encoding, the memory-hard hash over a reused buffer with its
  wide XOR loops, the sequential and the threaded nonce search, difficulty adjustment and the transactions root;
- atomic batches (`batch.rs`), sponsor budgets (`gas_sponsorship.rs`), and two loops of `network.rs`: batch
  synchronisation and the subnet round-robin.

Check everything with `dafny verify dfyconfig.toml`.

## How the system is modelled

- Code that only computes is a function. Loops and in-place updates are methods, on arrays where the source updates a
  buffer and on classes where it updates an object's fields; each is proved against a specification function, and the
  laws are lemmas about that function.
- Concurrency is a step system. `Pipeline` has any number of workers, each on some stream, any number of submissions
  under way, one processor, and the shared pools, sets and allocator; one step is one locked region or one atomic
  access, but for the merged ones listed at the end, and every theorem about runs holds for every interleaving. A counter update made under a pool's lock belongs
  to that region; the increment after an admission's push is made after the lock is gone and is its own step. A drain
  holds its pool's lock, and a promotion the queues' lock, throughout; the model lets other steps come in between,
  which only adds runs. Lemmas about one operation as a whole speak of it left alone, and `SoloDrain` and `Admission`
  show that the small steps add up to it. `Parallel` does the same for the threads of the nonce search, down to each
  atomic load and store.
- Blake3 and Keccak are arbitrary functions from byte strings to 32 bytes. Clocks, chain state, the chain's verdict on
  a block, the library sort, the ordering policy and hash-map iteration order are parameters, so each law holds for
  every value they take. Clocks count nanoseconds; ages are whole seconds where the source truncates them.
- Where the source relies on a fixed integer width the width is written out (wrapping gas counter, wrapping pool
  counters and fee sums, saturating sums, 64-bit nonces); elsewhere numbers are unbounded.

## Where the code and its comments differ

The model follows the code.

- `difficulty_to_target` is documented as a division by the difficulty; it fills in 2^(256 - d) - 1.
- `adjust_difficulty` is documented with a factor of 4; the code damps to between 0.667 and 1.5.
- The sponsor window is documented as rolling; it tumbles, so two days' budget fits in two blocks.
- The drain loop says order does not matter after sorting by fee; the second entry popped is the worst-paying one.
- Promotion says the hash is added back to the membership set; it is not.
- The per-stream caps are called hard; an addition that evicts nothing still pushes.
- Rollback is documented for completed operations; the failing one is reverted too.
- The periodic clean-up of reservations says 60 seconds; the code waits 300.
- `calculate_total_fee` is documented as what a sender pays, and nothing calls it: settlement follows the per-gas caps,
  the chain debits the `fee` field, and the two need not agree.

## Model

| member | source | states |
|---|---|---|
| `Exclusion.RunExclusion` | irondag-blockchain/src/mining.rs:2232-2248 | In every run in which the in-flight set was never wiped, the lists held by all workers, all queued blocks and the processor are duplicate-free, pairwise disjoint and inside the in-flight set |
| `Exclusion.ClaimExclusiveExactly` | irondag-blockchain/src/mining.rs:2234-2248 | A claim keeps all holdings inside the set if and only if the set is within 10,000 or nobody holds anything; a wiping claim puts a transaction in two blocks if and only if it was already held |
| `Witnesses.WipeRun` | irondag-blockchain/src/mining.rs:2236-2248 | A start with filled pools and empty sets has a run in which stream A claims 10,000 transactions, stream B one more and then one that A holds: it ends with that transaction in both blocks |
| `Witnesses.WipeDoubles` | irondag-blockchain/src/mining.rs:2212-2248 | Whenever the set stands at its limit, an idle worker with a new transaction in its pool, and one somebody else holds that pays no more, can put the second into its own block as well |
| `Exclusion.ClaimKeeps` | irondag-blockchain/src/mining.rs:2215-2259 | One turn of a worker's drain loop keeps holdings, counted hash by hash across everyone, within the in-flight set |
| `Exclusion.MinedKeeps` | irondag-blockchain/src/mining.rs:2423-2469 | Handing a mined block to the processor, delivered or lost, keeps exclusion |
| `Exclusion.ClearStepKeeps` | irondag-blockchain/src/mining.rs:2359-2365 | Taking back one worker's claims never takes away a hash somebody else holds |
| `Exclusion.OutsideKeeps` | irondag-blockchain/src/mining.rs:3505-3509 | Every processor step (refuse, reset, hand back, commit, clear, close) and every step of a submission, expiry or clean-up keeps exclusion; where the transactions themselves go is said by `Conservation.StepConserves` |
| `Conservation.RunConserves` | irondag-blockchain/src/mining.rs:2193-2502 | Over every run, for every transaction and copy for copy: what pools, queues and hands hold at the end, plus what was lost on the way, plus what went to the chain, is what they held at the start plus what was submitted |
| `Conservation.StepConserves` | irondag-blockchain/src/mining.rs:3476-3770 | Each step accounts for every copy; the only losses are expired or already claimed pops, copies of claimed transactions in other pools, blocks without parents, trimmed tails, undelivered blocks, rejections, the lowest-paying entry of an eviction, and sweeps |
| `Conservation.RefusedToLegacy` | irondag-blockchain/src/mining.rs:3496-3503 | A refused block makes the legacy pool longer by exactly its transactions, in order, each with a fresh arrival time, and they are counted |
| `Conservation.RefusedKept` | irondag-blockchain/src/mining.rs:3672-3678 | Whatever run follows the hand-back, the dropping of the claims included, all of a refused block is in the legacy pool until a sweep comes 600 seconds later |
| `Conservation.RunHandsBack` | irondag-blockchain/src/mining.rs:3529-3540 | In every run without a sweep of the legacy pool, whenever a refused block's claims are about to be dropped, all its transactions are in that pool |
| `Blocks.RunWithin` | irondag-blockchain/src/mining.rs:2194-2215 | In every run no worker holds, and no queued block has, more than 10,000, 5,000 or 1,000 transactions by its stream |
| `Blocks.RunQueue` | irondag-blockchain/src/mining.rs:3476-3484 | Blocks are processed in the order of delivery: queue plus delivered is taken plus queue, over every run |
| `Blocks.RunSubsidy` | irondag-blockchain/src/mining.rs:3513-3514 | What is credited over a run is exactly the subsidy of the blocks committed in it, each at its own number and for its own stream |
| `Blocks.RunMatches` | irondag-blockchain/src/mining.rs:434-449 | In every run without set-backs a reservation is for the stream of the block being mined or queued under its number |
| `Blocks.RunFollows` | irondag-blockchain/src/mining.rs:401-528 | The pipeline refines the allocator: over every run its allocator is where the requests made, in order, take the allocator alone, and the numbers issued are those it handed out |
| `Blocks.TooFarResets` | irondag-blockchain/src/mining.rs:3522-3527 | A block more than 50 ahead of the chain is refused, and the reset leaves nothing reserved and the height plus one as the next number |
| `Leaks.StepBalancedExactly` | irondag-blockchain/src/mining.rs:2340-2344 | From a state where the in-flight set is exactly what is held, a step keeps that if and only if it is not one of three: no parents, a trimmed tail, an undeliverable block |
| `Leaks.RunBalanced` | irondag-blockchain/src/mining.rs:3692-3698 | Over every run without those three and without a wipe, the in-flight set is exactly what is held: returns, refusals and commits give back every claim |
| `Leaks.RunLeaked` | irondag-blockchain/src/mining.rs:2240-2247 | Until the set is wiped a leak is for good: over every run a hash in flight that nobody holds stays there and nobody ever holds it again, so its transaction cannot be mined |
| `Witnesses.LeakRun` | irondag-blockchain/src/mining.rs:2340-2344 | Every transaction not yet expired can be leaked: a start with it pooled and empty sets has a run that drains it, finds no parents, and leaves its hash in flight with nobody holding anything |
| `Ledger.RunCounted` | irondag-blockchain/src/mining.rs:1502-1524 | In every run each stream counter plus the pushes whose increment is still to come equals its pool's length, so it is below zero if and only if more pushes are uncounted than pooled; the legacy counter always matches |
| `Ledger.RunReckoned` | irondag-blockchain/src/mining.rs:1502-1524 | With no push outstanding all four counters equal their pools' lengths, after every run |
| `Witnesses.UnderflowRun` | irondag-blockchain/src/mining.rs:1512-1513 | A start with one expired entry pooled and empty sets has a run in which a drain drops that entry, if it pays no less than a newcomer, and takes the newcomer, pushed and not yet counted: the counter goes to -1 and a load yields 2^64 - 1 |
| `Admission.SubmissionAlone` | irondag-blockchain/src/mining.rs:1610-1720 | The admission steps, one lock or atomic access each, refine the whole: a submission left alone ends exactly as the admission function says, accepted or rejected |
| `Admission.AdvanceGap` | irondag-blockchain/src/mining.rs:1456-1572 | Every admission step changes the gap between a pool and its counter by exactly what the submission comes to owe |
| `Ledger.RunSupply` | irondag-blockchain/src/mining.rs:3645-3661 | In every run, if the number counter was set back k times, no number is rewarded more than k + 1 times and all subsidy paid is below (k + 1) x 2 x HALVING_INTERVAL x STREAM_A_REWARD: distinct numbers without set-backs, and below MAX_SUPPLY for up to six |
| `Ledger.RunNumbered` | irondag-blockchain/src/mining.rs:434-449 | In every run the numbers being mined, queued or rewarded are issued ones, none more often than it was issued; none was issued more than once per set-back and once more, and without set-backs the issued numbers strictly increase |
| `Reservations.RunAgrees` | irondag-blockchain/src/mining.rs:2373 | Over every run without resets, stale clean-up or lost blocks, the pending numbers are exactly those of live blocks, each held by one block |
| `Reservations.CloseAgrees` | irondag-blockchain/src/mining.rs:3754-3759 | In such runs the confirmation of a committed block always finds its number reserved |
| `Reservations.RefuseAgrees` | irondag-blockchain/src/mining.rs:3486-3511 | Refusing a block releases exactly its own number |
| `Allocator.AllocationSound` | irondag-blockchain/src/mining.rs:401-493 | In every reset-free, upward-only run reserved numbers strictly increase, pending ones are below next, and each reserved number is in exactly one of pending, confirmed, released, stale; in every run at all the free list stays empty |
| `Allocator.ResetReissues` | irondag-blockchain/src/mining.rs:424-431 | After a reset, made of its three separate accesses, the same number can be reserved and confirmed a second time, from any start |
| `Allocator.NumbersConsecutive` | irondag-blockchain/src/mining.rs:434-449 | In every run that does not set the counter the i-th number handed out is the i-th from the start |
| `Allocator.ReservationKept` | irondag-blockchain/src/mining.rs:434-493 | A number handed out stays reserved, for its stream and from its time, over every run that does not close it, clear the map or set the counter back, while no clean-up comes more than five minutes later |
| `Allocator.CleanupExact` | irondag-blockchain/src/mining.rs:479-493 | A clean-up drops exactly the reservations more than 300 seconds old |
| `Allocator.FailedCounted` | irondag-blockchain/src/mining.rs:466-528 | Over every run the failure counter grows by the releases that found their number and by the stale numbers of counting clean-ups |
| `Allocator.BlockNumberAllocator.ReserveNumber` | irondag-blockchain/src/mining.rs:434-449 | Hands out the smallest free number or the next one, records it pending, and changes nothing else |
| `Allocator.BlockNumberAllocator.CleanupStale` | irondag-blockchain/src/mining.rs:479-493 | Removes and returns exactly the reservations older than five minutes |
| `Pools.DrainPartition` | irondag-blockchain/src/mining.rs:2207-2260 | A drain splits the pool as a multiset into claimed, expired, already in flight and left over; ages sort each entry to its part; the counter falls by what was popped; fewer than asked are claimed only when the pool ran dry |
| `Pools.DrainClaims` | irondag-blockchain/src/mining.rs:2232-2251 | While the set has room, claimed hashes are distinct, new to the in-flight set and exactly what is added to it; skipped ones were in it |
| `Pools.DrainForgets` | irondag-blockchain/src/mining.rs:2215-2258 | Claimed, expired or skipped, a popped entry's hash leaves the membership set, and no other hash does |
| `Pools.ExpiredExactly` | irondag-blockchain/src/mining.rs:366-368 | A drain calls an entry expired exactly from 601 whole seconds on |
| `Pools.DrainTakesHighestExactly` | irondag-blockchain/src/mining.rs:2211-2218 | What a drain pops pays at least as much as what it leaves if and only if at most one entry or the whole pool is popped, or all entries after the first pay alike |
| `Pools.DrainTakesHighestBeforehand` | irondag-blockchain/src/mining.rs:2194-2218 | Told before the drain: when every entry is claimable, it takes the best-paying ones if and only if it asks for at most one or the whole pool, or all entries after the first pay alike |
| `Pools.SecondBestLeftBehind` | irondag-blockchain/src/mining.rs:2211-2218 | Of fees 3, 2 and 1 with room for two, the drain leaves the 2 behind |
| `Pools.DrainClaimsAll` | irondag-blockchain/src/mining.rs:2214-2259 | When nothing is too old, claimed or doubled, a drain pops exactly the smaller of the count and the pool |
| `Pools.DrainRest` | irondag-blockchain/src/mining.rs:2218 | After k removals from the front the pool is the k-th last entry followed by entries 1 to n - k - 1, in order |
| `Mempool.DrainStreamSound` | irondag-blockchain/src/mining.rs:2193-2286 | A drain with its clean-up keeps all counters right, splits its own pool exactly, and takes from each other stream exactly the copies of what was claimed |
| `Mempool.DrainThenReturn` | irondag-blockchain/src/mining.rs:2350-2368 | Draining and giving back restores the in-flight set and pools every claimed transaction again, none of them covered by the membership set |
| `Mempool.CapKeptExactly` | irondag-blockchain/src/mining.rs:1456-1524 | For an addition left alone: a pool is within its cap afterwards if and only if it was below it, or on it with some entry out-bid; other pools do not change |
| `Mempool.AdditionExact` | irondag-blockchain/src/mining.rs:1456-1524 | An addition makes the newcomer the last entry of the pool whose turn it is and changes no other pool; it evicts exactly when that pool is full and some entry pays less, and then one that pays least |
| `Mempool.RotationExact` | irondag-blockchain/src/mining.rs:1458-1508 | Turns go from stream to stream, except that the 64-bit counter wraps from stream A to stream A; a single stream is always A |
| `Mempool.EvictionExact` | irondag-blockchain/src/mining.rs:1271-1318 | For a newcomer that pays more than some entry exactly one entry goes, one that pays least, with its counter and hash |
| `Mempool.NoEviction` | irondag-blockchain/src/mining.rs:1293-1300 | For one that pays no more than any entry nothing changes |
| `Mempool.CoverageKeptExactly` | irondag-blockchain/src/mining.rs:1662-1674 | The membership set covers all pooled transactions after an admission if and only if the admission promoted nothing |
| `Coverage.StepCoversExactly` | irondag-blockchain/src/mining.rs:3700-3706 | From covered pools without duplicates, a pipeline step uncovers a pooled transaction if and only if it forgets a hash still pooled (rejection, promotion, close of a block, sweep of legacy pool or queues) or pools an entry whose hash is not in the set (a return, an addition's push) |
| `Mempool.PromotionUncovers` | irondag-blockchain/src/mining.rs:1541-1557 | Every promotion leaves some pooled transaction out of the membership set |
| `Mempool.RejectionChangesNothing` | irondag-blockchain/src/mining.rs:1610-1719 | A rejected transaction leaves every pool, queue, set and counter as it was |
| `Mempool.AdmissionDecided` | irondag-blockchain/src/mining.rs:1610-1720 | A transaction is admitted exactly when it is new, pays the base fee and has the chain's nonce or room to wait; each of the six errors has its own exact condition |
| `Mempool.ReadyPlaced` | irondag-blockchain/src/mining.rs:1662-1674 | With the chain's nonce it is added to the pools, and what its sender has queued from the nonce read anew is promoted |
| `Mempool.FutureWaits` | irondag-blockchain/src/mining.rs:1675-1706 | With a later nonce it waits in its sender's queue under that nonce, and nothing else changes but that its hash is known |
| `Mempool.PromoteQueues` | irondag-blockchain/src/mining.rs:1535-1572 | Promotion takes out of one sender's queue exactly the unbroken run of nonces from the given one, touches no other queue and drops one it emptied |
| `Mempool.AdmissionCounted` | irondag-blockchain/src/mining.rs:1610-1720 | An admission left alone, with eviction and promotion, keeps every counter equal to its pool's length |
| `Mempool.AdmissionQueuesValid` | irondag-blockchain/src/mining.rs:1675-1706 | Future queues stay non-empty, at most sixteen long and filed under their own sender and nonces |
| `Mempool.AdmissionInFlight` | irondag-blockchain/src/mining.rs:1610-1720 | Admission never touches the in-flight set |
| `Mempool.EvictExpiredSound` | irondag-blockchain/src/mining.rs:1322-1451 | After the expiry sweep each pool, the legacy one included, holds exactly its entries younger than the limit, with the counters right |
| `Mempool.EvictExpiredForgets` | irondag-blockchain/src/mining.rs:1322-1451 | The sweep takes out of the membership set exactly the hashes of what it found too old, keeps in the queues exactly the young entries, and drops emptied queues |
| `Mempool.SweepForgetsExactly` | irondag-blockchain/src/mining.rs:1322-1451 | A hash is known after a sweep exactly when it was before and no pooled entry with it is 600 seconds old and no queued one 300 |
| `Mempool.CurrentExactly` | irondag-blockchain/src/mining.rs:1331-1339 | The sweep takes an entry exactly from 600 seconds on, and so never leaves one a drain would call expired |
| `Mempool.Lowest` | irondag-blockchain/src/mining.rs:1293-1297 | The entry chosen for eviction pays least, and is the first that does |
| `TransactionPools.MiningManager.EvictLowestFee` | irondag-blockchain/src/mining.rs:1271-1318 | Evicts the first lowest-paying entry if and only if the newcomer pays more, with its counter and membership |
| `TransactionPools.MiningManager.AddToPoolInner` | irondag-blockchain/src/mining.rs:1456-1531 | Pushes to the stream whose turn it is after the cap's eviction, and moves the turn on |
| `TransactionPools.MiningManager.PromoteFutures` | irondag-blockchain/src/mining.rs:1535-1572 | Moves the consecutive nonces from the queue into the pools one at a time and drops an emptied queue |
| `TransactionPools.MiningManager.Submit` | irondag-blockchain/src/mining.rs:1610-1720 | Admits, queues or rejects with the right error, exactly as the admission function the laws are about |
| `TransactionPools.MiningManager.TryClaim` | irondag-blockchain/src/mining.rs:2219-2258 | Claims a popped entry if and only if it is young enough and not in the in-flight set as found after a possible wipe |
| `TransactionPools.MiningManager.DrainPool` | irondag-blockchain/src/mining.rs:2193-2286 | The loop over fields ends in the state the drain laws describe, for every order the unstable sort may leave and with the counter read as 64 bits |
| `TransactionPools.MiningManager.ReturnToPool` | irondag-blockchain/src/mining.rs:2489-2502 | Puts every transaction back with a fresh arrival time and takes its claim back |
| `TransactionPools.MiningManager.EvictExpiredTransactions` | irondag-blockchain/src/mining.rs:1322-1451 | Sweeps stream after stream, the legacy pool and the queues, with the hashes of what was swept |
| `SoloDrain.SoloRunIsDrain` | irondag-blockchain/src/mining.rs:2193-2286 | The small steps refine the whole drain: for every falling-fee order the sort may leave, a worker left alone from reading the counter to its last clean-up reaches exactly the pools, sets and claims the drain function gives, and changes nothing else |
| `Trim.TrimTransactions` | irondag-blockchain/src/mining.rs:259-347 | Trimming keeps a prefix, empty only for no transactions and whole when the block fits; with growing sizes the longest fitting prefix up to the estimated count; half when sizes cannot be measured |
| `Trim.Search` | irondag-blockchain/src/mining.rs:290-325 | The binary search ends on a non-empty prefix that is the longest fitting one up to the cap |
| `Trim.GloballyLongestExactly` | irondag-blockchain/src/mining.rs:284-329 | The kept prefix is the longest fitting one of all if and only if the cap is the whole list or the prefix just past it does not fit |
| `Trim.UniformTrimIsOptimal` | irondag-blockchain/src/mining.rs:284-288 | With equally sized transactions the estimate never costs the optimum |
| `Trim.EstimateCanCutShort` | irondag-blockchain/src/mining.rs:284-288 | With unequal sizes it can: three transactions fit and one is kept |
| `Fees.SettlementConserves` | irondag-blockchain/src/mining.rs:3553-3574 | A block settles exactly the fees `calculate_total_fee` puts on its transactions, legacy ones rounded down to their gas, if and only if each can afford the base fee or has no gas; otherwise it settles more |
| `Fees.PaidForExactly` | irondag-blockchain/src/blockchain/mod.rs:2801-2807 | The chain debits `fee` whatever the caps say: what is settled for an affordable transaction is covered by that debit if and only if it is legacy or its fee covers `calculate_total_fee` |
| `Fees.BlockPaidForExactly` | irondag-blockchain/src/blockchain/mod.rs:2733-2740 | A block of affordable transactions, and every block made of some of them, settles no more than is debited if and only if each is legacy or its fee covers `calculate_total_fee` |
| `Fees.SettledOutOfNothing` | irondag-blockchain/src/mining.rs:3549-3574 | An affordable transaction with a fee of 1 and ample caps has 1 debited and 42,000,000,000,000 settled |
| `Fees.SettleBlock` | irondag-blockchain/src/mining.rs:3549-3574 | In wrapping 128-bit arithmetic, burned plus miner share is all that is settled if and only if the burned sum and the tips fit in 128 bits; then base fees are burned whole and the miner's half of the tips is the burned half or one less |
| `Fees.SettledExactly` | irondag-blockchain/src/mining.rs:171-209 | Base fee plus tip is the price of `calculate_total_fee` if and only if the transaction can afford the base fee (or has no gas) |
| `Fees.LegacyRemainder` | irondag-blockchain/src/mining.rs:198-209 | A legacy fee exceeds its gas price times its gas by a remainder smaller than its gas limit |
| `Fees.TipIsLargest` | irondag-blockchain/src/mining.rs:171-190 | The tip is the largest within the sender's caps, none without a priority fee; a legacy transaction tips what its rounded gas price leaves |
| `Fees.ChangeIsFloor` | irondag-blockchain/src/mining.rs:126-155 | The two integer divisions of the change amount to one rounded-down eighth share |
| `Fees.BaseFeeExact` | irondag-blockchain/src/mining.rs:126-155 | The rule of the Specification section of EIP-1559 for the fee itself: above target it rises by the eighth share rounded down, or by one where that is nothing; below it falls by the eighth share rounded down; on target it stays |
| `Fees.BaseFeeMovesSlowly` | irondag-blockchain/src/mining.rs:126-155 | One block moves the base fee by at most an eighth, or one upwards, at up to twice the target |
| `Fees.BaseFeeMonotone` | irondag-blockchain/src/mining.rs:126-155 | A fuller parent never gives a lower fee |
| `Fees.BaseFeeDirection` | irondag-blockchain/src/mining.rs:126-155 | The fee rises if and only if the target is passed, and falls if and only if the shortfall is worth at least one unit |
| `Fees.BaseFeeFloor` | irondag-blockchain/src/mining.rs:1243-1267 | Over every chain of blocks a fee of at least 7 stays at least 7, so from its initial value it never reaches zero |
| `Fees.FloorReached` | irondag-blockchain/src/mining.rs:1243-1267 | Seven is the exact floor: after fee - 7 or more empty blocks every fee of at least 7 is exactly 7 |
| `Rewards.SupplyBound` | irondag-blockchain/src/mining.rs:43-66 | However many distinct heights are rewarded, on whichever streams, the total is below two eras of full stream A rewards and below the maximum supply |
| `Rewards.RewardExact` | irondag-blockchain/src/mining.rs:55-66 | Streams A and B are paid their first reward divided by two to the era, nothing from era 64 on; stream C is never paid |
| `Rewards.MintedWithinSchedule` | irondag-blockchain/src/mining.rs:55-66 | Distinct heights below n earn at most the full schedule up to n |
| `Rewards.RepeatedSupply` | irondag-blockchain/src/mining.rs:43-66 | When no height is rewarded more than m + 1 times, less than m + 1 full schedules are paid |
| `Rewards.StreamAPaysMost` | irondag-blockchain/src/mining.rs:55-66 | No stream is paid more than stream A at any height |
| `Rewards.ShiftIsQuotient` | irondag-blockchain/src/mining.rs:65 | The shift by the era is division by its power of two |
| `Difficulty.MeetsDifficulty` | irondag-blockchain/src/pow.rs:81-104 | The byte-wise early exit accepts exactly the hashes below 2^(256 - d) as big-endian numbers, for every difficulty |
| `Difficulty.DifficultyToTarget` | irondag-blockchain/src/pow.rs:47-71 | The filled target is the largest accepted hash |
| `Difficulty.HarderAcceptsFewer` | irondag-blockchain/src/pow.rs:81-104 | A harder difficulty accepts a subset, and being accepted is being at most the target |
| `Header.EncodeDetermines` | irondag-blockchain/src/pow.rs:107-126 | Two header encodings agree if and only if all fields but the base fee, the post-quantum signature and its key agree, whatever the numbers of parents |
| `Header.EncodeLayout` | irondag-blockchain/src/pow.rs:107-126 | Read back by position: parents in order, then number, difficulty, timestamp and nonce as eight little-endian bytes each, then stream, root and version |
| `WideXor.XorWide` | irondag-blockchain/src/pow.rs:197-288 | Registers of any width, then single bytes, change exactly the bytes a byte-wise XOR changes, to the same values |
| `WideXor.XorSlice` | irondag-blockchain/src/pow.rs:158-190 | Whichever variant the processor offers, the result is the byte-wise XOR and bytes past the length are untouched |
| `MemHash.HashWithBuffer` | irondag-blockchain/src/pow.rs:296-359 | The result is the hash of the input followed by the whole mixed memory, and it depends on the input and the buffer's length only, never on what the buffer held or which XOR was used |
| `MemHash.DigestExactly` | irondag-blockchain/src/pow.rs:314-359 | Told by its memories: fill, pass 0 and pass 1 leave the only memories with their chains, and the answer hashes the input followed by the last |
| `MemHash.FilledExactly` | irondag-blockchain/src/pow.rs:314-327 | The fill is the one memory in which every 32-byte chunk is the hash of the chunk before it, or of the input's hash, and the input |
| `MemHash.MixedExactly` | irondag-blockchain/src/pow.rs:329-348 | A pass gives the one memory in which what was XORed on each chunk is the hash of what was XORed on the one before, the old chunk and the input |
| `MemHash.Mix` | irondag-blockchain/src/pow.rs:330-348 | The chunk-by-chunk pass in place equals the pass defined on all bytes at once |
| `Mine.MineBlock` | irondag-blockchain/src/pow.rs:363-423 | Returns the least nonce meeting the target, or nothing if and only if none below max(1, limit) does; what it returns passes the processor's recheck |
| `Mine.Patch` | irondag-blockchain/src/pow.rs:392-393 | After overwriting eight bytes the buffer is the full encoding with the new nonce |
| `Mine.HashTrial` | irondag-blockchain/src/pow.rs:395-433 | The hash of the patched buffer is the hash of the whole header with that nonce |
| `Mine.StreamHashes` | irondag-blockchain/src/pow.rs:395-433 | Streams A and C hash the header bytes; stream B hashes them followed by the memory two passes leave |
| `Parallel.SearchOutcome` | irondag-blockchain/src/pow.rs:452-559 | Under every interleaving no nonce is tried twice, stored nonce and hash are first solutions of threads of the first successful batch, and giving up means all given nonces fail |
| `Parallel.OneWinnerMatches` | irondag-blockchain/src/pow.rs:530-555 | In every run in which only one thread got to its stores, the returned hash is that of the returned nonce |
| `Parallel.NextIsNew` | irondag-blockchain/src/pow.rs:482-528 | The nonce a thread is about to hash has been hashed by no thread |
| `Parallel.RunStops` | irondag-blockchain/src/pow.rs:489-540 | Once the flag is set no batch starts and no thread hashes more than the one nonce it had picked |
| `Race.ConsistentExactlyWithoutRace` | irondag-blockchain/src/pow.rs:530-555 | Stored nonce and hash belong together in every interleaving if and only if no two threads of the first successful batch have first solutions with different hashes |
| `Race.RunTheRace` | irondag-blockchain/src/pow.rs:530-536 | Whenever two such threads exist there is a run that returns one's nonce with the other's hash |
| `Race.CoverageExact` | irondag-blockchain/src/pow.rs:480-491 | The batches cover the whole range if and only if the thread count divides the batch size |
| `Race.GivingUp` | irondag-blockchain/src/pow.rs:552-558 | With an even split, giving up means no nonce of the whole range qualifies |
| `Race.MixedPairDiscarded` | irondag-blockchain/src/mining.rs:3600-3643 | A block from the threaded search passes the hash recheck if and only if its nonce and hash belong together, so a mixed pair never reaches the chain |
| `Merkle.TransactionsRoot` | irondag-blockchain/src/pow.rs:657-697 | The level loop ends, and equals the recursive tree that doubles an odd last node, for every list |
| `Merkle.RootClimbs` | irondag-blockchain/src/pow.rs:657-697 | No leaves give the hash of zeros, one its own, and more the root of their pairs, each the hash of left then right, an odd last one paired with itself |
| `Merkle.RootDetermines` | irondag-blockchain/src/pow.rs:657-697 | Equally long lists with equal roots are equal, or exhibit a collision of the pair hash |
| `Merkle.DoubledLastLeaf` | irondag-blockchain/src/pow.rs:679-692 | Without the length they need not be: doubling an odd last leaf keeps the root |
| `MerkleTree.TopOfLevelUp` | irondag-blockchain/src/pow.rs:676-694 | Pairing up one level leaves the top of the recursive tree unchanged |
| `MerkleTree.TreeDetermines` | irondag-blockchain/src/pow.rs:657-697 | Under an injective pairing, trees of one height with equal tops have equal leaves |
| `Retarget.OnlyOneIsStuck` | irondag-blockchain/src/pow.rs:573-603 | Difficulty 1, and no other, is kept whatever the block times |
| `Retarget.RunInRange` | irondag-blockchain/src/pow.rs:573-603 | Over every run the difficulty stays between 1 and 21, and once 1 it is 1 for ever |
| `Retarget.SlowerNeverHarder` | irondag-blockchain/src/pow.rs:573-603 | A slower block never leads to a higher difficulty |
| `Retarget.OnTargetKeeps` | irondag-blockchain/src/pow.rs:573-603 | A block on target changes nothing |
| `Retarget.AdjustExact` | irondag-blockchain/src/pow.rs:573-603 | The new difficulty is the old times target over actual in thousandths, rounded down twice, the factor kept within 667 and 1500 and the result within 1 and 21 |
| `Retarget.AdjustMovingAverage` | irondag-blockchain/src/pow.rs:616-652 | The averaging form is the single-block form at the average time, and nothing without blocks |
| `Batch.BatchManager.ExecuteBatch` | irondag-blockchain/src/account_abstraction/batch.rs:344-417 | A missing or non-pending batch is refused and nothing changes; otherwise the world and the batch end as `Executed` says, never Executing, and no other batch is touched |
| `Batch.BatchManager.ExecutePending` | irondag-blockchain/src/account_abstraction/batch.rs:361-417 | Succeeds if and only if every operation succeeds within the running gas limit; otherwise reverts exactly k down to 0 from the first failure and, when each revert of this run restores what its operation found, leaves the initial world; the batch ends Completed or Failed |
| `Batch.Reported` | irondag-blockchain/src/account_abstraction/batch.rs:361-417 | What the caller is told: on success one result per operation, each the executor's own reply and a success, the running gas never past the limit; on failure successes up to a last record that is a failure, by the executor's error, its unsuccessful reply or the gas limit |
| `Batch.BatchManager.CreateBatch` | irondag-blockchain/src/account_abstraction/batch.rs:276-314 | Stores a pending batch if and only if it has 1 to 100 operations, gas and a gas price; otherwise nothing changes and the first broken rule is named |
| `Batch.BatchManager.RollBack` | irondag-blockchain/src/account_abstraction/batch.rs:376-380 | Reverts the recorded results from the last to the first |
| `Batch.UndoneRestores` | irondag-blockchain/src/account_abstraction/batch.rs:341-343 | If in this run reverting each operation, given its recorded result, restores what it found, then reverting in reverse order restores the start |
| `Batch.BalancesRestored` | irondag-blockchain/src/account_abstraction/batch.rs:344-417 | For balances that hypothesis holds whatever the replies: a revert that knows its batch's operations and takes each amount back restores every step |
| `Batch.RefundedExactly` | irondag-blockchain/src/account_abstraction/batch.rs:367-383 | A revert that trusts the recorded results gives all money back if and only if the gas limit did not stop an operation that had paid: that one is recorded as failed |
| `Batch.GasHonestExactly` | irondag-blockchain/src/account_abstraction/batch.rs:367-368 | A successful batch stayed within its limit, and reports the gas really used, if and only if the sum fits in 64 bits |
| `Batch.GasWrapsPastLimit` | irondag-blockchain/src/account_abstraction/batch.rs:367-368 | Under every positive limit two operations whose gas sums to 2^64 succeed with a reported total of zero |
| `Batch.EstimateGas` | irondag-blockchain/src/account_abstraction/batch.rs:420-459 | The estimate never underflows: it is two flat costs plus what the operations cost beyond theirs |
| `Sponsor.SponsorBudget` | irondag-blockchain/src/gas_sponsorship.rs:53-152 | Over every run of requests a window never exceeds the daily limit, and any 17,280 consecutive blocks never exceed twice it when blocks go back by at most one, three times it when they go back by less than a day |
| `Sponsor.ServedExactly` | irondag-blockchain/src/gas_sponsorship.rs:53-152 | A request is approved exactly when the policy is in force and covers sender, fee and budget, a policy without a limit covering any; then only that policy's window changes, by the fee or to a new start |
| `Sponsor.RefusalNamed` | irondag-blockchain/src/gas_sponsorship.rs:109-145 | Each refusal names the first rule the request breaks |
| `Sponsor.TwiceInTwoBlocks` | irondag-blockchain/src/gas_sponsorship.rs:63-70 | Twice the limit is reached within two consecutive blocks, for every limit and window |
| `Sponsor.ThriceWhenTwoBack` | irondag-blockchain/src/gas_sponsorship.rs:53-70 | Blocks that go back by two are enough to pay three times the limit within a day, for every limit |
| `Sponsor.SameWindowExact` | irondag-blockchain/src/gas_sponsorship.rs:53-70 | While the window does not move, what was paid is what the window total grew by, so the limit holds |
| `Sponsor.MaximumIsNoLimit` | irondag-blockchain/src/gas_sponsorship.rs:54-60 | A limit of the largest 128-bit value bounds no more than none at all: under an otherwise open policy every list of requests is approved whole |
| `Sponsor.MaximumThrice` | irondag-blockchain/src/gas_sponsorship.rs:54-60 | So three maximal requests in one block break the bound every lower limit keeps |
| `Sponsor.SponsorRegistry.CheckRequest` | irondag-blockchain/src/gas_sponsorship.rs:109-145 | A request passes if and only if a policy is in force for the sponsor and covers sender, fee and budget; otherwise the first failing rule is named |
| `Sync.SyncComplete` | irondag-blockchain/src/network.rs:5677-5746 | For every arrival order and every interleaved growth: if parents are stored or received with a lower number and the chain takes ready blocks, none is orphaned or refused and all are stored |
| `Sync.SyncIsUnion` | irondag-blockchain/src/network.rs:5677-5746 | Undisturbed, the store ends as exactly the old store plus the batch: old entries as they were, every new entry a received block under its own hash |
| `Sync.SyncExact` | irondag-blockchain/src/network.rs:5696-5743 | No block is orphaned if and only if, in sorted order, each is already known or has only known parents |
| `Sync.SyncClosed` | irondag-blockchain/src/network.rs:5696-5743 | The store stays parent-closed and only grows, whatever arrives and happens in between |
| `Sync.SyncStoresAdded` | irondag-blockchain/src/network.rs:5696-5743 | Whatever the chain answers: undisturbed, the store keeps what it had and gains exactly the blocks answered Added at the store they were offered to, so nothing refused or orphaned is stored, and it grows by the number counted as added |
| `Sync.SyncTallied` | irondag-blockchain/src/network.rs:5696-5743 | Under every interleaving the counts of added and failed blocks are those the chain answered so, and the orphan pool gains in order exactly those that lacked a parent |
| `Sync.SortedStable` | irondag-blockchain/src/network.rs:5680 | Blocks with the same number keep their order of arrival |
| `Sync.SyncBlocks` | irondag-blockchain/src/network.rs:5677-5746 | The loop over the sorted batch ends in the state those laws describe, store, orphans and both counts |
| `PeerShare.RoundRobin` | irondag-blockchain/src/network.rs:6050-6084 | Terminates with exactly min(20, offered) names, none more often than offered, starting with the special ones, and no subnet more than one ahead of another that has names left |
| `PeerShare.AnswerPeers` | irondag-blockchain/src/network.rs:6022-6084 | The whole answer has min(20, eligible) names, each at most as often as eligible peers advertise it, those outside any subnet first, the rest fair among subnets |
| `PeerShare.BucketsPartition` | irondag-blockchain/src/network.rs:6043-6048 | Grouping by subnet loses and doubles nothing |
| `PeerShare.EligibleExact` | irondag-blockchain/src/network.rs:6023-6039 | A peer is eligible exactly when it is listed, did not ask and is not banned |
| `PeerShare.SubnetShared` | irondag-blockchain/src/network.rs:278-295 | Two addresses share a bucket exactly when both are in the same /16 network or neither has one, being IPv6 or loopback |

## Left out

- Sharded mining, and routing of transactions through the shard manager.
- QUIC, TLS, Kyber, Dilithium signing, message framing, and every other part of `network.rs`.
- GhostDAG, `Blockchain`, the orphan pool, the EVM, Verkle and ZK code: their verdicts are parameters.
- Stream C proof generation, pruning, metrics, logging, sleeps, timeouts, fairness and ordering analysis.
- Internals of Blake3, Keccak and bincode.
- Floating-point peer reputation; peer and subnet counters; the fanout order.
- `light_client.rs`, `privacy_pool.rs`, `registry.rs`, `factory.rs`, `config.rs`: only easy map and set properties.
- Memory ordering weaker than sequential consistency.
- Fees.BaseFeeFloor: 128-bit overflow of the base-fee product and of a single transaction's total fee is not modelled.
- Admission.SubmissionAlone: what a submission reads from the chain (base fee, nonce) is read in the step that acts on it.
- Allocator.BlockNumberAllocator.ReserveNumber: popping the free list and taking the next number are one step; the list is always empty.
- Mempool.CapKeptExactly: other tasks may act between the steps of an addition; then the cap is not promised at all.
- Sponsor.SponsorBudget: each spend is recorded right after its own check; several checks before a spend are not covered.
- Exclusion.ClaimKeeps: a claim's access to the in-flight set and its removal from the membership set are one step.
- Admission.AdvanceGap: an eviction's removal from the pool and from the membership set, nested in the source, are one step.
- Batch.BatchManager.ExecuteBatch: error texts are reduced to the index of the failing operation.
- Sync.SyncBlocks: the highest-block bookkeeping after the loop is not modelled.
- Mempool.EvictExpiredForgets: collecting a pool's expired hashes and removing its entries are one step; each pool is its own.
- Promotion of future transactions into the legacy pool after a commit, which no mining worker reads; so no run moves a queued transaction there.

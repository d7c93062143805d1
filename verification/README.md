# qub-core verification

A Dafny model of the consensus, storage and pool core of qub-core, with proofs of the properties the
node relies on. It follows the Rust sources under `src/` branch by branch where value, ids, ordering or
persistence are decided, and takes everything else (signatures, marker decoding, clocks, file-system
behaviour) as parameters.

`dafny verify dfyconfig.toml` checks the whole project.

## What is modelled

* **Chain state and economics** (`UtxoSet`, `Consensus`, `ChainState`, `Provenance`, `Solvency`, `Infusion`,
  `JinLedger`, `FullReserve`, `JinFlows`, `Mempool`, `Reorg`, `Template`). Block validation and connection, full
  replay, fork adoption, the pending list, block templates, the JIN ledger and the redemption vault.
  The main results: on every accepted chain spendable plus burned QUB never exceeds what was minted,
  which never exceeds 21 million; the vault pays the current price for every circulating atom; JIN is
  conserved; no outpoint is spent more often than it was created; the incremental state is the replay; a reorganisation loses no transaction; a greedily
  chosen template passes the validators it will meet.
* **Difficulty and hashing** (`Bytes`, `Difficulty`, `Merkle`, `Wire`, `HeaderChain`, `Sha256`,
  `Sha256Functions`, `GpuMiner`). Compact targets, retargeting and chain work; serialization and what a
  block hash commits to; the GPU's rolling SHA-256 schedule against section 6.2.2 of FIPS 180-4.
* **Fast Chain Engine** (`Journal`, `FastStore`, `Durability`, `LivePublish`). The crash-safe commit
  protocol with a snapshot after every step, its recovery, policy and cleanup; and the deferred live
  publication worker as a step system in which any interleaving is allowed.
* **Pools** (`PoolRegistry`, `RegistryCache`, `PoolWindow`, `PoolPayout`, `PoolRewards`, `PayoutPlan`,
  `PoolsOnChain`). Registry replay, validation and cache, the bounded share window, the payout plan from
  the shares in the window to the last atom, and what accepted chains guarantee.

`Outcome`, `Arithmetic`, `Sorting`, `MapSums` and `Addresses` hold shared vocabulary.

## Assumptions

* The double hash is a parameter. Where injectivity matters it is only assumed on the finite set of
  messages that the computation at hand really hashes (`Merkle.InjectiveOn`), and transactions are
  assumed not to serialize to exactly 64 bytes, the length of a merkle pair (`HeaderChain.Encodable`).
* Splitting markers and shares into fields, address checksums, signature checks and the feature validators
  for names, library posts, governance and public sale are function parameters (`Consensus.Rules`,
  `JinLedger.JinRules`, `PoolRegistry.Pools`, `PoolWindow.ShareRules`, `Mempool.Policy`). What is assumed
  of them is named: `FullReserve.AddressesOnly` (the decoders of JIN markers, coinbase scripts and locks
  return only what the address parser accepts, as each of them checks), `PoolsOnChain.MarkersUnspendable`
  (a pool creation marker is neither a pay-to-key script nor a vault), `PoolsOnChain.ChecksPools` (the
  feature validators include the pool validator), `Template.NoOutputsNoMarkers`.
* Time is a parameter, and later calls see a clock that has not gone back.

## Findings

* A commit survives a crash after any step, with one exception. When CURRENT is already missing (the
  previous writer died between moving it aside and replacing it) and replacing PREVIOUS also has to
  move the old file aside, both pointers are missing for a moment and nothing can be loaded.
  `FastStore.Directory.CommitChain` states it as an equivalence: every intermediate directory loads the
  old or the new chain if and only if not `Unsafe`, a predicate on the directory, the candidate, the policy
  and what the file system does. `FastStore.Directory.UnsafeArises` reaches the input by an ordinary commit.
* A solo template whose reward is zero fails its own validation, because the stateless check refuses
  outputs of zero atoms. `Template.SoloBlockPasses` states that this is the only case.
* A pool template that selects a melt fails its own validation: it pays out subsidy plus net fees, and the
  pool validator wants subsidy plus raw fees. `Template.PoolBlockPasses` states that it passes exactly when
  the selection burns nothing, and `PoolsOnChain.PoolBlocksBurnNothing` that no accepted pool block burns.
* The rebuild of the pending list is described as dependency-aware (src/lib.rs:1813-1817), so that a child
  readmitted before its parent is not dropped. Admission checks inputs against confirmed coins only, so a
  child of a merely pending parent is refused in every sweep: `Mempool.UnconfirmedInputIsRefused`,
  `Mempool.PendingSpendsConfirmed`.
* A candidate whose work cannot be decoded is ranked by height in live publication. `LivePublish.Upset`
  is the exact condition under which ranking two chains loses work (`RankingKeepsWork`),
  `UpsetLosesWork` runs into it, and everything published is delivered without it
  (`NothingPublishedIsLost`). Validated chains never cause it (`DecodableIsCalm`,
  `ChainStates.ReplayedHasWork`).
* Loading a commit covers coins and pending transactions by checksum and digest and headers by their links, but
  block bodies only through the merkle roots that full validation recomputes. `FastStore.DamageIsCaught`
  and `FastStore.BodiesAreNotRead` are the two halves: the loaded chain is the committed one exactly if its
  merkle roots are right, and changed bodies of the same encoded length load when nobody validates.

## Model

| member | source | states |
|---|---|---|
| Solvency.CirculationBelowCap | src/lib.rs:3259-3488 | on every accepted chain with the mainnet subsidy, spendable plus burned atoms <= minted atoms <= 21 million QUB |
| Solvency.BlockConserves | src/lib.rs:3351-3488 | one accepted block raises spendable plus burned value by at most its subsidy, although validation and connection walk the transactions over different sets |
| Solvency.FeeIsCovered | src/lib.rs:3302-3337 | the cast of the fee to 64 bits loses nothing and inputs cover outputs plus fee, also for vault claims |
| Solvency.MintedBelowCap | src/lib.rs:3259-3269 | all subsidies up to any height together are at most twice the first era's total |
| Solvency.SubsidyHalves | src/lib.rs:3259-3269 | the first era mints the initial subsidy, each later era half the previous one rounded down, and nothing after 64 eras |
| FullReserve.EveryAtomIsBacked | src/lib.rs:7372-7581 | on every accepted chain whose ledger replays, circulating atoms <= true maximum, and the vault's ledger entry is the reserve and pays for each of them |
| FullReserve.BooksReserve | src/lib.rs:8394-8506 | at every height of any ledger that can be replayed: the vault's entry is the active reserve plus exactly what payout plans credited to the vault's key, the reserve equals price times true maximum, true maximum plus melted is the cap, and before activation nothing has happened |
| FullReserve.NothingStray | src/lib.rs:8493-8503 | plans over blocks whose shares all name addresses credit the vault's key nothing |
| FullReserve.AcceptedBooksReserve | src/lib.rs:8394-8506 | at every height of every accepted chain whose ledger replays, the vault's entry is exactly the reserve |
| FullReserve.MeltedIsBurned | src/lib.rs:7611-7633 | the atoms the ledger melted are exactly those block validation took off fees as burned |
| FullReserve.StateIsLedgers | src/lib.rs:7541-7581 | on any replayable block list the vault state replayed without a ledger is the ledger's own |
| FullReserve.ValidatedVaultIsReplayed | src/lib.rs:7403-7415 | a validator starting from the contextual bootstrap, seeing other balances and another marker order, ends with the replayed vault state whenever both succeed |
| Infusion.RunBalanced | src/lib.rs:7417-7509 | every run of infusions and melts keeps reserve = price * true maximum and true maximum + melted = cap |
| Infusion.MeltNeverExceedsReserve | src/lib.rs:7451-7490 | the refusal for lack of reserve and the overflow refusals cannot happen; a melt succeeds exactly for a positive amount within the true maximum, with JIN infused and the minimum met |
| Infusion.InfuseSucceeds | src/lib.rs:7417-7449 | without overflow an infusion succeeds exactly for a positive multiple of the remaining atoms, and each of them gains the same share |
| Infusion.InfuseThenMeltAll | src/lib.rs:7417-7490 | melting every remaining atom after an infusion pays out the whole reserve |
| Infusion.InfusionState.ApplyInfuseUnits | src/lib.rs:7417-7449 | the in-place infusion does what the specification says; only an overflow can leave a half-changed record |
| Infusion.InfusionState.ApplyMeltAtoms | src/lib.rs:7451-7490 | the in-place melt does what the specification says; a refused melt changes nothing |
| JinLedger.JinIsConserved | src/lib.rs:8394-8506 | balances + active locks + fees nobody receives = 105 million JIN on any block list whose ledger replays, pool fees divided by the actual payout plans |
| JinLedger.BlockHeld | src/lib.rs:8417-8503 | one block only loses the fees of a block without pool and without decodable payout address; a pool block's fees are paid out in full |
| JinLedger.TransferMoves | src/lib.rs:8342-8361 | what every address pays and receives in a transfer, also when payer, receiver and miner coincide |
| JinLedger.TransferSucceeds | src/lib.rs:8325-8361 | with no more than the supply around a transfer fails only for lack of balance |
| JinLedger.MarkerMoves | src/lib.rs:7511-7539 | an infusion moves its units from owner to vault, a melt the payout from vault to owner |
| JinLedger.UnlockedHeld | src/lib.rs:9588-9609 | taking off the locks moves exactly the locked units |
| JinLedger.LedgerFromBlocks | src/lib.rs:8394-8506 | the nested loops over mutable maps compute the specified ledger, or fail when it does |
| JinFlows.LedgerFlows | src/lib.rs:8394-8506 | for every address, balance and locks are what the purchases, transfers, conversions, vault markers, miner fees, bootstrap and payout plans of the chain gave it, less what they took |
| JinFlows.BlockFlows | src/lib.rs:8417-8503 | the same for one block, summed over the markers its transactions carry |
| JinFlows.StepSucceeds | src/lib.rs:8429-8487 | a marker goes through exactly when it is active, its output is right and its payer covers it; nothing overflows, and the vault can always pay a melt |
| JinFlows.StepsSucceed | src/lib.rs:8429-8487 | a block's markers go through exactly when each fits what the ones before it left |
| JinFlows.ReceiversGetTheirShare | src/pools.rs:1704-1748 | after merging and sorting, every address is credited its commission and payouts |
| JinLedger.LedgerBook.JinTransfer | src/lib.rs:8342-8361 | debit with fee, credit, miner's fee: in place, in that order |
| JinLedger.LedgerBook.VaultMarker | src/lib.rs:7511-7539 | a vault marker changes state and both ledger sides together |
| ChainStates.ChainState.ConnectBlock | src/lib.rs:1898-1928 | accepts exactly the blocks that extend the replay, moves to that replay, and rebuilds the pending list from what the block left unconfirmed; a rejected block changes nothing |
| ChainStates.ChainState.ValidateAll | src/lib.rs:1343-1372 | succeeds exactly when the unspent set is what replaying all blocks gives |
| ChainStates.ChainState.FromBlocks | src/lib.rs:1225-1237 | builds exactly the chains that replay, under a clock that moves on |
| ChainStates.ChainState.TryAdoptPeerChain | src/lib.rs:1382-1416 | succeeds on every peer chain that replays, and then adopts it exactly when it is heavier, as heavy and higher, or an equal with another tip that the caller prefers; the pending list is rebuilt from the candidates of both; otherwise nothing changes |
| ChainStates.ReplayLater | src/lib.rs:1343-1372 | what was valid stays valid under a later clock, with the same unspent set |
| ChainStates.ReplayedIsLinked | src/lib.rs:3351-3406 | accepted chains are hash-linked and committed, so their tip determines them |
| ChainStates.AdoptionLosesNothing | src/lib.rs:1382-1490 | between two accepted chains, every transaction of the abandoned one is confirmed on the adopted one or offered to its pending list, and so is everything pending on either side, each id once |
| ChainStates.ReplayedHasWork | src/lib.rs:4240-4246 | accepted chains have well-defined work |
| ChainStates.ReplayedIsMined | src/lib.rs:3387-3389 | every block of an accepted chain but the first carries work: its hash meets the target of its bits |
| ChainStates.ReplayedIsValid | src/lib.rs:3351-3443 | every block of an accepted chain was valid, with the required bits and all feature and checkpoint checks, on the state before it |
| Consensus.ValidateBlock | src/lib.rs:3351-3443 | the loops of validate_block decide the specified block predicate |
| Consensus.BlockOkMeans | src/lib.rs:3351-3443 | a block is valid exactly when each condition holds, shape, header, time, coinbase amounts and claim, and its hash as a number is at most the target its bits stand for |
| Consensus.ValidateTxStateless | src/lib.rs:3270-3301 | the loops over inputs and outputs decide the specified predicate |
| Consensus.ValidateTxContextual | src/lib.rs:3302-3337 | the input loop computes the specified fee or error |
| Consensus.PaymentMeans | src/lib.rs:3270-3337 | a payment is accepted exactly when no two inputs name one coin, every coin is unspent, signed for and mature, amounts are in range, and the coins are worth the outputs; its fee is the difference in 64 bits |
| Consensus.ClaimMeans | src/lib.rs:10636-10705 | a vault claim is accepted exactly when its outputs are the one list the vault prescribes: the claimant's part and, unless value or claims run out, the rest to the vault with one claim less |
| Consensus.ConnectBlockUtxos | src/lib.rs:3444-3453 | connects coinbase and transactions in order, or fails |
| UtxoSet.ConnectTxUtxos | src/lib.rs:3454-3488 | removes the inputs, adds the outputs, fails on a missing input or an existing outpoint |
| UtxoSet.ConnectMeans | src/lib.rs:3454-3488 | connecting succeeds exactly when distinct unspent coins are spent and no surviving outpoint is made again; afterwards exactly the spent coins are gone and the new ones there, all others untouched |
| UtxoSet.ConnectTotal | src/lib.rs:3454-3488 | value before plus created outputs equals value after plus spent inputs |
| Provenance.EveryOutpointBalances | src/lib.rs:3444-3488 | no double spend: over an accepted chain every outpoint is created exactly as often as it is spent, plus one if unspent |
| Provenance.CoinsHaveOrigins | src/lib.rs:3454-3488 | every unspent coin of an accepted chain is an output of one of its transactions, with that block's height and kind |
| Provenance.SpendsAreProper | src/lib.rs:3302-3350 | every ordinary input on an accepted chain spends a coin an earlier transaction made, signed, and a coinbase only when mature |
| Mempool.Admit | src/lib.rs:1619-1764 | admission keeps ids and spent outpoints unique, both limits, and every pending transaction worth its fee, burn and extra fees against the chain's coins; it accepts exactly what is admissible and finds room after stale shares are dropped, and moves the pool context accordingly |
| Mempool.BatchContextMeans | src/pools.rs:398-443 | the context of a batch is the confirmed registry, and its window knows the confirmed history and every pending share that extends the chain and is fresh, nothing else |
| Mempool.RetainedMembers | src/lib.rs:1515-1539 | pruning drops exactly the shares whose parent is gone from the chain, not yet on it or too old |
| Mempool.Rebuild | src/lib.rs:1770-1887 | the rebuilt list is coherent, funded and within limits and holds exactly the shares picked in their order; unless it is full it has eight ordinary transactions or more, or no ordinary candidate is left that could still be admitted |
| Mempool.PickedIsMaximal | src/lib.rs:1830-1849 | while the share queue has room, no share passed over could still be added: a later share never makes place for an earlier one |
| Mempool.UnconfirmedInputIsRefused | src/lib.rs:1709 | a transaction spending an output not confirmed on the chain is refused, whatever is pending |
| Mempool.PendingSpendsConfirmed | src/lib.rs:1813-1817 | no chain of pending transactions forms: everything pending spends confirmed coins |
| Reorg.NothingIsLost | src/lib.rs:1433-1490 | every non-coinbase transaction of the old chain is confirmed on the candidate or kept, every pending one of either side is kept, and no id twice |
| Reorg.DisconnectedTransactions | src/lib.rs:1448-1472 | the hash-set loops compute the unconfirmed transactions of the abandoned suffix, each id once |
| Template.CandidateTransactions | src/lib.rs:3539-3777 | the loops compute the greedy selection over both queues, and for any pending list it passes the UTXO, fee and uniqueness loops of block validation and the share cap and context loop of pool validation, with the same fee total |
| Template.ChosenSharesAreMaximal | src/lib.rs:3572-3606 | with room in the block and under the share cap, no share passed over could still be added |
| Template.AcceptableIsChosen | src/lib.rs:3634-3782 | a candidate that every validator accepts at its turn, with room in the block, is selected |
| Template.SoloBlockPasses | src/lib.rs:3796-3852 | a mined solo template claims subsidy plus net fees and passes block validation exactly when that is positive |
| Template.PoolBlockPasses | src/lib.rs:3854-3889 | a pool template, paid out by the plan over subsidy plus net fees, passes pool validation exactly when its selection burns nothing |
| Template.TriedIsEnough | src/lib.rs:3664-3675 | counting an uncomputable fee as the largest word never admits what the validator would refuse |
| Template.NullIsNeverUnspent | src/lib.rs:163-168 | the outpoint coinbases name is never unspent on an accepted chain |
| Difficulty.RequiredBitsBounded | src/lib.rs:4120-4204 | the next required bits on any checked chain decode to a target in [1, limit], at most the factor times the previous one |
| Difficulty.SlowerIsNoHarder | src/lib.rs:4172-4204 | a later last block makes the next required bits, as encoded, stand for no harder a target |
| Difficulty.OnTimeKeepsTarget | src/lib.rs:4172-4204 | after a window that took exactly the wanted time the next bits stand for the same target |
| Difficulty.CompactIsExactOnDecodable | src/lib.rs:4206-4230 | encoding a decodable target and decoding it again is exact |
| Difficulty.CompactTruncates | src/lib.rs:4210-4230 | encoding any positive target below 2^255 drops less than one part in 2^15 and stays decodable |
| Difficulty.CompactIsFloor | src/lib.rs:4206-4230 | encoding rounds down to the greatest target that any compact word stands for |
| Difficulty.TargetFromCompactIs | src/lib.rs:4247-4279 | decoding accepts exactly positive non-negative words with exponent at most 32, and its 32 bytes are the number meant |
| Difficulty.ExtendingAddsWork | src/lib.rs:4232-4246 | every block strictly increases chain work |
| Difficulty.BlockWorkMeans | src/lib.rs:4232-4238 | the work of a block is the largest number whose product with the target plus one stays within 2^256 |
| Merkle.RootIsInjective | src/lib.rs:322-342 | equal roots of duplicate-free leaf lists, of any lengths, mean equal lists |
| Merkle.MerkleRoot | src/lib.rs:322-342 | the layer loop computes the specified root |
| HeaderChain.BlockHashInjective | src/lib.rs:3391-3406 | with the merkle and duplicate checks a block hash determines the block |
| HeaderChain.WithoutDuplicateCheck | src/lib.rs:3401-3406 | without the duplicate check every block with an odd number of transactions has a twin with the same hash |
| HeaderChain.TipDeterminesChain | src/lib.rs:308-321 | equal tips of linked chains of one length mean equal chains |
| Wire.SerializePrefix | src/lib.rs:207-268 | transaction serialization is injective and prefix-free |
| Wire.VarIntPrefix | src/lib.rs:213-229 | variable-length integers are canonical and prefix-free |
| Wire.VarIntMeans | src/lib.rs:213-229 | a length takes the least of one, three, five or nine bytes, and read back little-endian is the length |
| Wire.HeaderInjective | src/lib.rs:287-307 | the 80 header bytes determine the header |
| Wire.HeaderLayout | src/lib.rs:287-307 | the six fields stand at their fixed places among the 80 bytes, words with the lowest byte first |
| Wire.SerializeTransaction | src/lib.rs:247-268 | the growing-buffer loops write the specified bytes, with or without a script override |
| Wire.SighashIgnoresScripts | src/lib.rs:269-284 | the signature hash depends on no stored script |
| Wire.SighashBinds | src/lib.rs:269-284 | and determines the unsigned transaction, the input and the spent script |
| Wire.SighashLayout | src/lib.rs:269-284 | the message is a serialized transaction that differs from the signed one in scripts only, followed by the word one |
| Wire.SignSelected | src/lib.rs:5791-5804 | signatures made early in the loop are valid on the finished transaction |
| GpuMiner.Compress16 | src/gpu_miner.rs:612-628 | the in-place 16-word schedule compresses as the 64-word definition does |
| GpuMiner.RollingStep | src/gpu_miner.rs:616-622 | cell t modulo 16 holds schedule word t through all 64 rounds |
| GpuMiner.MidstateFirst64 | src/gpu_miner.rs:552-581 | the host's midstate is the state after the header's first block |
| GpuMiner.DoubleHashFromMidstate | src/gpu_miner.rs:605-678 | midstate, padded tail and second pass give the double hash for every prefix and nonce |
| GpuMiner.DigestMeetsTarget | src/gpu_miner.rs:638-652 | the byte loop is the numeric comparison of hash and target |
| GpuMiner.ScanNonce | src/gpu_miner.rs:654-678 | a work item reports exactly the nonces whose full header hash meets the target |
| Sha256Functions.KernelRotrIsRotateRight | src/gpu_miner.rs:597-603 | the kernel's shift pair is the rotation the standard uses |
| Sha256Functions.KernelAgrees | src/gpu_miner.rs:597-603 | the kernel's sigma functions are the standard's on every word |
| Sha256Functions.ScanQub | src/gpu_miner.rs:654-678 | with the kernel's own functions a work item reports exactly the nonces whose header meets the target under double SHA-256 |
| FastStore.Directory.CommitChain | src/fast_storage.rs:1091-1159 | a commit succeeds exactly when the policy accepts it and its journal, state file and pointers get replaced, and then the new chain loads; every snapshot on the way loads the old or the new chain if and only if the commit is not unsafe; work never goes down; a refused candidate touches nothing |
| FastStore.Directory.UnsafeArises | src/fast_storage.rs:370-407 | an ordinary commit that loses CURRENT, followed by another that moves PREVIOUS aside, passes through a directory from which nothing loads |
| FastStore.Directory.Session | src/fast_storage.rs:758-791 | after any sequence of commits, each possibly cut off after any step, up to the first unsafe one, the directory loads the start or one of the attempts, and loaded work never went down |
| FastStore.ConsistentLoads | src/fast_storage.rs:602-791 | loading and pointer recovery return exactly the committed chain of a consistent directory |
| FastStore.RecoveryMeans | src/fast_storage.rs:565-635 | on any directory recovery takes CURRENT when its state file is there with the recorded checksum, fields and digest, else PREVIOUS under the same test |
| FastStore.DamageIsCaught | src/fast_storage.rs:565-743 | whatever has become of the files, what loads through a pointer has the coins, the pending list and every header of the chain it was written for, and is that chain exactly if its merkle roots are right |
| FastStore.BodiesAreNotRead | src/fast_storage.rs:637-719 | without full validation block bodies of the same encoded length under the same headers load as well |
| FastStore.NotBehindMeans | src/fast_storage.rs:1047-1089 | the policy accepts exactly candidates not behind in (work, height), and a mainnet tie only when verified |
| FastStore.JournalSuffixIsFree | src/fast_storage.rs:862-893 | bytes past every commit may be cut, written or torn without changing what loads |
| FastStore.Directory.AppendNewBlocks | src/fast_storage.rs:862-893 | truncating and appending leaves the journal holding the candidate, whatever was torn before; a failed append harms no commit |
| FastStore.Directory.WriteStateAndPointer | src/fast_storage.rs:895-917 | state, PREVIOUS, CURRENT in that order keep every snapshot loadable |
| FastStore.Directory.CleanupStates | src/fast_storage.rs:919-955 | cleanup never removes a state file that a pointer names |
| FastStore.Directory.CleanupJournals | src/fast_storage.rs:957-994 | cleanup never removes a journal that a pointer names |
| FastStore.Directory.ReplaceCurrent | src/fast_storage.rs:370-407 | replacing CURRENT succeeds exactly when the rename does, at once or with the old file moved aside, and done, not done or half done it keeps the old or the new chain loadable |
| FastStore.NoPointerNoChain | src/fast_storage.rs:758-791 | with neither pointer readable nothing loads |
| Journal.ParseInvertsLines | src/fast_storage.rs:637-719 | reading back a journal gives the blocks written |
| Journal.ReturnsAreIgnored | src/fast_storage.rs:661-669 | carriage returns before the end of a journal line change nothing that is read |
| Journal.ReadLines | src/fast_storage.rs:637-719 | the line loop decodes what the specification decodes |
| Durability.AcceptedIsSound | src/fast_storage.rs:637-719 | every chain the validator accepts meets the commit protocol's expectations |
| LivePublish.QueuedIsNeverStranded | src/fast_storage.rs:1542-1612 | in every interleaving a queued candidate has a registered worker or a thread about to spawn one, and at most one thread drains |
| LivePublish.RankingKeepsWork | src/fast_storage.rs:1497-1505 | ranking two chains keeps the work of both exactly when it is no upset |
| LivePublish.OvertakesStrictly | src/fast_storage.rs:1497-1530 | of two tips with decodable work the other one wins exactly with strictly more work, live and in the queue; otherwise exactly with greater height |
| LivePublish.LiveTipMovesUp | src/fast_storage.rs:1484-1612 | while the owner sets nothing, decodable candidates move the live tip only to strictly more work |
| LivePublish.LeftTipsNeverReturn | src/fast_storage.rs:1484-1612 | so a live tip once left does not come back |
| LivePublish.NothingPublishedIsLost | src/fast_storage.rs:1484-1612 | at rest, with a live owner throughout and no upset on the way, the live chain has at least the work of everything published |
| LivePublish.UpsetLosesWork | src/fast_storage.rs:1497-1505 | an undecodable chain ahead in height, then a decodable one: two undisturbed publications end with a live chain below both the start and the second |
| LivePublish.WorkIsBounded | src/fast_storage.rs:1542-1612 | without new publishers the threads take a bounded number of steps, whatever the owner does in between |
| LivePublish.SomeoneCanMove | src/fast_storage.rs:1542-1612 | no reachable state is stuck once the owner lets go of the lock |
| LivePublish.ComesToRest | src/fast_storage.rs:1542-1612 | from every reachable state the owner has let go of, the threads alone reach rest |
| LivePublish.EverythingArrives | src/fast_storage.rs:1484-1612 | and then the live chain has at least the work of everything published with decodable work |
| PoolRegistry.ValidatedIsReplayed | src/pools.rs:894-1204 | what validation does to the registry is what the replay does, saturation and clamping included |
| PoolRegistry.ValidatedKeepsOk | src/pools.rs:999-1204 | accepted actions keep capacity on the grid within its bounds and total paid equal to the creation price of the current capacity |
| PoolRegistry.ValidatedEvolves | src/pools.rs:999-1204 | accepted actions never shrink capacity or raise commission |
| PoolRegistry.OnlyManagersChange | src/pools.rs:999-1204 | an existing pool changes only by a transaction with one action and an input of its manager |
| PoolRegistry.CapacityIsPaidFor | src/pools.rs:630-636 | whatever a transaction adds to a pool's total paid went to the protocol and the miner |
| PoolRegistry.PricesAdd | src/pools.rs:591-628 | topping up costs the difference of the creation prices |
| PoolRegistry.NormalizeIsIdempotent | src/pools.rs:566-589 | a normalized name normalizes to itself |
| PoolRegistry.NormalizeMeans | src/pools.rs:566-589 | a text normalizes to a name exactly when it is the name between blanks, and the name is not empty, within both lengths and free of forbidden characters |
| PoolRegistry.ActionsAreAnnounced | src/pools.rs:725-892 | the actions of a transaction are exactly those an output announces: fields as read, a manager that is an address, a normalized name, the output's value |
| PoolRegistry.ReplayMeans | src/pools.rs:894-948 | field by field, what the replay of any marker, validated or not, leaves of every pool: capacity and payment saturate, commission never rises, only a rename asks for the manager |
| Addresses.AddressMeans | src/lib.rs:366-400 | an address is the network's prefix, the separator and 48 checked digits, whatever blanks stand around it |
| PoolRegistry.RegistryHasAddresses | src/pools.rs:725-847 | every pool that any block list opens, validated or not, is managed by an address |
| PoolRegistry.ApplyBlock | src/pools.rs:894-948 | the marker loops compute the specified registry or error |
| PoolRegistry.ActionMeans | src/pools.rs:999-1204 | an action goes through exactly when pools are active, it stands alone, its marker output is right and it has its own rights, prices and payments, and then changes exactly one record |
| PoolRegistry.CreatePriceMeans | src/pools.rs:591-628 | a pool has a price exactly for whole steps above the base up to the maximum, the base price plus the price of those steps |
| RegistryCache.Cache.Lookup | src/pools.rs:295-354 | any sequence of queries over extending and reorganising chains answers as a full replay, error or registry |
| RegistryCache.EntryIsPrefix | src/pools.rs:318-332 | an entry whose tip is on the queried branch holds the replay of that branch up to it |
| RegistryCache.Cache.Remember | src/pools.rs:346-351 | the new entry is in front, at most eight remain, all of them right |
| PoolWindow.WindowSummarisesHistory | src/pools.rs:152-181 | the bounded scan knows everything of the full history within its two horizons |
| PoolWindow.ShareKeepsHistory | src/pools.rs:1353-1417 | a share accepted against the window keeps the rules about the whole history |
| PoolWindow.WindowDecidesHistory | src/pools.rs:1353-1417 | on a proper history the bounded window accepts exactly the shares the whole history would: new, on a fresh parent after the pool's opening, the miner nowhere else and the pool with a place for him |
| PoolWindow.PoolWindowState.ValidateAndAddShare | src/pools.rs:195-233 | accepts exactly fitting shares and leaves no trace of a rejected one |
| PoolWindow.PoolWindowState.FromBlocks | src/pools.rs:152-181 | the scan loops compute the specified window |
| PoolsOnChain.AcceptedChainsHold | src/pools.rs:1454-1517 | on every accepted chain no share is confirmed twice, a miner's shares a window apart name one pool, no pool is overfull, and every pool is on the grid and paid for |
| PoolsOnChain.PoolsOnlyEvolve | src/pools.rs:894-948 | along an accepted chain capacity never shrinks, commission never rises, manager and creation height stay; ids are never reused because creation markers stay unspent |
| PoolsOnChain.AcceptedMiners | src/pools.rs:1353-1369 | every share of an accepted chain was sent for an address |
| PoolsOnChain.TxsStep | src/pools.rs:1490-1501 | after a block's transactions the validation context's registry is the replayed one |
| PoolsOnChain.ValidatePoolsBlock | src/pools.rs:1454-1517 | the loop over a mutable context decides the specified predicate |
| PoolsOnChain.PoolValidationContext.ValidateAndApply | src/pools.rs:445-480 | applies an acceptable transaction and leaves no trace of another |
| PoolsOnChain.PoolBlockClaimsEverything | src/pools.rs:1503-1517 | a pool block's coinbase claims exactly subsidy plus raw fees |
| PoolsOnChain.PoolBlocksBurnNothing | src/pools.rs:1503-1517 | an accepted pool block burns nothing, because block validation grants its coinbase only net fees |
| PayoutPlan.PoolPayoutPlan | src/pools.rs:1612-1642 | the plan built from hash maps, in whatever order they list their entries, is the specified one: registry entry, shares in the window, split |
| PayoutPlan.PlanExists | src/pools.rs:1612-1642 | amounts in range, a plan exists exactly for an open pool with a share in the window, and pays its manager and miners by the split conditions |
| PayoutPlan.PlanPays | src/pools.rs:1644-1677 | a plan can be paid out exactly when everybody due something has an address and somebody is due something, and then the coinbase pays every script what its owners are due |
| PayoutPlan.ScoresCountShares | src/pools.rs:1519-1545 | a miner's score is the number of his confirmed shares for the pool in the window, and nobody is listed twice |
| PayoutPlan.PlansDivide | src/pools.rs:1612-1642 | on any block list a plan divides its total without remainder |
| PayoutPlan.PlansPayAddresses | src/pools.rs:1612-1642 | after blocks whose shares name addresses a plan pays addresses only |
| PoolPayout.SplitAmount | src/pools.rs:1556-1610 | commission and payouts add up to the total, each payout is its floor or one more, the largest remainders get the extra atom |
| PoolPayout.SplitOfIsSplit | src/pools.rs:1556-1610 | whenever the overflow checks pass, floors plus awards meet those conditions |
| PoolPayout.SplitIsOrderIndependent | src/pools.rs:1556-1610 | any order of the scores gives the same split |
| PoolPayout.PayableIsOrderIndependent | src/pools.rs:1556-1610 | and the same errors |
| PoolPayout.AwardLoop | src/pools.rs:1593-1604 | the second loop hands out exactly the leftover, one atom each, to the largest remainders |
| PoolRewards.CoinbasePaysEverything | src/pools.rs:1644-1677 | the expected coinbase outputs add up to the reward, in positive amounts |
| PoolRewards.CoinbaseMeans | src/pools.rs:1644-1677 | the outputs exist exactly when everybody with a positive amount has an address and somebody does, pay each script the sum its owners are due, and start with the commission |
| PoolRewards.ReceiversGetEverything | src/pools.rs:1704-1748 | the merged fee receivers of a pool block get exactly its fees |
| PoolRewards.ReceiversOccurOnce | src/pools.rs:1740-1748 | no receiver occurs twice, each gets something, and they stand in the order of their names |

## Left out

- Names, library posts, public-sale listings, governance profiles and reports, bridge markers: per-field checks; they appear as the feature validators of `Consensus.Rules` and as locks in the JIN sum.
- Equality of validation and ledger replay on transactions with several JIN markers: the marker orders differ, so agreement is stated only when both succeed.
- Templates against the whole governance validator: not claimed.
- secp256k1, RIPEMD, address checksums, marker and share texts: parameters. Miners and managers are identified by their address text, as in the code, which accepts either case of its hexadecimal digits. JSON encoding is a codec assumed to decode what it encodes without raw newlines.
- Heights are unbounded here and 32-bit words in the code: chains are shorter than 2^32 blocks. Sums of 64-bit amounts in 128-bit words are taken not to overflow for the same reason.
- Error texts; the model has one error.
- The writer lease and its stale-lock reclaim: one writer at a time. Mutex poisoning, status files, the legacy `chain.json` export and migration.
- The first generation number comes from the clock in the code and is an arbitrary number here: without any pointer nothing is named that it could collide with. Revision counters are unbounded.
- OpenCL loading and device calls, tuning, metrics, sleeping; the kernel's arrays of results.
- Decimal printing and parsing of amounts.
- The fast UI loader and the persisted list of unspent outputs: the list is sorted and has no duplicates, so it stands for the map used here.
- Mempool.Admit: the JIN, infusion, sale, name, library and governance validators against chain state and pending list are two parameters; the sale's miner fee is the one block validation asks for.
- Template.CandidateTransactions: states of the features other than pools are an arbitrary type with an arbitrary trial.
- PoolRegistry.ValidatedIsReplayed: the registry map is a value here; updating it in place is modelled in the context that holds it.
- LivePublish.NothingPublishedIsLost: speaks of work, not of the pending transactions merged at equal tips.

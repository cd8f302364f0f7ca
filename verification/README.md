# Neblio consensus and node structures in Dafny

A model of the parts of the Neblio proof-of-stake node whose correctness rests on state that has
to agree across many operations, with proofs of what those operations keep.

- **Best chain** (`BlockTree`, `Transactions`, `ChainState`, `BestChain`, `ChainRuns`, `NodeRuns`).  The block
  database is a set of tables: the block index with its `hashNext` links, the height map, block
  bodies, block metadata and the best hash.  `ChainDb` updates them the way the node does;
  every operation is proved against a pure state in which the whole link data is a function
  of the block tree and the tip.  A block offer is one database transaction.  `NodeRuns` runs the
  database, and the caches on top of it, through whole sequences of offers and queries.
- **Fork spending** (`ForkSpend`, `ForkReplay`, `ForkVerify`).  The overlay over the transaction index
  that first unspends and then respends a fork, its exact meaning, and its relation to a plain replay
  on the outputs unspent at the common ancestor.
- **Address manager** (`AddrTables`, `AddrMan`, `AddrCheck`, `AddrStore`).  Six cross-linked tables, each
  operation with nondeterministic random choices, the node's own consistency check, and saving and loading.
- **Caches** (`LruCache`, `MainChainCache`).  The bounded cache over the block index, and the cache of
  main-chain membership that is kept when the chain grows by one block.
- **Merkle trees** (`Merkle`), **stake modifiers** (`StakeModifier`), **block assembly** (`Miner`, `MinerPicks`),
  **number formats** (`Numerals`, `BigNum`, `Base58`), **block locators** (`Locator`) and **median time past**
  (`MedianTime`).  `Sequences`, `Sorting` and `Wrappers` hold what they share.

Hashes are natural numbers, 0 being the null hash.  Hash functions are parameters, injective where a
lemma says so.  Amounts and trust are mathematical integers.  Random choices are nondeterministic.  What
the model does not look into is a parameter: `Rules.valid` stands for all checks of `ConnectBlock` before its
first write other than the value rules spelled out in `Transactions`; `Checks` stands for input fetching,
token rules and input connection in block assembly; `Request.accepted` for the stake modifier checkpoint.

Where the code does less than its comments say, the model follows the code.  The comment on
`GetBlockHeightIfMainChain` argues that membership is unchanged when the new best block sits on the old one;
`RightExactlyWhenUnseen` gives the exact condition, and `CachedDepthsAreRight` shows that it always holds for a
chain grown from its genesis block.  The in-memory genesis entry is not rolled back with the database;
`GenesisCopyAgrees` says exactly when it goes stale.  `CBlockLocator::Set` reads a missing entry when it walks back
off the main chain past the genesis block; `Set` says exactly when.  A manager loaded from a stream with another
number of new buckets may overfill one; `ResizedIsSound` says exactly when it does not.  `HeaviestAfterRun` shows that the postponement of
reconnects in `SetBestChain` is never needed on a chain grown from its genesis block.

The container of the cache and the orphan list of block assembly are modelled by values: cache entries in
order of insertion, and waiting transactions by their hash in place of
an address in memory.  The height cache of `UnspendBlock` and the time cache of `GetMedianTimePast` hold constants
of blocks, so `LookupIsTransparent` covers both; only the latter appears in the model of its user.

## Model

| member | source | states |
|---|---|---|
| `ChainState.InMainChainIffAncestor` | wallet/blockindex.cpp:117-125 | an entry passes `IsInMainChain` exactly when its block is the best block or one of its ancestors |
| `ChainState.RenderIndexUp` | wallet/block.cpp:737-757 | moving the tip up by one block changes exactly one `hashNext` link, that of the old tip |
| `ChainState.RenderIndexDown` | wallet/block.cpp:148-167 | moving the tip down clears exactly that link again |
| `ChainState.RenderHeightsStep` | wallet/block.cpp:706-710 | the height map gains one height on the way up and loses the same one on the way down |
| `ChainState.ForkBelowPivot` | wallet/block.cpp:808-832 | the fork lies below the pivot; every block of the new path from the pivot on has more trust than the old tip, every block below it does not |
| `ChainState.SwitchDecided` | wallet/block.cpp:837-862 | whether a reorganisation goes through depends only on the blocks between fork and pivot |
| `ChainState.ExtensionSwitch` | wallet/block.cpp:805-807 | a block on top of the tip is its own pivot, and switching to it is just connecting it |
| `ChainState.OfferDecided` | wallet/block.cpp:1100-1175 | the exact condition for taking an offer, in terms of the tree before it |
| `ChainState.SwitchReaches` | wallet/block.cpp:808-862 | a switch connects only blocks that pass their checks and stops only at one that does not |
| `ChainState.TakenIsAdded` | wallet/block.cpp:1108-1157 | a taken offer adds exactly one entry and one block; one that does not outweigh the best block leaves links, heights and best hash alone |
| `BestChain.ChainDb.constructor` | wallet/block.cpp:794-804 | the database after the genesis block became the best block |
| `BestChain.ChainDb.DisconnectBlock` | wallet/block.cpp:138-174 | the stored chain is the old one with the tip moved to the predecessor; the in-memory genesis link is cleared exactly when the tip is the genesis block again |
| `BestChain.ChainDb.WriteConnected` | wallet/block.cpp:680-757 | the writes of a connection store exactly the chain with the new tip, its money supply and its mint |
| `BestChain.ChainDb.ConnectBlock` | wallet/block.cpp:512-757 | a block connects exactly when its checks pass; otherwise nothing changes |
| `BestChain.ChainDb.FindFork` | wallet/block.cpp:992-1003 | the walk down both chains ends, on every well-formed tree, in the highest common ancestor of the tip and the new block |
| `BestChain.ChainDb.WalkBack` | wallet/block.cpp:1005-1018 | the list is exactly the path down to, and without, the fork |
| `BestChain.ChainDb.PlanReorganize` | wallet/block.cpp:992-1018 | the disconnect list is the path from the tip to the fork, the connect list the path from the fork to the new block, lowest first |
| `BestChain.ChainDb.DisconnectList` | wallet/block.cpp:1025-1042 | disconnecting the list rewinds the stored chain to the fork |
| `BestChain.ChainDb.ConnectList` | wallet/block.cpp:1044-1067 | blocks connect parent before child; the chain ends at the last block before the first that fails |
| `BestChain.ChainDb.Reorganize` | wallet/block.cpp:987-1073 | the stored chain is the fork extended along the new path as far as blocks connect; success exactly when that is all of it |
| `BestChain.ChainDb.Postpone` | wallet/block.cpp:808-835 | the walk back stops at the first block that beats the best chain and lists exactly the blocks above it |
| `BestChain.ChainDb.SwitchToPivot` | wallet/block.cpp:837-844 | the reorganisation to the pivot succeeds exactly when every block between fork and pivot connects |
| `BestChain.ChainDb.SwitchBranch` | wallet/block.cpp:808-862 | after a reorganisation the postponed blocks are connected as far as they go; a failure among them is not an error |
| `BestChain.ChainDb.SetBestChain` | wallet/block.cpp:786-862 | both branches together: success exactly when the path up to the pivot connects, and the chain that is stored then |
| `BestChain.ChainDb.AddToBlockIndex` | wallet/block.cpp:1100-1175 | inside the transaction: an entry is made for a new, accepted block, and the best chain moves exactly when the block outweighs it and nothing on its branch hinders the switch |
| `BestChain.ChainDb.WriteToDisk` | wallet/block.cpp:1790-1848 | an offer is taken exactly when the block is new and accepted and, if it would outweigh the best one, no block on its branch up to the point where it overtakes fails its checks; a block that does not outweigh the best one is indexed with its height and trust and nothing else changes; otherwise the chain ends on its branch, above the old trust, right before the first block that fails; a refused offer leaves the database as it was |
| `ChainRuns.StoredMainChain` | wallet/blockindex.cpp:117-125 | in a stored state `IsInMainChain` holds exactly for the best block and its ancestors, and the height map lists exactly those, each at its height, and nothing above the tip |
| `NodeRuns.OfferAll` | wallet/block.cpp:1790-1848 | a database that is offered any sequence of blocks goes through exactly the states of the run |
| `NodeRuns.RunFromGenesis` | wallet/block.cpp:786-862 | after every sequence of offers to a node started on its genesis block, the links and the height map in its tables are those of the best block and its ancestors, and no indexed block has more trust than the best one |
| `NodeRuns.ThereAndBack` | wallet/block.cpp:987-1073 | two calls of `Reorganize`, to another block and back to the old best block, that both succeed restore every `hashNext` link, the height map and the best hash; they do succeed when the blocks above the fork connect on either side |
| `ChainRuns.TrustRises` | wallet/block.cpp:1160-1163 | an offer that changes the best block strictly raises the trust of the best chain, also when a postponed block fails |
| `ChainRuns.TrustRisesInRun` | wallet/block.cpp:1119-1163 | over whole runs: a best block that was left never becomes best again |
| `ChainRuns.StepHeaviest` | wallet/block.cpp:808-862 | while the best block is a most trusted one, only the offered block itself can become best, and nothing is postponed |
| `ChainRuns.HeaviestAfterRun` | wallet/block.cpp:1160-1163 | after every run from the genesis block, the best block has the most trust of all blocks ever indexed |
| `ChainRuns.RecordedAfterRun` | wallet/block.cpp:680-704 | after every run, the recorded money supply of a connected block is that of its predecessor plus all its outputs less what all but the coinbase consume, and so the sum along its own path; its mint is what its coinbase pays and its coinstakes gain, at most the reward of a proof-of-stake or of a proof-of-work block; its predecessor was connected before it |
| `ChainRuns.GenesisCopyAgrees` | wallet/block.cpp:164-166 | the in-memory genesis entry agrees with the database after an offer if and only if the offer was not refused after it had left the genesis block |
| `ChainRuns.GenesisCopyCanGoStale` | wallet/block.cpp:747-749 | a chain grown from its genesis block by one offer, and a refused offer after which the in-memory genesis entry is stale |
| `Transactions.Account` | wallet/block.cpp:550-704 | the loop adds up all outputs less what all but the coinbase consume, and the coins that coinbase and coinstakes create; the reward check is exact |
| `Transactions.BlockTotals` | wallet/block.cpp:572-704 | net output and mint of every well-shaped block in terms of two independent sums over its transactions |
| `Transactions.StakeMint` | wallet/block.cpp:662-704 | a proof-of-stake block mints exactly its coinstake's net output, and passes the reward check exactly when that is at most the calculated reward |
| `Transactions.WorkMint` | wallet/block.cpp:651-704 | a block without a coinstake mints exactly what its coinbase pays, and passes the reward check exactly when that is at most the reward |
| `ForkSpend.SimulationExact` | wallet/block.cpp:414-460 | the two passes succeed if and only if every input of the fork names an in-range output of a main-chain transaction or of a fork transaction not after its own, that output is not spent at or below the common ancestor, and no two inputs name the same output; the fork may repeat confirmed transactions |
| `ForkSpend.SimulationExactOnIndex` | wallet/block.cpp:414-460 | the same for every transaction index that marks what its transactions spend, when an id stands for one transaction |
| `ForkSpend.FirstPass` | wallet/block.cpp:252-324 | what the overlay holds after the first pass, for every output |
| `ForkSpend.SecondPass` | wallet/block.cpp:355-405 | when the second pass succeeds, and what it has spent |
| `ForkReplay.ReplayIffSimulated` | wallet/block.cpp:414-486 | replaying the fork on the outputs unspent at the ancestor succeeds exactly when the simulation does and no input names a transaction that only the abandoned branch or a later block contains |
| `ForkReplay.AbandonedOutputPasses` | wallet/block.cpp:414-460 | a concrete fork that spends an output of the abandoned branch: the simulation lets it through, the replay does not |
| `ForkVerify.UnspendTransaction` | wallet/block.cpp:268-321 | the input loop of the first pass, with its errors, is the first-pass function |
| `ForkVerify.UnspendBlock` | wallet/block.cpp:252-324 | the transaction loop of the first pass |
| `ForkVerify.RespendTransaction` | wallet/block.cpp:367-395 | the input loop of the second pass, with its errors, is the second-pass function |
| `ForkVerify.RespendBlock` | wallet/block.cpp:355-405 | the transaction loop of the second pass |
| `ForkVerify.GetBlocksUpToCommonAncestor` | wallet/block.cpp:178-217 | the list is the fork above the highest main-chain block, lowest first, and that block is the common ancestor; an unknown predecessor is an error |
| `ForkVerify.SimulateFork` | wallet/block.cpp:414-460 | all blocks go through the first pass before any goes through the second |
| `ForkVerify.VerifyInputsUnspent` | wallet/block.cpp:462-486 | on a transaction index that marks what its transactions spend, a new block is let through exactly when its fork, with it, spends only available outputs and none twice |
| `AddrTables.SizesPartition` | wallet/addrman.cpp:438-494 | new and tried entries together are all entries |
| `AddrTables.KeptIff` | wallet/addrman.cpp:38-56 | which entries are never deletable: tried in the last minute, or recently seen with few enough failures |
| `AddrMan.AddrMan.constructor` | wallet/addrman.h:382-390 | an empty manager satisfies every cross-link |
| `AddrMan.AddrMan.SwapRandom` | wallet/addrman.cpp:109-127 | two places of the random order trade, and nothing but the two back links changes |
| `AddrMan.AddrMan.Create` | wallet/addrman.cpp:94-107 | a new entry is in the id table, the address table and the random order, with address, port and services as they came, the time set back by the penalty, and no history |
| `AddrMan.AddrMan.FirstTerrible` | wallet/addrman.cpp:158-176 | the first deletable entry in id order, if there is one |
| `AddrMan.AddrMan.OldestOfFour` | wallet/addrman.cpp:178-191 | the least recently seen of a sample of one to four entries |
| `AddrMan.AddrMan.ShrinkNew` | wallet/addrman.cpp:153-205 | the bucket loses exactly one entry: the first deletable one, else the least recently seen of the sample; the entry leaves the manager exactly with its last reference |
| `AddrMan.AddrMan.SelectTried` | wallet/addrman.cpp:129-151 | the bucket keeps its entries, and the returned place is in range |
| `AddrMan.AddrMan.MakeTried` | wallet/addrman.cpp:207-263 | no address is lost; an entry makes way exactly when the tried bucket is full, and goes to its own new bucket if there is room, else to the one the moved entry left, which has room |
| `AddrMan.AddrMan.Good` | wallet/addrman.cpp:265-314 | for any time, the entry is in the tried bucket that its address and port hash to, with fresh statistics, at most one other entry went back to new, all else is unchanged and every cross-link holds; the statistics still pass the consistency check exactly when the time is positive or the peer is unknown |
| `AddrMan.AddrMan.Refresh` | wallet/addrman.cpp:325-353 | services add up, the time moves to the reported one, set back by the penalty, exactly when it lags by more than the update interval, and nothing else changes; the conditions for one more bucket |
| `AddrMan.HearingMovesForward` | wallet/addrman.cpp:325-334 | hearing of an address again never moves its time back nor past the reported time, moves it only by more than an hour, and forgets no service |
| `AddrMan.AddrMan.EnterNew` | wallet/addrman.cpp:362-370 | a full bucket loses one other entry, a bucket with room none |
| `AddrMan.AddrMan.Add` | wallet/addrman.cpp:316-372 | new exactly when routable and unknown, and then the peer is known under its address and port with services and time as reported; what a second hearing changes; which bucket is entered, on what conditions and what it loses; the tried table is untouched |
| `AddrMan.AddrMan.Attempt` | wallet/addrman.cpp:374-391 | one more attempt for exactly the named peer; the statistics still pass the consistency check exactly when the time is not negative or the peer is unknown |
| `AddrMan.AddrMan.Connected` | wallet/addrman.cpp:513-531 | the time moves for exactly the named peer, at most every 20 minutes |
| `AddrMan.AddrMan.GetAddr` | wallet/addrman.cpp:497-511 | the share that is returned, each address known and none twice |
| `AddrCheck.CheckEntries` | wallet/addrman.cpp:445-464 | the first loop accepts exactly consistent entries and collects the tried ids and the reference counts |
| `AddrCheck.CheckTried` | wallet/addrman.cpp:469-477 | the tried loop accepts exactly tables that list tried ids without repetition |
| `AddrCheck.CheckNew` | wallet/addrman.cpp:479-488 | counting down ends empty exactly when every reference count is the number of buckets that hold the id |
| `AddrCheck.Check` | wallet/addrman.cpp:438-494 | the code is 0 exactly for consistent tables |
| `AddrCheck.ValidPassesCheck` | wallet/addrman.cpp:438-494 | the cross-links that every operation keeps, with statistics in order, imply what the consistency check looks for |
| `AddrStore.SavePart` | wallet/addrman.h:284-306 | the early exit by count still writes every entry of the kind, in id order |
| `AddrStore.Save` | wallet/addrman.h:279-317 | what is written determines entries, buckets and counters |
| `AddrStore.Load` | wallet/addrman.h:318-380 | nothing is lost exactly when every tried record fits its bucket, and what is rebuilt then, also from a stream with another number of new buckets |
| `AddrStore.RoundTrip` | wallet/addrman.h:248-380 | loading a saved manager loses nothing and gives the same addresses, bucket memberships, reference counts, `nNew` and `nTried` up to renumbering |
| `AddrStore.LoadedIsSound` | wallet/addrman.h:318-380 | the loaded manager satisfies every cross-link again |
| `AddrStore.ResizedIsSound` | wallet/addrman.h:325-339 | a stream with another number of new buckets loads as a sound manager exactly when no more new entries than a bucket may hold hash to the same one: the size of a rebuilt bucket is not checked |
| `LruCache.BlockIndexLRUCache.Shrink` | wallet/blockindexlrucache.h:192-194 | eviction keeps exactly the newest entries up to the size limit |
| `LruCache.LookupKeepsValid` | wallet/blockindexlrucache.h:73-90 | whatever is looked up, refused or evicted, no two entries ever share an order, a block or a predecessor |
| `LruCache.AddingTakes` | wallet/blockindexlrucache.h:73-90 | an entry that shares no block and no predecessor with those held becomes the newest one |
| `LruCache.BlockIndexLRUCache.GetFromCache` | wallet/blockindexlrucache.h:198-212 | the value held for the key, if any |
| `LruCache.BlockIndexLRUCache.Get` | wallet/blockindexlrucache.h:171-196 | the answer and the new contents of a lookup |
| `LruCache.BlockIndexLRUCache.ManualAdd` | wallet/blockindexlrucache.h:237-251 | the new contents after adding an entry by hand |
| `LruCache.LookupIsTransparent` | wallet/blockindexlrucache.h:171-251 | while the cache agrees with the index, every lookup answers what the index says and keeps it so, whatever is refused or evicted |
| `MainChainCache.ThreadCaches.constructor` | wallet/merkletx.cpp:39-54 | the caches of a thread at its start |
| `MainChainCache.ThreadCaches.GetBestBlockHeight` | wallet/merkletx.cpp:15-33 | the answer is the height of the best block, and the remembered pair stays right |
| `MainChainCache.ThreadCaches.GetBlockHeightIfMainChain` | wallet/merkletx.cpp:65-97 | on a right cache without the new best block, the height of the block if it is in the main chain, and none otherwise; the new cache, for every best block passed in |
| `MainChainCache.ThreadCaches.GetDepthInMainChain` | wallet/merkletx.cpp:124-137 | on right caches without the new best block, the depth by way of the cache is the number of blocks from the transaction's main-chain block up to the best one, negative exactly when its place in the block is unknown, and 0 for any other; the caches stay right |
| `MainChainCache.ThreadCaches.GetDepthAndIndex` | wallet/merkletx.cpp:103-122 | the same depth by way of the index, with its sign, and the index entry exactly when it is not 0 |
| `MainChainCache.ExtensionKeeps` | wallet/merkletx.cpp:78-84 | an extension of the main chain by one block leaves the membership of all other blocks alone |
| `MainChainCache.QueryIsDirect` | wallet/merkletx.cpp:65-97 | a query is answered as the index would answer it, and the cache stays right |
| `MainChainCache.RightExactlyWhenUnseen` | wallet/merkletx.cpp:78-88 | all answers are right if and only if the cache is not kept with an entry for the new best block in it |
| `MainChainCache.SeenTipExists` | wallet/merkletx.cpp:78-88 | a concrete cache and chain for which the kept cache denies the best block |
| `MainChainCache.DepthIsDirect` | wallet/merkletx.cpp:103-138 | both ways of computing a depth agree |
| `MainChainCache.DepthIs` | wallet/merkletx.cpp:117-133 | the depth used throughout, in terms of the heights of the two blocks and the sign |
| `MainChainCache.RightIfNotAskedEarly` | wallet/merkletx.cpp:51-97 | on every run of offers and queries from any stored chain, all depths are right if no block is asked for before the offer that makes it best |
| `MainChainCache.RightFromGenesis` | wallet/merkletx.cpp:51-97 | from a chain whose best block is a most trusted one, all depths of every run are right without that proviso |
| `MainChainCache.CachedDepthsAreRight` | wallet/merkletx.cpp:51-138 | the same for a node that starts on its genesis block with empty caches |
| `NodeRuns.ServeFromGenesis` | wallet/merkletx.cpp:51-138 | the database and the caches together: every depth a thread answers between any offers is the one the index has at that moment |
| `Merkle.HashPairs` | wallet/merkle.cpp:56-64 | one level written over the front of the level below it |
| `Merkle.ComputeMerkleRoot` | wallet/merkle.cpp:46-70 | the in-place loop computes the root, and the flag is raised exactly when some level pairs two equal hashes |
| `Merkle.ConstructMerkleTree` | wallet/merkle.cpp:92-115 | the flat tree is all levels in order, and the flag is raised exactly when some level ends in two equal hashes |
| `Merkle.RootIsLast` | wallet/merkle.cpp:46-115 | the root is the last hash of the flat tree |
| `Merkle.RootIsTop` | wallet/merkle.cpp:46-70 | the root computed level by level is that of the full binary tree over the leaves, defined from the top, in which an empty right half repeats the left one |
| `Merkle.GetMerkleBranch` | wallet/block.cpp:60-72 | the branch read off the flat tree is the siblings of the leaf and its ancestors |
| `Merkle.CheckMerkleBranch` | wallet/block.cpp:46-58 | what the branch loop computes, 0 for the index -1 |
| `Merkle.BranchLeadsToRoot` | wallet/block.cpp:46-72 | for every index in range the branch leads from the leaf to the root |
| `Merkle.OnlyBranchLeadsToRoot` | wallet/block.cpp:46-58 | under an injective pair hash nothing else of that length does: a hash that leads to the root is a leaf, and for an index in range it is that leaf with its own branch |
| `Merkle.SameLengthSameRoot` | wallet/merkle.cpp:46-70 | under an injective pair hash, lists of the same length with the same root are equal |
| `Merkle.DifferentTwinsAreFlagged` | wallet/merkle.cpp:92-115 | of two different lists of equal depth with the same root at least one is flagged by the end-of-level check, the empty list and the null hash aside |
| `Merkle.EndIsPair` | wallet/merkle.cpp:46-115 | the end-of-level flag implies the all-pairs flag |
| `Merkle.FlagIsExact` | wallet/merkle.cpp:92-115 | the end-of-level flag is raised exactly for lists that have a shorter twin of the same depth, or equal hashes right below the root |
| `Merkle.FlaggedHasTwin` | wallet/merkle.cpp:7-44 | the shorter twin of a flagged list is one of its prefixes |
| `Merkle.ParentHasSameRoot` | wallet/merkle.cpp:46-70 | equal depth cannot be left out: two lists of different depth with the same root, neither flagged |
| `StakeModifier.GetStakeModifierSelectionInterval` | wallet/kernel.cpp:57-65 | the selection interval is the sum of the 64 sections |
| `StakeModifier.SectionsGrow` | wallet/kernel.cpp:48-55 | the sections grow from a third of the interval to all of it |
| `StakeModifier.SectionIs` | wallet/kernel.cpp:48-65 | each section is the interval times 63 over 189 - 2n, rounded down |
| `StakeModifier.RecentStretch` | wallet/kernel.cpp:157-165 | the candidates are the longest stretch of blocks below the given one with none older than the start |
| `StakeModifier.CollectCandidates` | wallet/kernel.cpp:149-168 | the candidates, strictly ascending by time and, at equal times, by hash |
| `StakeModifier.SelectBlockFromCandidates` | wallet/kernel.cpp:70-112 | fails only when every candidate is selected; else the earliest minimal score among unselected candidates up to the stop time, or the earliest unselected one if none qualifies |
| `StakeModifier.ScoreIs` | wallet/kernel.cpp:95-99 | the score is the selection hash, without its last 32 bits for a proof-of-stake block, which so scores below 2^224 |
| `StakeModifier.PickIsLowest` | wallet/kernel.cpp:70-112 | the pick compared with every contender by selection hash, for each kind of block |
| `StakeModifier.PickIsUnique` | wallet/kernel.cpp:70-112 | there is only one such block |
| `StakeModifier.PicksDiffer` | wallet/kernel.cpp:170-191 | the picks of all rounds are different candidates |
| `StakeModifier.PicksAreUnique` | wallet/kernel.cpp:170-191 | the whole sequence of picks is determined by the chain |
| `StakeModifier.GetLastStakeModifier` | wallet/kernel.cpp:23-46 | modifier and time of the nearest block that generated one, or failure |
| `StakeModifier.LastGeneratedIsNearest` | wallet/kernel.cpp:23-46 | that block is the highest generating block of the path, and there is none exactly on failure |
| `StakeModifier.SelectBlocks` | wallet/kernel.cpp:149-191 | as many rounds as candidates, up to 64, and none of them fails for want of a candidate |
| `StakeModifier.ComputeNextStakeModifier` | wallet/kernel.cpp:127-226 | when a new modifier is generated, when the old one is kept, and when there is none to start from |
| `StakeModifier.ModifierBits` | wallet/kernel.cpp:170-191 | bit r is the entropy bit of the r-th pick and higher bits are 0; after 64 rounds the stop time is the last multiple of the interval |
| `Miner.Examine` | wallet/miner.cpp:212-268 | priority, fee rate and in-pool parents of one transaction, and its registration with each parent; a transaction with a missing input leaves no trace |
| `Miner.Collect` | wallet/miner.cpp:199-269 | transactions without in-pool parents are queued once, those with wait for exactly their parents, and those that are not final or have a missing input are left out |
| `Miner.Release` | wallet/miner.cpp:406-419 | exactly those that waited for nothing else join the queue, once, however often they are listed |
| `Miner.Examined` | wallet/miner.cpp:292-386 | a transaction is added exactly when it passes every limit and check, and when the queue turns to fees |
| `Miner.CreateNewBlock` | wallet/miner.cpp:199-423 | every pick is one that no ready transaction beats and is added exactly when it passes; the block is what was added, size, fees and count are sums over it, and at the end nothing is ready |
| `Miner.PickedOnce` | wallet/miner.cpp:271-420 | each transaction is picked at most once, never before its parents are in the block |
| `Miner.ParentsFirst` | wallet/miner.cpp:406-419 | in the block every transaction comes after its in-pool parents, and none comes twice |
| `Miner.BelowLimits` | wallet/miner.cpp:292-300 | after every addition size and signature operations are strictly below their limits |
| `Miner.FeesArePaid` | wallet/miner.cpp:332-337 | every transaction in the block had its inputs and pays its minimum fee |
| `Miner.ConsideredIffParentsIncluded` | wallet/miner.cpp:406-419 | at the end the transactions considered are exactly those whose parents are all in the block |
| `MinerPicks.ReadyIff` | wallet/miner.cpp:206-269 | what can be picked: final transactions, neither coinbase nor coinstake, with every input on the chain or from one in the block, not picked before |
| `MinerPicks.EntryIs` | wallet/miner.cpp:217-262 | priority is the sum of value times depth over the inputs on the chain per byte, the fee rate the fee per 1000 bytes |
| `MinerPicks.PickIsBest` | wallet/miner.cpp:88-107 | no transaction that can be picked has a higher priority than the pick, nor at equal priority a higher fee rate, until the queue turns to fees, and the other way round after that |
| `MinerPicks.AddedIff` | wallet/miner.cpp:292-386 | a pick goes into the block exactly when size, signature operations, time, fee, token and input rules hold, in terms of sums over the block so far |
| `MinerPicks.ByFeeIff` | wallet/miner.cpp:314-321 | the queue is in order of fees exactly from the first fitting pick that fills the priority part of the block or falls below the priority threshold |
| `BigNum.MpiRoundTrip` | wallet/bignum.h:308-333 | the sign-byte format is read back as written, for either sign |
| `BigNum.VchRoundTrip` | wallet/bignum.h:308-333 | `setvch` after `getvch` gives every number back |
| `BigNum.CompactLoss` | wallet/bignum.h:335-358 | reading back a compact form loses less than one part in 2^15 of a positive number, and nothing of one of up to three bytes |
| `BigNum.CompactIdempotent` | wallet/bignum.h:335-358 | writing again what was read back changes nothing |
| `BigNum.CompactMonotone` | wallet/bignum.h:347-358 | a greater number never has a smaller compact form |
| `BigNum.CompactValue` | wallet/bignum.h:335-345 | what every 32-bit compact form stands for: mantissa, sign and size as arithmetic |
| `BigNum.CompactForm` | wallet/bignum.h:347-358 | what is written for every number: its size and its three leading bytes |
| `BigNum.LengthIff` | wallet/bignum.h:347-358 | a number takes at most k + 1 bytes exactly when it is below 2^(8k + 7), so the numbers that have a compact form, of at most 255 bytes, are those below 2^2039 |
| `BigNum.TrustAntitone` | wallet/blockindex.cpp:106-115 | block trust falls with the target, and is at least 1 exactly for positive targets below 2^256 |
| `BigNum.TrustIsQuotient` | wallet/blockindex.cpp:106-115 | the trust of a positive target is how often the target and one more fit into 2^256, and 0 for any other |
| `Base58.EncodeBase58` | wallet/base58.h:28-65 | the text is a one for every leading zero byte followed by the digits of the number |
| `Base58.DecodeBase58` | wallet/base58.h:75-117 | decoding succeeds exactly for texts over the alphabet with space around them, and gives the bytes of that text |
| `Base58.AlphabetIs` | wallet/base58.h:25 | the symbols are those of the alphabet, in its order |
| `Base58.DecodeEncode` | wallet/base58.h:28-117 | decoding an encoded byte string gives it back, leading zeros included |
| `Base58.EncodeDecode` | wallet/base58.h:28-117 | encoding what a text over the alphabet decodes to gives the text back |
| `Base58.OneCore` | wallet/base58.h:82-99 | a padded text stands for one core only |
| `Base58.TrimmedDigits` | wallet/base58.h:101-106 | trimming the sign byte leaves exactly the digits of the number |
| `Locator.Set` | wallet/blocklocator.cpp:15-52 | from any indexed block: the entries are the blocks of its path at the offsets 0 to 10 and then doubling, as far as they go, and the genesis block; the walk goes past the genesis block instead exactly when the last of these is off the main chain |
| `Locator.OffsetsDouble` | wallet/blocklocator.cpp:22-49 | the offsets go one by one up to the tenth entry, and from there every gap is twice the one before |
| `Locator.ShallowForkHasLocator` | wallet/blocklocator.cpp:23-27 | a start that shares about half of its path with the main chain always has a locator |
| `Locator.LongForkHasNone` | wallet/blocklocator.cpp:23-27 | a fork of eleven blocks that leaves the main chain at the genesis block has none |
| `Locator.LocatorIsShort` | wallet/blocklocator.cpp:15-52 | the number of entries is logarithmic in the height |
| `Locator.GetBlockIndex` | wallet/blocklocator.cpp:72-83 | the first entry that is in the main chain, else the genesis entry |
| `Locator.FoundIsClose` | wallet/blocklocator.cpp:72-83 | what a peer finds is the last shared block, or overshoots it by less than the distance from the start to it |
| `MedianTime.GetMedianTimePast` | wallet/blockindex.cpp:129-168 | the result is the median of the last eleven times, the genesis block repeated on short chains, and the time cache stays right |
| `MedianTime.BackOnPath` | wallet/blockindex.cpp:129-168 | the sampled blocks are those of the path below the block, the genesis block where it ends |
| `MedianTime.MedianIsUnique` | wallet/blockindex.cpp:166-167 | there is only one median |
| `MedianTime.MiddleIsMedian` | wallet/blockindex.cpp:166-167 | the middle of the sorted samples is the median |
| `MedianTime.MedianNeverFalls` | wallet/block.cpp:1375-1380 | along every chain whose blocks passed the time rule, median time past never decreases |

## Left out

- Script evaluation, `ConnectInputs`, `FetchInputs`, `DisconnectInputs` and the NTP1 token logic: validity is a parameter, and the transaction index enters as a plain map.
- Writes of the transaction index in `ConnectBlock` and `DisconnectBlock` (wallet/block.cpp:138-143, wallet/block.cpp:712-717), and CheckBIP30Attack.
- Failures of the database itself, and of the NTP1 writes after the first write of `ConnectBlock`.
- Wallet synchronisation, the memory pool after a reorganisation, user interface notification and logging.
- LMDB, RPC, networking, key handling and the other wrappers of foreign libraries: they would only add plumbing.
- `CCoins`, `CCoinsView` and `CPartialMerkleTree` in wallet/main.h, and `AllStoredVotes` in wallet/proposal.h.
- `Select_` and `GetChance` of the address manager (wallet/addrman.cpp:58-79, wallet/addrman.cpp:393-434): floating-point probabilities.
- AddrMan.AddrMan.SelectTried: says only that the returned place is in range, because the source records the place before the swap and so does not promise the least recently successful entry.
- AddrStore.Load: leaves out the version byte, and assumes a stream of the announced length with positions that exist and no more than 256 new buckets, past which the source reads outside its table (wallet/addrman.h:361-366).
- Miner.Examine: as Miner.CreateNewBlock.
- Miner.Collect: as Miner.CreateNewBlock.
- Miner.CreateNewBlock: requires that no transaction has a missing input after one from the pool, which holds of every pool whose inputs are all on the chain or in the pool; otherwise the source may use the address of a removed orphan (wallet/miner.cpp:224-241). Priorities are real numbers, not doubles, and the heap is a queue that hands out some maximal entry. The coinbase transaction, the clamping of the options and the header are not modelled.
- BigNum: the four length bytes of the MPI format, `getuint256` and hexadecimal conversion.
- Integer widths other than the 32-bit address time and the 32-bit compact form; heights, sizes, counters and sums are unbounded.
- `GetKernelStakeModifier` and the kernel hash check in wallet/kernel.cpp.
- `CheckSync` caching in wallet/checkpoints.cpp.
- `getOrderedFront`, `getOrderedBack` and `moveToTop_unsafe` of the cache: no modelled code uses them.

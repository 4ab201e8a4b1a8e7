# A Dafny model of the algorithmic core of Bitcoin Core

This project models the parts of Bitcoin Core that are algorithms rather than plumbing, and proves what
their comments, assertions and self-checks promise.

- **Cluster linearization** (`src/cluster_linearize.h`). A cluster is a graph of transactions with fees, sizes
  and dependencies; a linearization is an order with parents before children, and it is the better the higher
  its feerate diagram. The spanning-forest algorithm is modelled from the dependency graph to the output order,
  and so are chunking and the postlinearization that works on linked groups. The main results: the forest is
  valid after every step, optimization never makes the diagram worse, its end certifies that no valid order has
  a higher diagram anywhere, minimization keeps the diagram and ends in minimal chunks, and the result of
  `Linearize` is a valid order, as good as the old one, and optimal whenever it says so. Postlinearization meets
  all the guarantees it documents: connected chunks, optimal results for tree shapes in either direction, and
  nothing lost when a leaf is moved to the end.
- **The parallel check queue** (`src/checkqueue.h`) as a step system of a master and any number of workers, over
  all interleavings and rounds.
- **The coins cache** (`src/coins.cpp`, `src/coins.h`): a stack of caches of any depth over a database, seen as
  plain maps from outpoints to coins, down to the linked list of flagged entries.
- **The address manager** (`src/addrman.cpp`): its redundant tables, all of its operations that change them, and
  its self-check, which is proved to find a fault exactly where there is one.
- **The block index** (`src/chain.cpp`): the skip list equals the walk over parents.
- **256-bit arithmetic** (`src/arith_uint256.cpp`) on limbs equals arithmetic modulo a power of two; compact
  targets and block proofs.
- **Codecs and a cache**: Base58 (`src/base58.cpp`), Bech32 and Bech32m (`src/bech32.cpp`), and the cuckoo cache
  (`src/cuckoocache.h`).

Objects whose methods update their fields are classes; where the code changes a list, a map or a vector of
records, the field is a `seq` or a `map` that is reassigned; limb and digit buffers and the linearization that
is rewritten in place are arrays. Choices that the code leaves to a random number generator or to the order of a
hash table are nondeterministic, so that the proofs hold for all of them. Feerate diagrams are compared through
their support function: `Diagram(g, home, theta)` is the height of the concave diagram seen along the threshold
feerate `theta`, and one diagram is nowhere below another exactly if this holds for every `theta`.

## Layout

| files | contents |
|---|---|
| FiniteSets, Sums, Options | sets, sums over finite sets, optional values |
| FeeRates, Clusters, Linearizations, DepGraphs | feerates, clusters, orders and their diagrams, the dependency graph |
| Forests, Trees, Optimality, Merging, Improvement, TopologyRepair, Loading, Ordering, Minimality | the theory of spanning forests: trees and top sets, the optimality certificate, merge sequences, splitting, repair, loading, ranks, minimal chunks |
| ForestStates, InitialForests, SpanningForest, Emission, Blocks, Linearizing | the stored forest, the algorithm, writing out its chunks, and `Linearize` |
| Chunking | chunks of an order as the least concave majorant |
| GroupLists, Mirrors, PostLinearization, TreeShapes, MovedLeaves, LinkedGroups | postlinearization on lists of groups, its guarantees, and the linked entries that hold the groups |
| CheckQueues | the check queue |
| FlaggedLists, CoinLayers, CoinsViews | the linked list of flagged entries, one cache, the stack of caches |
| AddrTables, AddrSteps, AddrMan, AddrChecks | the address tables and their invariant, small changes, the operations, the self-check |
| BlockIndexes | block index entries and the active chain |
| Numerals, Limbs, LimbShifts, LimbDivision, CompactTargets | positional numerals, limb arithmetic, compact targets |
| Base58, Polynomials, Bech32, CuckooCaches | the codecs, with polynomials over the field of 32 elements, and the cuckoo cache |

## Findings

- `SpendCoin` returns true also for a coin that an entry of the cache already holds as spent and not fresh; only
  what it hands out then is an empty coin. The contract of `CoinsViews.CoinsStack.SpendCoin` states exactly when it
  succeeds, and `CoinsViews.CoinsStack.SpendTwice` is an example.
- `AddCoin` does not notice an unspent coin below the cache. If the caller does not allow for one, the entry is
  wrongly FRESH, and there are no plain maps anymore that the caches could stand for:
  `CoinsViews.CoinsStack.AddCoin` states this as an equivalence, and `CoinsViews.CoinsStack.AddUnnoticed` is an
  example.
- Remapping a dependency graph loses dependencies if the graph has a cycle, unless the cycle is of two transactions
  without other ancestors: `DepGraphs.DepGraph.Remapped` states this as an equivalence, and
  `DepGraphs.DepGraph.RemapCircle` is an example.
- The address manager's self-check fails after `Good` was called for a known address at time zero or before,
  except at time zero when the address does not end up tried: `AddrManagers.AddrMan.Good` states this as an
  equivalence, and `AddrChecks.ConnectedAtZero` is an example. For positive times the check always passes.
- What the self-check does not look at is stated by `AddrChecks.Unchecked`: stale addresses, ids that are not
  below the next one, and networks without a count. `AddrChecks.SoundIffChecked` proves that nothing else is missing.
- The branch of `ResolveCollisions_` for a collision that is none anymore cannot be reached, since a filled slot of
  the tried table is never empty between operations.
- When an element is first displaced, the cuckoo cache swaps it into the second of its places, not into the first
  as the comment at `src/cuckoocache.h:425` says.
- `DecodeBase58` with a negative limit still accepts a string that decodes to nothing, and this is the only way for
  a result to exceed the limit: `Base58.DecodeBase58` states this as an equivalence, and `Base58.DecodeNothing` is
  an example.

## Model

| member | source | states |
|---|---|---|
| `DepGraphs.DepGraph.constructor` | src/cluster_linearize.h:71-75 | The empty graph is valid. |
| `DepGraphs.DepGraph.Remapped` | src/cluster_linearize.h:92-114 | The graph rebuilt at mapped positions from reduced parents is isomorphic to the original (same feerates, and an ancestor at the mapped positions exactly for an ancestor at the old ones) exactly if whoever is on a cycle has one other ancestor and no more; so it is for every acyclic graph. No dependency is ever invented. |
| `DepGraphs.DepGraph.RemapCircle` | src/cluster_linearize.h:92-114 | A circle of three transactions is not regenerated. |
| `DepGraphs.DepGraph.AddTransaction` | src/cluster_linearize.h:136-149 | The first unused position gets an unconnected transaction, nothing else changes, and ancestors and descendants stay reflexive, transitive and mutually inverse. |
| `DepGraphs.DepGraph.RemoveTransactions` | src/cluster_linearize.h:160-174 | What remains keeps its ancestors and descendants among what remains, also across removed transactions; trailing unused entries go. |
| `DepGraphs.DepGraph.AddDependencies` | src/cluster_linearize.h:180-201 | Exactly the descendants of the child gain the ancestors of the parents, also when this makes a cycle, and the graph stays valid. |
| `DepGraphs.WithParentsLeast` | src/cluster_linearize.h:176-201 | The graph after adding parents is the least valid graph with the old ancestors and the new parents. |
| `DepGraphs.DepGraph.GetReducedParents` | src/cluster_linearize.h:211-222 | In an acyclic graph the loop returns exactly the direct parents. In any graph it returns proper ancestors of which all others are ancestors, and only the lowest of those on a cycle with the transaction. |
| `DepGraphs.DepGraph.GetReducedChildren` | src/cluster_linearize.h:232-243 | The same for direct children. |
| `DepGraphs.DirectGenerates` | src/cluster_linearize.h:203-210 | The ancestors of the direct parents, with the transaction itself, are all its ancestors. |
| `DepGraphs.DirectLeast` | src/cluster_linearize.h:203-210 | Every set of parents that generates the ancestors contains all direct parents. |
| `DepGraphs.DirectMutual` | src/cluster_linearize.h:224-231 | Direct parents and direct children describe the same dependencies. |
| `DepGraphs.ClusterAcyclic` | src/cluster_linearize.h:328-337 | The direct dependencies of a graph without mutual ancestors hold no cycle. |
| `Chunking.ChunkLinearizationInfo` | src/cluster_linearize.h:429-444 | The loop that absorbs earlier chunks of lower feerate returns the chunks of the list: contiguous segments covering it, with non-increasing feerates, each beating its own prefixes, with their sets and exact feerates. |
| `Chunking.ChunkLinearization` | src/cluster_linearize.h:449-464 | The same loop on feerates alone returns the feerates of those chunks. |
| `Chunking.ChunkingUnique` | src/cluster_linearize.h:427-464 | A list has only one chunking. |
| `Chunking.ChunksDetermined` | src/cluster_linearize.h:446-464 | Hence both functions have one answer, and the second is the projection of the first. |
| `Chunking.LeastMajorant` | src/cluster_linearize.h:427-464 | Along every threshold the chunk diagram is as high as the highest prefix and no higher: it is the least concave majorant of the prefix diagram. |
| `Chunking.AsGoodByChunks` | src/cluster_linearize.h:1795-1797 | One order is as good as another, prefix by prefix, exactly if its chunk diagram is nowhere lower. |
| `SpanningForest.SpanningForestState.constructor` | src/cluster_linearize.h:1177-1210 | The initial state is a valid forest for the graph's direct dependencies, with every transaction in a chunk of its own and nothing active. |
| `SpanningForest.SpanningForestState.Activate` | src/cluster_linearize.h:818-887 | Activating a dependency between two chunks joins them under the child's index and keeps the whole forest valid: partition, trees, top sets, feerates, reachable sets and indexes. |
| `SpanningForest.SpanningForestState.Deactivate` | src/cluster_linearize.h:891-946 | Deactivating a dependency moves exactly its top set to the index that the dependency held, which was no chunk's, and keeps the whole forest valid. |
| `Trees.ChunkShape` | src/cluster_linearize.h:567-577 | In a valid forest a chunk of N transactions has N-1 active dependencies, which link all of its members. |
| `Trees.TopShape` | src/cluster_linearize.h:597-600 | The stored top set of an active dependency is what is linked to its parent once the dependency is removed. |
| `Trees.ConnectedIffLinked` | src/cluster_linearize.h:554-555 | A set is connected by cuts exactly if any two of its members are linked by a path. |
| `SpanningForest.SpanningForestState.MergeChunks` | src/cluster_linearize.h:950-988 | Some dependency between two chunks that depend on each other is found and activated, joining exactly these chunks. |
| `SpanningForest.SpanningForestState.MergeChunksDirected` | src/cluster_linearize.h:993-1000 | The same in either direction. |
| `SpanningForest.SpanningForestState.PickMergeCandidate` | src/cluster_linearize.h:1004-1049 | The result is a reachable chunk of lowest (or, downward, highest) feerate that is not on the right side of the chunk's own, and there is none only if there is no such chunk. |
| `SpanningForest.SpanningForestState.MergeStep` | src/cluster_linearize.h:1054-1061 | One merge with the candidate, or no change if there is none. |
| `SpanningForest.SpanningForestState.MergeSequence` | src/cluster_linearize.h:1065-1078 | Merging until no candidate is left terminates, leaves the chunk without candidate, keeps what was set aside, keeps the queue of suboptimal chunks complete, and activates only dependencies that leave the chunk. |
| `SpanningForest.SpanningForestState.Improve` | src/cluster_linearize.h:1082-1114 | From a topological state, splitting at a dependency with a higher-feerate top and merging again ends topological, and that dependency is not active again. If the top part depends on the rest, which is stated in the state before, the diagram is the same; otherwise it is nowhere lower, and strictly higher at the chunk's feerate. |
| `Improvement.ImproveDiagram` | src/cluster_linearize.h:1082-1114 | A split, an upward and a downward merge sequence leave a diagram that is nowhere lower and strictly higher at the old chunk feerate. |
| `SpanningForest.SpanningForestState.PickChunkToOptimize` | src/cluster_linearize.h:1117-1138 | The first index in the queue that is a chunk's is returned, and it and those before it are taken off; none is returned only if there is none, and then every chunk was found to have no splittable dependency. |
| `SpanningForest.SpanningForestState.PickDependencyToSplit` | src/cluster_linearize.h:1141-1172 | An active dependency of the chunk whose top beats the chunk is returned if there is one; otherwise the chunk is unsplittable. |
| `SpanningForest.SpanningForestState.LoadLinearization` | src/cluster_linearize.h:1215-1226 | Loading a valid order ends in a topological state whose diagram is nowhere below that of the order; for any order, every merge is of a chunk with its merge candidate. |
| `SpanningForest.SpanningForestState.MakeTopological` | src/cluster_linearize.h:1229-1296 | From any valid state it terminates in a topological one, although unmerged chunks are tried in one direction only, and every merge on the way is of a chunk with its merge candidate; a topological state does not change. |
| `SpanningForest.SpanningForestState.StartOptimizing` | src/cluster_linearize.h:1299-1314 | Exactly the chunks are queued, each once. |
| `SpanningForest.SpanningForestState.OptimizeStep` | src/cluster_linearize.h:1317-1333 | The first chunk in the queue is taken off it. If no dependency of it is worth splitting at, nothing else changes; otherwise one that is worth it is not active afterwards, and the diagram is strictly higher at the chunk's feerate, or the same if the parts have to merge again, which is stated in the state before. A topological state stays topological, its diagram gets nowhere lower, and the step returns false only if no chunk can be split. |
| `SpanningForest.NoIdleStep` | src/cluster_linearize.h:1317-1333 | A step that leaves the active dependencies alone shortens the queue. |
| `Optimality.ClosedPartPays` | src/cluster_linearize.h:602-606 | The flow argument: in a tree none of whose top sets pays more than the chunk, no part closed under active dependencies does. |
| `Optimality.OptimalityCertificate` | src/cluster_linearize.h:602-606 | If no active dependency has a better top, no ancestor-closed set of transactions pays more beyond any threshold than the diagram of the state. |
| `SpanningForest.SpanningForestState.StartMinimizing` | src/cluster_linearize.h:1337-1354 | All chunks are queued, each with a pivot of its own, and with neither side tried yet. |
| `SpanningForest.SpanningForestState.MinimizeStep` | src/cluster_linearize.h:1357-1447 | The first entry is taken off the queue. If no dependency of its chunk has an equal-feerate top, nothing else changes; if none has the pivot on the wanted side, it goes on to its second stage or is done; otherwise the chunk is split at such a dependency. The diagram does not change, no top set beats its chunk, chunks of equal feerate do not depend on each other in a loop, and the step returns false only if all chunks are minimal. |
| `Minimality.PivotCertificate` | src/cluster_linearize.h:1371-1407 | If no equal-feerate top set has the pivot on the wanted side, no equal-feerate part of the chunk that could come first has. |
| `Ordering.SomeChunkReady` | src/cluster_linearize.h:1557-1603 | Among the chunks that are left, one of highest feerate depends on none of the others, so that the heap of ready chunks never runs empty. |
| `SpanningForest.SpanningForestState.GetLinearization` | src/cluster_linearize.h:1465-1605 | The output lists every transaction once, with parents before children, chunk by chunk, and reaches the state's diagram along every threshold. |
| `Emission.EmitChunk` | src/cluster_linearize.h:1562-1600 | All transactions of a ready chunk are written out, parents first, and the counters of unmet dependencies stay exact. |
| `Emission.CountDependencies` | src/cluster_linearize.h:1484-1493 | The counters start with the exact numbers of dependencies of transactions, and of chunks on other chunks. |
| `Blocks.BlocksAreChunks` | src/cluster_linearize.h:615-625 | If all chunks of the state are minimal, chunking the output gives back exactly these chunks. |
| `Linearizing.Linearize` | src/cluster_linearize.h:1804-1842 | The result is a valid order whose diagram is nowhere below that of a valid old order, and it reaches the diagram of the last state of a run of optimization and minimization steps; if it is reported optimal, no valid order has a diagram above it anywhere, and its chunks are connected and minimal; and it is reported optimal unless the cost that is returned has reached the limit. |
| `Linearizing.OptimizeUpTo` | src/cluster_linearize.h:1819-1826 | Optimization steps are made as long as each begins below the limit; they end with no chunk that can be split, or at a cost that reaches the limit. |
| `Linearizing.MinimizeUpTo` | src/cluster_linearize.h:1827-1840 | Minimization steps are made as long as each begins below the limit; they end with all chunks minimal, or at a cost that reaches the limit; the diagram is kept in any case. |
| `Linearizing.UnsplittableIsOptimal` | src/cluster_linearize.h:602-606 | An order that reaches the diagram of a state without splittable dependencies is optimal among all valid orders. |
| `LinkedGroups.PostLinearize` | src/cluster_linearize.h:1859-2042 | The array is rewritten in place to the result of the two passes over lists of groups, which is a valid order, nowhere worse than the input, with connected chunks, and optimal if no transaction has two children or none has two parents. |
| `LinkedGroups.RunPass` | src/cluster_linearize.h:1952-2041 | One pass on the circular linked entries refines the same pass on lists of groups, in either direction. |
| `LinkedGroups.Settle` | src/cluster_linearize.h:1976-2017 | The merge/swap cycle on entries terminates and equals moving the last group forward in the list. |
| `LinkedGroups.MergeInto` | src/cluster_linearize.h:1990-2003 | Merging two neighbouring groups by rewiring entries gives the entries of the merged group. |
| `LinkedGroups.SwapWith` | src/cluster_linearize.h:2004-2016 | Swapping two neighbouring groups rewires exactly the three links around them. |
| `LinkedGroups.BuildGroups` | src/cluster_linearize.h:1955-2018 | The loop over the transactions builds the entries of the groups that the pass on lists defines. |
| `LinkedGroups.WriteBack` | src/cluster_linearize.h:2020-2040 | Following the links back writes the concatenation of the groups over the linearization. |
| `GroupLists.PassShape` | src/cluster_linearize.h:1862-1865 | After a pass the groups hold the transactions in an order that respects dependencies, with non-increasing feerates, each group connected and beating its own prefixes. |
| `PostLinearization.GroupsAreChunks` | src/cluster_linearize.h:1849-1850 | The groups of a pass are the chunks of its order. |
| `PostLinearization.PassAsGood` | src/cluster_linearize.h:1862-1864 | A pass keeps the transactions and leaves a diagram that is nowhere worse. |
| `PostLinearization.BackwardAsGood` | src/cluster_linearize.h:1961-1969 | So does the pass from back to front, which is the pass on the graph upside down. |
| `PostLinearization.PostLinearizeGuarantee` | src/cluster_linearize.h:1843-1858 | The two passes together: valid, nowhere worse, connected chunks. |
| `TreeShapes.TreesOptimal` | src/cluster_linearize.h:1851-1852 | If every transaction has at most one child, or every one at most one parent, no valid order has a diagram above that of the result anywhere. |
| `TreeShapes.PassBest` | src/cluster_linearize.h:1866-1868 | A pass from front to back alone does this if every transaction has at most one child. |
| `TreeShapes.BackwardBest` | src/cluster_linearize.h:1866-1868 | A pass from back to front alone does this if every transaction has at most one parent. |
| `TreeShapes.TightPart` | src/cluster_linearize.h:1873-1881 | No part of such a group that contains the ancestors of its members pays more beyond any threshold than the group or nothing. |
| `MovedLeaves.MovedLeafGuarantee` | src/cluster_linearize.h:1853-1857 | A leaf is moved to the end of a linearization, and its fee kept or raised: the order is still valid, and postlinearizing it gives a diagram nowhere below the one before the move, at the fee before. |
| `MovedLeaves.BackwardOfMoved` | src/cluster_linearize.h:1869-1869 | Starting with a backward pass is what gives this: it makes up for the move by itself. |
| `MovedLeaves.PassAlone` | src/cluster_linearize.h:1871-1881 | A transaction that comes first and that none of those after it needs stays a group of its own. |
| `PostLinearization.ValidIffInOrder` | src/cluster_linearize.h:1966-1967 | Parents before children is the same as ancestors before descendants. |
| `Mirrors.MirroredAsGood` | src/cluster_linearize.h:1963-1969 | A better order of the graph with ancestors and descendants, and high and low feerates, exchanged is a better order. |
| `CheckQueues.ExecuteBatch` | src/checkqueue.h:128-135 | The loop over a batch returns the outcome of the first check that fails, nothing if none does, or leaves the local result alone when the round has failed already. |
| `CheckQueues.FirstFailure` | src/checkqueue.h:128-134 | The result of a batch is the outcome of its first check that fails. |
| `CheckQueues.BatchSizeMeans` | src/checkqueue.h:116-121 | A batch is the largest within the limit that all threads could take as many of, with the idle ones counted twice, or a single check. |
| `CheckQueues.RunChecksMeans` | src/checkqueue.h:128-134 | That is nothing exactly if every check of the batch succeeds, and otherwise the error of one of them. |
| `CheckQueues.NextInv` | src/checkqueue.h:72-189 | Every step of any thread keeps the invariant: counters, notifications, the round's checks split into queued, in flight and finished ones, and the result so far. |
| `CheckQueues.RunInv` | src/checkqueue.h:72-189 | Hence it holds in every state of every run, for any number of workers. |
| `CheckQueues.EveryRoundRight` | src/checkqueue.h:166-169 | In every interleaving, each round returns nothing exactly if every check added in that round succeeds, and otherwise one of that round's errors: nothing leaks between rounds. |
| `CheckQueues.TodoExact` | src/checkqueue.h:49-63 | `nTodo` is always the number of queued and in-flight checks; `nIdle` and `nTotal` are exact. |
| `CheckQueues.MasterNotForgotten` | src/checkqueue.h:84-110 | A master that waits without having been notified always has a worker that holds a batch. |
| `CheckQueues.LockAlwaysGoesThrough` | src/checkqueue.h:81-127 | Whoever takes the lock can complete the locked region; no counter underflows. |
| `CoinsViews.CoinsStack.constructor` | src/coins.cpp:87-92 | Empty caches show what the database holds. |
| `CoinsViews.CoinsStack.PeekCoin` | src/coins.cpp:79-85 | The coin of the view at that depth, without filling caches. |
| `CoinsViews.CoinsStack.FetchCoin` | src/coins.cpp:98-116 | An entry is found or filled in exactly if it was there or the view has the coin; no view changes. The stored caches are given exactly: those that miss the coin are filled, down to one that has an entry, and nothing below an overlay. |
| `CoinsViews.CoinsStack.GetCoin` | src/coins.cpp:118-122 | The same coin as `PeekCoin` gives, with exactly those caches filled. |
| `CoinsViews.CoinsStack.AddCoin` | src/coins.cpp:124-165 | The entry is written with exact flags, nothing else is, and it throws exactly for an unspent entry that must not be overwritten. Afterwards there are plain maps that the caches can stand for exactly if no unspent coin below went unnoticed because the caller did not say that one may be overwritten; then the top view has got the coin and no other view has changed. |
| `CoinsViews.CoinsStack.AddUnnoticed` | src/coins.cpp:124-165 | Adding a coin that the database has, as a new one, to an empty cache leaves a FRESH entry over it, and no plain maps that the caches could stand for. |
| `CoinsViews.ViewsDetermined` | src/coins.cpp:79-85 | What each level stands for is determined by the database and the caches up to it. |
| `CoinsViews.CoinsStack.SpendCoin` | src/coins.cpp:188-210 | The top view loses the coin, which is handed out; it succeeds exactly if the cache has an entry or the view the coin. The entries are given exactly: a FRESH one is erased, any other is left spent and DIRTY, and nothing changes where there is none. |
| `CoinsViews.CoinsStack.AddThenSpend` | src/coins.cpp:124-210 | A coin that is created and spent in the cache leaves all stored entries as they were. |
| `CoinsViews.CoinsStack.SpendAgain` | src/coins.cpp:188-210 | Spending a coin that is unspent below and spent in the cache succeeds again, and hands out an empty coin. |
| `CoinsViews.CoinsStack.SpendTwice` | src/coins.cpp:188-210 | So it goes with every coin of the database that is spent twice in a cache over it. |
| `CoinsViews.CoinsStack.Uncache` | src/coins.cpp:394-407 | Exactly an unmodified entry is dropped from that cache; all other entries, all other caches and all views stay. |
| `CoinsViews.CoinsStack.Reset` | src/coins.cpp:386-392 | The cache is empty, nothing else changes, and the top view becomes the one below. |
| `CoinsViews.CoinsStack.Sync` | src/coins.cpp:375-384 | The view below becomes the child's, and FRESH is never found misapplied. The entries of both levels are given exactly: spent ones that were written are gone and others clean, and below a coin that is FRESH there and spent is erased and FRESH is taken over only where there was no entry; nothing else changes. |
| `CoinsViews.CoinsStack.Flush` | src/coins.cpp:363-373 | The same for the level below, with the cache empty. |
| `CoinsViews.CoinsStack.FetchEffectiveUTXOs` | src/coins.cpp:234-259 | The enumeration equals the view at that depth. |
| `CoinsViews.CoinsStack.SanityCheck` | src/coins.cpp:435-465 | On a list that is linked well the check passes exactly if flags are legal and dirty count, list and memory usage agree; in every state of the caches it passes. |
| `CoinLayers.WriteOk` | src/coins.cpp:292-361 | Writing an entry to a cache below keeps that cache's invariant, shows the written coin, and never meets a misapplied FRESH flag. |
| `CoinLayers.SettleOk` | src/coins.h:279-295 | Once the level below shows the coin, erasing or clearing the entry changes nothing that is seen. |
| `CoinLayers.PutOk` | src/coins.cpp:124-210 | Setting an entry in a legal flag state keeps the books and shows the coin. |
| `CoinLayers.EraseOk` | src/coins.cpp:202-203 | Erasing an entry shows what is below it, with exact books. |
| `FlaggedLists.AppendLinked` | src/coins.h:127-140 | Linking an entry before the sentinel keeps the circle doubly linked, with the entry last. |
| `FlaggedLists.UnlinkLinked` | src/coins.h:176-183 | Unlinking an entry keeps the circle doubly linked, without that entry. |
| `AddrManagers.AddrMan.constructor` | src/addrman.cpp:89-105 | Nothing is known, and the tables are sound. |
| `AddrManagers.AddrMan.Create` | src/addrman.cpp:396-410 | An unknown address gets the next id; ids, random order, totals and counts stay exact. |
| `AddrManagers.AddrMan.SwapRandom` | src/addrman.cpp:412-434 | Two places of the random order are exchanged, and every id still knows its place. |
| `AddrManagers.AddrMan.Delete` | src/addrman.cpp:436-451 | A new id without references disappears from all tables; only places of others change. |
| `AddrManagers.AddrMan.ClearNew` | src/addrman.cpp:453-469 | The slot is emptied, and its id is forgotten exactly if that was its last reference. |
| `AddrManagers.AddrMan.RemoveFromNew` | src/addrman.cpp:475-489 | Going around the new buckets from any start removes every reference of the id, so that the assertion on the reference count holds. |
| `AddrManagers.AddrMan.MakeSpace` | src/addrman.cpp:495-521 | The tried id in the slot becomes new again, in the slot of its own source, and at most what was there is forgotten. |
| `AddrManagers.AddrMan.MakeTried` | src/addrman.cpp:471-528 | The id becomes tried in its slot, the id that was there becomes new, and all tables stay sound. |
| `AddrManagers.AddrMan.AddSingle` | src/addrman.cpp:530-604 | An address is let in exactly if the rules on times, references, luck and its slot admit it; it is then in its slot. The ids afterwards are exactly those before, without one displaced from its only slot and with the new one if it was let in; a known address has its updated time, and every other entry keeps all that is known of it. |
| `AddrManagers.AddrMan.Good` | src/addrman.cpp:606-659 | The address becomes tried exactly if it is known, not tried, and its slot is free or may be taken. Both tables, the ids (exactly a displaced id is forgotten), the statistics of the address and those of all others (which stay) are given exactly; an unknown address changes nothing. The self-check still passes exactly if the time is positive, or zero for an address that does not become tried, or the address is unknown. |
| `AddrManagers.Forgotten` | src/addrman.cpp:495-521 | When an id becomes tried, another one is forgotten exactly if it was displaced from its only slot. |
| `AddrManagers.AddrMan.Attempt` | src/addrman.cpp:673-691 | Only the statistics of the address change; they stay right exactly if the time is not negative. |
| `AddrManagers.AddrMan.Connected` | src/addrman.cpp:857-874 | Only the time of the address changes, and only after twenty minutes. |
| `AddrManagers.AddrMan.GetAddr` | src/addrman.cpp:792-831 | Shuffling the random order from its start yields distinct known addresses that pass the filters, and all of them when fewer than the limit; nothing else changes. |
| `AddrManagers.AddrMan.ResolveOne` | src/addrman.cpp:896-951 | An id that waits is dropped, replaces the id in its slot, or goes on waiting, exactly by the ages of connections and attempts; the tables afterwards are exactly those that `Good` leaves. |
| `AddrManagers.AddrMan.ResolveCollisions` | src/addrman.cpp:892-953 | Every waiting id is judged once, by the tables and the clock of its turn, where each turn starts with exactly what the one before left and all tables are sound; exactly those told to wait go on waiting. |
| `AddrManagers.AddrMan.SelectTriedCollision` | src/addrman.cpp:955-981 | A waiting id that is still known always meets a tried id in its slot, whose address and last attempt are returned. |
| `AddrSteps.UnslottedOk` | src/addrman.cpp:458-463 | Emptying a slot and counting down keeps reference counts exact. |
| `AddrSteps.LeaveTriedOk` | src/addrman.cpp:500-506 | A tried id has no references, and taking it out of its slot keeps all other tables sound. |
| `AddrChecks.CheckAddrman` | src/addrman.cpp:1043-1146 | The self-check returns zero exactly if the tables are consistent and the key is not null. |
| `AddrChecks.CheckEntries` | src/addrman.cpp:1057-1088 | The first loop finds a wrong entry exactly if there is one, and gathers tried ids, references and counts. |
| `AddrChecks.CheckTriedTable` | src/addrman.cpp:1095-1110 | The tried table passes, with no id left over, exactly if every slot holds the tried id it belongs to and every tried id is in its slot. |
| `AddrChecks.CheckNewTable` | src/addrman.cpp:1112-1125 | The new table passes, with no reference left over, exactly if every slot holds a new id that belongs there and all reference counts are exact. |
| `AddrChecks.CheckCounts` | src/addrman.cpp:1136-1143 | The counts pass exactly if those that are kept are right and not fewer than the networks. |
| `AddrChecks.SoundIsConsistent` | src/addrman.cpp:1043-1146 | Tables that operations leave behind, with right times, are consistent. |
| `AddrChecks.SoundIffChecked` | src/addrman.cpp:1043-1146 | Soundness is exactly what the check verifies plus the three things it does not look at. |
| `AddrChecks.Check` | src/addrman.cpp:1028-1041 | After any operations the self-check passes exactly if all times are right. |
| `BlockIndexes.LowestOne` | src/chain.cpp:69-69 | The bitwise and of a number and the number before it is the number without its lowest set power of two. |
| `BlockIndexes.BlockIndex.constructor` | src/chain.cpp:114-118 | A new entry's skip pointer is its ancestor at the skip height. |
| `BlockIndexes.BlockIndex.GetAncestor` | src/chain.cpp:82-107 | The walk over skip and parent pointers ends at the ancestor that repeated parents give; nothing for heights out of range. |
| `BlockIndexes.LastCommonAncestor` | src/chain.cpp:154-177 | For blocks with one root, the highest block that is an ancestor of both. |
| `BlockIndexes.Chain.SetTip` | src/chain.cpp:16-24 | Every height of the chain holds the tip's ancestor, although the loop stops where the old chain agrees. |
| `BlockIndexes.Chain.FindFork` | src/chain.cpp:50-58 | The highest ancestor of the block that is in the chain, and none only if there is none. |
| `BlockIndexes.LocatorEntries` | src/chain.cpp:26-43 | Ancestors from the block to the root at the exact heights: eleven single steps, then steps that double. |
| `Limbs.AddAssign` | src/arith_uint256.h:117-127 | Addition modulo 2^(32*width), for any width; sums are computed in variables of 64 bits, which they are proved to fit. |
| `Limbs.Complement` | src/arith_uint256.h:51-57 | All bits inverted. |
| `Limbs.Increment` | src/arith_uint256.h:155-162 | One more, modulo the width. |
| `Limbs.Negate` | src/arith_uint256.h:59-66 | The additive inverse modulo the width. |
| `Limbs.SubAssign` | src/arith_uint256.h:129-133 | Subtraction modulo the width. |
| `Limbs.MulAssign32` | src/arith_uint256.cpp:48-58 | Multiplication by a 32-bit number modulo the width, with 64-bit sums. |
| `Limbs.MulAssign` | src/arith_uint256.cpp:60-74 | Multiplication modulo the width. |
| `Limbs.CompareTo` | src/arith_uint256.cpp:102-112 | The order of the numbers. |
| `LimbShifts.ShiftLeft` | src/arith_uint256.cpp:14-29 | Multiplication by a power of two modulo the width, for every shift. |
| `LimbShifts.ShiftRight` | src/arith_uint256.cpp:31-46 | Floor division by a power of two, for every shift. |
| `LimbDivision.Bits` | src/arith_uint256.cpp:156-169 | The position of the highest bit plus one. |
| `LimbDivision.DivAssign` | src/arith_uint256.cpp:76-100 | Long division bit by bit gives the floor quotient; an error exactly for divisor zero. |
| `CompactTargets.Assign` | src/arith_uint256.h:70-77 | The two lowest limbs get a 64-bit number and the others zero. |
| `CompactTargets.GetLow64` | src/arith_uint256.h:222-226 | The number modulo 2^64. |
| `CompactTargets.SetCompact` | src/arith_uint256.cpp:176-194 | Mantissa times a power of 256, modulo 2^256; negative and overflow flags exactly when the sign bit is set on a non-zero word and the number has more than 256 bits. |
| `CompactTargets.OverflowExact` | src/arith_uint256.cpp:190-192 | The size tests find exactly the products of 256 bits and more. |
| `CompactTargets.GetCompact` | src/arith_uint256.cpp:196-217 | Size and mantissa are those of the leading bytes of the number; the sign bit is set exactly for a negative non-zero one. |
| `CompactTargets.CompactRoundTrip` | src/arith_uint256.cpp:176-217 | Reading back a compact form keeps exactly the leading three bytes, or two if their top bit is set, and never overflows. |
| `CompactTargets.GetBitsProof` | src/chain.cpp:120-133 | floor(2^256 / (target + 1)) for valid targets, and zero otherwise. |
| `Base58.MulAdd` | src/base58.cpp:101-115 | One digit loop multiplies the number in the buffer and adds to it, with no carry left. |
| `Base58.EncodeBase58` | src/base58.cpp:89-127 | The string encodes exactly the bytes: ones for leading zeros, then the digits of the number. |
| `Base58.DecodeBase58` | src/base58.cpp:40-87 | The bytes that the single word of the string encodes are returned, and nothing only if no byte string within the limit is encoded; the result is within the limit exactly if the limit is not negative or the word is not empty. |
| `Base58.DecodeNothing` | src/base58.cpp:40-87 | The empty string is accepted with every negative limit. |
| `Base58.RoomForDigits` | src/base58.cpp:99-100 | 138/100 digits per byte and one more are enough. |
| `Base58.RoomForBytes` | src/base58.cpp:54-55 | 733/1000 bytes per character and one more are enough. |
| `Base58.DecodingUnique` | src/base58.cpp:40-127 | A string encodes at most one byte string. |
| `Base58.EncodingUnique` | src/base58.cpp:40-127 | A byte string has at most one encoding. |
| `Base58.EncodeThenDecode` | src/base58.cpp:40-127 | Decoding an encoding gives the bytes back, for every byte string within the limit. |
| `Base58.DecodeThenEncode` | src/base58.cpp:40-127 | Encoding what a string without spaces decodes to gives the string back. |
| `Bech32.ComputePolyMod` | src/bech32.cpp:130-216 | The 5-bit groups of the result are the remainder of the polynomial over the field of 32 elements that has the input as coefficients after a leading one, modulo the Bech32 generator. |
| `Bech32.PolyModIsRemainder` | src/bech32.cpp:130-216 | They are, and nothing else is: a polynomial has one remainder. |
| `Bech32.ReduceIs` | src/bech32.cpp:199-212 | The five constants are the multiples of the generator without its leading term. |
| `Polynomials.MulAssociates` | src/bech32.cpp:144-150 | Multiplication modulo a^5 + a^3 + 1 is associative; it is commutative, distributes over exclusive or and has one as its unit by lemmas of their own. |
| `Polynomials.DividesNext` | src/bech32.cpp:179-191 | Division with remainder, one coefficient at a time. |
| `Polynomials.RemainderUnique` | src/bech32.cpp:130-216 | A polynomial has one quotient and one remainder by a monic polynomial. |
| `Bech32.KnownStrings` | src/bech32.cpp:358-371 | The shortest strings of both encodings. |
| `Bech32.CharsetIs` | src/bech32.cpp:22-22 | The characters of all 32 symbols. |
| `Bech32.PolyModAffine` | src/bech32.cpp:130-216 | Changing the last six symbols changes the remainder by exactly the XOR of the packed symbols. |
| `Bech32.StepInjective` | src/bech32.cpp:148-213 | Different remainders stay different whatever symbol follows. |
| `Bech32.SingleError` | src/bech32.cpp:130-216 | Changing any one symbol changes the remainder. |
| `Bech32.ChecksumExact` | src/bech32.cpp:342-353 | The checksum, and no other six symbols, makes the remainder the encoding's constant. |
| `Bech32.PreparePolynomialCoefficients` | src/bech32.cpp:311-324 | High bits, a zero, low bits, then the values. |
| `Bech32.CreateChecksum` | src/bech32.cpp:342-353 | The six symbols that are the checksum of the expanded input. |
| `Bech32.CheckCharacters` | src/bech32.cpp:287-309 | Exactly the places of wrong characters are returned, in order: those not printable, and letters whose case is not that of the first letter. |
| `Bech32.VerifyChecksum` | src/bech32.cpp:326-339 | The encoding whose constant the remainder is, and none only if it is neither's. |
| `Bech32.Encode` | src/bech32.cpp:358-371 | Human-readable part, separator, and the characters of values and checksum. |
| `Bech32.Decode` | src/bech32.cpp:374-400 | What the string means, and nothing only if it means nothing within the limit. |
| `Bech32.MeansUnique` | src/bech32.cpp:374-400 | A string means at most one thing. |
| `Bech32.EncodeThenDecode` | src/bech32.cpp:358-400 | Decoding an encoded string gives encoding, human-readable part (even one with a '1') and values back. |
| `CuckooCaches.SetBitOnly` | src/cuckoocache.h:94-97 | Setting a packed flag sets that flag and no other. |
| `CuckooCaches.UnsetBitOnly` | src/cuckoocache.h:105-108 | Clearing a packed flag clears that flag and no other. |
| `CuckooCaches.Cache.constructor` | src/cuckoocache.h:337-350 | All slots are free, every place an element can have is within the table, and epoch size and counter are 45 percent of it. |
| `CuckooCaches.Cache.EpochCheck` | src/cuckoocache.h:287-319 | Either only the counter changes, or the epoch ends: exactly the recent live elements stay live, slot by slot, and none is recent anymore. |
| `CuckooCaches.Cache.Contains` | src/cuckoocache.h:475-485 | An element is found exactly if one of its eight places holds it, hence whenever it is live; erasing marks the first such slot free. |
| `CuckooCaches.Cache.Insert` | src/cuckoocache.h:398-446 | Every live element stays at one of its own places through all displacements. Of the elements that the epoch check keeps and the new one at most one is lost, none if the new one is there already or the walk of displacements, which is given exactly, comes to a free place within the depth limit; and nothing else becomes live. The new element is recent, and the others are exactly if they were. |
| `CuckooCaches.Cache.Run` | src/cuckoocache.h:398-485 | Any sequence of insertions and erasures is a run of steps that each do so. |
| `CuckooCaches.KeptForAnEpoch` | src/cuckoocache.h:175-196 | In every run an inserted element is recent until an epoch ends and kept until a second one does, unless it is erased or lost. |
| `CuckooCaches.FirstEpoch` | src/cuckoocache.h:181-196 | Inserting as many different elements as an epoch has, none of them lost, makes the epoch end with the next insertion. |
| `CuckooCaches.Cache.Refresh` | src/cuckoocache.h:403-411 | An element becomes live and recent in the first of its places that holds it, and nothing else changes; it is not found only if none of its places holds it. |
| `CuckooCaches.Cache.PlaceFree` | src/cuckoocache.h:412-421 | The element takes the first free place of its own, recent or not as it was, or all of its places are live. |
| `SpanningForest.SpanningForestState.MergeEither` | src/cluster_linearize.h:1264-1293 | A pending chunk is merged once in one of the directions it has to be tried in, or has no candidate in any of them. |
| `TopologyRepair.CoveredMerge` | src/cluster_linearize.h:1229-1296 | After a merge every violated dependency is still found by a pending chunk in a direction that will be tried. |
| `SpanningForest.SpanningForestState.PickEqualDependency` | src/cluster_linearize.h:1371-1396 | Finds an equal-feerate top with the pivot on the wanted side exactly if there is one, and tells whether there is any at all. |
| `SpanningForest.SpanningForestState.SplitEqual` | src/cluster_linearize.h:1409-1446 | The dependency is not active afterwards. If the parts have to merge again, the chunk is pending under its new index with the same pivot, direction and stage; otherwise there is one chunk more and both parts are pending, the one with the pivot as before and the other one anew. The diagram and everything that minimization relies on are kept. |
| `SpanningForest.SpanningForestState.BestChunk` | src/cluster_linearize.h:1528-1560 | A ready chunk of highest feerate. |
| `InitialForests.PlaceAll` | src/cluster_linearize.h:1188-1199 | Every transaction gets a chunk index of its own, and exactly the direct dependencies are collected. |
| `InitialForests.InitialForest` | src/cluster_linearize.h:1177-1210 | The data built by the constructor is a valid forest of single transactions. |
| `LinkedGroups.WriteGroup` | src/cluster_linearize.h:2024-2037 | The transactions of a group are written next to those written before, in the direction of the pass. |
| `AddrManagers.AddrMan.AddKnown` | src/addrman.cpp:545-573 | The case of `AddSingle` for an address that is known: its time is updated first, and decides with the rest; only it and an id displaced from its only slot change. |
| `AddrManagers.UpdatedTimeMeans` | src/addrman.cpp:546-551 | An entry is brought up to date once it lags by more than an hour for an address online within a day, and more than a day otherwise; its time never goes back, and hearing the same again changes nothing. |
| `AddrManagers.WorthKeeping` | src/addrman.cpp:49-72 | Which entries are worth keeping, by the ages of attempts, successes and the entry. |
| `AddrManagers.JudgedMeans` | src/addrman.cpp:917-944 | Who holds the slot stays exactly if reached within four hours, and gives way exactly if tried in vain or, untried, after forty minutes. |
| `AddrManagers.AddrMan.AddUnknown` | src/addrman.cpp:574-577 | The case for an address that is not known: an id that gets no slot is forgotten again. |
| `AddrManagers.AddrMan.EnterBucket` | src/addrman.cpp:579-603 | An id enters the slot its source leads to exactly if this is free or may be taken, and the id that was there is forgotten exactly if this was its only slot. |
| `AddrManagers.AddrMan.BackToNew` | src/addrman.cpp:508-518 | An id in neither table enters the slot of its own source. |
| `AddrChecks.CheckEntry` | src/addrman.cpp:1060-1087 | An entry passes exactly if its flags, references, address, place and times are right. |
| `Limbs.AddRow` | src/arith_uint256.cpp:64-72 | One row of the long multiplication adds a limb times the other factor, shifted; no intermediate sum exceeds 64 bits. |
| `LimbDivision.LimbBits` | src/arith_uint256.cpp:160-164 | The highest bit of a non-zero limb. |
| `LimbDivision.DivideBit` | src/arith_uint256.cpp:90-95 | One quotient bit: the divisor is subtracted where it goes in, and dividend = quotient * divisor + rest stays true. |
| `LimbDivision.DivideBits` | src/arith_uint256.cpp:88-98 | All quotient bits give the floor quotient. |
| `Base58.WriteText` | src/base58.cpp:120-126 | Ones for the leading zeros, then the characters of the digits. |
| `Base58.ReadWord` | src/base58.cpp:53-73 | The number made by the characters read so far is in the buffer; it fails only if no byte string within the limit is encoded. |
| `Base58.CopyBytes` | src/base58.cpp:79-86 | Leading zeros and the bytes in use. |
| `Bech32.FindSeparator` | src/bech32.cpp:377-381 | The last separator of the string, if there is one. |
| `Bech32.ReadSymbols` | src/bech32.cpp:382-391 | The symbols after the separator, and none only if some character there stands for no symbol. |
| `Bech32.LowerHrp` | src/bech32.cpp:392-396 | The human-readable part in lower case. |
| `CuckooCaches.Cache.CountRecent` | src/cuckoocache.h:293-298 | The number of recent elements that are live. |
| `CuckooCaches.Cache.AgeEpoch` | src/cuckoocache.h:303-308 | Recent elements become old and all others may be overwritten. |
| `CuckooCaches.Cache.NextPlace` | src/cuckoocache.h:422-436 | The element's own place that follows the first one equal to the last place, going around; the second one if none is. |
| `AddrChecks.ConnectedAtZero` | src/addrman.cpp:606-659 | An address that is added and then connected to at time zero makes the self-check fail. |

## Left out

- The cost model, the distribution of random choices and the tie-breaking of heaps: every choice is nondeterministic, and each step has some positive cost.
- Termination of the optimization and minimization loops without a budget; running times.
- Linearizing.Linearize: `fallback_order`, which only decides between orders of equal quality. The cost after each step is a parameter, since the cost model is left out.
- SpanningForest.SpanningForestState.GetLinearization: does not model the order among equal chunks or among transactions that are ready at the same time, since any such order meets the contract.
- Bit sets with a fixed number of positions: sets of positions are mathematical sets, and integers of fees and sizes are unbounded.
- The active children that each transaction stores: the forest keeps the set of active dependencies, and the index of each one's top set, in one record.
- `DepGraph`'s helpers for connected components, `AppendTopo` and memory accounting.
- The check queue's destructor, `m_request_stop`, thread naming and logging; which waiting worker a notification wakes, since a waiting thread may wake at any time.
- Hashes of the best block, memory pools, tracepoints and cursors of the coins database, which is a plain map; `EmplaceCoinInternalDANGER`, `HaveInputs` and `ReallocateCache`.
- CoinsViews.CoinsStack.FetchEffectiveUTXOs: a bottom view without a cursor, for which the code gives no result, is not modelled.
- AddrMan's `Select_`, `GetChance`, `GetEntries_`, serialization, service flags, and the loop of `Add_` over `AddSingle`; bucket hashes, network groups and the validity of addresses are arbitrary functions with the ranges of the code. Slots of the two tables that hold -1 are absent from the maps that model the tables.
- `FindEarliestAtLeast`, block times and `GetBlockProofEquivalentTime`.
- `GetHex`, `getdouble`, bitwise operators and decrement of the limb numbers, which add no new argument.
- Bech32.PreparePolynomialCoefficients: takes the characters of the human-readable part as numbers from 0 to 255. The code shifts a plain `char`, which for characters of 128 and above gives another result where that type is signed; `Decode` never gets there with such characters.
- Base58Check's hash, and Bech32's `LocateErrors` with its tables.
- The cuckoo cache's atomicity and `setup_bytes`; CuckooCaches.Cache.constructor takes the depth limit, which the code computes with a floating point logarithm, as a parameter.

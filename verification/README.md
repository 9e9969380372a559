# A Dafny model of the concurrent programs

This project models the algorithms of the repository's three libraries and proves what they are
for: the SPLASH-2 kernels (sparse Cholesky, radix sort, FFT, blocked LU), the Phoenix MapReduce
runtime with its locks, queues and thread pool, and the allocator of the Cholesky program.

* **Sparse Cholesky fan-out.** `ProcessorGrid` places blocks on a grid of processors. `FanOut` is
  the message protocol as a state machine: one step of a processor is one send, one receive, one
  update, one completion or one turn of a loop. `FanOutSteps` proves that every step keeps the
  invariant, `FanOutRuns` that the initial state has it, `FanOutResults` what follows for all runs
  (updates exactly once, completion only after all updates, columns kept while needed,
  termination only when the tree of the last column is finished, no deadlock), and
  `FanOutProgress` that runs end. `FanOutForest` proves that termination means that all is finished
  exactly when the block elimination tree is one tree.
  `FanOutCounts` proves the loops that compute the initial counters, and `Mailbox` the linked
  queues under the mailboxes, which the state machine takes as sequences.
* **Symbolic factorization.** `SymbolicFactor` relates the elimination tree with path compression
  and the column counts to naive pivot-by-pivot elimination. `ChildLists` turns parents into lists
  of children.
* **MCS lock.** `Mcs`: one step for every atomic operation, any number of threads.
* **Radix sort.** `RadixPrefixTree` is the tree with its pause flags as a state machine,
  `RadixDigits` the digit by mask and shift, `RadixSort` the stable passes and the whole sort,
  `RadixKeys` the arithmetic of key generation and partitions.
* **LU.** `LuFactor` has the kernels over one array, `LuParallel` the schedule with two barriers in
  a step, races, deadlock, the end of all runs, and the sequential loops.
* **FFT.** `FftRing` and `FftMath` have the algebra over a commutative ring with a root of unity,
  `FftKernel` the in-place transform of one row, `FftSixStep` transpose, twiddles and the whole
  transform forward and back with one pair of tables, `FftParallel` its processors at the same time,
  `FftComplex` the complex numbers of the code as such a ring.
* **MapReduce.** `MapReduceInsert` has the growing sorted arrays with chunked value lists,
  `MapReduceReduce` the iterator and the grouping loop of a reduce task, `MapReduceResult` what
  reduce calls get and the combiner, `MapReduceTasks` the generation of tasks, `MapReduceMerge` the
  output arrays and the merge rounds, and `MapReduceEndToEnd` the whole run.
* **Around it.** `LinkedList` and `TaskQueue` (stealing), `ThreadPool` (rounds), `WordCount`
  (splitter and map function) with `WordCountParallel` (all threads at once), `SizeClasses` (allocator) and `SizeClassRuns` (a program that
  requests, writes and releases).
* `Arithmetic` and `Wrappers` hold what several modules use.

Where the source changes state step by step the model does too: kernels, searches and loops are
methods over arrays and objects, each with a contract that equates the new state with a function
of the old one. Code that several threads run at once is a state machine over its steps, and its
results are lemmas about every reachable state or every run.

## Findings

Six properties that a reader would expect do not hold as the code stands. Each is stated with an
input that shows it and with the exact condition under which the code does what is expected.

* `gen_reduce_tasks` computes the leftover with the number of map threads where the number of
  reduce threads is meant; some reduce tasks may never be queued (`MapReduceTasks.AllTasksQueued`,
  `MapReduceTasks.TaskLost`), and exactly the keys of those tasks are missing in the result
  (`MapReduceEndToEnd.MapReduce`, `MapReduceEndToEnd.KeyIsInResultIff`).
* `MyMalloc` writes the header of the result before it reads the link of the block it takes; when
  the leftover is -8 or 0 bytes the link is lost, unless it is what the header writes there
  (`SizeClasses.Pool.Malloc`, `SizeClasses.FirstRequestBreaks`). `SizeClasses.Pool.CanServe` tells
  before the call; what the blocks hold is safe even then (`SizeClassRuns.Serve`).
* With the same leftovers one or two words of the block belong to no block any more, so that blocks
  and their headers do not tile the memory handed out (`SizeClasses.FirstRequestBreaks`); they go on
  tiling it exactly when the request does not leave -8 or 0 bytes over (`SizeClasses.TiledIff`,
  `SizeClasses.LosesIff`).
* `Transpose` leaves rows and columns out unless the number of blocks divides the number of rows
  of a processor (`FftSixStep.CoversAll`, `FftSixStep.SomeRowsLeftOut`).
* `DiagReceived` ends the whole run when the last block column has been received. With a forest
  another tree may be unfinished then (`FanOutForest.ForestTerminatesEarly`,
  `FanOutForest.SmallForestFails`); it never is exactly when the structure is one tree
  (`FanOutForest.TerminationIffOneTree`).
* `get_max_digits` does not end for radix 1 and a largest key above 0, and the options of the
  program allow radix 1; for every other input it ends (`RadixKeys.LoopEndsIff`,
  `RadixKeys.RadixOneStays`).

## Assumptions

* Memory is sequentially consistent, and every atomic operation is one step. A thread that waits
  on a pause flag is not woken while the flag is clear.
* Arithmetic on `double` is exact: `LuFactor` and `FftComplex` use `real`. In `RadixKeys` a double
  is a whole number, and every intermediate value is proved to be below 2^53. Pivots are not zero.
* In the radix sort the number of processors is a power of two. In the FFT it divides the number
  of rows, and the number of elements is a power of four.
* `key_cmp` is a total preorder, and `partition` gives keys that compare equal the same task.
* The reduce function and the combiner fold a commutative monoid where the end-to-end result needs
  it. The functions of the user, clocks and files are parameters.

## Model

| member | source | states |
|---|---|---|
| `ProcessorGrid.SentOnce` | splash2/cholesky/fo.C:478-500 | the row sends and the column sends of a finished block reach every processor of the grid row of mapI[i] and of the grid column of mapJ[i] exactly once, and nobody else |
| `ProcessorGrid.DestsInRange` | splash2/cholesky/fo.C:478-500 | no block is sent to a processor number that does not exist |
| `ProcessorGrid.OwnerCoordinates` | splash2/cholesky/block2.C:695-703 | the owner of block (i, j) has grid row mapI[i] modulo dimi and grid column mapJ[j] modulo dimj, and without scatter it is processor 0 |
| `ProcessorGrid.OwnerOnto` | splash2/cholesky/block2.C:695-703 | when the maps meet every residue, every processor owns some block |
| `ProcessorGrid.SameOwnerIff` | splash2/cholesky/block2.C:126-127 | with the maps that the program sets up, two blocks have the same owner exactly when their rows agree modulo dimi and their columns modulo dimj |
| `ProcessorGrid.DestCoordinates` | splash2/cholesky/fo.C:478-500 | the destinations of a block of row i are the processors of the grid row of mapI[i] and of the grid column of mapJ[i], and without scatter all |
| `ProcessorGrid.OwnerIsDest` | splash2/cholesky/block2.C:695-703 | the owner of block (i, j), the processor in grid row mapI[i] and grid column mapJ[j], is among the destinations of every block of block row i and of every block of block row j |
| `ProcessorGrid.AtInjective` | splash2/cholesky/block2.C:695-703 | different places of the grid have different processor numbers |
| `ProcessorGrid.FindMachineDimensions` | splash2/cholesky/block2.C:680-692 | the grid has exactly P places, dimj <= dimi, and no larger divisor of P is at most the square root |
| `FanOut.PairInMatrix` | splash2/cholesky/fo.C:296-370 | two blocks of a column always meet in a block of the fill-closed structure, of which their pair is a proper update |
| `FanOut.SourcesAre` | splash2/cholesky/fo.C:540-581 | column k updates block (i, j) exactly when (i, k) and (j, k) are blocks below the diagonal, and a domain does exactly when it has both rows |
| `FanOutRuns.DomainSendsCount` | splash2/cholesky/fo.C:374-388 | a processor sends each update of each of its own domains exactly once, and no update of another domain |
| `FanOutRuns.InitInv` | splash2/cholesky/fo.C:122-138 | the initial state, with the counters that the set-up computes, satisfies the invariant of the protocol |
| `FanOutSteps.ArrivalIsNew` | splash2/cholesky/fo.C:163-187 | a block message at the head of a mailbox is for a block that is done, at a proper destination, and that this processor has never received |
| `FanOutSteps.PairIsNew` | splash2/cholesky/fo.C:220-245 | the update that a turn of the loop over the received blocks performs has not been performed before |
| `FanOutSteps.DomainIsNew` | splash2/cholesky/fo.C:391-432 | a domain update that arrives has not been performed before |
| `FanOutSteps.DoneKept` | splash2/cholesky/fo.C:478-500 | completing a block keeps the invariant: the block was not done, all its updates are in, and its sends are now on their way |
| `FanOutSteps.BlockKept` | splash2/cholesky/fo.C:220-245 | receiving a block keeps the invariant |
| `FanOutSteps.CountRest` | splash2/cholesky/fo.C:181-183 | counting a receipt, and freeing the column after the last one, keeps the invariant |
| `FanOutSteps.StepKept` | splash2/cholesky/fo.C:141-187 | every step of every processor keeps the whole invariant |
| `FanOutResults.UpdatedAtMostOnce` | splash2/cholesky/fo.C:220-245 | in every run each update is performed at most once, is an update of the structure, and is performed by the owner of its block |
| `FanOutResults.CompletedAfterAllUpdates` | splash2/cholesky/fo.C:286-293 | in every run remaining stays between zero and the number of sources, is zero exactly when all updates have been performed once, and a block is completed at most once and only then |
| `FanOutResults.ColumnKeptWhileNeeded` | splash2/cholesky/fo.C:269-283 | while an owned block of a column is not done, the processor still has the diagonal block and every other block of the column that it has received |
| `FanOutResults.ColumnFreed` | splash2/cholesky/fo.C:269-283 | once a processor has counted every block of a column that is sent to it, it keeps none of them |
| `FanOutResults.TerminatedMeansTreeFinished` | splash2/cholesky/fo.C:210-214 | when the termination message has been issued, every block of the tree of the last column is done, has remaining 0 and has had each update exactly once, for every structure |
| `FanOutResults.TerminatedMeansFinished` | splash2/cholesky/fo.C:210-214 | when the termination message has been issued, every block of the matrix is finished (one block elimination tree) |
| `FanOutResults.AllFinishedIffRootsDone` | splash2/cholesky/fo.C:210-214 | for every structure and at every moment of every run, all blocks are finished if and only if the diagonal block of every root column is done |
| `FanOutForest.ForestTerminatesEarly` | splash2/cholesky/fo.C:210-214 | for every forest there are a distribution of the blocks and a run that issue the termination message while the diagonal block of another root is not done |
| `FanOutForest.TerminationIffOneTree` | splash2/cholesky/fo.C:210-214 | the termination message means that all is finished, for every distribution and every schedule, if and only if the block elimination tree is one tree |
| `FanOutForest.SmallForestFails` | splash2/cholesky/fo.C:210-214 | two block columns without a connection are such a forest |
| `FanOutResults.StuckMeansNoStep` | splash2/cholesky/fo.C:154-159 | a processor has no step exactly when it has stopped or waits at an empty mailbox with nothing left to send |
| `FanOutResults.StuckOnlyAtTheEnd` | splash2/cholesky/fo.C:154-215 | no deadlock, for every structure: when no processor can move, the termination message has been issued, has stopped every processor, and every block of the tree of the last column is finished |
| `FanOutResults.TermAlways` | splash2/cholesky/fo.C:210-214 | once issued, the termination message is on its way to, waits for, or has stopped every processor |
| `FanOutProgress.StepProgress` | splash2/cholesky/fo.C:141-187 | every step that changes the state lowers a measure of what is left: receipts to come and work in hand |
| `FanOutProgress.RunsAreFinite` | splash2/cholesky/fo.C:154-156 | no run in which every step does something is longer than the measure of the initial state |
| `FanOutProgress.EveryRunCanFinish` | splash2/cholesky/fo.C:141-187 | every run can be continued until all processors have stopped after the termination message |
| `FanOutProgress.EndedMeansFinished` | splash2/cholesky/fo.C:141-187 | in one tree, all blocks are finished then |
| `FanOutCounts.FindBlock` | splash2/cholesky/mf.C:62-82 | the binary search finds the number of the block in row i of column j, and -1 exactly when there is none |
| `FanOutCounts.OneNumber` | splash2/cholesky/mf.C:62-82 | a block number stands for one block, and a block has one number |
| `FanOutCounts.AddUpdates` | splash2/cholesky/fo.C:552-564 | the two inner loops add one to the counter of every block in which two rows of the list meet, once each, and to no other |
| `FanOutCounts.ComputeRemaining` | splash2/cholesky/fo.C:540-581 | afterwards nmod of every block is the number of columns and domains that update it |
| `FanOutCounts.CountSends` | splash2/cholesky/fo.C:611-630 | the counting loops add one for every processor of the grid row of mapI[i] and of the grid column of mapJ[i], and nothing for any other, and leave the other columns alone |
| `FanOutCounts.ComputeReceived` | splash2/cholesky/fo.C:597-635 | afterwards ToReceive[p][c] is the number of blocks of column c that are sent to p |
| `FanOutCounts.SourcesSplit` | splash2/cholesky/fo.C:540-581 | the sources of a block are its domain sources and its column sources, counted apart |
| `FanOutCounts.ExpectedIsAll` | splash2/cholesky/fo.C:597-635 | the blocks counted one by one are all blocks of the column that are sent to the processor |
| `Mailbox.Box.Send` | splash2/cholesky/mf.C:88-127 | the message goes to the end of its queue; the first node is taken off the free list if there is one, the other queue stays, and no node is in two places |
| `Mailbox.Box.GetBlock` | splash2/cholesky/mf.C:136-173 | the first probe, or else the first task, is taken and delivered; its node goes to the front of the free list |
| `Mailbox.Box.TaskWaiting` | splash2/cholesky/mf.C:130-133 | tells whether a task is in the mailbox |
| `SymbolicFactor.NonzeroIsAncestor` | splash2/cholesky/tree.C:31-67 | if (i, k) is nonzero in the naive symbolic factor, i is an ancestor of k |
| `SymbolicFactor.StructureIs` | splash2/cholesky/tree.C:41-48 | in the old numbers: node y is in the row of node x of the structure exactly when it is stored for x and numbered before x |
| `SymbolicFactor.RowIsPaths` | splash2/cholesky/tree.C:103-128 | every nonzero of row i lies on a tree path that begins at an entry of row i of the matrix |
| `SymbolicFactor.RowCharacterized` | splash2/cholesky/tree.C:103-128 | a position is nonzero in the factor if and only if it lies on such a path |
| `SymbolicFactor.FindRoot` | splash2/cholesky/tree.C:50-51 | the skip pointers lead from a node to the root of its tree |
| `SymbolicFactor.Compress` | splash2/cholesky/tree.C:56-61 | path compression makes every node of the skip path from k point to j, changes no other node, and keeps the forest of the skip pointers consistent with the tree |
| `SymbolicFactor.Attach` | splash2/cholesky/tree.C:46-61 | afterwards the neighbour is below j, and no parent that was set has changed |
| `SymbolicFactor.EliminationTreeFromA` | splash2/cholesky/tree.C:31-67 | T[j] is the least i > j with (i, j) nonzero in the naive symbolic factor, and n if there is none, for every symmetric structure and permutation |
| `SymbolicFactor.WalkPath` | splash2/cholesky/tree.C:117-123 | the walk counts row i once in every column on the path that is not marked yet |
| `SymbolicFactor.ComputeNZ` | splash2/cholesky/tree.C:103-128 | nz[j] is the number of nonzeros of column j of the naive symbolic factor, with the diagonal |
| `ChildLists.EliminationTreeIsTree` | splash2/cholesky/tree.C:31-67 | what the elimination tree computation leaves in T has every parent above its child and n as the root |
| `ChildLists.ChildrenAre` | splash2/cholesky/tree.C:70-100 | the list of children has exactly the nodes with that parent, in ascending order |
| `ChildLists.ParentToChild` | splash2/cholesky/tree.C:70-100 | child[firstchild[i]..firstchild[i+1]] is the list of children of i, for every node, and firstchild[n+1] is the number of nodes that are not the root |
| `ChildLists.CopyList` | splash2/cholesky/tree.C:91-94 | the linked list is copied in its order behind what was there |
| `ChildLists.FlatBound` | splash2/cholesky/tree.C:88-96 | the lists of children together have n places |
| `Mcs.StepInv` | phoenix-2.0/phoenix/mcs.c:77-128 | every atomic step of every thread keeps the queue invariant |
| `Mcs.MutualExclusion` | phoenix-2.0/phoenix/mcs.c:77-102 | at most one thread holds the lock, for every number of threads and every schedule |
| `Mcs.FirstComeFirstServed` | phoenix-2.0/phoenix/mcs.c:89-102 | the lock is granted in the order of the head exchanges, and nobody is skipped |
| `Mcs.NoFault` | phoenix-2.0/phoenix/mcs.c:85 | the assertion locked == 0 at the entry holds, and the hand-over never follows a null pointer |
| `Mcs.NoLostHandOver` | phoenix-2.0/phoenix/mcs.c:102-127 | while a thread is queued, the first or the second in line has a step that changes the state |
| `Mcs.WaitsOnlyIf` | phoenix-2.0/phoenix/mcs.c:94-118 | in every state of every run a step of a thread leaves it where it is exactly when it spins on its locked flag or waits for its next pointer; then nothing changes |
| `Mcs.StepGoesOn` | phoenix-2.0/phoenix/mcs.c:77-128 | every other step of a thread goes further in the program, or ends its release |
| `Mcs.ExchangeQueues` | phoenix-2.0/phoenix/mcs.c:89-93 | the exchange puts the thread last in line, and it holds the lock at once exactly when nobody was queued |
| `Mcs.ArrivesSoon` | phoenix-2.0/phoenix/mcs.c:77-93 | a thread outside the queue is in line after at most three of its own steps, whatever the others do, and holds the lock then if nobody was queued |
| `Mcs.Refines` | phoenix-2.0/phoenix/mcs.c:77-128 | every step is exactly the step of a first-in first-out lock that its program point stands for: the exchange puts the thread last in line, the hand-over takes the first one off, every other step leaves the line as it is |
| `RadixPrefixTree.SlotsDistinct` | splash2/radix.C:514-560 | the nodes of the tree have different indices below 2P-1, and the root has index 2P-2 |
| `RadixPrefixTree.TreeIsFlat` | splash2/radix.C:530-552 | the value of a node is the sum over the processors below it |
| `RadixPrefixTree.StepKept` | splash2/radix.C:514-609 | every step of every processor, with the pause flags and the barrier, keeps the invariant |
| `RadixPrefixTree.RanksAreRight` | splash2/radix.C:514-609 | in every interleaving a processor ends with rank_ff[d] = keys with a smaller digit, plus keys with digit d of the processors before it |
| `RadixPrefixTree.FlagsAreClear` | splash2/ENV.h:90-112 | when all processors are done, every flag is clear again |
| `RadixPrefixTree.NoDeadlock` | splash2/radix.C:514-609 | as long as a processor is not done, some processor has a step |
| `RadixPrefixTree.RunsAreFinite` | splash2/radix.C:514-609 | no run is longer than a bound that is given by P and the radix |
| `RadixPrefixTree.EveryRunCanFinish` | splash2/radix.C:514-609 | every run can be continued until all processors are done |
| `RadixDigits.MaskAndShift` | splash2/radix.C:490-491 | the digit that the code takes by mask and shift is the digit of the quotient by remainder |
| `RadixDigits.AndBits` | splash2/radix.C:490-491 | a bit of the mask operation is the product of the two bits |
| `RadixDigits.ShlTimes` | splash2/radix.C:490-491 | a shift to the left by k is a multiplication by 2^k |
| `RadixSort.LocalHistogram` | splash2/radix.C:499-512 | with the digit by mask and shift: rank_me counts the own keys by digit, and key_density the own keys with at most that digit |
| `RadixSort.SlotOrder` | splash2/radix.C:621-629 | the slots of the keys are in the order of their digits, and of their positions for equal digits: the pass is stable |
| `RadixSort.SlotInjective` | splash2/radix.C:621-629 | different keys have different slots |
| `RadixSort.SlotOnto` | splash2/radix.C:621-629 | every place of the array is the slot of a key |
| `RadixSort.StartRankIsFirstSlot` | splash2/radix.C:590-609 | the ranks that the prefix tree gives a processor are the slots of its first key of every digit |
| `RadixSort.WritesAreDisjoint` | splash2/radix.C:621-629 | two processors never write the same place, in any interleaving of their permutation loops |
| `RadixSort.MovesArePass` | splash2/radix.C:621-629 | when all have moved their keys, every key is in its slot |
| `RadixSort.MoveRunsAreFinite` | splash2/radix.C:621-629 | in every interleaving each step moves one key: no run has more steps than keys, and one has as many exactly when all keys are moved |
| `RadixSort.EveryMoveRunCanFinish` | splash2/radix.C:621-629 | every run can be continued until all keys are moved |
| `RadixSort.MoveKeys` | splash2/radix.C:623-629 | the loop of one processor puts each of its keys into its slot and writes nothing else |
| `RadixSort.PassIsPermutation` | splash2/radix.C:621-629 | a pass permutes the keys |
| `RadixSort.PassSorts` | splash2/radix.C:489-646 | keys in the order of their lower digits are, after a pass on the next digit, in the order of one digit more |
| `RadixSort.ParallelPassIsPass` | splash2/radix.C:489-640 | histograms, prefix tree and moves of all processors, in any interleaving between the barriers, together make one stable pass |
| `RadixSort.EveryPassCanBeMade` | splash2/radix.C:489-640 | for every array and partition there is a run of the whole pass |
| `RadixSort.AfterPasses` | splash2/radix.C:489-646 | after l passes the array is a permutation of the input, in the order of the lowest l digits |
| `RadixSort.SortIsCorrect` | splash2/radix.C:489-646 | after enough passes for max_key the array is a sorted permutation of the input |
| `RadixSort.EverySortCanBeMade` | splash2/radix.C:489-646 | for every array, partition and number of passes there is a run of the whole sort |
| `RadixKeys.ProductMod46` | splash2/radix.C:667-685 | the result is t1*t2 mod 2^46, and every intermediate value is a whole number below 2^53 |
| `RadixKeys.RanNumInit` | splash2/radix.C:690-705 | the result is b*t^k mod 2^46 |
| `RadixKeys.NextRandom` | splash2/radix.C:796-804 | multiplying a random number by the ratio gives the next one of the sequence |
| `RadixKeys.RandomNext` | splash2/radix.C:690-705 | the sequence begins with the seed modulo 2^46, and every number is the one before times the ratio |
| `RadixKeys.KeyIs` | splash2/radix.C:784-807 | a key is the integral part of max_key times the mean of four numbers of the sequence, each as a fraction of 2^46, for the seed and ratio of the program |
| `RadixKeys.KeyInRange` | splash2/radix.C:784-807 | every generated key is below max_key |
| `RadixKeys.Init` | splash2/radix.C:784-807 | a processor fills its part with the keys that depend on the position only |
| `RadixKeys.InitAll` | splash2/radix.C:784-807 | the generated key array is the same for every partition, hence for every P |
| `RadixKeys.FillPartition` | splash2/radix.C:256-269 | the loop makes exactly P turns, and part p begins at floor(p*n/P) |
| `RadixKeys.GetMaxDigits` | splash2/radix.C:707-723 | on every input on which the loop ends: the least number of digits, at least one, that represents the largest key |
| `RadixKeys.LoopEndsIff` | splash2/radix.C:707-723 | the loop ends if and only if the radix is at least 2 or the largest key is 0 |
| `RadixKeys.RadixOneStays` | splash2/radix.C:711-716 | with radix 1 the value is the largest key after every number of turns |
| `LuFactor.FactorsMultiplyToMatrix` | splash2/lu_contiguous_blocks.C:488-504 | with nonzero pivots L times U, L lower triangular and U upper triangular with unit diagonal, is the matrix |
| `LuFactor.Lu0` | splash2/lu_contiguous_blocks.C:488-504 | a diagonal block that has all earlier updates becomes its part of the factors; nothing else changes |
| `LuFactor.Bdiv` | splash2/lu_contiguous_blocks.C:507-519 | a block below becomes its part of the factors |
| `LuFactor.Bmodd` | splash2/lu_contiguous_blocks.C:522-537 | a block to the right becomes its part of the factors |
| `LuFactor.Bmod` | splash2/lu_contiguous_blocks.C:540-552 | an inner block is brought from stage K to stage K+1; nothing else changes |
| `LuFactor.Daxpy` | splash2/lu_contiguous_blocks.C:555-562 | adds alpha times a column piece to another column piece, and changes nothing else |
| `LuParallel.NoConflict` | splash2/lu_contiguous_blocks.C:581-692 | with two barriers in a step, no block is written by one processor and accessed by another between barriers, for every P |
| `LuParallel.NoRace` | splash2/lu_contiguous_blocks.C:581-692 | in every state of every run a block that one processor may be writing is not accessed by a task that another one may be executing |
| `LuParallel.ReadsAreInputs` | splash2/lu_contiguous_blocks.C:488-552 | what a task does depends on the blocks that it reads only |
| `LuParallel.WritesAreChanges` | splash2/lu_contiguous_blocks.C:488-552 | a task changes no block but the one that it writes |
| `LuParallel.OwnerByBlock` | splash2/lu_contiguous_blocks.C:565-569 | the owner of a task is the residue of the sum of the block numbers modulo P |
| `LuParallel.OwnerByLine` | splash2/lu_contiguous_blocks.C:571-579 | in the contiguous program the owner of a block below the diagonal block is its row, and that of a block to the right is its column plus half of P, modulo P |
| `LuParallel.ReadyWhenAssigned` | splash2/lu_contiguous_blocks.C:581-692 | in every reachable state a kernel that a processor may run finds its input blocks at the stage it needs |
| `LuParallel.KernelsFindTheirInputs` | splash2/lu_contiguous_blocks.C:581-692 | the same for every state of every run |
| `LuParallel.StepKept` | splash2/lu_contiguous_blocks.C:581-692 | kernel calls, moves and barrier releases keep the invariant |
| `LuParallel.ParallelLuIsCorrect` | splash2/lu_contiguous_blocks.C:581-692 | in every interleaving, for every P and block size, the array ends as L and U with L*U = A |
| `LuParallel.NeverStuck` | splash2/lu_contiguous_blocks.C:612-652 | the barriers do not deadlock |
| `LuParallel.RunsAreFinite` | splash2/lu_contiguous_blocks.C:581-692 | no run is longer than the number of tasks and the phases of all processors |
| `LuParallel.EndedMeansFinished` | splash2/lu_contiguous_blocks.C:581-692 | a run that cannot go on has all processors finished |
| `LuParallel.RunKernel` | splash2/lu_non_contiguous_blocks.C:396-454 | with one array and a global stride the kernels do to the blocks of a task what the factors ask for, and change no other block |
| `LuParallel.RunTask` | splash2/lu_contiguous_blocks.C:488-552 | the kernels have the effect that the state machine gives to a task |
| `LuParallel.BlockOf` | splash2/lu_contiguous_blocks.C:589-596 | every row is in a block row, that of its quotient by the block size: the blocks tile the matrix |
| `LuParallel.Lu` | splash2/lu_non_contiguous_blocks.C:482-580 | the loops of the factorization leave L and U with L*U = A |
| `FftMath.Butterfly` | splash2/fft.C:816-858 | the values of a polynomial at z and -z from its even and odd halves at the square of z |
| `FftMath.SumSwap` | splash2/fft.C:599-675 | the order of a double summation does not matter |
| `FftMath.SixStep` | splash2/fft.C:599-675 | the length n*n transform is: transform the columns, multiply by twiddle factors, transform the rows |
| `FftMath.Orthogonal` | splash2/fft.C:599-675 | the powers of a primitive root add up to n on the diagonal and to zero elsewhere |
| `FftMath.Inversion` | splash2/fft.C:427-492 | transforming back with the inverse root gives n times every element |
| `FftKernel.BitReverse` | splash2/fft.C:583-596 | computes the reversed index |
| `FftKernel.RevTwice` | splash2/fft.C:583-596 | reversing twice changes nothing |
| `FftKernel.Reverse` | splash2/fft.C:802-813 | every element is put at its reversed index |
| `FftKernel.StageButterfly` | splash2/fft.C:836-857 | a butterfly of stage q makes two values of a block transform from one value each of the two half-size transforms |
| `FftKernel.DoButterfly` | splash2/fft.C:843-854 | one butterfly in place, with the table entry turned into the direction of the transform; only its two elements change |
| `FftKernel.DoStage` | splash2/fft.C:837-856 | after the loops of stage q every block of 2^q elements holds its transform |
| `FftKernel.FFT1DOnce` | splash2/fft.C:816-858 | the row becomes its discrete Fourier transform |
| `FftSixStep.CoversAll` | splash2/fft.C:708-788 | the blocks of a transpose cover all rows exactly when their number divides the number of rows |
| `FftSixStep.SomeRowsLeftOut` | splash2/fft.C:708-788 | a run of the transpose with 8 rows and 6 cache lines: of a matrix of ones, rows 6 and 7 and columns 6 and 7 do not arrive |
| `FftSixStep.Transpose` | splash2/fft.C:708-788 | a processor copies exactly the covered part of every square |
| `FftSixStep.TransposeFully` | splash2/fft.C:708-788 | when the blocks cover all rows, the own rows of dest are the columns of src and nothing else changes |
| `FftSixStep.TwiddleOneCol` | splash2/fft.C:678-694 | a row of column transforms becomes the twiddled row |
| `FftSixStep.Scale` | splash2/fft.C:697-705 | multiplies a row by the factor 1/N |
| `FftSixStep.FirstPhase` | splash2/fft.C:599-675 | what a processor does before the first barrier: its rows become twiddled column transforms, and it writes only its rows |
| `FftSixStep.SecondPhase` | splash2/fft.C:599-675 | what a processor does between the next barriers: its rows become every n-th element of the result |
| `FftSixStep.ThirdPhase` | splash2/fft.C:599-675 | what a processor does after that: its rows get the result in order |
| `FftSixStep.FFT1D` | splash2/fft.C:599-675 | the matrix becomes the length-N transform of its elements, scaled for the way back, for every P that divides rootN |
| `FftSixStep.BackRowTable` | splash2/fft.C:843-844 | the one table of roots, turned, is the table for the way back |
| `FftSixStep.BackTwiddles` | splash2/fft.C:684-687 | the one table of twiddle factors, turned, is the table for the way back |
| `FftSixStep.ForwardAndBack` | splash2/fft.C:473-481 | forward, then back with the same tables: the matrix is as it was, in every ring |
| `FftParallel.StepKept` | splash2/fft.C:599-675 | copies of elements, work on rows and barrier releases of all processors, in any interleaving, keep the invariant |
| `FftParallel.ParallelFftIsCorrect` | splash2/fft.C:599-675 | in every interleaving of the processors, for every P that divides rootN, the scratch matrix ends as the length-N transform, scaled for the way back |
| `FftParallel.NeverStuck` | splash2/fft.C:615-664 | the barriers do not deadlock |
| `FftParallel.RunsAreFinite` | splash2/fft.C:599-675 | no run is longer than the copies, rows and barriers of all processors together, and one is that long exactly when all processors have reached the last barrier |
| `FftParallel.EndedMeansDone` | splash2/fft.C:615-664 | a run that cannot go on has all processors at the last barrier |
| `FftParallel.RowWork` | splash2/fft.C:627-655 | the row methods have the effect that the state machine gives to the work on a row |
| `FftComplex.NumbersAreRing` | splash2/fft.C:816-858 | pairs of reals with the multiplication of the code form a commutative ring |
| `FftComplex.BackIsTurn` | splash2/fft.C:843-844 | direction -1 conjugates an entry, which respects products |
| `FftComplex.ConjIsInverse` | splash2/fft.C:843-844 | a root of unity lies on the unit circle and its conjugate is its inverse, so the way back uses the inverse root |
| `FftComplex.ScaleDivides` | splash2/fft.C:697-705 | dividing both components by N is multiplying by 1/N |
| `FftComplex.ScaleIsInverse` | splash2/fft.C:697-705 | the factor 1/N undoes the factor N |
| `FftComplex.TransformAndBack` | splash2/fft.C:473-481 | over the complex numbers, with one pair of tables, direction 1 and then direction -1 with the factor 1/N restore the matrix |
| `MapReduceInsert.AddValueKeepsEntry` | phoenix-2.0/phoenix/map_reduce.c:1502-1555 | a value is added to the newest chunk or to a new one of twice the size; the chain stays well formed, and one value more is in it |
| `MapReduceInsert.PositionSplits` | phoenix-2.0/phoenix/map_reduce.c:1447-1471 | before the position of a key all keys are smaller, from it on none is |
| `MapReduceInsert.InsertKeepsArray` | phoenix-2.0/phoenix/map_reduce.c:1440-1556 | an insertion keeps the array strictly sorted and its chains well formed |
| `MapReduceInsert.InsertAdds` | phoenix-2.0/phoenix/map_reduce.c:1440-1556 | an insertion adds the value to its key and leaves the values of every other key as they were |
| `MapReduceInsert.KeyvalsArr.Find` | phoenix-2.0/phoenix/map_reduce.c:1447-1471 | the search finds the position of the key and whether it is there |
| `MapReduceInsert.KeyvalsArr.InsertNew` | phoenix-2.0/phoenix/map_reduce.c:1473-1500 | a new entry goes to its position; the array grows from 10 by doubling |
| `MapReduceInsert.KeyvalsArr.InsertMerged` | phoenix-2.0/phoenix/map_reduce.c:1440-1556 | the array in place becomes what the specification of the insertion says |
| `MapReduceReduce.ValueIterator.Add` | phoenix-2.0/phoenix/iterator.c:88-109 | a list is appended, or refused exactly when the iterator is full |
| `MapReduceReduce.ValueIterator.Next` | phoenix-2.0/phoenix/iterator.c:113-154 | delivers the values of all lists in order, across chunks and lists, and nothing exactly at the end |
| `MapReduceReduce.ValueIterator.Rewind` | phoenix-2.0/phoenix/iterator.c:71-78 | everything is to be delivered again |
| `MapReduceReduce.ValueIterator.Reset` | phoenix-2.0/phoenix/iterator.c:60-69 | the iterator is empty |
| `MapReduceReduce.TakeMatching` | phoenix-2.0/phoenix/map_reduce.c:853-863 | the entry for the current key is taken from an array, if it has one; the iterator never overflows |
| `MapReduceReduce.Gather` | phoenix-2.0/phoenix/map_reduce.c:839-870 | one round over the arrays takes all entries for the current key and finds the least of the next keys |
| `MapReduceReduce.NextMin` | phoenix-2.0/phoenix/map_reduce.c:864-903 | the next key is larger than the current one |
| `MapReduceReduce.CallAdded` | phoenix-2.0/phoenix/map_reduce.c:872-900 | the call for a key covers exactly its entries |
| `MapReduceReduce.ReduceTask` | phoenix-2.0/phoenix/map_reduce.c:838-911 | reduce is called in increasing order of the keys, once for every key, with all its entries, and for every key of every array |
| `MapReduceResult.BuildHolds` | phoenix-2.0/phoenix/map_reduce.c:1353-1381 | an array of a map thread holds for each key of its partition exactly the emitted values |
| `MapReduceResult.MatchingHolds` | phoenix-2.0/phoenix/map_reduce.c:1353-1381 | the entries for a key over all map threads hold exactly the values emitted for it |
| `MapReduceResult.CallHasAllValues` | phoenix-2.0/phoenix/map_reduce.c:838-911 | a reduce call gets exactly the multiset of values emitted for its key by all threads |
| `MapReduceResult.FoldPermutation` | phoenix-2.0/phoenix/map_reduce.c:838-911 | the fold with a commutative monoid does not depend on the order |
| `MapReduceResult.FoldIterator` | phoenix-2.0/word_count.c:374-386 | folding what the iterator delivers |
| `MapReduceResult.CombineEntry` | phoenix-2.0/phoenix/map_reduce.c:1314-1343 | the combiner leaves one value, the fold of the values of the entry |
| `MapReduceResult.RunCombiner` | phoenix-2.0/phoenix/map_reduce.c:1299-1346 | every entry of the array is folded in place, and the array stays valid |
| `MapReduceResult.CombinerKeepsFold` | phoenix-2.0/phoenix/map_reduce.c:1299-1346 | with or without the combiner the values for a key fold to the same |
| `MapReduceResult.ResultIsGrouping` | phoenix-2.0/phoenix/map_reduce.c:838-911 | the reduced value of a key is the fold of everything emitted for it, whatever the distribution over threads and with or without the combiner |
| `MapReduceResult.EmittedKeyIsReduced` | phoenix-2.0/phoenix/map_reduce.c:838-911 | an emitted key is reduced in the task of its partition, by exactly one call |
| `MapReduceTasks.QueueSome` | phoenix-2.0/phoenix/map_reduce.c:1277-1292 | a turn of the loop over threads queues its quota, and at least one task while there are any |
| `MapReduceTasks.GenReduceTasks` | phoenix-2.0/phoenix/map_reduce.c:1254-1296 | the tasks 0, 1, 2, ... are queued, and how many |
| `MapReduceTasks.QueuedTasksAre` | phoenix-2.0/phoenix/map_reduce.c:1254-1296 | how many are queued: the even share of every reduce thread, and one more each while the leftover that is computed with the map threads lasts, but not more than all |
| `MapReduceTasks.AllTasksQueued` | phoenix-2.0/phoenix/map_reduce.c:1254-1296 | all reduce tasks are queued if and only if there are fewer tasks than reduce threads, or they divide evenly, or there are no more map threads than reduce threads |
| `MapReduceTasks.TaskLost` | phoenix-2.0/phoenix/map_reduce.c:1254-1296 | with 256 tasks, 3 reduce threads and 4 map threads one task is never queued |
| `MapReduceTasks.Splitter.Split` | phoenix-2.0/phoenix/map_reduce.c:1736-1765 | the next piece of the array begins where the last one ended, has the required length or reaches the end |
| `MapReduceTasks.PiecesTile` | phoenix-2.0/phoenix/map_reduce.c:1736-1765 | every unit is in exactly one piece |
| `MapReduceTasks.GenMapTasks` | phoenix-2.0/phoenix/map_reduce.c:1071-1106 | the map tasks tile the array, in pieces of the required length and a last one with what is left |
| `MapReduceMerge.KeyvalArr.Insert` | phoenix-2.0/phoenix/map_reduce.c:1559-1622 | one output array for every task: append; otherwise the array stays in key order; the other pairs stay in their order, and the array grows from 10 by doubling |
| `MapReduceMerge.FindMin` | phoenix-2.0/phoenix/map_reduce.c:1650-1671 | the array with the least current key |
| `MapReduceMerge.MergeResults` | phoenix-2.0/phoenix/map_reduce.c:1625-1681 | the output is a permutation of the inputs, in key order if every input is |
| `MapReduceMerge.BlocksTile` | phoenix-2.0/phoenix/map_reduce.c:1020-1042 | with two arrays for every thread the blocks of the workers tile the arrays, evenly, two or more each, the longer ones first |
| `MapReduceMerge.MergeBlock` | phoenix-2.0/phoenix/map_reduce.c:1020-1042 | a worker merges exactly its block |
| `MapReduceMerge.MergeRound` | phoenix-2.0/phoenix/map_reduce.c:1844-1894 | a round leaves one array for every merge thread, with all pairs |
| `MapReduceMerge.ParallelRoundIsRound` | phoenix-2.0/phoenix/map_reduce.c:1009-1060 | in every interleaving of the workers of a round, when all are done, their outputs together hold all pairs, each in key order if every input is |
| `MapReduceMerge.RoundsAreFinite` | phoenix-2.0/phoenix/map_reduce.c:1009-1060 | every step of a round moves one pair: no round has more steps than pairs, and one has as many exactly when all workers are done |
| `MapReduceMerge.WorkerCanStep` | phoenix-2.0/phoenix/map_reduce.c:1637-1676 | a worker that is not done can go on |
| `MapReduceMerge.Merge` | phoenix-2.0/phoenix/map_reduce.c:1844-1894 | the rounds end with one array, a permutation of all final values, in key order if every input array is |
| `MapReduceMerge.MergeThreadsFit` | phoenix-2.0/phoenix/map_reduce.c:403-448 | the number of merge threads that is set up fits the number of arrays, for every setting; what it is for one output array a task and for one a thread |
| `MapReduceEndToEnd.MapReduce` | phoenix-2.0/phoenix/map_reduce.c:236-330 | the whole run, for any assignment of queued tasks to output arrays: the result has exactly one pair for each emitted key whose partition, modulo 256 or 32768 tasks, is below the number of queued tasks, in strictly increasing order, with the fold of all emitted values; it groups all pairs if and only if that holds of all emitted keys, and always when there are no more map threads than reduce threads |
| `MapReduceEndToEnd.MergedIsGrouping` | phoenix-2.0/phoenix/map_reduce.c:1397-1434 | the same for any reduce calls, any assignment of tasks to output arrays, and any merge that keeps pairs and order |
| `MapReduceEndToEnd.GroupsAllIff` | phoenix-2.0/phoenix/map_reduce.c:1254-1296 | the result groups all emitted pairs if and only if the task of every emitted key was queued |
| `MapReduceEndToEnd.KeyIsInResultIff` | phoenix-2.0/phoenix/map_reduce.c:1254-1296 | an emitted key is in the result if and only if its task was queued |
| `MapReduceEndToEnd.KeyIsReducedIffQueued` | phoenix-2.0/phoenix/map_reduce.c:1254-1296 | with as many tasks reduced as were queued: an emitted key is reduced if and only if its task was queued, and always when there are no more map threads than reduce threads |
| `MapReduceEndToEnd.OutputOfKey` | phoenix-2.0/phoenix/map_reduce.c:838-911 | a reduce task emits one pair with the fold for each emitted key of its partition, and none for other keys |
| `MapReduceEndToEnd.OutputsOfKey` | phoenix-2.0/phoenix/map_reduce.c:838-911 | so do all tasks of a list together, when no task is in it twice |
| `MapReduceEndToEnd.FinalsHoldAll` | phoenix-2.0/phoenix/map_reduce.c:1397-1434 | the output arrays together hold what all tasks have emitted |
| `MapReduceEndToEnd.EmitIntermediate` | phoenix-2.0/phoenix/map_reduce.c:1353-1381 | an emitted pair goes into the array of its reduce task, and the other arrays of the thread stay |
| `MapReduceEndToEnd.MapThread` | phoenix-2.0/phoenix/map_reduce.c:728-770 | a map thread leaves for every reduce task the array of its pairs, with the combiner applied |
| `MapReduceEndToEnd.ReduceCall` | phoenix-2.0/phoenix/map_reduce.c:872-880 | the reduce function folds all lists of a call |
| `MapReduceEndToEnd.EmitCalls` | phoenix-2.0/phoenix/map_reduce.c:1559-1622 | the calls of a task put their pairs into the output array, which is in order afterwards, also when pairs are only appended |
| `LinkedList.List.IsEmpty` | phoenix-2.0/phoenix/list.h:79-82 | empty exactly when it has no elements |
| `LinkedList.List.AddHead` | phoenix-2.0/phoenix/list.h:84-91 | the circular list gets a new first element |
| `LinkedList.List.AddTail` | phoenix-2.0/phoenix/list.h:93-100 | the circular list gets a new last element |
| `LinkedList.List.Remove` | phoenix-2.0/phoenix/list.h:118-124 | exactly the given element leaves the list |
| `LinkedList.List.RemoveHead` | phoenix-2.0/phoenix/list.h:126-135 | the first element is taken, or none exactly when the list is empty |
| `LinkedList.List.RemoveTail` | phoenix-2.0/phoenix/list.h:137-146 | the last element is taken, or none exactly when the list is empty |
| `TaskQueue.ElemIntoFree` | phoenix-2.0/phoenix/taskQ.c:359-372 | the head of the queue moves to the tail of the free queue |
| `TaskQueue.GiveUpMeansEmpty` | phoenix-2.0/phoenix/taskQ.c:408-443 | when a dequeue returns without a task, every queue is empty at that moment |
| `TaskQueue.StepKeepsTasks` | phoenix-2.0/phoenix/taskQ.c:408-443 | no step of a concurrent dequeue loses or duplicates a task |
| `TaskQueue.ReturnedTasksWereQueued` | phoenix-2.0/phoenix/taskQ.c:408-443 | the returned tasks are queued tasks, none twice, in every interleaving |
| `TaskQueue.AllTasksReturned` | phoenix-2.0/phoenix/taskQ.c:408-443 | once a dequeue finds nothing and no thread holds a task, every task has been returned exactly once |
| `TaskQueue.TasksLeaveInOrder` | phoenix-2.0/phoenix/taskQ.c:359-372 | at any time what has been added to a free queue since the start, followed by what is in its queue, is the queue at the start |
| `TaskQueue.CallAdvances` | phoenix-2.0/phoenix/taskQ.c:408-443 | every step of a dequeue brings it nearer to its end, at most one look at each queue and the return, and the steps of the others do not delay it |
| `TaskQueue.WorkerCanStep` | phoenix-2.0/phoenix/taskQ.c:408-443 | nobody has to wait for another thread |
| `ThreadPool.RunInv` | phoenix-2.0/phoenix/tpool.c:136-191 | the invariant of the rounds holds in every state of every run |
| `ThreadPool.WaitReturnsResults` | phoenix-2.0/phoenix/tpool.c:177-191 | when tpool_wait returns, every worker has stored the result of its function for its argument of this round |
| `ThreadPool.PostedOnce` | phoenix-2.0/phoenix/tpool.c:264-269 | the final semaphore is posted exactly once in a round |
| `ThreadPool.NeverStuck` | phoenix-2.0/phoenix/tpool.c:136-191 | in every state of every run there is a next step |
| `ThreadPool.RoundsTake` | phoenix-2.0/phoenix/tpool.c:136-191 | in every interleaving a round of n workers takes 8n + 3 steps, up to the last steps of workers that have already counted themselves; so every round ends |
| `ThreadPool.RoundsGoOn` | phoenix-2.0/phoenix/tpool.c:136-191 | every run can be continued through any number of rounds |
| `WordCount.SplitOff` | phoenix-2.0/word_count.c:259-291 | a chunk is not empty and ends at the first white space that is at least the wanted length away, or at the end of the file |
| `WordCount.SplitAll` | phoenix-2.0/word_count.c:259-291 | the chunks tile the file, each cut off like that |
| `WordCount.UpperIs` | phoenix-2.0/word_count.c:321 | the case change moves a to z down by 32, in their order, and changes no other character |
| `WordCount.WordCharacters` | phoenix-2.0/word_count.c:322-342 | the letters are a to z and A to Z, a word may also hold apostrophes, white space is blank, tab, return and newline |
| `WordCount.WordsAre` | phoenix-2.0/word_count.c:306-352 | the words of a text are in upper case the pieces that begin with a letter, hold letters and apostrophes and are as long as can be, in their order, and no letter is outside of them |
| `WordCount.WordsCut` | phoenix-2.0/word_count.c:306-352 | a text may be cut before a character that cannot stand in a word |
| `WordCount.SplitKeepsWords` | phoenix-2.0/word_count.c:259-291 | the words of the chunks, one after the other, are the words of the file |
| `WordCount.MapChar` | phoenix-2.0/word_count.c:319-344 | one turn of the state machine keeps the words emitted and to come |
| `WordCount.Map` | phoenix-2.0/word_count.c:306-352 | emits exactly the words of the chunk, each from its place with small letters moved down by 32, writes in the chunk and at most a zero after it, and spares a first character that starts no word |
| `WordCount.AnyOrder` | phoenix-2.0/word_count.c:306-352 | the words of the chunks do not depend on the order |
| `WordCount.MapNext` | phoenix-2.0/word_count.c:306-352 | mapping one more chunk keeps the words that were emitted and the chunks to come, although it may overwrite the first byte of the next one |
| `WordCount.MapAll` | phoenix-2.0/word_count.c:306-352 | mapping the chunks one after the other, in any order, emits the multiset of words of the file, and all of them are still in the buffer at the end |
| `WordCountParallel.StepKept` | phoenix-2.0/word_count.c:306-352 | turns of the loops of all threads, in any interleaving, keep the invariant, although the zero after the last word of a chunk may fall on the first byte of the next |
| `WordCountParallel.ParallelMapIsCorrect` | phoenix-2.0/word_count.c:306-352 | in every interleaving, when all threads are done, the words emitted are the words of the file, and all of them are in the buffer |
| `WordCountParallel.RunsAreFinite` | phoenix-2.0/word_count.c:306-352 | in every interleaving there is one step for every character and one for the end of every chunk, and all threads are done exactly when these have been made |
| `WordCountParallel.CanStep` | phoenix-2.0/word_count.c:306-352 | a thread that is not done has a step |
| `SizeClasses.FindBucket` | splash2/cholesky/malloc.C:105-118 | the first bucket from 1 on with 2^bucket >= size, and 16 above 2^15 |
| `SizeClasses.FreedOk` | splash2/cholesky/malloc.C:311-312 | putting a live block into its free list keeps blocks apart, lists linked and size classes right |
| `SizeClasses.UnlinkedOk` | splash2/cholesky/malloc.C:174-178 | taking a block out of its list keeps the heap in order |
| `SizeClasses.CutOk` | splash2/cholesky/malloc.C:163-170 | cutting a block in two, with a header for the new one, keeps the heap in order |
| `SizeClasses.WholeInOrder` | splash2/cholesky/malloc.C:163-198 | taking all of a large block keeps the heap in order if and only if the link of the block is not lost under the new header |
| `SizeClasses.WholeSafe` | splash2/cholesky/malloc.C:163-198 | also when the link is lost, blocks stay apart and large enough, and all other lists are in order |
| `SizeClasses.Pool.FreeNow` | splash2/cholesky/malloc.C:283-315 | the block goes to the list with 2^bucket <= size < 2^(bucket+1), or to list 16 above 2^15 bytes; blocks stay apart and lists in order |
| `SizeClasses.Pool.Search` | splash2/cholesky/malloc.C:155-190 | finds the first large block that is big enough, and the one before it |
| `SizeClasses.Pool.TakeFast` | splash2/cholesky/malloc.C:143-151 | takes the head of the list of the size class |
| `SizeClasses.Pool.TakeSlow` | splash2/cholesky/malloc.C:153-198 | takes the request from the first large block that is big enough and keeps or frees the rest: the live blocks are those before and the result, and every word of a block stays in a block, but for the lost ones; the heap stays in order if and only if the link survives, and otherwise the header stands in place of the link |
| `SizeClasses.Pool.Grow` | splash2/cholesky/malloc.C:200-212 | a new block behind all others |
| `SizeClasses.Pool.TakeOrGrow` | splash2/cholesky/malloc.C:153-223 | a live block of the size, and no other new one; which block, where memory ends, which words are lost, and when the heap is in order afterwards |
| `SizeClasses.Pool.Malloc` | splash2/cholesky/malloc.C:123-235 | returns a live block of at least the requested size that was not live before, the one that the rule chooses, with a zero first word; the live blocks are those before and the result; all live blocks keep their sizes and words; every word handed out stays in a block but for the lost ones; the heap stays in order if and only if the request works, and otherwise only the chain of large blocks is lost |
| `SizeClasses.OutcomeUnique` | splash2/cholesky/malloc.C:123-235 | the rule chooses one block, one end of memory and one set of lost words for every request |
| `SizeClasses.LosesIff` | splash2/cholesky/malloc.C:163-198 | words are lost exactly when the list of the size class is empty and -8 or 0 bytes are left over in front of the result |
| `SizeClasses.LostWere` | splash2/cholesky/malloc.C:163-198 | at most two words are lost, and they belonged to the block that was taken or are new |
| `SizeClasses.TiledIff` | splash2/cholesky/malloc.C:123-235 | blocks with their headers that tile the memory handed out go on tiling it exactly when the request loses no word |
| `SizeClasses.Pool.CanServe` | splash2/cholesky/malloc.C:123-235 | whether a request works can be told before the call, by the guard of the branch that loses the link |
| `SizeClasses.FirstRequestBreaks` | splash2/cholesky/malloc.C:123-235 | after a first request for 8 bytes less than a big block, the head of the list of large blocks is that size, which is no address of the pool, and the blocks do not tile the memory any more |
| `SizeClassRuns.Serve` | splash2/cholesky/malloc.C:123-270 | a whole run of requests, writes and releases, up to a request that does not work: every held block is live, as large as was asked for, apart from all others, and holds what was last written to each of its words; blocks from before the run are untouched, the live blocks are the held ones and those from before, and every word handed out is in a block but for at most two for every request |
| `SizeClassRuns.Step` | splash2/cholesky/malloc.C:123-270 | every action keeps that |

## Left out

- The numerical content of the Cholesky blocks (bfac.C, numLL.C, bksolve.C, assign.C): the protocol counts updates, their values are abstract.
- The heuristics that choose partitions, domains and orderings (amal.C, parts.C, seg.C): their result is any valid structure.
- Messages that are still on their way when a processor stops: nothing is claimed about empty mailboxes at the end.
- The renumbering of block columns by partition in the fan-out method: the model numbers the columns that have blocks from 0 on.
- `iter_next_list`, `iter_size` and `identity_reduce`: easy members beside `iter_next`.
- `tq_enqueue` and `tq_enqueue_seq`: an append to one of the queues; the queue of a new task is a free choice there.
- Dequeues while other threads enqueue: the result about empty queues is about a phase without enqueues.
- `tpool_destroy`, and rounds with a changing number of workers: the number of workers is read again after the counter is incremented.
- The rank partition loop (splash2/radix.C:271-284): the same loop as the key partition.
- The locality groups of the MapReduce tasks (gen_map_tasks_distribute): a choice of queues.
- Address arithmetic, strides and padding: matrices are two-dimensional arrays with the same index ranges.
- The INCREMENTAL_COMBINER variant of insert_keyval_merged, which is compiled in only when that macro is set.
- Timing, statistics, printing, options and memory placement.
- The remaining Phoenix demos, aget and the sqlite harness: file and network code around simple loops.
- FftSixStep.FFT1D: runs the processors one after the other within a phase; FftParallel has them at the same time, there with transposes that cover all rows and without the copy that only a test asks for.
- MapReduceMerge.MergeRound: runs the workers one after the other; MapReduceMerge.ParallelRoundIsRound is about all interleavings.
- MapReduceReduce.ReduceTask: the calls of the reduce function are collected in order; MapReduceEndToEnd.MapReduce makes them afterwards, one output array after the other.
- MapReduceEndToEnd.MapReduce: which thread takes which reduce task is a parameter; that the queue hands out every task once is the subject of TaskQueue.
- Fairness of the schedule: a thread that waits for the lock (Mcs) or looks for work again and again (TaskQueue) may repeat its loop as long as the schedule lets it. The other state machines have bounds on their runs.
- SizeClasses.Pool.Malloc: one memory pool, without its lock and its tallies, in a fixed range of words; requests for which the system has no memory are not part of the model.
- SizeClassRuns.Serve: stops after the first request that loses the link; what later requests do with the broken list is not modelled.
- WordCount.MapAll: maps one chunk after the other, in any order; WordCountParallel has all threads at the same time. One turn of the loop is one step there.

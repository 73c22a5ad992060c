# A verified model of MINAS, serial and distributed

MINAS classifies a stream of examples against a model of clusters, keeps what it cannot classify,
clusters it from time to time, and adds what it finds to the model. The repository holds a serial
program, a distributed one (MPI ranks with threads), older versions of both, a length-prefixed
socket protocol and a preprocessing script. This project models their hard parts in Dafny and
proves what each step keeps and what whole runs guarantee.

`dafny verify dfyconfig.toml` checks everything.

| modules | models |
|---|---|
| `Points`, `Search` | distances and the nearest-cluster search with early abandon |
| `KMeans`, `Lloyd`, `UtilKMeans` | both k-means loops, in place, and their descent |
| `Tallies`, `Clustering`, `ClusterFacts` | cluster statistics and the pigeonhole argument |
| `Unknowns`, `Labels`, `Novelty` | the unknown array, labels, novelty rounds |
| `Sums`, `Ledger`, `Sleep`, `Minas`, `Serial`, `Fallback` | the MINAS state, its operations, the serial run, and a run that meets the unset minimum |
| `Ring`, `RingThreads` | the circular buffer and any number of producers and consumers on it |
| `Ranks`, `Pipeline`, `Delivery`, `Shutdown`, `Termination`, `Progress`, `Gaps`, `Guarantee` | sampler, classifiers, model receivers and detector: what every step keeps, delivery and shutdown, termination, progress, runs into a gap, and the exact conditions |
| `Replicas` | the model's copies on all ranks and the final gather |
| `Slots`, `SlotRuns` | the older version's slot table, and its whole runs |
| `Framing`, `KryoConnection`, `KryoLink` | the socket protocol |
| `Columns` | index arithmetic of the preprocessing script |

How it is modelled:

- Numbers are reals; `sqrt` is a parameter that is non-negative and keeps order, and exact only
  where a statement speaks of a square. Counters are unbounded except where a wrap is written out:
  `Sub64` and `Trunc32` in `Sleep`, `Char` in `Slots`, the 32-bit length in `Framing`.
- Code that works in place is a class or a method over arrays, proved equal to a function of the
  old state; what the program promises is then proved of that function.
- Protocols are step systems. A schedule is any sequence of events, events that are not possible
  are passed over, so a statement about every schedule is one about every interleaving. Messages
  of one thread to one rank do not overtake each other (section 3.5 of MPI 3.1), and all ranks take
  broadcasts in one order (section 5.13).
- A socket takes any part of what it is offered, but some byte while it is willing to take any
  (`room`), and gives any part of what is there; serialised objects are opaque byte strings.

Where code and intent differ:

- `minDist` is never set before a search whose cluster 0 sleeps (src/base.c:43). The model keeps
  the code and makes the unset value a parameter; `SearchReliable` and `NeverFallsBack` say exactly
  when it matters, and `RunMeetsFallback` that it does in real runs. In the serial run every
  guarantee of `Serial.Run` holds whatever it is.
- `kMeansInit` adds the seed to the sums without counting it (src/base.c:78). `FirstPassOnSeeds`
  says exactly when the first pass is right all the same, `FirstPassMayRise` gives inputs where it
  is not; descent holds from the second pass on.
- End of stream and end of broadcast are an ordinary label, 87 or 'W' (src/threaded-mpi.c:24), and
  are modelled so. An input cluster with that label stops every rank's receiver before it is added
  (line 165), so no example is ever identified as a mark (`NoMatchIsMark`) and the detector's loop
  does not end early; but ranks then miss the rest of the model (`StopSafe`), and if it is among
  the first k clusters, classifiers wait for ever (`FinishesIff`).
- The sampler never sets the label of its examples before the marker (src/threaded-mpi.c:204, 337).
  It is a parameter of the model, `unset`; shutdown is safe exactly if it is not the mark
  (`SafeIff`).
- With some example and fewer than k clusters the classifiers wait for ever (line 110,
  `FinishesIff`).
- The root adds any cluster whose id is not below its size, but each receiver asserts that the id is
  the size (lines 170, 244). A gap in the ids ends the ranks, unless a mark stops their receivers
  first; and novelties may pass over such a mark (`GapReachable`, `GapFails`).
- In the older version the sampler waits for a slot while the ranks wait for clusters that only it
  can read; `SlotRuns.DoneIff` says for which inputs, `TooManyEarly` gives some.
- `bufferLength` gives `size` for an empty ring (`FullEmptyLength`).
- The classifier never reads `packetSize` from its message (src/threaded-mpi.c:85-97). The packed
  protocol is modelled, as the sampler and the detector speak it.
- `Server.run` calls `writeToSocket` rather than `writeOperation` (KryoNet.java:325), so write
  interest is never cleared there; the model has both and needs only that it is set while bytes
  are pending. A send that does not fit leaves its partial bytes in the buffer.
- `remove_attributes` is skipped when nothing is asked to be removed, and the binarised columns
  then stay (script.py:238, `BinarizedOnly`).

The rows below that begin with "Main result" are the theorems; the others are what they are built
from, operation by operation.

## Model

| member | source | states |
|---|---|---|
| Search.SearchReliable | src/base.c:43-59 | Main result: the search is right for every unset `minDist` if and only if cluster 0 is looked at, or no cluster is, or there is none |
| Lloyd.LoopDescends | src/base.c:85-115 | Main result: from zero sums the whole loop descends |
| Clustering.ClusterExamples | src/base.c:121-169 | Main result: the whole of `clustering`, or its error on too few examples: the centres come from a run of passes that starts at the first k examples and stops as the loop does, and their potential is not above that after the first pass |
| ClusterFacts.DeviationFromSums | src/base.c:151-162 | Main result: deviation squared is square sum less average times linear sum, for every non-empty cluster |
| ClusterFacts.Pigeonhole | src/base.c:264-266 | Main result: `clustering` of k*minExamplesPerCluster examples has an acceptable cluster, and at most (k-1)*(minExamplesPerCluster-1) examples in the others |
| Unknowns.UnknownBuffer.Compact | src/base.c:319-351 | Main result: what stays is the old contents at an increasing list of indices, those of the examples whose nearest new cluster is farther than its `distanceMax` and whose id is not below lastNDCheck; `consumed` counts the reached ones; arrays still pairwise distinct |
| Novelty.RoundConsumes | src/base.c:314-351 | Main result: a round on enough unknowns accepts a cluster and leaves at most (k-1)*(minExamplesPerCluster-1) unknowns |
| Minas.MinasState.HandleUnknown | src/base.c:302-378 | Main result: an unknown is kept, or, when the buffer is full or the trigger is met, starts a round that keeps exactly the unreached recent ones; the overflow block at its end is never entered |
| UtilKMeans.SentinelSound | old-code/src/util/kMeans.c:69 | Main result: the sentinel never hides a cluster in the unit box if and only if the dimension is at least 2 |
| RingThreads.EveryRun | old-code/src/reboot/CircularExampleBuffer.c:14-49 | Main result: over every schedule of any number of threads: FIFO, capacity, pointers and counting invariant |
| RingThreads.NoLostWakeup | old-code/src/reboot/CircularExampleBuffer.c:17-21 | Main result: when nobody can move, a waiting producer means full and a waiting consumer means empty; never both with two cells |
| Novelty.RoundIsNovel | src/base.c:264-290 | Main result: every cluster a round appends is, if its distance to the nearest cluster before it is at most `noveltyF` times that one's deviation, an extension with that one's label and id, else a novelty with a label that no cluster before it has, and that is no letter, not '-' and not the end-of-stream code |
| Minas.NeverFallsBack | src/base.c:245-249 | Main result: the NULL fallback of the code is ruled out for every unset `minDist` if and only if cluster 0 is awake |
| Fallback.RunMeetsFallback | src/base.c:245-249 | Main result: for every forgetting threshold a run in which cluster 0 sleeps: the code may answer NULL where the intended search does not |
| Serial.Run | src/online-nd.c:67-151 | Main result: over any input: the buffer stays below its limit, the clusters' hits are the answers that are matches and what novelties carried and their misses are the other answers, sleep accounting holds, each cluster is an input line's or extends its nearest with its label or is a novelty with a fresh label, and the run stops early exactly at an example before k clusters |
| Lloyd.FirstPassOnSeeds | src/base.c:76-80 | Main result: the first pass of `kMeans` after `kMeansInit` is the intended step if and only if each seed is the origin or occurs again later among the first k examples |
| UtilKMeans.UtilKMeansLoop | old-code/src/util/kMeans.c:40-113 | Main result: on any data: it fails if and only if some example has no cluster nearer than the sentinel at the start, else its result comes from a run of passes that starts with cleared sums and stops at the first one that does not change the distance, or at the hundredth; in the unit box from two dimensions on it never fails and descends |
| Shutdown.NoMatchIsMark | src/threaded-mpi.c:113-120 | Main result: no example is ever identified as the end-of-stream mark, whatever labels the input and novelties carry: a receiver stops before it adds such a cluster |
| Shutdown.SafeShutdown | src/threaded-mpi.c:365-409 | Main result: when the detector leaves its loop every place is empty, every thread ended, and every example was seen exactly once |
| Guarantee.FinishesIff | src/threaded-mpi.c:108-112 | Main result: every run that can go no further has finished if and only if no gap is reachable, and there is no example, or it is taken for the mark, or the input completes the model |
| Guarantee.DeliveryGuaranteed | src/threaded-mpi.c:365-409 | Main result: every run that goes on while it can delivers all and shuts down safely if and only if no gap is reachable, and there is no example, or the unset label is not the mark and the input completes the model |
| Replicas.RanksFollow | src/threaded-mpi.c:164-177 | Main result: no rank fails and every one that stopped has the whole model, in every schedule, if and only if added input clusters have the next id and not the mark |
| Replicas.HitsAndMisses | src/threaded-mpi.c:532-558 | Main result: on such input all ranks hold models of one size at the gather; the gathered hits are the examples identified as matches plus the number of ranks times what novelties carried, and the gathered misses are the other examples |
| Slots.CharsSuffice | old-code/src/reboot/threaded-mpi.c:232-233 | Main result: marks survive the `char` table for all ranks if and only if there are at most 64 |
| Slots.SlotsAreOwned | old-code/src/reboot/threaded-mpi.c:224-262 | Main result: each example in flight has a slot of its own, is done once, is never answered with the mark, and the detector never waits for a missing slot |
| Slots.WaiterServed | old-code/src/reboot/threaded-mpi.c:238-242 | Main result: in every reachable state a sampler that waits has a token, a post to come, or an example in flight whose release frees a slot for the rank it wants |
| SlotRuns.DoneIff | old-code/src/reboot/threaded-mpi.c:201-247 | Main result: every run in which nobody can move has done every example if and only if there is none, or the first k clusters come unmarked and with no more examples before the k-th than there are slots |
| Framing.PrefixCode | old-code/mfog-java/src/main/java/br/ufscar/dc/gsdr/mfog/util/KryoNet.java:77-96 | Main result: frames are a prefix code: a stream determines its objects |
| KryoLink.Run | old-code/mfog-java/src/main/java/br/ufscar/dc/gsdr/mfog/util/KryoNet.java:77-208 | Main result: over any schedule of sends, partial writes, arrivals and reads the receiver gets exactly the sent objects in order; nothing is pending if the socket was willing to take all that was sent, and once all arrived and was read the receiver has every object; it ends early only at an object that does not fit behind those pending, is empty or is too long for the reader |
| KryoLink.Settle | old-code/mfog-java/src/main/java/br/ufscar/dc/gsdr/mfog/util/KryoNet.java:77-208 | Main result: after any run, once the socket takes what is pending and all arrives, reading while there is something delivers every object, unless one is empty or too long for the reader |
| Columns.ArrangedAsIntended | src/dataset-preprocessor/script.py:235-239 | Main result: with columns in range and sorted, as the caller passes them (line 300), the row comes out as intended if and only if no column is named twice |
| Search.NearestOf | src/base.c:42-62 | the intended answer: the last index among the nearest clusters looked at, -1 if none is looked at |
| Search.DistanceWithin | src/base.c:49-55 | abandoning early gives the whole squared distance whenever that is within the bound, and never more than it |
| Search.NearestClusterVal | src/base.c:42-62 | the scan with early abandon and sleeping clusters, exactly, whatever the unset `minDist` holds: it answers if somebody is looked at, and cluster 0 is or the unset value does not rule out the nearest; then with that one and its distance |
| Search.NearestOfAll | src/base.c:136 | with nothing skipped on a non-empty model the answer is a nearest cluster and its distance, and the unset value is never read |
| Search.NearestClusterValStd | old-code/src/base/minas.c:23-40 | the plain scan: least root distance, last index on ties, NULL on an empty model |
| Search.FastRefinesPlain | old-code/src/base/minas.c:42-58 | early abandon refines the plain scan: same cluster and distance if and only if it is the plain answer |
| Search.SearchSound | src/base.c:42-62 | it never answers with a wrong cluster, and without skipping never with NULL on a non-empty model |
| KMeans.KMeansInit | src/base.c:64-83 | too few examples is an error, else clusters seeded by the first k examples, field by field: sums preloaded, nothing counted |
| KMeans.KMeansLoop | src/base.c:85-115 | the loop equals the iteration of passes until the change is within the precision or 100 passes are done |
| KMeans.PassMeans | src/base.c:88-111 | one pass, coordinate by coordinate: a cluster's new centre times the number of examples it is nearest to, and counted before, is the sum of these examples and what was summed before; a cluster without any stays |
| KMeans.IterateRuns | src/base.c:85-115 | the iteration is a run: a sequence of passes, one to 100, each reporting the sum of distances to the nearest centres, of which the last is the first whose report changed by no more than the precision, or the hundredth |
| Lloyd.MeansCheaper | src/base.c:101-109 | whatever the assignment, moving to the means does not raise its cost |
| Lloyd.LloydStep | src/base.c:88-113 | assign to nearest, move to means: the total squared distance to the nearest centres does not rise |
| Lloyd.CleanPassDescends | src/base.c:88-113 | a pass entered with zero sums and counts descends and leaves them at zero |
| Lloyd.RunDescends | src/base.c:85-115 | in any run no pass from the second on raises the potential |
| Lloyd.DescentFromSecondPass | src/base.c:76-113 | whatever the sums start at, the potential does not rise after the first pass |
| Lloyd.FirstPassMayRise | src/base.c:76-80 | a family of inputs whose first pass moves the only centre off its only example |
| Clustering.MeasureClusters | src/base.c:151-165 | average, deviation and radius of each non-empty cluster |
| Tallies.DoubleCount | src/base.c:140 | counting by cluster and counting by example agree, for any weights |
| Tallies.DeviationAtMean | src/base.c:153-160 | squared deviations from the mean are the square sum less the mean times the sum |
| ClusterFacts.CountsAddUp | src/base.c:134-150 | match counts add up to the size of the set |
| ClusterFacts.WithinDistanceMax | src/base.c:143-145 | each example lies within `distanceMax` of its cluster |
| ClusterFacts.DescribedCount | src/base.c:134-145 | `n_matches` is the number of examples a cluster is nearest to, and `distanceMax` the distance of the farthest of them |
| ClusterFacts.DescribedSums | src/base.c:141-142 | the linear and the square sum are those of the distances of these examples |
| ClusterFacts.DescribedSpread | src/base.c:151-162 | the average times the count is the sum of their distances, the deviation the root of their summed squared deviations from it, and the radius that times `radiusF` |
| ClusterFacts.ClustersArriveFresh | src/base.c:121-169 | new clusters are awake and have no misses |
| Unknowns.UnknownBuffer.constructor | src/online-nd.c:37-40 | slots get value arrays of their own |
| Unknowns.UnknownBuffer.CopyInto | src/base.c:324-327 | a slot becomes a deep copy and no other slot changes |
| Unknowns.UnknownBuffer.Store | src/base.c:305-309 | an unknown is appended by value |
| Unknowns.IsConsumed | src/base.c:330-336 | the search among the new clusters always answers, with the nearest one n, and the example is consumed if and only if its distance to n is at most n's `distanceMax` |
| Unknowns.SurvivorsLeft | src/base.c:319-348 | the stable filter of the model keeps exactly the examples that the two tests of the loop leave, in order |
| Novelty.AcceptedJoin | src/base.c:264-290 | the model grows by exactly the accepted clusters, in order, ids contiguous, each counted as extension or novelty |
| Novelty.NewClustersFresh | src/base.c:287-290 | clusters of a round are awake, without misses, and their id is their index |
| Sleep.DrowseCounts | src/base.c:391-405 | the counter rises by the clusters put to sleep, and only stale ones are |
| Sleep.DrowseStops | src/base.c:391-405 | there is an index where the loop stops: the awake stale clusters before it sleep, nothing else changes, the counter is at least 2k there or all clusters were visited, and was below 2k after every awake cluster before |
| Sleep.DrowseLeavesOneAwake | src/base.c:387-405 | the guard and the exit leave at least one cluster awake |
| Ledger.SomeAwake | src/base.c:387 | all sleep if and only if as many sleep as there are |
| Minas.MinasState.constructor | src/online-nd.c:32-40 | the state a run starts from |
| Minas.MinasState.RestoreSleep | src/base.c:409-416 | if anybody sleeps, all clusters wake with the current time and the counter is zero; else nothing changes |
| Minas.MinasState.HandleSleep | src/base.c:380-407 | if the guard passes, the awake clusters not matched for longer than the threshold sleep up to the index where the loop stops, and nothing else changes; else nothing does; counter and number of sleepers stay equal and one cluster stays awake |
| Minas.MinasState.Identify | src/base.c:240-261 | the whole of `identify`, field by field: the cluster found, by which search, that its hits grow by one and its misses stay if the distance is within the radius and the other way round if not, its time, and that others change only by waking; the check for NULL never fails |
| Minas.IdentifiedFields | src/base.c:240-261 | the same field by field of the function by which whole runs are described |
| Minas.MinasState.DetectNovelty | src/base.c:263-300 | the loop over the new clusters equals the round on values |
| Minas.MinasState.RunRound | src/base.c:314-354 | restore, detect, compact: what stays of the unknowns, by index, and the buffer is then below its limit |
| Minas.CounterStaysUnreserved | src/base.c:501-503 | an added cluster leaves the counter on a reserved label if and only if its label is 44, 64 or 96 and not below the counter |
| UtilKMeans.SelectLeast | old-code/src/util/kMeans.c:69-78 | the first of equally near clusters wins, if any beats the sentinel |
| UtilKMeans.UtilPass | old-code/src/util/kMeans.c:62-98 | a pass in the unit box gives every example a cluster, keeps the centres in the box and does not raise the potential |
| UtilKMeans.UtilLoopDescends | old-code/src/util/kMeans.c:62-106 | the whole loop descends, from the first pass on |
| UtilKMeans.IteratedRuns | old-code/src/util/kMeans.c:62-106 | the iteration is a run: in each pass an example goes to the nearest cluster, the first of equally near ones, if that beats the sentinel, else to the one it had, and the pass reports the sum of the least distances |
| Ring.FullEmptyLength | old-code/src/reboot/CircularExampleBuffer.h:15-17 | full is capacity size-1, empty is nothing held, and `bufferLength` is right if and only if the ring is not empty |
| Ring.EnqueueRefines | old-code/src/reboot/CircularExampleBuffer.c:23-29 | enqueue appends to the FIFO queue and exchanges one pointer |
| Ring.DequeueRefines | old-code/src/reboot/CircularExampleBuffer.c:41-47 | dequeue takes the oldest and exchanges one pointer |
| Ring.CircularExampleBuffer.constructor | old-code/src/reboot/CircularExampleBuffer.c:86-100 | an empty ring of distinct examples |
| Ring.CircularExampleBuffer.TryEnqueue | old-code/src/reboot/CircularExampleBuffer.c:16-29 | the locked section, refused exactly when full |
| Ring.CircularExampleBuffer.TryDequeue | old-code/src/reboot/CircularExampleBuffer.c:34-47 | the locked section, refused exactly when empty |
| RingThreads.StepAnnounced | old-code/src/reboot/CircularExampleBuffer.c:14-49 | the counting invariant: while a producer is past seeing "full", free slots are at most signals plus those about to post or look; dually for consumers |
| RingThreads.StepFifo | old-code/src/reboot/CircularExampleBuffer.c:14-49 | every step keeps the queue order and the multiset of pointers |
| RingThreads.SignalsCount | old-code/src/reboot/CircularExampleBuffer.c:14-49 | each semaphore holds the posts of one side less the waits of the other that ended |
| RingThreads.CallsExchange | old-code/src/reboot/CircularExampleBuffer.c:14-49 | a call ends only by exchanging its example: examples in, or out, are one for each call that ended or is past the swap |
| RingThreads.BothSidesProgress | old-code/src/reboot/CircularExampleBuffer.c:14-49 | a producer and a consumer that both want to go on never block each other |
| RingThreads.OneCellNeverStores | old-code/src/reboot/CircularExampleBuffer.h:15-16 | a ring of one cell never takes an example |
| RingThreads.NeverShared | old-code/src/reboot/CircularExampleBuffer.c:25-26 | no example is ever held by two parties |
| Labels.BumpLabel | src/base.c:277-279 | the do-while gives the least label above that is neither letter nor '-' |
| Novelty.FreshLabel | src/base.c:273-282 | a novelty gets a label not in the model, no letter, not '-' and not the end-of-stream code |
| Novelty.RoundMakesNoMark | src/base.c:273-282 | a round on a model without the end-of-stream code makes none, and its counter never is that code |
| Minas.MinasState.AddCluster | src/base.c:486-505 | appends, and the label counter moves past the label unless that is a letter or below it; the sleep accounting holds on exactly if the cluster is awake |
| Minas.SomebodyAwake | src/base.c:245-249 | with the sleep accounting in order the search guarded on NULL, as intended, always has an answer |
| Minas.AnswersExactly | src/base.c:240-261 | for a model with given labels, `identify` may answer just these and the mark of unknowns: what the distributed modules, which know labels only, take for an answer |
| Fallback.FirstSleeps | src/base.c:380-405 | cluster 0 is put to sleep if and only if sleeping is tried and it is stale |
| Fallback.NoneUnknown | src/online-nd.c:98-119 | no example of that run is unknown |
| Fallback.AlikeIsRead | src/online-nd.c:72-76 | the clusters of that run are what cluster lines lead to |
| Fallback.RunIsSerial | src/online-nd.c:92-119 | each example of that run does to the model what the serial step does |
| Serial.StepCluster | src/online-nd.c:72-88 | a cluster line adds a cluster unless its id is below the size |
| Serial.StepExample | src/online-nd.c:92-119 | identify, sleep, handle unknown: the exact effect of one example on model, labels, sleep and unknowns; only an example labelled '-' is kept |
| Serial.Step | src/online-nd.c:69-119 | one input line: what it keeps, that some awake cluster is found, that clusters stay, and that new ones extend their nearest or have fresh labels |
| Serial.ReadLines | src/online-nd.c:67-119 | the loop over the lines: one numbered answer for each example, and what the run keeps |
| Lloyd.FirstPassIntended | src/base.c:76-80 | the first pass is the intended step if and only if each seed is the origin or owns nothing |
| Lloyd.DescentFromFirstPass | src/base.c:85-115 | on such seeds the first pass, and the whole loop, does not raise the potential |
| UtilKMeans.UnsetOnlyFirst | old-code/src/util/kMeans.c:68-82 | the loop never uses an unset cluster if and only if in the first pass each example has a cluster nearer than the sentinel |
| Ranks.NextDestination | src/threaded-mpi.c:300-302 | the next rank in turn, never the root |
| Delivery.EveryRun | src/threaded-mpi.c:238-446 | over every interleaving: where marks are, that no rank knows the mark, each thread's one mark, and tokens for all who wait |
| Delivery.TokensCount | src/threaded-mpi.c:178-183 | a rank's tokens, the posts to come and the waits that ended are one for each classifier once its model is complete, and none before |
| Shutdown.ClassifyConserves | src/threaded-mpi.c:97-136 | a classifier passes on what it took, under the label it found |
| Shutdown.StepConserves | src/threaded-mpi.c:238-446 | no step creates or loses any of what is counted |
| Shutdown.NothingLost | src/threaded-mpi.c:238-446 | in every reachable state: issued is buffered, queued, held, under way or seen |
| Shutdown.LabelsArrive | src/threaded-mpi.c:120-136 | in every reachable state each answer of a classifier is on its way to the detector or was seen there, under the label it was given |
| Shutdown.MarkersComeLast | src/threaded-mpi.c:336-346 | the sampler's markers come after all examples and have the number of the last one |
| Shutdown.Numbered | src/threaded-mpi.c:263-265 | numbers are given once, one to each example read |
| Shutdown.NeverTwice | src/threaded-mpi.c:282 | no example is seen more often than it was read |
| Shutdown.FinishedIsGone | src/threaded-mpi.c:383 | the detector has left its loop if and only if all threads ended and it took all they sent |
| Shutdown.UnsafeShutdown | src/threaded-mpi.c:102-105 | with an example whose unset label is the mark it is never safe |
| Shutdown.RoundRobinIsFair | src/threaded-mpi.c:300-306 | packet counts of two ranks never differ by more than one |
| Termination.StepsRunOut | src/threaded-mpi.c:238-446 | every step but a receiver's uses up a bound on the steps left |
| Termination.EveryRunEnds | src/threaded-mpi.c:383 | that bound: no run takes more steps, whatever novelties come |
| Termination.Maximal | src/threaded-mpi.c:238-446 | every run can be carried on to one that can go no further |
| Progress.ReceiversDone | src/threaded-mpi.c:162-183 | when input is over and the receiver of a rank that was not ended can go no further, its model is complete if the input brings k clusters with no mark among the first k |
| Progress.WaiterServed | src/threaded-mpi.c:108-112 | a thread waiting for a complete model has a token or a post to come |
| Progress.MarkerWaits | src/threaded-mpi.c:343-346 | a receiving thread finds a packet that ends it |
| Progress.NobodyDies | src/threaded-mpi.c:170 | where no gap in the ids is reachable, no receiver's assertion ever ends its rank |
| Progress.NeverStuck | src/threaded-mpi.c:86-136 | no reachable state is stuck before the loop is left, if no rank was ended and examples can be classified |
| Gaps.GapSplits | src/threaded-mpi.c:244-251 | a reachable gap is met without novelties, or after novelties at one place |
| Gaps.GapHangs | src/threaded-mpi.c:170 | where a gap is reachable, some run ends a rank with its work undone and never finishes |
| Guarantee.GapFails | src/threaded-mpi.c:170 | inputs that fail: a first cluster whose id is not zero |
| Guarantee.SafeIff | src/threaded-mpi.c:204 | leaving the loop is safe in all runs if and only if the unset label is not the mark or there is no example |
| Replicas.DetectionIsRound | src/base.c:287-290 | what `noveltyDetection` appends has contiguous ids, no misses, and no mark if there was none, as a round step assumes |
| Replicas.EveryRun | src/threaded-mpi.c:162-189 | over every interleaving: log, prefixes and the ledgers of hits and of misses |
| Replicas.ClusterLedger | src/threaded-mpi.c:162-189 | over every interleaving, each cluster on each rank has the hits it came with and one for each match the rank gave to it, and so for misses |
| Replicas.ReplicasAgree | src/threaded-mpi.c:164-177 | each rank's model is a prefix of the root's in id, label, centre, radius, deviation and origin; a rank that stopped has all of it or met the mark |
| Replicas.NeverFails | src/threaded-mpi.c:170 | with contiguous input ids `cl->id == model->size` holds at every receipt, also when rounds and input clusters alternate |
| Replicas.AssertionSafe | src/threaded-mpi.c:170 | that assertion is safe in every schedule of an input without the mark if and only if the ids are contiguous |
| Replicas.StopSafe | src/threaded-mpi.c:165-167 | with contiguous ids a rank that stopped has the whole model, in every schedule, if and only if no added input cluster carries the mark |
| Replicas.Gather | src/threaded-mpi.c:545-558 | the gathered hits and misses of each cluster are each the sums over all ranks, and nothing else of the root's cluster changes |
| Slots.FindFree | old-code/src/reboot/threaded-mpi.c:230-243 | the lowest slot the sampler may take, or none |
| Slots.FindMatch | old-code/src/reboot/threaded-mpi.c:330-343 | the lowest slot in use by the rank that holds the id, or none |
| Slots.ClaimSpreads | old-code/src/reboot/threaded-mpi.c:226-245 | every rank gets a slot of its own in the first round and keeps one |
| Slots.StaysUnmarked | old-code/src/reboot/threaded-mpi.c:320-325 | no label under way, in a record or in a rank's model becomes the mark |
| Slots.EveryRun | old-code/src/reboot/threaded-mpi.c:224-262 | over every interleaving of sampler, receivers, classifiers and detector |
| Slots.NeverOverwrites | old-code/src/reboot/threaded-mpi.c:245-256 | the sampler never takes the slot of an example in flight |
| Slots.FoundAtOnce | old-code/src/reboot/threaded-mpi.c:329-343 | the detector finds the very slot the sampler used |
| Slots.TokensCount | old-code/src/reboot/threaded-mpi.c:238-242 | the semaphore holds the detector's posts less the sampler's waits that ended |
| Slots.RecordsKeepLabels | old-code/src/reboot/threaded-mpi.c:245-262 | a slot's record keeps the label of the example that used it last, and the next one is sent with it |
| SlotRuns.Maximal | old-code/src/reboot/threaded-mpi.c:201-262 | every run can be carried on to one in which nobody can move |
| SlotRuns.AllBroadcast | old-code/src/reboot/threaded-mpi.c:205-217 | the broadcasts are the clusters of the lines that were read and those that the detector found, label by label |
| SlotRuns.StuckIsDone | old-code/src/reboot/threaded-mpi.c:318-427 | where nobody can move, on input that can be served, every example is done |
| SlotRuns.NeverAnswered | old-code/src/reboot/threaded-mpi.c:87-90 | on input that cannot be served no run ever does all |
| SlotRuns.TooManyEarly | old-code/src/reboot/threaded-mpi.c:226-242 | inputs that hang: one example more than there are slots before the clusters |
| Framing.IntRoundTrip | old-code/mfog-java/src/main/java/br/ufscar/dc/gsdr/mfog/util/KryoNet.java:113-115 | the length field decodes to what was encoded |
| Framing.BigEndian | old-code/mfog-java/src/main/java/br/ufscar/dc/gsdr/mfog/util/KryoNet.java:113-115 | the length is written most significant byte first |
| Framing.Delivered | old-code/mfog-java/src/main/java/br/ufscar/dc/gsdr/mfog/util/KryoNet.java:155-208 | whatever the split, what was read is how the sent objects start, and all of them once the whole stream is in and the reader lacks bytes |
| Framing.LengthRead | old-code/mfog-java/src/main/java/br/ufscar/dc/gsdr/mfog/util/KryoNet.java:170 | the length the reader reads is that of the next object |
| KryoConnection.ByteBuffer.Compact | old-code/mfog-java/src/main/java/br/ufscar/dc/gsdr/mfog/util/KryoNet.java:142 | unread bytes move to the front, in place |
| KryoConnection.Connection.constructor | old-code/mfog-java/src/main/java/br/ufscar/dc/gsdr/mfog/util/KryoNet.java:38-69 | a connection starts empty in both directions |
| KryoConnection.Connection.WriteToSocket | old-code/mfog-java/src/main/java/br/ufscar/dc/gsdr/mfog/util/KryoNet.java:127-145 | bytes move to the socket in order, and stay pending only if the socket refused them; true exactly when none is left |
| KryoConnection.Connection.Send | old-code/mfog-java/src/main/java/br/ufscar/dc/gsdr/mfog/util/KryoNet.java:77-111 | the object is framed and, if nothing was pending, written until the socket refuses; write interest is set exactly when bytes stay; it throws exactly when it does not fit, and what it then leaves is described |
| KryoConnection.Connection.WriteOperation | old-code/mfog-java/src/main/java/br/ufscar/dc/gsdr/mfog/util/KryoNet.java:117-125 | pending bytes are written until the socket refuses, and write interest stays exactly while some are left |
| KryoConnection.Connection.Await | old-code/mfog-java/src/main/java/br/ufscar/dc/gsdr/mfog/util/KryoNet.java:178-187 | at most one read, and some byte comes if any is there: an incomplete frame never fills the buffer |
| KryoConnection.Connection.ReadLength | old-code/mfog-java/src/main/java/br/ufscar/dc/gsdr/mfog/util/KryoNet.java:170-174 | a length is a header of the stream, or is rejected |
| KryoConnection.Connection.ReadObject | old-code/mfog-java/src/main/java/br/ufscar/dc/gsdr/mfog/util/KryoNet.java:155-208 | an object, nothing yet, or an exception, each with what it means for the stream |
| KryoConnection.Connection.ReadAll | old-code/mfog-java/src/main/java/br/ufscar/dc/gsdr/mfog/util/KryoNet.java:314-317 | the loop ends with a reader that lacks bytes, at the end of the stream, or on a bad length, and in the first case has read some byte if any was there |
| Columns.Row.MoveClasses | src/dataset-preprocessor/script.py:61-62 | the in-place moves of one row, move by move, each index lowered by the moves before it, or the IndexError where an index is no cell's |
| Columns.MoveClassesToTheEnd | src/dataset-preprocessor/script.py:57-63 | the same on all rows; an IndexError leaves those before done, its own as the edits before the error made it, and those after untouched |
| Columns.AnyAttMovedBefore | src/dataset-preprocessor/script.py:66-73 | counts the moved columns before an index |
| Columns.Row.RemoveColumns | src/dataset-preprocessor/script.py:80-83 | the in-place removals of one row, one by one, each index lowered by the removals before it and the classes moved from before it, or the IndexError |
| Columns.RemoveAttributes | src/dataset-preprocessor/script.py:76-84 | the same on all rows, with what an IndexError leaves |
| Columns.MovedColumns | src/dataset-preprocessor/script.py:57-63 | moving gives the untouched columns in order, then the classes in order |
| Columns.RemovedColumns | src/dataset-preprocessor/script.py:76-84 | removing after moving gives the columns neither moved nor removed, then the classes |
| Columns.BinarizedOnly | src/dataset-preprocessor/script.py:238 | without columns to remove the binarised originals stay: the intended row comes out only if there are none |
| Columns.AppendedStay | src/dataset-preprocessor/script.py:231-239 | binarised columns stay between the untouched originals and the classes |
| Columns.Arrange | src/dataset-preprocessor/script.py:235-239 | both edits on all rows, with what an IndexError in either leaves |

## Left out

- IEEE rounding and NaN, printing, scanning, timing, lag and statistics strings.
- `training` and the parsing of input lines: runs take parsed records.
- 32-bit wrap of `n_matches`, `n_misses` and labels, and allocation growth of the model.
- `ss_valSquareSum`, which nothing reads, and the sums of src/base.c:146-149, which are freed unread.
- `isIntrest`, `evictions` and the time sums, which no decision reads.
- `identify` on several threads of one rank: it writes counters under a read lock; it is one atomic step here.
- Blocking of a broadcast or a send until others take part: a message once sent is in its queue.
- The trigger of a novelty round in the distributed program, where older ids may arrive late: in `Replicas` a round may come at any time, in `Pipeline` after any unknown example, with any number of clusters.
- Overlap of an input cluster's broadcast with a novelty round's: in `Replicas` one ends before the other begins. That input clusters all come first, as intended, is more than is needed.
- In `Pipeline`, the final broadcast, which is in `Replicas`, a packet's sender in `itemsWhere` of the detector, and that the end of one rank may end the others: there a failed assertion ends its own rank only.
- The old `addClusterLine`, which is not part of this model: in `SlotRuns` each cluster line adds a cluster, with the next id.
- The end-of-stream message of the older version, which reuses the last slot's record while the detector may still write it, and its compaction, where struct copies share value arrays.
- The semaphore of the older version's classifiers: in `Slots` one goes on as soon as its rank has k clusters.
- Kryo serialisation, selector and thread-safety of `Connection`: its calls do not overlap.
- `clustream.c`, `nd-service.c`, `zip.c`, the Redis, Flink and Java client code, plotting and evaluation.
- Normalising, binarising and splitting in script.py, besides where binarised columns end up.

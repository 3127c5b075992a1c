# Verified models of the client's concurrent and stateful core

This project models, in Dafny, the parts of this Prometheus client whose
correctness is not evident from any single function: the lock-free change
tracking of counters, the delta exposition with acknowledged delivery, the
histogram's hot/cold protocol and its native buckets, the sequence matcher, the
vector index with currying, the summary's sliding window, and the coalescing
gatherer.  `dafny verify dfyconfig.toml` checks all of it.

| file | what it models |
|---|---|
| CutProtocol.dfy, CutTheorems.dfy | counter writes against Cut and Take, as interleaved atomic steps of any number of threads; what every run guarantees |
| Acks.dfy | the acknowledgement of a request, and what it makes of the round held |
| Delivery.dfy, DeliveryTheorems.dfy, DeliveryFailures.dfy | counters under the tracked exposer: its scraper, the writers and the deletions, as one transition system; what every run delivers; and two runs that go wrong outside its hypotheses |
| HistogramDelivery.dfy, HistogramTheorems.dfy, HistogramFailures.dfy | classic histograms under the same exposer, read in its second pass and moved by AddTrackedHistogram; what every run delivers, line by line; and two runs that go wrong |
| Generations.dfy | the Gather path's generation labels and bases, over runs with gaps, failures and peeks |
| ShardIndex.dfy | the packed word of an instance, the slice `all` of every shard, RangeBucket |
| HotCold.dfy, Snapshots.dfy | tickets, hot and cold counts, Write and resets, for histograms and summaries without objectives; what Write reads |
| Bounds.dfy, Native.dfy, Spans.dfy | bucket keys and bounds; a native histogram under its bucket limit; spans and deltas |
| Exemplars.dfy | the exemplars of a native histogram |
| Difflib.dfy | SequenceMatcher: index of b, longest match, matching blocks, opcodes, groups |
| Vec.dfy | MetricVec: hash buckets, currying, constraints, deletions |
| Summary.dfy | buffers, flushing in a goroutine, and the ring of streams |
| Coalesce.dfy | coalescingGatherer: leaders, joiners, releases, a panicking Gather |
| Helpers.dfy | what several of these share |

Code that updates objects in place is modelled by classes and methods with
loops; protocols between threads are state machines whose steps are the atomic
operations and critical sections of the code, and their theorems are about every
run.  History fields record what a theorem speaks about and are never read by a
step.

## Hypotheses

- Counter amounts, sums and observations are exact numbers; epochs and tickets
  do not wrap (fewer than 2^32 epochs, 2^63 observations).
- CutProtocol: one consumer, which alternates Cut and Take.
- Delivery and HistogramDelivery: the configuration of Increments(), and one scraper,
  which processes no response the server saw as undelivered.
  A write is two steps, the addition and the enlisting, with anything in between;
  what was written to a counter under the closed cut is what Cut waits for.
  `Delivery.Sound` lists what is assumed of a step beyond that: the scraper
  acknowledges exactly the rounds it processed in full, a peek merges no instance of
  a held round that the scraper processes, and `pick` may skip what is deleted
  between its two looks.  SettleIff, MergeIff and EnterIff prove for each what goes
  wrong for the scraper exactly when it does not hold.
- Native: no observer is concurrent with Write or a strategy, and the maximum zero
  threshold is below MaxFloat64; WideningIff says why.  HotCold has any number of
  observers concurrent with Write and with a reset; an observer concurrent with the
  widening of the zero bucket or the doubling of the bucket width is modelled
  nowhere.
- Summary: a monotone clock and a positive stream duration.
- Generations: RebaseAfterGap is at least a second or off, a counter does not go
  backwards under an entry (no rebuilt instance), and a peek moves to a new
  generation while the held round brings something only if the scraper does not
  process that round; PeekMoveIff says why.

## Where the code does not keep what it promises

Each of these is proved with the exact condition under which the code is right.

- `GetGroupedOpCodes` cuts the leading and trailing equal range in the cached
  opcodes themselves, so that a later `GetOpCodes` no longer tiles the files.  It
  does no harm exactly if neither end has more than n equal lines
  (`FixupTilesIff`, `FixupCuts`).  The grouped opcodes still patch a into b.
- `DeletePartialMatch` drops the whole hash bucket of a match and counts buckets.
  It deletes what it promises exactly if no bucket mixes matches with others
  (`PartialMatchIff`, `PartialMatchTakesNeighbours`) and counts right exactly if no bucket has two matches
  (`PartialCountIff`, `PartialMatchCountsOne`).
- `constrainLabelValues` runs out of its index instead of letting the caller
  return an error, for too few values in a vector with constraints and a curried
  label behind them (`Vec.MetricVec.GetMetricWithLabelValues`, `NoValuesOverrun`); the
  documentation of GetMetricWithLabelValues promises an error.
- `makeBuckets` and `makeBucketsFromMap` truncate a gap to an int32.  Decoding
  gives back every bucket exactly if every gap fits (`RoundTrip`, `FarKeyMoves`).
- Widening the zero bucket to MaxFloat64 loses the observations of infinity, and
  is right exactly if there are none (`WideningIff`, `WideningToMaxLoses`).
- A Vec.Delete between the two looks `pick` takes at an instance loses the writes
  made before it, unless the instance is reported for another reason (`EnterIff`,
  `ForgottenStays`, `DeletionRaceLosesWrites`).
- A peek that merges a deleted instance the held round carries leaves the scraper
  with too much exactly if it processes that round, before or after: by what was
  merged (`MergeIff`, `MergeOvercounts`, `PeekDoubleCounts`).
- A peek that moves to a new generation while a round is held overcounts exactly if
  that round brings something and is processed: by what it brought (`PeekMoveIff`,
  `PeekMoveOvercounts`).
- `settleDeleted` takes a histogram's slice as delivered even if AddTrackedHistogram
  refused it.  It refuses one with the bucket above all bounds, which an exemplar
  there adds, so everything undelivered is lost exactly if there is such an exemplar
  (`SettledIff`, `RefusalLosesObservations`).
- The first time that bucket is written out it is not differenced: the line above
  all bounds says once more all that was delivered before, exactly if there was
  any (`AboveIff`, `AboveSaysMore`).
- `ReviveTracked` does not check, as trackMetric does, that the shard can index one
  instance more; the index is right exactly if it can
  (`ShardIndex.Tracker.Reinsert`).
- A MaxAge of fewer nanoseconds than there are age buckets makes the stream
  duration zero, and swapBufs never ends (`SwapEndsIff`).

## Model

| member | source | states |
|---|---|---|
| CutTheorems.ConsistentCut | prometheus/changetracking.go:76-107 | after every Take, in every interleaving, a counter's value as of the cut is the sum of exactly its writes under earlier cut numbers, its closed side is empty with nobody still adding to it, and whatever was written under the closed cut was handed out |
| CutTheorems.CausallyClosed | prometheus/changetracking.go:258-283 | a write that returned before another began is in every cut the other is in |
| CutTheorems.GroupsAreAtomic | prometheus/changetracking.go:313-333 | the writes of one Atomically call are on the same side of every cut |
| CutProtocol.ThreadMarkKeeps | prometheus/changetracking.go:195-201 | every step of mark keeps the protocol's invariant, with the instance in the dirty list once exactly if its epoch is the shard's |
| CutProtocol.AddKeeps | prometheus/changetracking.go:92-107 | the compare-and-swap into a side keeps every account of what was written under which cut |
| CutProtocol.BumpKeeps | prometheus/changetracking.go:273-283 | moving the cut on, with writers anywhere in count, keeps the invariant |
| CutProtocol.SwapKeeps | prometheus/changetracking.go:541-547 | swapping a shard's dirty list keeps it: what is left to fold is in hand or listed |
| CutProtocol.FoldKeeps | prometheus/changetracking.go:306-311 | folding the closed side keeps it: nothing of the closed cut stays behind, nothing is folded twice |
| CutProtocol.NewInstKeeps | prometheus/changetracking.go:379-402 | a new instance is enlisted right away and keeps it |
| CutProtocol.RunKeeps | prometheus/changetracking.go:534-570 | the invariant holds in every state of every run of writers, groups, new instances and the consumer |
| DeliveryTheorems.ExactlyOnce | prometheus/promhttp/delta/tracked.go:140-298 | in every run, what the scraper has added up for a key is what is committed under it plus the held round's part if that was processed |
| DeliveryTheorems.Conservation | prometheus/promhttp/delta/tracked_emit.go:137-198 | what the scraper has added up for a key and what is still undelivered of its live, deleted, revived and merged instances is all that clients wrote under it, and what was processed ahead of the commit |
| DeliveryTheorems.NothingForgotten | prometheus/promhttp/delta/tracked.go:140-298 | between scrapes what is undelivered of an instance that is not listed is exactly its writes in progress and what the held round carries for it |
| DeliveryTheorems.EverythingArrives | prometheus/promhttp/delta/tracked.go:252-279 | once nothing is listed and no round held, the scraper has the sum of all writes but those in progress |
| DeliveryTheorems.RoundIsComplete | prometheus/promhttp/delta/tracked_emit.go:344-409 | a round that is no peek carries exactly the counters with something undelivered before its cut, at their value there, but for those deleted between pick's two looks |
| DeliveryTheorems.DropsAreDelivered | prometheus/promhttp/delta/tracked.go:321-362 | what is undelivered of an instance idle cleanup deletes is exactly its writes in progress, added and not yet enlisted |
| DeliveryTheorems.HonestAcknowledgement | prometheus/promhttp/delta/ack.go:129-140 | acknowledging the last round processed commits the held round exactly if it was processed |
| DeliveryTheorems.SettleIff | prometheus/promhttp/delta/ack.go:129-140 | settling leaves the scraper with exactly what is committed if and only if it commits what was processed and rolls back what was not, or the round brought nothing |
| DeliveryTheorems.MergeIff | prometheus/promhttp/delta/tracked_emit.go:150-198 | after a peek merges a deleted instance and the held round is settled honestly, the scraper has exactly what is committed if and only if it did not process a round that carries that instance |
| DeliveryTheorems.MergeOvercounts | prometheus/promhttp/delta/tracked_emit.go:150-198 | the scraper then has more than is committed by exactly what was merged, and for no other key, or exactly what is committed if the round was rolled back |
| DeliveryTheorems.MovedTwice | prometheus/promhttp/delta/tracked_emit.go:165-176 | of what was merged the scraper has processed what the round carried, and the rest is undelivered in the old instance as well |
| DeliveryTheorems.EnterIff | prometheus/promhttp/delta/tracked_emit.go:83-128 | pick may skip an instance deleted since it asked exactly if it comes anyway or once the held round is rolled back; otherwise it is forgotten with something undelivered |
| DeliveryTheorems.ForgottenStays | prometheus/promhttp/delta/tracked_emit.go:95-102 | no step of anyone reports or lists a forgotten instance again, but a later write to it |
| Delivery.ReviveKeeps | prometheus/changetracking.go:648-681 | putting a written deleted instance back in its Vec keeps every account |
| Delivery.MergeKeeps | prometheus/changetracking.go:699-715 | AddTrackedCut into the newer instance keeps every account |
| Delivery.EnlistKeeps | prometheus/changetracking.go:92-107 | enlisting an instance after a write to it, on either side of a cut made in between, keeps every account |
| Delivery.FinishKeeps | prometheus/promhttp/delta/tracked.go:252-309 | holding, committing, remarking or dropping a round at the end of a response keeps them |
| Delivery.RunKeeps | prometheus/promhttp/delta/delta.go:985-1022 | the invariant of server, scraper and writers holds in every state of every sound run |
| DeliveryFailures.DeletionRaceLosesWrites | prometheus/promhttp/delta/tracked.go:115-133 | a run in which a deletion between pick's two looks leaves a write neither reported nor listed nor held |
| DeliveryFailures.PeekDoubleCounts | prometheus/promhttp/delta/tracked_emit.go:168-198 | a run in which a peek merges an instance of the held round and the scraper ends with more than was written |
| HistogramTheorems.ExactlyOnce | prometheus/promhttp/delta/delta.go:833-880 | in every run, for the count, the sum and each finite bucket of a label set, what the scraper has added up is what was delivered of its instances, less what settleDeleted took, plus the held round's part if that was processed |
| HistogramTheorems.Conservation | prometheus/promhttp/delta/tracked_emit.go:177-195 | what the scraper has added up, what is undelivered and what AddTrackedHistogram refused is all that was observed, in number, in sum and at or below every bound, and what was processed ahead of the commit |
| HistogramTheorems.NothingForgotten | prometheus/promhttp/delta/tracked.go:140-298 | between scrapes every observation in an instance that is not listed is delivered, carried by the held round, or in progress |
| HistogramTheorems.EverythingArrives | prometheus/promhttp/delta/tracked.go:252-279 | once nothing is listed, held or in progress, the scraper has every observation but those refused |
| HistogramTheorems.RoundIsComplete | prometheus/promhttp/delta/tracked_emit.go:344-409 | a round that is no peek says of every instance not written since the Take all its undelivered observations but those in progress, in every line |
| HistogramTheorems.TrackedIsLeft | prometheus/promhttp/delta/tracked_emit.go:177-192 | what settleDeleted hands to AddTrackedHistogram are the cumulative counts, the number and the sum of exactly the observations not delivered |
| HistogramTheorems.SettledIff | prometheus/changetracking.go:723-726 | settling a deleted histogram loses nothing if and only if nothing is undelivered or it has no exemplar above all bounds, and otherwise everything undelivered, in every line |
| HistogramTheorems.AboveIff | prometheus/histogram.go:902-910 | the increment on the line above all bounds is that of the count if and only if that bucket is not written out, was before, or nothing was delivered yet |
| HistogramTheorems.AboveIsCount | prometheus/promhttp/delta/tracked_emit.go:482-493 | in every run the scraper's bucket above all bounds is at least its count, and equal exactly if no row it processed said something again there |
| HistogramTheorems.WithoutExemplar | prometheus/promhttp/delta/deleted_test.go:125-153 | for a label set without an exemplar above all bounds nothing is ever lost, in any line, and that bucket is the count |
| HistogramDelivery.MergeKeeps | prometheus/promhttp/delta/tracked_emit.go:177-195 | moving what is undelivered into the newer instance, or losing it, keeps every account |
| HistogramDelivery.WriteRound | prometheus/promhttp/delta/tracked_emit.go:344-409 | reading the next instance picked, with whatever was observed up to then, keeps rows and pending values saying the same |
| HistogramDelivery.RunKeeps | prometheus/promhttp/delta/tracked.go:140-298 | the invariant of histograms, server and scraper holds in every state of every sound run |
| HistogramFailures.RefusalLosesObservations | prometheus/promhttp/delta/tracked_emit.go:177-195 | a sound run after which an observation is neither with the scraper nor undelivered |
| HistogramFailures.AboveSaysMore | prometheus/promhttp/delta/delta.go:863-869 | a sound run after which the scraper has two observations, and three at or below infinity |
| Generations.GenerationsTelescope | prometheus/promhttp/delta/gen.go:57-112 | over every run of deliveries, failures, roll-backs, peeks and gaps, the last values of all generation labels of a series add up to its last committed cumulative value |
| Generations.ServeKeeps | prometheus/promhttp/delta/delta.go:571-669 | one scrape, whatever becomes of it, keeps label, base and committed value in step |
| Generations.PlanKeeps | prometheus/promhttp/delta/delta.go:813-840 | what is written under a label is exactly what the scraper lacks, on top of what the label has |
| Generations.MoveKeeps | prometheus/promhttp/delta/gen.go:57-72 | a new generation is later than every label processed so far, so the series goes under a label the scraper has nothing for |
| Generations.PeekMoveOvercounts | prometheus/promhttp/delta/gen.go:92-112 | after a peek that moves while a round is held, and the next delivered one, the scraper has too much by exactly what the held round brought if it processed that, and what was committed otherwise |
| Generations.PeekMoveIff | prometheus/promhttp/delta/gen.go:57-112 | it then has exactly what was committed if and only if the held round brought nothing or was not processed |
| ShardIndex.RemoveAgrees | prometheus/changetracking.go:411-438 | after the swap-remove every remaining instance is at its packed index and the removed one is in no slice |
| ShardIndex.Tracker.Track | prometheus/changetracking.go:379-402 | a new instance gets the index behind the last one, or the panic when the shard is full, and index and slice agree |
| ShardIndex.Tracker.MarkDead | prometheus/changetracking.go:145-155 | exactly the first caller marks a live instance, without touching its index |
| ShardIndex.Tracker.Remove | prometheus/changetracking.go:422-437 | the instance leaves its shard's slice and index and slice agree |
| ShardIndex.Tracker.Reinsert | prometheus/changetracking.go:674-679 | a revived instance is behind the last of its shard, still marked, and its index finds it there if and only if the shard can index one more |
| ShardIndex.Tracker.ClearDead | prometheus/changetracking.go:157-164 | it is live again, without touching its index |
| ShardIndex.Tracker.RangeBucket | prometheus/changetracking.go:586-600 | one call visits the live instances of every buckets-th shard, in order, and none for no buckets |
| ShardIndex.RoundVisitsAll | prometheus/changetracking.go:582-600 | as many consecutive calls as buckets, from any one on, visit every live instance exactly once and no deleted one |
| Snapshots.SnapshotIsExact | prometheus/histogram.go:855-944 | in every interleaving with any number of observers and after any resets, each part Write reads is the sum of exactly the tickets taken before its switch since the last reset |
| Snapshots.NothingLost | prometheus/histogram.go:1782-1796 | when everybody is done the hot counts hold every ticket since the last reset once, and the cold ones nothing |
| Snapshots.CooldownEnds | prometheus/histogram.go:1755-1759 | while the cooldown is not over some observer of the cold counts can go on |
| Snapshots.SnapshotIsConsistent | prometheus/histogram.go:876-900 | what Write reads, of single observations and of those added by AddTrackedHistogram alike, is consistent: cumulative bucket i counts the observations at or below bound i, and count and sum are those of the same observations |
| Snapshots.LogIsConsistent | prometheus/changetracking.go:723-742 | the tickets of single observations and of tracked ones add up, bucket by bucket, to the observations they are for |
| HotCold.ClearKeeps | prometheus/histogram.go:1048-1093 | resetting the cold counts, with the latest observation repeated or not, and making them hot keeps the accounts of both counts |
| HotCold.ObserveKeeps | prometheus/summary.go:471-488 | taking a ticket at any time keeps what is made and what is pending in balance |
| Snapshots.FindBucket | prometheus/histogram.go:948-979 | linear or binary, the search finds the first bucket whose bound is not below the value |
| Snapshots.TrackedTicket | prometheus/changetracking.go:723-742 | one ticket for several observations adds exactly their cumulative buckets, their count and their sum |
| HotCold.RunKeeps | prometheus/summary.go:490-534 | the ticket protocol's invariant holds in every state of every run |
| Bounds.KeyBounds | prometheus/histogram.go:692-706 | for every schema and finite value the key observe computes has the value above the bound of the key below and at most at its own |
| Bounds.KeyHalves | prometheus/histogram.go:1199-1203 | halving that key, negative ones included, gives the key at the next lower schema |
| Bounds.InfiniteKeyHalves | prometheus/histogram.go:683-706 | so it does for the key of infinite observations |
| Bounds.MaxKey | prometheus/histogram.go:1734-1750 | MaxFloat64 is in the bucket getLe treats as the last regular one |
| Bounds.LeGrows | prometheus/histogram.go:1700-1751 | bounds do not decrease with the key |
| Bounds.KeyIsSmall | prometheus/histogram.go:1688-1698 | no key reaches the sentinel of findSmallestKey or leaves the range of an int32 |
| Native.BucketedHalves | prometheus/histogram.go:1172-1218 | bucketing all observations at the next lower schema is merging adjacent buckets |
| Native.BucketedWidens | prometheus/histogram.go:1102-1165 | bucketing them at the wider zero threshold is dropping the bucket nearest to zero |
| Native.ZeroWidens | prometheus/histogram.go:1137-1148 | the wider zero bucket has what it had and the counts of the buckets it takes in |
| Native.WideningIff | prometheus/histogram.go:1112-1120 | that is so exactly if the new threshold is below MaxFloat64 or no other bucket is left |
| Native.WideningToMaxLoses | prometheus/histogram.go:1112-1120 | for MaxFloat64 and infinity it is not so |
| Native.FindSmallestKey | prometheus/histogram.go:1688-1698 | the least key of the map, or the sentinel for an empty one |
| Native.AddAndReset | prometheus/histogram.go:1670-1679 | the hot buckets take over the cold counts, which stay at zero, and new buckets are counted |
| Native.MergeHalved | prometheus/histogram.go:1195-1211 | ranging over the cold buckets in any order merges every adjacent pair |
| Native.MergeAndDelete | prometheus/histogram.go:1137-1160 | ranging over them in any order moves one bucket to the zero bucket and the others to the hot ones |
| Native.Counts.Observe | prometheus/histogram.go:671-722 | counts that are the log's bucketing become that of the log with one more observation |
| Native.Histogram.Write | prometheus/histogram.go:855-944 | the zero count and the spans exposed are those of every observation since the last reset, bucketed afresh at the exposed schema and threshold |
| Native.Histogram.Observe | prometheus/histogram.go:984-997 | the log grows by the observation, or restarts with it exactly when the limit is exceeded and a reset is due; otherwise schema or threshold change as the strategies say; NaN changes nothing |
| Native.Histogram.LimitBuckets | prometheus/histogram.go:1004-1043 | reset, wider zero bucket or doubled width, the first that applies, and the bucketing still is that of the log |
| Native.Histogram.MaybeReset | prometheus/histogram.go:1048-1071 | it resets exactly if configured, not scheduled and due, and keeps the latest observation |
| Native.Histogram.Reset | prometheus/histogram.go:1074-1093 | everything is gone, and schema and threshold are the initial ones |
| Native.Histogram.MaybeWidenZeroBucket | prometheus/histogram.go:1102-1165 | it widens exactly if some bucket's bound is within the limit, to that of the bucket nearest to zero |
| Native.Histogram.DoubleBucketWidth | prometheus/histogram.go:1172-1218 | the schema goes down by one, to -4 at the least, with the same observations |
| Spans.MakeBuckets | prometheus/histogram.go:1591-1644 | span lengths add up to the number of deltas, no span is empty, spans are at least three buckets apart, and decoding gives back the map exactly if every gap fits an int32 |
| Spans.RoundTrip | prometheus/histogram.go:2122-2172 | decoding gives back every bucket with its count exactly if the keys fit, and zeros everywhere else |
| Spans.UnfittingLosesAKey | prometheus/histogram.go:1623-1630 | with a truncated gap the first or the last key is not in what is decoded |
| Spans.FarKeyMoves | prometheus/histogram.go:1623-1630 | the one bucket with the key 1 << 32 is decoded as bucket 0 |
| Spans.LengthsAreDeltas | prometheus/histogram.go:1609-1613 | the lengths of spans add up to the number of buckets they cover |
| Exemplars.NativeExemplars.AddExemplar | prometheus/histogram.go:1832-1979 | for exemplars of any value, the list stays sorted and within capacity, has the new exemplar, and when full loses exactly one |
| Exemplars.NativeExemplars.Replace | prometheus/histogram.go:1896-1967 | the one to go is the oldest if it has expired; otherwise, for values that have logarithms, a member of a closest pair of the enlarged list |
| Exemplars.ChoiceIsClosest | prometheus/histogram.go:1936-1966 | comparing the closest old pair with the two new ones finds a closest pair of the enlarged list, also when the new exemplar splits the old pair |
| Exemplars.ScanFull | prometheus/histogram.go:1896-1930 | one pass finds the oldest, the place of the new one, and the older member of the closest pair |
| Exemplars.ReplaceAt | prometheus/histogram.go:1969-1978 | the three ways of splicing all insert the one and remove the other |
| Difflib.SequenceMatcher.ChainB | prometheus/internal/difflib.go:154-193 | junk is what isJunk says, popular is what occurs too often in at least 200 lines, and every other line is indexed at all its places, in order |
| Difflib.SequenceMatcher.FindLongestMatch | prometheus/internal/difflib.go:227-298 | a true match inside the window, no shorter than any match without junk and popular lines, and not next to matching junk; without such lines the longest of all, earliest in a and then in b |
| Difflib.ScanRow | prometheus/internal/difflib.go:241-263 | a row of the table has the lengths of the matches that end in it, and the best match is the first longest one of the ends seen |
| Difflib.BestIsLongest | prometheus/internal/difflib.go:198-216 | the best of all ends is a match at least as long as every other of good lines |
| Difflib.BestIsEarliest | prometheus/internal/difflib.go:201-216 | and with good lines only none as long starts earlier |
| Difflib.SequenceMatcher.MatchBlocks | prometheus/internal/difflib.go:316-330 | what it appends are true matches inside the window, in order in both files |
| Difflib.SequenceMatcher.GetMatchingBlocks | prometheus/internal/difflib.go:311-362 | true matches in increasing order, no two of them adjacent, and the dummy at the end |
| Difflib.SequenceMatcher.GetOpCodes | prometheus/internal/difflib.go:379-413 | on a fresh matcher the opcodes tile both files, each is what its tag says, and changes and equal ranges take turns |
| Difflib.SequenceMatcher.GetGroupedOpCodes | prometheus/internal/difflib.go:419-460 | applying the groups to a, with everything outside copied, gives b; every group is a change cluster with at most n lines of context; and the cached opcodes are cut |
| Difflib.PatchGivesB | prometheus/internal/difflib.go:364-378 | opcodes with equal files between and behind them patch a into b |
| Difflib.TilesCover | prometheus/internal/difflib.go:364-378 | opcodes that tile are such opcodes |
| Difflib.PendingSplits | prometheus/internal/difflib.go:445-455 | so are those with a long equal range split in two, between one group and the next |
| Difflib.FixupTilesIff | prometheus/internal/difflib.go:427-437 | the fixup leaves a tiling exactly if neither end has more than n equal lines |
| Difflib.FixupCuts | prometheus/internal/difflib.go:427-437 | two equal one-line files, grouped with no context, no longer tile |
| Vec.MetricMap.GetOrCreateWithLabelValues | prometheus/vec.go:653-680 | the metric of the full tuple, a new one exactly if there was none, for every hash function |
| Vec.MetricMap.GetOrCreateWithLabels | prometheus/vec.go:686-710 | the same by label names |
| Vec.MetricMap.DeleteByHashWithLabelValues | prometheus/vec.go:469-487 | exactly the full tuple goes, and it reports whether it was there |
| Vec.MetricMap.DeleteMetric | prometheus/vec.go:493-512 | exactly that instance goes, if it is still tracked and ok agrees |
| Vec.MetricMap.RemoveAt | prometheus/vec.go:535-545 | one entry goes from its bucket, the map it stands for and change tracking alike |
| Vec.MetricMap.DeleteByLabels | prometheus/vec.go:570-591 | every tuple goes whose hash is that of a match, and the hashes are counted |
| Vec.MetricMap.Shrink | prometheus/vec.go:409-424 | the buckets stay the same |
| Vec.MetricMap.Reset | prometheus/vec.go:448-464 | nothing is left, in the map or in change tracking |
| Vec.MetricVec.GetMetricWithLabelValues | prometheus/vec.go:282-290 | the base operation on the inlined, constrained values; an error or, with constraints and a curried label behind them, a panic for too few |
| Vec.MetricVec.GetMetricWith | prometheus/vec.go:308-318 | the base operation on the full tuple exactly if the names are those of the open labels, otherwise an error |
| Vec.MetricVec.DeleteLabelValues | prometheus/vec.go:75-84 | exactly the inlined tuple goes, and nothing for a wrong number of values |
| Vec.MetricVec.Delete | prometheus/vec.go:96-106 | the same by label names |
| Vec.MetricVec.DeleteCollectedIf | prometheus/vec.go:140-166 | exactly the tuple the collected labels name goes, if it is inside the curry, there, and ok agrees |
| Vec.MetricVec.DeletePartialMatch | prometheus/vec.go:114-119 | what goes and what is counted, for every hash function |
| Vec.MetricVec.CurryWith | prometheus/vec.go:217-251 | it succeeds exactly for labels that are open, and curries those and the old ones, with constrained values |
| Vec.CurryOfCurry | prometheus/vec.go:200-216 | what a further curried vector calls a tuple, the vector it was made from can call as well, with the same full tuple |
| Vec.ByNameIsByValue | prometheus/vec.go:343-368 | labels accepted by name reach the tuple some values reach |
| Vec.AcceptsIff | prometheus/vec.go:343-368 | the counting and the lookups of hashLabels accept exactly the names that are not curried |
| Vec.HashLabelValues | prometheus/vec.go:320-341 | the hash of the full tuple, whatever the currying |
| Vec.HashLabels | prometheus/vec.go:343-368 | the same hash for the same tuple by name |
| Vec.MatchLabelValues | prometheus/vec.go:766-785 | an entry matches exactly if its values are the inlined ones |
| Vec.MatchLabels | prometheus/vec.go:787-806 | an entry matches exactly if its values are those the labels stand for |
| Vec.InlineLabelValues | prometheus/vec.go:834-847 | the loop gives every label its curried value or the next one passed |
| Vec.ConstrainLabelValues | prometheus/vec.go:874-900 | every value passed is constrained by its own label's rule, and when the index is exceeded |
| Vec.PartialMatchIff | prometheus/vec.go:577-588 | DeletePartialMatch deletes what it promises exactly if no bucket mixes matches with others |
| Vec.PartialCountIff | prometheus/vec.go:577-588 | it counts right exactly if no bucket has two matches |
| Vec.PartialMatchTakesNeighbours | prometheus/vec.go:582-588 | a colliding tuple that does not match goes as well |
| Vec.PartialMatchCountsOne | prometheus/vec.go:582-588 | two tuples that match and collide are counted as one |
| Vec.NoValuesOverrun | prometheus/vec.go:874-900 | three labels with the last curried, a constraint on the first, and no values run out of the index |
| Summary.Summary.Observe | prometheus/summary.go:313-325 | the observation is recorded once, in order, with every flush under way accounted for |
| Summary.Summary.Write | prometheus/summary.go:327-366 | count and sum are those of all observations, and the head stream is the window |
| Summary.Window | prometheus/summary.go:387-398 | the head stream has exactly what was made after its expiry minus n durations, or everything before n rotations; all younger than n - 1 durations, none older than n |
| Summary.RingRotates | prometheus/summary.go:387-398 | resetting the head stream and moving on keeps every stream's window |
| Summary.Summary.MaybeRotateStreams | prometheus/summary.go:387-398 | it ends, with equal expiries, after as many rotations as the buffer is durations ahead |
| Summary.Summary.SwapBufs | prometheus/summary.go:413-422 | the cold buffer is empty when it is called, it ends, and the new expiry is not over |
| Summary.SwapEndsIff | prometheus/summary.go:419-421 | for an expired buffer it ends exactly if the stream duration is positive |
| Coalesce.OneGather | prometheus/promhttp/http.go:114-170 | at most one underlying Gather runs at a time |
| Coalesce.SharersAgree | prometheus/promhttp/http.go:114-170 | all who share a cycle get the same, whenever: its Gather's result or the error of its panic |
| Coalesce.DoneOnceAfterLast | prometheus/promhttp/http.go:172-190 | refs are the outstanding holders, and done is called at most once and only when there are none |
| Coalesce.DoneExactlyOnce | prometheus/promhttp/http.go:134-190 | when all have left, done was called exactly once for a cycle that succeeded and never for one that panicked, and the next caller starts afresh |
| Coalesce.NoDeadlock | prometheus/promhttp/http.go:114-170 | a caller that has not left can go on, or the leader it waits for can |
| Coalesce.StepKeeps | prometheus/promhttp/http.go:114-190 | every critical section, publication and closing of the channel keeps the books of every cycle |

## Left out

- Integers of the machine: the wrap-around of uint32 epochs, of int64 bucket counts and of the 63-bit ticket counter.
- Floating point: rounding, NaN sums, and the digits of the bounds tables, which are any increasing fractions with every second one at the next lower schema; pickSchema's logarithms.
- The counter's own value in valInt and valBits (Add, Inc, get): two atomic sums without an interplay with the cut beyond the order in which count follows them; Delivery reads the value as of the cut only.
- The 256 shards in Delivery: they are one list there, and Cut and Take are three steps with the guarantees CutProtocol proves; CutProtocol has the shards.
- Histograms in Generations: the Gather path's bases of a histogram, component by component, are not modelled, nor is rebuilt; native histograms and summaries, which delta exposition passes through as they are.
- HistogramDelivery: idle cleanup as a step of its own; it may delete at any time there.
- Heartbeats together with increments, Options.Delete callbacks, Scope, Replace, and the sweep of families no longer gathered.
- Idle cleanup's number of scrapes is a constant in Delivery; no theorem depends on its value.
- Generations.GenerationsTelescope: one life of an entry; a series deleted as idle and rebuilt starts a new entry with a new creation time.
- Exemplars.NativeExemplars.Replace: which pair is closest is stated for positive values only; the logarithm of others is no number.
- Native.Histogram.MaybeWidenZeroBucket: requires a maximum zero threshold below MaxFloat64; WideningIff is exact about the threshold at it.
- CutProtocol.RunKeeps: MarkChanged and AddTrackedCut by the consumer, between Take and the next Cut, are no events, so ConsistentCut is for runs without roll-backs and merges; Delivery has both, with Cut and Take as steps that keep what CutProtocol guarantees.
- Vec: the locking of metricMap, UTF-8 validation, the label pair cache, Describe and Collect.
- SequenceMatcher's ratios and the unified diff writer; HTTP, encoding, compression, the registry and the collectors.

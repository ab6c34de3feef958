# Promscale, modelled and proved in Dafny

Promscale stores Prometheus metrics in PostgreSQL and answers PromQL queries over them. This project
models the parts of it whose shortcuts are hard to get right, each beside a plain definition of what it
has to compute, and proves that the two agree on all inputs.

- **The PromQL evaluator.** `PromqlAst`, `AtModifier`, `InstantQuery`, `AtModifierGaps`,
  `CollidingStarts`: what a query with `@` modifiers, offsets and nested subqueries means, and the engine
  that evaluates step-invariant parts once. `QueryParts`: what the engine returns for a query, in terms of
  what it returns for its parts and at single times. `FetchRange`: the time ranges fetched beforehand.
  `RangeWindow`: windows that slide over a buffered
  iterator. `RangeEval`: the step loop with its merge scan and its sample budget. `VectorJoin`: hashed
  joins of two vectors. `Grouping`, `TopK`, `BinaryHeap`, `Statistics`: aggregations in one pass.
  `Quantile`, `Rate`: the arithmetic of the functions.
- **The protobuf codec.** `Wire`, `UnknownFields`, `Prompb`, `PrompbFormat`, `PrompbWriter`,
  `PrompbReader`, `PrompbRoundTrip`, `PrompbCodec`: the wire format, the writer that fills a buffer
  backwards, the parser that moves an index, the fields that a message does not know, and the recycling
  of messages.
- **The CLOCK cache.** `ClockEviction`, `ClockCache`: a map of positions in a ring against a plain map,
  and the evictor with readers in between its probes.
- **The high-availability filter.** `HaRequest`, `HaFilter`: which samples of which replica are stored.
- **Smaller machines.** `QueryEntry`, `QueryLog`, `QueryTracker`: the log of active queries and its
  recovery. `JsonEscape`: the escaping of JSON strings. `Migrate`: the planning of schema upgrades.

`Arith` and `Sorting` hold machine integers and facts about quotients and about sorted permutations.
`dafny verify dfyconfig.toml` checks everything.

Loops of the source are methods with the same loops, proved against functions that do not mention them; what
those functions compute is then stated without them, in terms of the inputs and the results.
Mutable objects are classes; a Go slice that is compacted in place is a sequence that the method
reassigns, except where a buffer has a fixed size. Prometheus storage, label sets, the lease database and
most of the standard library are known by contracts: parameters, or methods that choose their answer freely.
Values are reals, so rounding is not modelled; label sets stand for their hashes.

## What the code does not do

Where a property fails, the failing family is given with the exact condition under which the code is right. The
fragments of the two main theorems about queries (`Good`, `GoodOnce`) exclude these families as a whole; exactness
is proved for each family on its own, in `AtModifierGaps` and `CollidingStarts`.

- The engine is wrong about `day_of_year()` under a step-invariant wrapper, about the offset of
  `timestamp(x @ t offset o)`, about `@` in range arguments of calls that are not wholly invariant, about
  aggregation parameters (`AtModifierGaps`), and about `@` in a subquery that starts when the enclosing query
  does (`CollidingStarts`). The guard at `pkg/promql/engine.go:1741` leaves the offsets alone when the two
  starts are equal, although they still contain the offset of the subquery.
- A sample value of -0.0 is stored as +0.0 (`RequestComesBackIff`).
- The cache's recorded size drifts in `Update`, `ExpandTo` and `Reset`, whose contracts say when; its
  timestamps last until 2038 (`PackRoundTripIff`); a timestamp stored while the evictor is between its load
  and its swap is lost, unless it repeats the one that was loaded (`ProbeKeepsTimestampsIff`).
- A series that the final pass of the high-availability filter moves forward keeps the length of its
  labels and shows the last one twice (`FinalIsIdealIff`).
- `histogram_quantile(0, ...)` divides zero by zero when the first bucket is empty and above zero
  (`QuantileIsNaNIff`).
- A query is cut to the room in its slot before it is escaped, so its entry may be longer than the slot and
  overwrite the entry of another query (`QuotesDoNotFit`, `Tracker.Insert`); cutting a string without a
  rune start fails (`TrimStringByBytes`, `ContinuationCannotBeCut`), though not for text that the parser has
  accepted (`TextCanBeCut`), so only for another caller of Insert; a crash between the two copies of an
  insertion, or an entry as long as a slot, leaves a file that does not read back as the active queries
  (`Recover`).
- A lease that began and ended at the same time counts as backfill although it keeps no sample
  (`FilterBackfill`).

## Model

| member | source | states |
|---|---|---|
| `PromqlAst.AlignedStartIsLeastMultiple` | pkg/promql/engine.go:1734-1739 | the start of a subquery, computed with truncating division, is the least multiple of its step that is not below the bound, for either sign |
| `AtModifier.SetOffsetsOverwrites` | pkg/promql/engine.go:2783-2813 | setting offsets for an evaluation time overwrites what an earlier setting left |
| `AtModifier.TimeFreeIsConstant` | pkg/promql/engine.go:2694-2774 | a tree that preprocessing calls invariant means the same at every time |
| `AtModifier.EvalReady` | pkg/promql/engine.go:1754-1809 | wrapped parts evaluated once at the start time and copied to every step give the meaning of the tree at that step |
| `AtModifier.EvalReadyRange` | pkg/promql/engine.go:1714-1748 | the same for range arguments: an aligned subquery grid holds exactly the multiples of the step in the window, and the window is at the right place |
| `AtModifier.SubBodyOffsets` | pkg/promql/engine.go:1741-1746 | unless its start collides with the enclosing one, the body of a subquery is evaluated with offsets set for that evaluation |
| `AtModifier.RewriteIsReady` | pkg/promql/engine.go:2694-2774 | preprocessing a tree of the fragment yields one whose wrapped parts are time-free |
| `AtModifier.PreprocessOffsetFree` | pkg/promql/engine.go:2682-2774 | preprocessing neither adds nor removes an @ that is read through an offset |
| `AtModifier.RewriteKeepsMeaning` | pkg/promql/engine.go:2682-2774 | wrapping, and resolving start() and end(), keep the meaning at every time, for all data and operators |
| `AtModifier.PreprocessedQueryMeansTheOriginal` | pkg/promql/engine.go:2682-2813 | main theorem: for every query of the fragment, every grid and all operators in which only time, timestamp, predict_linear and date functions without an argument look at the evaluation time, the engine run on the preprocessed tree yields at each step the meaning of the original query |
| `AtModifier.OrdinaryQueriesAreGood` | pkg/promql/engine.go:2682-2774 | every query without @, at any nesting of subqueries, is in the fragment, unless it calls day_of_year() or gives a parameter to an aggregation of constants |
| `InstantQuery.EvalOnce` | pkg/promql/engine.go:1754-1809 | at a single step a tree is evaluated to its meaning, whatever modifiers, parameters and functions it has outside subqueries |
| `InstantQuery.InstantQueryMeansTheOriginal` | pkg/promql/engine.go:664-700 | main theorem for instant queries: the engine run on the preprocessed tree yields the meaning of the original query, over a larger fragment |
| `InstantQuery.GoodIsGoodOnce` | pkg/promql/engine.go:2682-2774 | every query that is right over many steps is in that fragment |
| `QueryParts.SelectorValue` | pkg/promql/engine.go:1671-1707 | what the engine returns for a selector at a step is what is found at the time of the step, or that of its modifier, less its offset |
| `QueryParts.OperatorValue` | pkg/promql/engine.go:1600-1660 | for a query of the fragment with a binary operator, the operator applied to what the engine returns for the left and for the right operand as queries of their own; likewise for negation and parentheses |
| `QueryParts.CallValue` | pkg/promql/engine.go:1390-1420 | for a function call, the function of what it returns for the arguments |
| `QueryParts.AggregateValue` | pkg/promql/engine.go:1363-1388 | for an aggregation, the aggregate of what it returns for the parameter and the body |
| `QueryParts.WindowValue` | pkg/promql/engine.go:1422-1554 | a function over a range selector gets the window that ends at the time of the step, or that of the modifier, less the offset |
| `QueryParts.SubqueryValue` | pkg/promql/engine.go:1714-1748 | main theorem: a function over a subquery gets, at the multiples of the step inside the window, what instant queries of its body at those times return |
| `QueryParts.MeaningIgnoresBounds` | pkg/promql/engine.go:2682-2774 | a query that names neither start() nor end() means the same whatever the bounds of the query are |
| `QueryParts.RangeQueryIsInstantQueries` | pkg/promql/engine.go:664-760 | main theorem: at each step a range query of the fragment returns what an instant query at that time returns |
| `QueryParts.OrdinaryRangeQueries` | pkg/promql/engine.go:664-760 | in particular every query without @ does, at any nesting of subqueries |
| `AtModifierGaps.DayOfYearIsFrozen` | pkg/promql/functions.go:1152-1160 | day_of_year() is missing from the unsafe table: whatever the operators, a step is right if and only if it has the day of the year of the first step |
| `AtModifierGaps.TimeFunctionsFollowTheSteps` | pkg/promql/functions.go:1001-1018 | the other functions of the evaluation time are evaluated at each step: time() and each date function without an argument return at every step what they return for that time |
| `AtModifierGaps.TimestampFollowsTheSteps` | pkg/promql/functions.go:1152-1160 | so does timestamp of an expression that is not a selector |
| `AtModifierGaps.TimestampDropsOffset` | pkg/promql/engine.go:1402-1406 | timestamp(x @ t offset o), start() and end() included, is right if and only if o is zero |
| `AtModifierGaps.RangeArgumentSlides` | pkg/promql/engine.go:2722-2744 | for every function, range argument with @ and other arguments: if the call is not wholly invariant, it is right at the first step and only there |
| `AtModifierGaps.PredictLinearSlides` | pkg/promql/functions.go:779-784 | for instance predict_linear(x[r] @ t, v), which is not invariant because of its function |
| `AtModifierGaps.QuantileOverTimeSlides` | pkg/promql/engine.go:2722-2744 | and quantile_over_time(scalar(p), x[r] @ t), which is not because of its other argument |
| `AtModifierGaps.AggregateParameterSlides` | pkg/promql/engine.go:2704-2705 | over any aggregated expression that varies, a scalar(p) parameter is right everywhere without @, at the last step only with @ end(), and at the first step only with any other @ |
| `AtModifierGaps.AggregateParameterIsFrozen` | pkg/promql/engine.go:2704-2705 | over any invariant aggregated expression, a scalar(p) parameter without @ is right at the first step only, one with @ end() only if there is one step, any other everywhere |
| `AtModifierGaps.TopkOfSelectors` | pkg/promql/engine.go:2704-2705 | for instance topk(scalar(p @ t), x) and topk(scalar(p), x @ t) |
| `CollidingStarts.EvalMoved` | pkg/promql/engine.go:2783-2813 | with the offset of a subquery left in its offsets, a body without a further subquery is evaluated as if each @ that is read through an offset were at a time moved by it |
| `CollidingStarts.CollidingCallRightIff` | pkg/promql/engine.go:1714-1748 | a whole call over a subquery with any such body is right at a step if and only if the starts do not collide, nothing in the body is read through an @ offset, or no evaluation time of the subquery falls into its range |
| `CollidingStarts.StartsCanCollide` | pkg/promql/engine.go:1741-1746 | two concrete queries, one of them with a positive offset, for which the starts collide and the engine is wrong |
| `FetchRange.ComputeSubqueryTimes` | pkg/promql/engine.go:763-787 | the loop over the path computes the sums of offsets and ranges since the last @ |
| `FetchRange.TimesGiveBounds` | pkg/promql/engine.go:763-855 | those sums give the bounds that walking down the path gives |
| `FetchRange.BoundsWithoutAt` | pkg/promql/engine.go:763-787 | without an @ on the path they are the times of the query, moved back by the sum of all offsets and widened by the sum of all ranges |
| `FetchRange.BoundsFromAt` | pkg/promql/engine.go:763-787 | with one, the time of the innermost, moved and widened by the sums from it on |
| `FetchRange.FindMinMaxTime` | pkg/promql/engine.go:789-820 | the running minimum and maximum cover the ranges of all selectors, and both are attained |
| `FetchRange.ReadsAreCovered` | pkg/promql/engine.go:822-855 | every read of an expression at any step lies in the range computed for its selector |
| `FetchRange.RangeReadsAreCovered` | pkg/promql/engine.go:1714-1748 | the same for range arguments and subqueries of any depth, after the alignment of their starts |
| `FetchRange.FetchedRangesCoverEveryRead` | pkg/promql/engine.go:763-855 | main theorem: every timestamp that a selector of the preprocessed query can read at any step was fetched for that selector |
| `FetchRange.SelectorRangeIsTight` | pkg/promql/engine.go:822-855 | nothing less would do: both ends of the range computed for a selector are read |
| `FetchRange.WindowRangeIsTight` | pkg/promql/engine.go:822-855 | the same for a range selector under any function |
| `FetchRange.EvalDependsOnReads` | pkg/promql/engine.go:1251-1810 | what was called a read is all that matters: two data sets that agree on the reads of a tree give it the same value at every step |
| `FetchRange.FetchedDataIsEnough` | pkg/promql/engine.go:659-664 | main theorem: evaluating the preprocessed query over any data that agree with the real data on the fetched ranges gives the meaning of the query over the real data |
| `FetchRange.OneRangeIsEnough` | pkg/promql/engine.go:789-820 | so does any data that agree on the one range from the minimum to the maximum |
| `Wire.SovIsVarintLength` | pkg/prompb/types.pb.go:1624-1626 | the closed form for the length of a varint is its length |
| `Wire.EncodeVarint` | pkg/prompb/types.pb.go:1366-1375 | writes the varint of the value just before the offset and nothing else |
| `Wire.DecodeUndoesEncode` | pkg/prompb/types.pb.go:1803-1816 | decoding a varint followed by anything gives back the value and its length, up to ten bytes |
| `Wire.ReadVarint` | pkg/prompb/types.pb.go:1803-1816 | the shifting loop computes the decoded value, the overflow error and the end-of-input error |
| `Wire.LittleEndianRoundTrip` | pkg/prompb/types.pb.go:1830-1836 | eight little-endian bytes give back the word |
| `PrompbFormat.VarintIsBase128` | pkg/prompb/types.pb.go:1366-1375 | a varint is the value in base 128, lowest digit first, with a mark on all bytes but the last, and no shorter one would do |
| `PrompbFormat.DecodeMeans` | pkg/prompb/types.pb.go:1803-1816 | for any bytes: up to ten are read as base-128 digits modulo 2^64; without an end they are an overflow from ten on, and too few before |
| `PrompbFormat.WordIsLittleEndian` | pkg/prompb/types.pb.go:1830-1836 | a word is written as its eight bytes, the lowest first |
| `Wire.SkipTypes` | pkg/prompb/types.pb.go:2989-3066 | the loop skips one field with its nested groups, or fails with the same error |
| `UnknownFields.SkipField` | pkg/prompb/types.pb.go:2989-3066 | skipping a well-formed field, with groups nested to any depth, lands right behind it |
| `UnknownFields.SkippedIsField` | pkg/prompb/types.pb.go:2989-3066 | whatever is skipped within the input is a well-formed field |
| `UnknownFields.SkipsFieldIff` | pkg/prompb/types.pb.go:2989-3066 | both: bytes are skipped as a whole if and only if they are a well-formed field |
| `Prompb.SizeLabelIsLength` | pkg/prompb/types.pb.go:1477-1493 | Size is the length of the encoding of a label |
| `Prompb.SizeSampleIsLength` | pkg/prompb/types.pb.go:1405-1421 | Size is the length of the encoding of a sample, omitted zero fields included |
| `Prompb.SizeExemplarIsLength` | pkg/prompb/types.pb.go:1423-1445 | the same for exemplars |
| `Prompb.SizeTimeSeriesIsLength` | pkg/prompb/types.pb.go:1447-1475 | the same for series with their nested messages |
| `Prompb.SizeMetadataIsLength` | pkg/prompb/types.pb.go:1378-1403 | the same for metadata |
| `Prompb.SizeWriteRequestIsLength` | pkg/prompb/remote.pb.go:770-792 | the same for a whole write request |
| `PrompbFormat.LabelFormat` | pkg/prompb/types.pb.go:391-392 | the encoding of a label is that of the wire format for its fields name = 1 and value = 2: each that is not empty as 8 * number + wire type, length and bytes |
| `PrompbFormat.SampleFormat` | pkg/prompb/types.pb.go:202-205 | the same for samples: value = 1 as a double, timestamp = 2 as a number modulo 2^64 |
| `PrompbFormat.ExemplarFormat` | pkg/prompb/types.pb.go:260-264 | the same for exemplars: labels = 1, value = 2, timestamp = 3 |
| `PrompbFormat.TimeSeriesFormat` | pkg/prompb/types.pb.go:328-330 | the same for series: labels = 1, samples = 2, exemplars = 3, each element as a message, in order |
| `PrompbFormat.MetadataFormat` | pkg/prompb/types.pb.go:131-134 | the same for metadata: type = 1, metric_family_name = 2, help = 4, unit = 5 |
| `PrompbFormat.WriteRequestFormat` | pkg/prompb/remote.pb.go:65-66 | the same for write requests: timeseries = 1, metadata = 3 |
| `PrompbWriter.MarshalLabel` | pkg/prompb/types.pb.go:1076-1100 | the backwards writer puts the encoding of a label just before the index and touches nothing else |
| `PrompbWriter.MarshalSample` | pkg/prompb/types.pb.go:969-990 | the same for samples, with negative timestamps as ten-byte varints |
| `PrompbWriter.MarshalExemplar` | pkg/prompb/types.pb.go:917-952 | the same for exemplars |
| `PrompbWriter.MarshalTimeSeries` | pkg/prompb/types.pb.go:1007-1059 | the same for series, elements written last to first |
| `PrompbWriter.MarshalMetadata` | pkg/prompb/types.pb.go:864-900 | the same for metadata |
| `PrompbWriter.MarshalToSizedBuffer` | pkg/prompb/remote.pb.go:469-507 | the same for write requests |
| `PrompbWriter.Marshal` | pkg/prompb/remote.pb.go:454-462 | a buffer of Size() bytes is filled exactly with the encoding |
| `PrompbReader.UnmarshalLabel` | pkg/prompb/types.pb.go:2172-2289 | the index-moving parser computes what the field-by-field grammar says, errors included |
| `PrompbReader.UnmarshalSample` | pkg/prompb/types.pb.go:1797-1880 | the same for samples |
| `PrompbReader.UnmarshalMetadata` | pkg/prompb/types.pb.go:1630-1796 | the same for metadata |
| `PrompbReader.UnmarshalExemplar` | pkg/prompb/types.pb.go:1881-2000 | the same for exemplars, whatever stale labels the message still holds |
| `PrompbReader.UnmarshalTimeSeries` | pkg/prompb/types.pb.go:2001-2171 | the same for series, whatever stale elements the message still holds |
| `PrompbReader.WriteRequestBuf.Reset` | pkg/prompb/custom.ts.go:8-10 | empties the message and keeps what it held as spare elements |
| `PrompbReader.WriteRequestBuf.Unmarshal` | pkg/prompb/remote.pb.go:910-1038 | parses onto what the message holds; the result depends on its live elements only |
| `PrompbReader.WriteRequestBuf.DecodeRecycled` | pkg/prompb/custom.ts.go:7-14 | decoding into a reset message gives what decoding into an empty one gives, whatever is left in its arrays |
| `PrompbReader.ResetIsEmpty` | pkg/prompb/custom.ts.go:11-14 | a recycled series or exemplar that has been reset holds nothing |
| `PrompbRoundTrip.LabelRoundTrip` | pkg/prompb/types.pb.go:2172-2289 | reading a written label gives it back |
| `PrompbRoundTrip.SampleRoundTrip` | pkg/prompb/types.pb.go:1797-1880 | reading a written sample gives it back, for all timestamps |
| `PrompbRoundTrip.MetadataRoundTrip` | pkg/prompb/types.pb.go:1630-1796 | reading written metadata gives it back |
| `PrompbRoundTrip.ExemplarRoundTrip` | pkg/prompb/types.pb.go:1881-2000 | reading a written exemplar gives it back |
| `PrompbRoundTrip.TimeSeriesRoundTrip` | pkg/prompb/types.pb.go:2001-2171 | reading a written series gives it back, element by element |
| `PrompbRoundTrip.WriteRequestRoundTrip` | pkg/prompb/remote.pb.go:910-1038 | main theorem: reading a written request gives it back up to the sign of zero, with the unrecognised fields of all its messages |
| `PrompbRoundTrip.SeriesComesBackIff` | pkg/prompb/types.pb.go:969-1059 | a series comes back unchanged if and only if no value in it is -0.0 |
| `PrompbRoundTrip.RequestComesBackIff` | pkg/prompb/remote.pb.go:469-507 | a request comes back unchanged if and only if no value in it is -0.0 |
| `PrompbCodec.Transfer` | pkg/prompb/remote.pb.go:454-462 | marshalling into a buffer and unmarshalling into a recycled request gives the request |
| `PrompbCodec.ReceivedIsSound` | pkg/prompb/remote.pb.go:910-1038 | whatever bytes a request was read from, its unrecognised bytes are well-formed fields with unknown numbers |
| `PrompbCodec.PassedOnArrives` | pkg/prompb/remote.pb.go:910-1038 | so a received request that is written again is read back as it was received, up to the sign of zero |
| `ClockEviction.PackRoundTripIff` | pkg/clockcache/cache.go:388-414 | used bit and timestamp can be unpacked again if and only if the timestamp is not negative as a 32-bit number |
| `ClockEviction.SetUsedSets` | pkg/clockcache/cache.go:399-405 | setting the used bit sets it and keeps the timestamp |
| `ClockEviction.WordIsBitAndTimestamp` | pkg/clockcache/cache.go:388-414 | the used bit is the leftmost of 32 bits and the timestamp the others |
| `ClockEviction.ProbeKeepsTimestampsIff` | pkg/clockcache/cache.go:177-182 | a probe keeps all timestamps if and only if the last mark on its element between its load and its swap, if there is one, repeats the timestamp that was loaded |
| `ClockEviction.EvictorKeepsTimestampsIff` | pkg/clockcache/cache.go:159-204 | over a whole run the evictor is at no time seen to alter a timestamp if and only if the marks between load and swap are harmless in that sense at each probe, judged by the marks of the readers alone |
| `ClockEviction.EvictorNeverAltersTimestamps` | pkg/clockcache/cache.go:159-204 | so it never does as long as readers do not mark the very element that is being probed |
| `ClockEviction.TimestampCanBeLost` | pkg/clockcache/cache.go:179-179 | a schedule with one unmarked element and one reader in which a timestamp is lost |
| `ClockEviction.QuietWalk` | pkg/clockcache/cache.go:177-200 | alone, the evictor clears the marks it passes and leaves every other word |
| `ClockEviction.QuietEviction` | pkg/clockcache/cache.go:159-204 | without interference eviction succeeds within one round and one probe and takes the first unmarked element in ring order |
| `ClockEviction.MarkedElementStays` | pkg/clockcache/cache.go:159-204 | without interference a marked element is not evicted while some other element is unmarked |
| `ClockCache.ReplayIsLastStore` | pkg/clockcache/cache.go:70-157 | the value of a key after a history is the one last stored since the key was admitted |
| `ClockCache.Cache.WithMax` | pkg/clockcache/cache.go:54-60 | a new cache is empty |
| `ClockCache.Cache.NeverOverfull` | pkg/clockcache/cache.go:102-140 | in every valid state the keys are distinct and there are no more of them than the capacity |
| `ClockCache.Cache.MarkUsed` | pkg/clockcache/cache.go:263-265 | a mark changes one word and nothing of the contents: the word is marked, with the given time unless it was marked before |
| `ClockCache.Cache.Probe` | pkg/clockcache/cache.go:179-182 | one load and swap, with readers before and in between |
| `ClockCache.Cache.Walk` | pkg/clockcache/cache.go:177-200 | one round from next around the ring; it stops at the first element seen unmarked |
| `ClockCache.Cache.Evict` | pkg/clockcache/cache.go:159-204 | at most two rounds; the victim was unmarked when probed, and nothing is returned only if every probe saw a mark; the contents do not change |
| `ClockCache.Cache.MakeRoom` | pkg/clockcache/cache.go:115-119 | readers may still mark elements after the walk: the contents do not change, and the victim shows the timestamp of its last mark |
| `ClockCache.Cache.Displace` | pkg/clockcache/cache.go:112-129 | in a full cache the element that the evictor found is replaced, and exactly its key is lost; without one nothing changes |
| `ClockCache.Cache.Append` | pkg/clockcache/cache.go:131-138 | a new element in a free place: the contents gain its key |
| `ClockCache.Cache.Replace` | pkg/clockcache/cache.go:119-138 | a new element in place of the victim: the contents lose the key of the victim and gain the new one; the eviction counters follow |
| `ClockCache.Cache.InsertElement` | pkg/clockcache/cache.go:102-140 | refines a map: an existing key keeps its value and is marked as used, and no other word changes; a new key is stored, stored for the victim that the evictor found, or refused when all are in use; the latest eviction time follows the victim, and the hand moves behind it |
| `ClockCache.Cache.Insert` | pkg/clockcache/cache.go:70-76 | the same, with the canonical value returned, the events recorded, and the recorded size right if it was before |
| `ClockCache.Cache.InsertBatch` | pkg/clockcache/cache.go:84-100 | each step of the batch is such an insertion; values are overwritten by canonical ones; it stops at the first refusal |
| `ClockCache.Cache.Update` | pkg/clockcache/cache.go:144-157 | an existing key is overwritten; a recorded size that was right stays right if and only if the key was absent or the sizes agree |
| `ClockCache.Cache.Get` | pkg/clockcache/cache.go:242-269 | a hit returns the value of the map and marks its element, with the time of the hit unless it was marked; a miss returns nothing and marks nothing; the contents and all other words do not change |
| `ClockCache.Cache.ReadSurvives` | pkg/clockcache/cache.go:102-140 | a key just read survives the next insertion into a full cache, without other readers, if some other element is unmarked |
| `ClockCache.UnreadGoes` | pkg/clockcache/cache.go:159-204 | of two keys of which one was read since, the other goes when a third comes |
| `ClockCache.Cache.GetValues` | pkg/clockcache/cache.go:211-240 | permutes the keys: those found come first with their values, the others behind them; exactly the elements of the keys found are marked, with the time of the call unless they were marked |
| `ClockCache.Cache.ExpandTo` | pkg/clockcache/cache.go:292-326 | the contents and the ring stay and the capacity never shrinks; a recorded size that was right stays right if and only if the capacity does not grow or only sizes of zero were stored |
| `ClockCache.Cache.Reset` | pkg/clockcache/cache.go:328-343 | the contents are emptied; a recorded size that was right stays right if and only if only sizes of zero were stored |
| `HaRequest.FilterSamples` | pkg/ha/filter.go:138-150 | the in-place compaction keeps exactly the samples outside the range, in order |
| `HaRequest.SelectPicks` | pkg/ha/filter.go:138-150 | the samples kept are those at an increasing sequence of places, which are exactly the places to keep |
| `HaRequest.DropReplica` | pkg/ha/filter.go:170-175 | the shortened labels are the labels without the first replica label: if there is one, what comes before it followed by what comes after it; a header of the old length shows that and the last label again |
| `HaRequest.DroppingKeepsOthers` | pkg/ha/filter.go:167-175 | as multisets, the labels before are those after and one replica label; the labels with other names come in the same order |
| `HaRequest.ShiftedIsRightIff` | pkg/ha/filter.go:165-175 | such an old header is right if and only if there was no replica label |
| `HaRequest.WriteRequest.FilterOutSampleRange` | pkg/ha/filter.go:135-152 | every series keeps the samples outside the range, and its labels |
| `HaRequest.WriteRequest.FinalFiltering` | pkg/ha/filter.go:158-181 | what is left are exactly the series with samples, in order and with those samples; one that is not moved has lost its first replica label and nothing else, one that is moved shows the shifted labels |
| `HaRequest.FinalIsIdealIff` | pkg/ha/filter.go:158-181 | the final pass drops empty series and replica labels as intended if and only if no series with a replica label comes behind an empty one |
| `HaFilter.GetBackfillLeaseRange` | pkg/ha/service.go:136-142 | finds the first lease of the replica in the log that ends in the range, or none |
| `HaFilter.FirstCandidateDecides` | pkg/ha/mock_ha_lock_client.go:19-34 | up to its end, that lease decides which times are in a past lease |
| `HaFilter.FilterBackfill` | pkg/ha/filter.go:92-133 | terminates; keeps exactly the samples in a past lease of the replica and those from the current lease on; unless a read fails, finds backfill if and only if a lease of the replica, even an empty one, ended in the range |
| `HaFilter.HaLabels` | pkg/ha/filter.go:211-220 | the values of the last label named cluster and the last named __replica__ |
| `HaFilter.ValueOfIsLast` | pkg/ha/filter.go:211-220 | the last label of a name counts, and without one the value is empty |
| `HaFilter.FindDataTimeRange` | pkg/ha/filter.go:184-209 | the least and the greatest timestamp, both attained, or zero without samples |
| `HaFilter.DropRefused` | pkg/ha/filter.go:71-84 | the four cases after the backfill leave what was meant to be kept |
| `HaFilter.Process` | pkg/ha/filter.go:35-86 | main theorem: what is left is the final pass over the samples in a past lease before the current lease, and from there on all or nothing; every error still runs the final pass, and whatever the outcome, the series left are those with remaining samples, in order, without their first replica label where they are not moved |
| `HaFilter.KeptIff` | pkg/ha/filter.go:54-133 | a time is kept if and only if the replica holds the current lease and the time is not before it, or a lease of the replica that ended by its start covers the time |
| `HaFilter.OneReplicaForEachTime` | pkg/ha/filter.go:35-86 | under one growing log of disjoint leases, at whatever two moments requests are processed, no timestamp is stored from two replicas |
| `HaFilter.LeftIsKept` | pkg/ha/filter.go:135-181 | every sample that the filter leaves was in the request, at a time that is kept |
| `HaFilter.ProcessTwo` | pkg/ha/filter.go:35-86 | so two requests from different replicas, processed at any two moments of one log, leave no sample at the same time |
| `RangeWindow.CarriedOver` | pkg/promql/engine.go:1936-1953 | the points carried over are the first part of the new window, and nothing that the shrunken buffer lacks is missing |
| `RangeWindow.ReadFromBuffer` | pkg/promql/engine.go:1955-1987 | the buffer and the point at the target make up the rest of the window |
| `RangeWindow.Evaluator.MatrixIterSlice` | pkg/promql/engine.go:1935-1990 | returns exactly the non-stale points of the window in order, adds exactly their difference to the sample count, and fails if and only if the budget is exceeded |
| `RangeWindow.StepContinues` | pkg/promql/engine.go:1476-1538 | at every step the buffer, shrunk to one step, still reaches back to what the last window did not see |
| `RangeWindow.Evaluator.EvalSeries` | pkg/promql/engine.go:1510-1538 | over all steps of a series, each call sees the window of its own step: in time order, the result has a point (t, v) if and only if t is a step, the window from t - offset - range to t - offset is not empty, and the function of t and that window is v |
| `RangeWindow.Evaluator.EvalCall` | pkg/promql/engine.go:1484-1554 | main theorem: the result matrix lists, in order, the series that have a result, each with exactly the points just described; the sample count grows by exactly the points returned, and the call fails if and only if some window or result does not fit |
| `RangeWindow.WindowHolds` | pkg/promql/engine.go:1935-1990 | a window holds, in time order, exactly the points that are not stale from its start to its end, both included |
| `RangeWindow.ResultsAnswer` | pkg/promql/engine.go:1510-1538 | the recursion over the steps has exactly the points of the steps |
| `RangeWindow.WindowsFitIff` | pkg/promql/engine.go:1963-1987 | all windows fit if and only if the window of every step does |
| `RangeWindow.SeriesFitsIff` | pkg/promql/engine.go:1510-1548 | one series fits if and only if the window of every step does, and that of the last step beside the result |
| `RangeEval.HeadIsLookup` | pkg/promql/engine.go:1162-1181 | looking at the first remaining point is looking up the time in the whole series |
| `RangeEval.AdvanceRemains` | pkg/promql/engine.go:1163-1180 | after a step the scan holds exactly the points of the later steps |
| `RangeEval.Gather` | pkg/promql/engine.go:1162-1181 | gathers the first points of a step, advances their series, and fails if and only if the budget is exceeded |
| `RangeEval.GatherAll` | pkg/promql/engine.go:1155-1184 | the input vectors of a step are the lookups by timestamp |
| `RangeEval.AddResult` | pkg/promql/engine.go:1219-1232 | each output series gains its sample of this step; the total grows by the size of the result |
| `RangeEval.Assemble` | pkg/promql/engine.go:1242-1245 | in whatever order the map is iterated, each output series is listed once, and no sample is lost |
| `RangeEval.ContainsSameLabelset` | pkg/promql/value.go:140-157 | detects if and only if two samples have the same labels |
| `RangeEval.EvaluateInstant` | pkg/promql/engine.go:1207-1216 | a query of one step returns the result of the function for its inputs at that time, in order |
| `RangeEval.EvaluateRange` | pkg/promql/engine.go:1088-1249 | main theorem: for each metric there is at most one output series, in time order, with a point (t, v) if and only if t is a step and the function of t and the inputs at t returns v for that metric; the count is the entry value plus all samples and within the limit; the error is that of the first step with a problem |
| `RangeEval.VectorIsInput` | pkg/promql/engine.go:1155-1184 | the input at a time lists, in order, the series that have a point at that time, with that point |
| `RangeEval.FineIffAllStepsFit` | pkg/promql/engine.go:1153-1203 | there is no error if and only if no step returns two samples with the same labels and, at each step, the results so far, its inputs and its result are within the budget |
| `VectorJoin.VectorAnd` | pkg/promql/engine.go:1992-2014 | keeps the left samples whose signature occurs on the right |
| `VectorJoin.VectorOr` | pkg/promql/engine.go:2016-2041 | the left side followed by (right unless left) |
| `VectorJoin.VectorUnless` | pkg/promql/engine.go:2043-2065 | keeps the left samples whose signature does not occur on the right |
| `VectorJoin.AndUnlessPartition` | pkg/promql/engine.go:1992-2065 | and and unless partition the left side as multisets |
| `VectorJoin.MatchingMatches` | pkg/promql/engine.go:1992-2065 | what and keeps has a match on the right, what unless keeps has none |
| `VectorJoin.MatchingPicks` | pkg/promql/engine.go:1992-2065 | what they keep stands in the order of the left side, and is all that has the wanted match |
| `VectorJoin.BuildTable` | pkg/promql/engine.go:2094-2111 | a table of the one side, or failure if and only if a signature repeats |
| `VectorJoin.LookUp` | pkg/promql/engine.go:2126-2132 | the table finds what the inner loop of the nested join finds |
| `VectorJoin.Record` | pkg/promql/engine.go:2153-2172 | detects a repeated match if and only if it clashes with an earlier one |
| `VectorJoin.Probe` | pkg/promql/engine.go:2126-2178 | the hashed loop is the nested loop, and fails if and only if two kept matches clash |
| `VectorJoin.VectorBinop` | pkg/promql/engine.go:2068-2180 | main theorem, for all three cardinalities: a result is there if and only if some left and some right sample share a signature and it is the operation of the left and the right value, in this order, if kept, or 1 or 0 for whether it is kept, with the labels of the many and the one side; results come in the order of the many side; it fails if and only if a signature repeats on the one side or two results of the many side collide; all of this equals the nested-loop join |
| `VectorJoin.MeaningIsJoin` | pkg/promql/engine.go:2068-2180 | the nested loop has exactly those results and fails exactly then |
| `VectorJoin.OneToManyIsManyToOneSwapped` | pkg/promql/engine.go:2076-2082 | one-to-many is many-to-one with the operands swapped |
| `Quantile.CoalesceBuckets` | pkg/promql/quantile.go:125-139 | the in-place loop coalesces adjacent buckets |
| `Quantile.CoalescedSums` | pkg/promql/quantile.go:125-139 | on sorted buckets this is one bucket for each bound, with the sum of the counts at it |
| `Quantile.SumsAreUnique` | pkg/promql/quantile.go:85-90 | the coalesced buckets depend only on the multiset of buckets |
| `Quantile.EnsureMonotonic` | pkg/promql/quantile.go:174-184 | the in-place loop raises counts to the running maximum |
| `Quantile.EnvelopeIsLeastMajorant` | pkg/promql/quantile.go:174-184 | that is the least sequence of counts that never falls and is nowhere below the given one |
| `Quantile.Search` | pkg/promql/quantile.go:101-101 | the binary search finds the first bucket that reaches the rank |
| `Quantile.BucketQuantile` | pkg/promql/quantile.go:75-120 | the quantile of the one histogram that the buckets make, with all special cases |
| `Quantile.QuantileIsNaNIff` | pkg/promql/quantile.go:100-119 | for a histogram, the result is NaN (zero divided by zero) if and only if q is 0 and the first bucket is empty and above zero |
| `Quantile.QuantileIsBounded` | pkg/promql/quantile.go:93-120 | the result lies between zero or the lowest bound and the second-highest bound |
| `Quantile.QuantileIsMonotone` | pkg/promql/quantile.go:93-120 | the result is monotone in q |
| `Quantile.QuantileCounts` | pkg/promql/quantile.go:93-119 | the result lies in the first bucket whose count reaches q times the total, where the count interpolated in that bucket is exactly q times the total; the +Inf bucket and a first bucket not above zero are stood for by a bound |
| `Quantile.PreparedIsHistogram` | pkg/promql/quantile.go:85-99 | counts that are not negative make a histogram, unless there is one bucket or nothing was counted |
| `Quantile.Quantile` | pkg/promql/quantile.go:193-215 | the sample quantile is the weighted neighbour value at the rank in the sorted values |
| `Quantile.SortedValuesAreUnique` | pkg/promql/quantile.go:203-203 | it depends only on the multiset of values |
| `Quantile.SampleQuantileIsMonotone` | pkg/promql/quantile.go:203-215 | it is monotone in q and between the least and the greatest value |
| `Quantile.SampleQuantileIsBetween` | pkg/promql/quantile.go:203-215 | with q at k and a fraction through the sorted values, it is that fraction of the way from value k to the next |
| `Quantile.SampleQuantileEnds` | pkg/promql/quantile.go:203-215 | for 0 it is the least value and for 1 the greatest |
| `Rate.CounterIncrease` | pkg/promql/functions.go:80-89 | the loop computes the sum of the gains, each reset counted from zero |
| `Rate.GainsAreNotNegative` | pkg/promql/functions.go:80-89 | a counter that is never negative never has a negative increase |
| `Rate.IntervalIsWithinRange` | pkg/promql/functions.go:92-128 | the extrapolated interval lies between the sampled interval and the whole range |
| `Rate.CounterStaysAboveZero` | pkg/promql/functions.go:98-123 | extended backwards at the average slope, a counter that starts at zero or above never falls below zero |
| `Rate.CutAtZero` | pkg/promql/functions.go:98-111 | if the way back is cut short, it is where the counter would have been zero at the average slope |
| `Rate.GapRule` | pkg/promql/functions.go:117-128 | a gap is filled as long as it is less than eleven tenths of the usual one, else half the usual one is added |
| `Rate.ExtrapolatedRate` | pkg/promql/functions.go:65-137 | nothing for fewer than two samples; else the increase over the extrapolated interval has the slope of the gain over the sampled time, and a rate times the range in seconds is that increase |
| `Grouping.Aggregate` | pkg/promql/engine.go:2402-2469 | one pass over interleaved groups: groups come in the order first seen, and each accumulator is what its own samples alone, in order, would make it |
| `Grouping.KeysAreGroups` | pkg/promql/engine.go:2421-2441 | every group is listed once and has members |
| `Grouping.GroupsPartition` | pkg/promql/engine.go:2402-2469 | every sample is in exactly one group |
| `BinaryHeap.TopIsLeast` | pkg/promql/functions.go:1162-1218 | in an array where no element is less than its parent, the first is the least |
| `BinaryHeap.PushKeepsOrder` | pkg/promql/engine.go:2531-2534 | sifting a new element up restores that order and keeps all elements |
| `BinaryHeap.PopKeepsOrder` | pkg/promql/engine.go:2529-2529 | putting the last element on top and sifting it down restores it and loses exactly the first element |
| `TopK.ConsiderKeepsBest` | pkg/promql/engine.go:2519-2553 | one more sample: the heap holds the best k so far and none that was left out beats one of them |
| `TopK.TopOrBottomK` | pkg/promql/engine.go:2450-2602 | main theorem: for each group the result is the start, of length min(k, n), of a best-first order of its samples |
| `TopK.TopIsByValue` | pkg/promql/engine.go:2519-2602 | by values: topk returns the highest first and leaves out nothing greater than what it returns, bottomk the lowest first and nothing less |
| `TopK.KeysAreDetermined` | pkg/promql/engine.go:2578-2602 | its values are determined, whatever the heap does with ties |
| `Statistics.KahanIsExact` | pkg/promql/functions.go:703-712 | without rounding the compensation never changes |
| `Statistics.Averages` | pkg/promql/engine.go:2475-2495 | for each group the running mean is the mean |
| `Statistics.Variances` | pkg/promql/engine.go:2513-2517 | for each group the one-pass variance is the two-pass variance |
| `Statistics.VarianceOverTime` | pkg/promql/functions.go:493-506 | the same with compensated sums, from an empty start |
| `Statistics.ErrorCompared` | pkg/promql/functions.go:717-758 | the squared error of any line is that of a given one plus a sum of squares, up to its residuals |
| `Statistics.VarianceIsPositive` | pkg/promql/functions.go:752-755 | with two different times the slope never divides by zero |
| `Statistics.LinearRegression` | pkg/promql/functions.go:717-758 | main theorem: no line has a smaller squared error than the one returned |
| `QueryTracker.Tracker.Claim` | pkg/promql/query_logger.go:189-190 | takes the first free slot; free and held slots partition all slots, whatever the file holds |
| `QueryTracker.OthersStay` | pkg/promql/query_logger.go:183-197 | what changes no byte outside a slot leaves the other slots as intact as they were |
| `QueryTracker.Tracker.Release` | pkg/promql/query_logger.go:183-186 | gives a slot back; the channel always has room for it, whatever the file holds |
| `QueryTracker.Tracker.CopyEntry` | pkg/promql/query_logger.go:195-195 | the copy of an entry of any length writes its bytes up to the end of the file and makes its slot a written one |
| `QueryTracker.Tracker.Insert` | pkg/promql/query_logger.go:188-201 | main theorem, from any query to the file: free and held slots still partition all slots; in a valid file no byte of another slot changes, and the file stays valid, if and only if the entry is at most as long as a slot or is in the last one; the entry can be read back if and only if it is shorter than a slot |
| `QueryTracker.Tracker.Delete` | pkg/promql/query_logger.go:183-186 | of any held slot, whatever the file holds: never waits, frees the slot, leaves it intact and changes no byte of another |
| `QueryTracker.Tracker.Track` | pkg/promql/engine.go:609-616 | around a query of any text that can be cut, the slots are as before and its slot is the last in the channel |
| `QueryLog.FileListing` | pkg/promql/query_logger.go:46-47 | without its zero bytes the file is the opening bracket and what each slot leaves |
| `QueryLog.ParseBrokenJSON` | pkg/promql/query_logger.go:46-58 | zero bytes are taken out and the last byte becomes the closing bracket; a file without entries is reported as such |
| `QueryLog.ClosedIsArrayIff` | pkg/promql/query_logger.go:46-58 | what is left closes to the JSON array of the active entries if and only if no entry lacks its comma and none was cut |
| `QueryLog.EntriesPickActive` | pkg/promql/query_logger.go:46-58 | the active entries are the entries of exactly the active slots, in slot order |
| `QueryLog.ArrayText` | pkg/promql/query_logger.go:46-58 | the JSON array has brackets around its entries and a comma before each but the first |
| `QueryLog.SlotLayout` | pkg/promql/query_logger.go:173-177 | the bracket takes one byte and each slot a thousand, one behind the other |
| `QueryTracker.Recover` | pkg/promql/query_logger.go:46-82 | main theorem: the file yields the active entries in slot order as a JSON array if and only if no query was between the two copies of its insertion and no entry was as long as a slot |
| `QueryEntry.TrimStringByBytes` | pkg/promql/query_logger.go:137-149 | the longest prefix within the size that ends at the end or where a rune starts; runs off the front if and only if there is none |
| `QueryEntry.ContinuationCannotBeCut` | pkg/promql/query_logger.go:142-144 | a string of continuation bytes longer than the size cannot be cut |
| `QueryEntry.TextCanBeCut` | pkg/promql/query_logger.go:137-149 | text that starts with a rune can |
| `QueryEntry.NewJSONEntry` | pkg/promql/query_logger.go:151-171 | the JSON object of the query so cut; shorter than a slot if and only if the escaped query is not longer than the room left for it |
| `QueryEntry.EntryIsText` | pkg/promql/query_logger.go:151-161 | an entry has no zero byte |
| `QueryEntry.DecimalReads` | pkg/promql/query_logger.go:151-161 | read as a decimal number, the time in an entry is the timestamp |
| `QueryEntry.FieldNames` | pkg/promql/query_logger.go:37-40 | the rest of an entry are the field names query and timestamp_sec in JSON |
| `QueryEntry.NoSecondStart` | pkg/promql/query_logger.go:151-161 | no later part of an entry can pass for the beginning of an entry |
| `QueryEntry.SafeQueriesFit` | pkg/promql/query_logger.go:163-171 | a query of bytes that need no escaping fits, however long it is |
| `QueryEntry.QuotesDoNotFit` | pkg/promql/query_logger.go:163-171 | a query of 500 or more quotation marks makes an entry longer than a slot |
| `JsonEscape.ErrorWrapper.WriteEscapedString` | pkg/api/marshal.go:246-318 | appends the escape of the string, or as much of it as the writer takes, and fails exactly if that is not all |
| `JsonEscape.FirstRoundTrip` | pkg/api/marshal.go:252-314 | reading the escape of one rune or byte gives it back, or U+FFFD |
| `JsonEscape.EscapeRoundTrip` | pkg/api/marshal.go:246-318 | main theorem: reading the output by section 7 of RFC 8259 gives the string with U+FFFD for each invalid byte |
| `JsonEscape.SanitizeKeepsIff` | pkg/api/marshal.go:286-295 | that is the string itself if and only if it is valid UTF-8 |
| `JsonEscape.EscapeIsClean` | pkg/api/marshal.go:320-529 | read from the front, the output has quotation marks only as the second byte of an escape; it has no control byte and, with escapeHTML, no <, > or & |
| `JsonEscape.CleanAt` | pkg/api/marshal.go:320-529 | so every byte of it is at least 0x20, a quotation mark has a backslash before it, and with escapeHTML no byte is <, > or & |
| `JsonEscape.HarmlessStays` | pkg/api/marshal.go:320-529 | printable ASCII other than quotation mark, backslash and, with escapeHTML, <, > and & is copied as it is |
| `Migrate.IdentifiersAreOrdered` | pkg/pgmodel/migrate.go:418-423 | precedence is a total order on pre-release identifiers |
| `Migrate.VersionsAreOrdered` | pkg/pgmodel/migrate.go:418-423 | precedence by section 11 of Semantic Versioning 2.0.0 is a total order on versions |
| `Migrate.ComparesByPrecedence` | pkg/pgmodel/migrate.go:418-423 | it is the order of section 11, rule by rule: major, then minor, then patch; a release after its pre-releases; identifiers from the left, numbers by value and before words, words in ASCII order, longer lists after their beginnings |
| `Migrate.ExampleVersions` | pkg/pgmodel/migrate.go:418-423 | with the chain of examples in that section, from 1.0.0-alpha to 1.0.0 |
| `Migrate.IncludedUpToNumber` | pkg/pgmodel/migrate.go:338-365 | a version with pre-release number k includes exactly the files of its directory up to number k |
| `Migrate.LoadDirectory` | pkg/pgmodel/migrate.go:402-415 | loads the scripts of a directory, or fails if and only if a name cannot be read or a version repeats |
| `Migrate.LoadScripts` | pkg/pgmodel/migrate.go:383-416 | the same for all directories, with .gitignore skipped and other files refused |
| `Migrate.UpgradeVersion` | pkg/pgmodel/migrate.go:369-431 | runs the scripts with from < version <= to in ascending order: all of them, or exactly those before the first that fails |
| `Migrate.SelectedAscends` | pkg/pgmodel/migrate.go:418-429 | the scripts that run have strictly increasing versions |
| `Migrate.UpgradesCompose` | pkg/pgmodel/migrate.go:418-429 | main theorem: an upgrade from->to runs the scripts of from->mid followed by those of mid->to |
| `Migrate.AscendingIsUnique` | pkg/pgmodel/migrate.go:383-418 | the plan does not depend on the order in which directories are listed |
| `Migrate.Migrate` | pkg/pgmodel/migrate.go:100-172 | exactly when a migration is refused, rolled back or committed, and which scripts it then has run |

## Left out

- AtModifier.PreprocessedQueryMeansTheOriginal: states the fragment in which it holds (`Good`): functions other than time, timestamp, predict_linear and the date functions without an argument ignore the evaluation time, aggregation parameters are invariant themselves, `@` range arguments stand under wholly invariant calls, and subquery starts do not collide; `AtModifierGaps` and `CollidingStarts` show for each condition what happens without it, and `InstantQuery` has the larger fragment for a single step.
- CollidingStarts.CollidingCallRightIff: does not cover a body with a further subquery, which may set the offsets again.
- FetchRange.FetchedRangesCoverEveryRead: is stated for the same fragment, and for whole milliseconds.
- FetchRange.SelectorRangeIsTight: is about a selector on its own; below a subquery the alignment of the start may leave less than one step of the fetched range unread.
- QueryParts.SubqueryValue: is about bodies without start() and end(), which name the bounds of the whole query.
- PrompbReader.WriteRequestBuf.Unmarshal: says nothing about the half-filled message after an error; decoding into it later does not depend on it (`DecodeRecycled`).
- PrompbRoundTrip.WriteRequestRoundTrip: is stated for encodings shorter than 2^63 bytes, beyond which Go's int cannot count.
- ClockCache.Cache.GetValues: expects the arrays of keys and of values to be different arrays; a check in it that never applies is not modelled.
- HaFilter.Process: works in whole milliseconds, and the lease check and the lease log are contracts; the lease state machine and its SQL are not part of the model.
- HaRequest.WriteRequest.FilterOutSampleRange: does not model two series that share one array of samples.
- RangeWindow.Evaluator.EvalCall: does not model errors of the storage iterator, the label changes of results, or absent_over_time, which post-processes the matrix.
- RangeEval.EvaluateRange: treats the called function as a pure function of time and input vectors; contexts and warnings are not modelled, and the choice between one step and several is made before the loop.
- VectorJoin.VectorBinop: takes signatures, the operation on two values and result labels as parameters; many-to-many cardinality, which panics, is ruled out by type.
- Quantile.BucketQuantile: bounds are finite or +Inf and counts are reals; NaN and -Inf bounds are not modelled.
- TopK.TopOrBottomK: no NaN values; the grouping key of a sample is a parameter; container/heap is modelled by its sifting loops in `BinaryHeap`.
- Statistics.LinearRegression: infinite values are not modelled.
- JsonEscape.ErrorWrapper.WriteEscapedString: the number formatting and the rest of the JSON response are not modelled.
- Migrate.LoadScripts: reads versions and file numbers that are already parsed; the regular expression and the parsing of version numbers are not modelled, and which of several problems is reported first is not stated.
- QueryTracker.Tracker.Insert: waiting for a free slot and cancellation are not modelled; steps of other queries may come between its steps, each of which keeps the slots in order on its own.
- QueryTracker.Recover: is stated for a valid file; for one that an entry has spilled over, `ParseBrokenJSON` and `Insert` say what is read and written.
- QueryEntry.NewJSONEntry: encoding/json is modelled by the escaping of `JsonEscape` with HTML escaping, which is that of the Go version in go.mod.
- Floating-point rounding: values are reals, so the accuracy of compensated summation is out of scope.
- The PromQL parser, regular expressions, date functions, label builders and Prometheus storage: code of other projects.
- Pushdown of queries into the database, HTTP handlers, connections, COPY streaming, logging, metrics and tracing: input and output.
- Pools of point slices: allocation only.
- Configuration, memory limits, dataset durations and rate averages: short branches that would only add easy members.

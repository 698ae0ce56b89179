# Slice, from kernel probes to flame tree

This project models the pipeline with which Slice records the calls of one function and answers latency
questions about them, and proves what each layer and the whole pipeline promise.

1. **Kernel transport** (`Kernel`, `KernelInvariant`, `RingOrigins`, `SwitchedOut`, `NestedEntries`,
   `Probes`). Four handlers run for many threads over shared maps and a ring that may drop records. `Kernel`
   is a step machine over a clock that never goes back; the entry and return handlers are split wherever
   another one can fire between two of their effects, a perf sample and a scheduler switch are one step each,
   and every failing map update, stack walk or ring reservation is a choice of the action. A run is any
   sequence of actions. The machine carries a history of the real calls (`lives`) that only specifications
   read. `RingOrigins` says which step emitted a record and what was lost. `Probes` has the handlers as they
   are written, as methods on the maps.
2. **Adapter** (`Adapter`, `ReplayOrder`, `Replay`). Sort the delivered records, translate them, replay them
   into the collector, finish, name the threads. `Capture` is that as one function of the delivered records,
   and `Replay.CapturePid` the code.
3. **Collector** (`Collector`, `Interning`, `SourceMode`, `SourceRecords`, `SourceFinish`, `SourceCalls`,
   `OrderIndependence`, `LocalMode`, `Accounting`, `Counters`, `ModeAgreement`, `Correlator`). The two-mode
   correlator. `Collector` defines what one event does to the correlator and the profile; `Correlator` has the
   methods that do it in place. `LocalMode`, `SourceRecords`, `SourceCalls` and `Counters` say what comes out,
   in terms of the stream of events alone; `SourceMode` and `SourceFinish` are the closed form behind them.
4. **Profile domain** (`Domain`, `Validation`, `ValidationFaults`, `FlameTrie`, `TreeBuilders`, `Ranks`,
   `Quantiles`, `Queries`, `QueryTheorems`, `AnswerMeaning`, `QueryIndependence`). Validation as a decision
   procedure; queries with ranking, percentile selection and the flame tree. `AnswerMeaning` says what an
   answer says in terms of the query and the records alone.
5. **Viewer** (`LatencyWindow`, `Viewer`, `PictureMeaning`, `Loading`, `ViewerScript`, `ViewerSelection`,
   `Agreement`). The second implementation of the selection and the aggregation. `Loading` is the state that a
   query is loaded into, `LatencyWindow` says what the viewer's window does to a percentile range, `Viewer`
   what its tree counts, `PictureMeaning` what all that shows, and `ViewerScript` has the code on mutable
   state and nodes. `ViewerSelection` and `Agreement` say exactly when the viewer shows what the query engine
   answers.

`EndToEnd`, `CapturedProfile`, `CaptureTheorems`, `CapturedSamples`, `OffcpuTime`, `OffcpuExactness` and
`EndToEndQueries` join the layers: their theorems quantify over every run of the kernel machine, every part of
the ring that is delivered, and every delivery order (`multiset(delivered) <= multiset(ring)`). `Sequences`
and `Sorting` hold the facts about sums, multisets and stable sorting that the others need.

The main results:

- every capture is a valid profile (`CaptureTheorems.CaptureIsWellFormed`), and every invocation in it is
  exactly one real call with the flags that the delivered records justify (`InvocationsSound`);
- every ring record was emitted by a step that explains it, with the stack and the weight that belong to it,
  and the counters account for all that is missing (`RingOrigins.EveryRecordHasOrigin`, `TransportBooks`);
- a captured profile holds each sample as often as delivered records stand for it, with the frames of its kind
  (`CapturedSamples.SamplesCountRecords`); so CPU time is the sampling period times the samples counted, and
  no off-CPU time of a selected call is missed (`CpuTimeIsPeriods`, `OffCpuTimeComplete`);
- off-CPU time is never overstated (`OffcpuTime.OffcpuWithinDuration`, and for query answers
  `EndToEndQueries.QueriedOffcpuBounded`), and is exact when nothing fails or is lost
  (`OffcpuExactness.OffcpuTimeExact`);
- delivery order is invisible, in the collector (`OrderIndependence.DeliveryOrderIrrelevant`) and in every
  answer to every query (`EndToEndQueries.DeliveryOrderInvisible`); in the replayed order itself it is
  invisible exactly when no two different records tie (`ReplayOrder.SortingUnique`);
- on loss-free traces, also where samples come between the return record of a call and the end of its link,
  and while stack ids last, the two modes of the collector agree if and only if no call that is valid in the
  local mode is tied in time: by a violation at its start or end, or by a late sample at its end
  (`ModeAgreement.ModesAgree`, `TiesAtEdges`);
- for any stream of local events, and for any transport stream however contradictory, the calls, the samples
  and the counters of the finished profile are given in terms of the events (`LocalMode.LocalCalls`,
  `SourceCalls.TransportCalls`, `Counters.TransportCounters`);
- every stored sample resolves to exactly the frames it arrived with, over every stream of both modes and
  through the finish (`SourceFinish.SamplesKeepFrames`);
- validation answers Ok exactly on the well-formed profiles (`Validation.FirstFaultDecides`), and otherwise
  the first fault in the order of its checks (`ValidationFaults.FirstFaultIs`);
- an answer's tree, totals, bounds, percentiles and errors are given in terms of the query and the records
  (`AnswerMeaning.TreeSays`, `TotalsSay`, `NumbersSay`, `PercentilesSay`, `ErrorsSay`), answers add up over
  neighbouring percentile ranges and over the metrics, and for the same selected ids the viewer's tree and
  totals are those of the query (`Agreement.AggregationsAgree`, `Agreement.ViewerAgrees`).

Three promises hold only conditionally, and the exact condition is proved.

- Stack ids are distinct if and only if there are at most 2^32 - 1 stacks, because the id counter saturates
  (`Interning.StacksAreInterned`).
- The saturating rank arithmetic is the exact ceiling if and only if that ceiling is at most `(2^64 - 1) /
  100` (`Ranks.RankExact`).
- A viewer that has loaded a query shows its answer if and only if `ViewerSelection.SelectionKept` holds
  (`Agreement.ViewerShows`, for every legal query on every valid profile): nothing selected starts at the end
  of the capture, and the viewer's ranks are those of the query, less what starts there. Two things can break
  it.

  Loading lays the time of the query over the bounds of the capture, half-open, and falls back to the whole
  capture when nothing is left. It keeps the population if and only if `Loading.PopulationKept` holds, a
  condition on the asked time and the starts (`Loading.LoadingKeepsPopulation`). It fails for a call that
  starts at the very end of the capture (`ViewerSelection.EndCallHidden`) and for a time range behind the
  capture, where the query selects nothing and the viewer shows everything (`BehindShown`). For p0:100 it is
  the only condition (`Agreement.WholePopulationAgrees`).

  The latency window turns the asked percentiles into durations and back, and at an exact hit the upper side
  answers the next rank. When the population is kept, the choice is the query's if and only if
  `LatencyWindow.RanksKept` holds or both are empty (`ViewerSelection.SameSelection`); for durations that all
  differ that means fewer than two, or a range up to p100, or an upper percentile that falls strictly between
  two positions (`DistinctDurationsKept`). It fails for durations 1, 2, 3 at p0:50, where the query selects
  two calls and the viewer three (`UpperEdgeDiverges`), and for 1, 1, 1, 5 at p50:100, where it is two and
  four (`TiesDiverge`).

The design document asks that delivery order not affect profile association (`ARCHITECTURE.md`). The code
meets this for the invocation list, the counters and the samples with their frames. The numbering of stacks
and the order of samples inside the profile can still change when records tie; no query sees that.

## Model

| member | source | states |
|---|---|---|
| Probes.Maps.SliceEntry | crates/slice-ebpf/bpf/slice.bpf.c:187-219 | an uninterrupted entry handler links a thread under the next id of a counter that wraps, or reports a nested entry and changes nothing else, or only uses up an id when the map update fails |
| Probes.EntryForm | crates/slice-ebpf/bpf/slice.bpf.c:199-217 | taking the three steps of an entry one after the other is what the handler method does |
| Probes.Maps.SliceReturn | crates/slice-ebpf/bpf/slice.bpf.c:221-242 | an uninterrupted return handler takes the four return steps in order: emit, unlink, clear, forget the translation |
| Probes.ReturnDeletes | crates/slice-ebpf/bpf/slice.bpf.c:232-240 | after the return record the remaining steps delete the thread's own keys and the translation that its entry names, and change nothing else |
| Probes.Maps.SliceSample | crates/slice-ebpf/bpf/slice.bpf.c:244-262 | a perf sample reaches the ring only for a linked thread with a stack; a failed stack walk is counted as dropped |
| Probes.Maps.SliceSchedSwitch | crates/slice-ebpf/bpf/slice.bpf.c:264-310 | a switch opens an interval for the outgoing linked thread and closes that of the incoming one |
| Probes.Maps.Emit | crates/slice-ebpf/bpf/slice.bpf.c:166-185 | a full ring only bumps the wrapping drop counter |
| KernelInvariant.RunsKeep | crates/slice-ebpf/bpf/slice.bpf.c:187-310 | in every run of the split entry and return steps, perf samples and switches, every record is true of the life it names, boundary records are unique, intervals of a life are disjoint and ordered, and lives of one thread do not overlap |
| RingOrigins.EveryRecordHasOrigin | crates/slice-ebpf/bpf/slice.bpf.c:166-310 | in every run each record was emitted by a step that explains it: a sample carries the stack its interrupt walked and the sampling period, an off-CPU record the stack of the switch-out of the same life that opened its interval and the time since |
| RingOrigins.SamplesHaveOrigin | crates/slice-ebpf/bpf/slice.bpf.c:244-310 | every sample record weighs the sampling period and has a walked stack, and every off-CPU record has its switch-out |
| RingOrigins.TranslationsHaveOrigin | crates/slice-ebpf/bpf/slice.bpf.c:268-274 | each translation was learned when the linked thread went out under that scheduler id |
| RingOrigins.IncomingIsClosed | crates/slice-ebpf/bpf/slice.bpf.c:288-309 | after a switch the incoming thread has no open interval, linked or not |
| RingOrigins.TransportBooks | crates/slice-ebpf/bpf/slice.bpf.c:166-261 | in every run the ring holds one record for each emission with room, the wrapping drop counters have counted the others and the failed stack walks, and each entry that is not nested has used up one id |
| SwitchedOut.OffcpuBound | crates/slice-ebpf/bpf/slice.bpf.c:284-308 | the off-CPU weights of a life up to a time fit between its start and that time, whatever part of the ring is delivered |
| SwitchedOut.OffcpuExact | crates/slice-ebpf/bpf/slice.bpf.c:235-308 | with whole handlers, one-to-one identities and no failure the translation maps stay mutually inverse and the emitted weights of a completed life are exactly the time its thread was switched out |
| NestedEntries.NestedEmitted | crates/slice-ebpf/bpf/slice.bpf.c:200-204 | if the ring has room the nested entry is reported, under the time at which the entry began |
| NestedEntries.NestedEntryInvalidates | crates/slice-ebpf/bpf/slice.bpf.c:200-204 | in every run a nested entry whose record is delivered makes the recorded call invalid |
| ReplayOrder.SortingRestoresThreads | crates/slice-ebpf/src/lib.rs:902-923 | after sorting an entry precedes everything of its life, in-bounds samples precede the return, and nothing of a life follows a record of a later life of the thread |
| ReplayOrder.ReplayedInOrder | crates/slice-ebpf/src/lib.rs:902-923 | any two replayed records are in order of time, thread, id and kind, and the records are those delivered |
| ReplayOrder.SortingUnique | crates/slice-ebpf/src/lib.rs:912-923 | the replayed order is the same for every delivery order if and only if no two different records tie |
| ReplayOrder.SortInPlace | crates/slice-ebpf/src/lib.rs:912-923 | the slice ends up sorted by time, thread, id and kind with the same records, and records that tie keep their order |
| Sorting.SortStable | crates/slice-ebpf/src/lib.rs:912-923 | the elements that tie with any given one are the same before and after sorting, in the same order |
| Replay.RebuildThreads | crates/slice-ebpf/src/lib.rs:763-779 | the thread list holds every thread of the invocations and samples once, in order |
| Replay.CapturePid | crates/slice-ebpf/src/lib.rs:563-657 | for any delivered records the sort, replay, finish and naming loop produces the profile that the theorems speak of |
| EndToEnd.ReplayConsistent | crates/slice-ebpf/src/lib.rs:566-651 | replaying any delivered part of any run gives the collector at most one entry and one return per id and one thread and function per id |
| EndToEnd.VerdictsTrue | crates/slice-collector/src/lib.rs:300-344 | the record of an id is complete exactly when both boundaries were delivered, has the real start and end, and is valid exactly when no delivered violation lies within it |
| CapturedProfile.SamplesAccounted | crates/slice-collector/src/lib.rs:345-356 | for any stream of transport events a sample is kept as often as it came if its record is valid and covers it, and never otherwise |
| CapturedSamples.SamplesCountRecords | crates/slice-ebpf/src/lib.rs:586-646 | in every run a captured profile holds a sample as often as delivered records stand for it, on the CPU with the frames of its slot and off it with a root frame of the function if none mentions it, if it lies within a complete valid call, and not at all otherwise |
| CapturedSamples.CpuTimeIsPeriods | crates/slice-ebpf/bpf/slice.bpf.c:258-260 | in every run the CPU time of an answer is the sampling period times the number of samples it counts, capped |
| CapturedSamples.OffCpuTimeComplete | crates/slice-ebpf/src/lib.rs:624-646 | a query on the captured function that measures off-CPU time reports all of it for the selected calls, capped, also where the stack walk failed |
| CapturedSamples.ThreadsSay | crates/slice-ebpf/src/lib.rs:763-779 | the thread list rises, has exactly the threads of calls and samples, and the known names |
| Counters.CaptureCountersSay | crates/slice-ebpf/src/lib.rs:543-656 | for any delivered records the generated, lost and sampled counters are the counts by kind on top of what was read back, the generated events at least two for each call |
| Counters.CaptureSuspicions | crates/slice-collector/src/lib.rs:301-317 | in every run a captured profile counts one suspicion for each delivered violation and each life of its thread whose known span it falls into, capped |
| Counters.InvalidIsSuspected | crates/slice-collector/src/lib.rs:301-344 | a complete call that a captured profile reports as invalid has raised a suspicion |
| CaptureTheorems.InvocationsSound | crates/slice-collector/src/lib.rs:322-344 | every invocation of a captured profile is one real call with its id, thread, start and end; there is one exactly for each call whose entry was delivered |
| CaptureTheorems.NeverOverlap | crates/slice-ebpf/bpf/slice.bpf.c:200-233 | two complete invocations of one thread in a captured profile never overlap in their interiors |
| CaptureTheorems.CaptureIsWellFormed | crates/slice-ebpf/src/lib.rs:563-657 | for every interleaving, loss and delivery order the captured profile passes validation |
| OffcpuTime.OffcpuWithinDuration | crates/slice-collector/src/lib.rs:346-356 | the off-CPU weights of an invocation of a captured profile sum to at most its duration |
| OffcpuExactness.OffcpuTimeExact | crates/slice-ebpf/bpf/slice.bpf.c:264-310 | without failure or loss the off-CPU weights of a valid captured invocation are exactly the time its thread was away |
| Correlator.Correlator.Push | crates/slice-collector/src/lib.rs:112-295 | one event takes the correlator and the profile to the state that the specification gives, in both modes |
| Correlator.Correlator.SourceEntry | crates/slice-collector/src/lib.rs:384-413 | a first entry fills the record and contradicts an earlier end that precedes it; a second one invalidates |
| Correlator.Correlator.SourceReturn | crates/slice-collector/src/lib.rs:415-447 | a return fills the end; a second one, another function, another thread or an end before the start invalidates |
| Correlator.Correlator.AppendSample | crates/slice-collector/src/lib.rs:449-471 | a sample is stored under the id of its frames, which is new exactly when the frames are |
| Correlator.Correlator.InvalidateHits | crates/slice-collector/src/lib.rs:301-317 | the nested loops over violations and records invalidate exactly the records hit and count every hit once |
| Correlator.Correlator.Finish | crates/slice-collector/src/lib.rs:299-382 | the profile is the finished one for some order in which the active invocations are handed out |
| SourceMode.PushAllRecords | crates/slice-collector/src/lib.rs:384-447 | after any consistent stream, in any order, every record holds exactly what the events of its id say |
| Counters.AnyStreamCounted | crates/slice-collector/src/lib.rs:112-295 | for any stream of both modes, mixed ones included, the generated and lost events and samples are counted one by one, capped |
| SourceRecords.RecordsSay | crates/slice-collector/src/lib.rs:384-447 | after any transport stream, contradictory ones included, each id mentioned has one record: it believes the first entry, ends with the last return, and is valid exactly if nothing in the stream contradicts it |
| SourceCalls.TransportCalls | crates/slice-collector/src/lib.rs:318-344 | for any transport stream the finished profile has one call for each id whose entry has come, in rising order of ids, with start, end, completeness and validity as the stream says |
| SourceCalls.TransportSamples | crates/slice-collector/src/lib.rs:345-356 | for any transport stream a sample is kept with its frames as often as the stream has it if it lies within a valid call, and not at all otherwise |
| Counters.TransportCounters | crates/slice-collector/src/lib.rs:112-367 | for any transport stream events, samples and losses are counted one by one, each violation adds a mismatch and one suspicion for each record it strikes, and each record adds its faults, all saturating |
| SourceFinish.FinishForm | crates/slice-collector/src/lib.rs:299-367 | for any stream of transport events the finished profile has exactly these invocations, kept samples with their frames, stacks and counters |
| OrderIndependence.DeliveryOrderIrrelevant | crates/slice-collector/src/lib.rs:299-447 | two orders of one consistent stream finish with the same invocations and counters and the same multiset of samples with frames |
| Interning.AppendResolves | crates/slice-collector/src/lib.rs:449-471 | a stored sample resolves to exactly the frames it came with, and storing it changes no earlier one |
| Interning.PushAllResolves | crates/slice-collector/src/lib.rs:258-286 | for any stream of both modes, while 32-bit ids last, the profile's samples resolve to the earlier ones followed by exactly the samples that valid active invocations received, with the frames they came with |
| SourceFinish.SamplesKeepFrames | crates/slice-collector/src/lib.rs:258-367 | for any stream of both modes and any end the finished samples resolve to those stored on the way and those committed from the records, each with the frames it came with |
| Interning.StacksAreInterned | crates/slice-collector/src/lib.rs:264-284 | for any stream and end no two stacks share frames, ids run from one and are distinct exactly while 32 bits suffice, and every sample refers to a stack |
| Accounting.CountersExact | crates/slice-collector/src/lib.rs:112-382 | for any stream of both modes the complete and incomplete counters are the numbers of such invocations, cut at the largest u64 |
| Accounting.LocalEntriesAccounted | crates/slice-collector/src/lib.rs:127-156 | for any stream of local events each entry has exactly one invocation, with the entry's number as its id and its function, thread and start |
| LocalMode.LocalCalls | crates/slice-collector/src/lib.rs:127-223 | for any stream of local events each entry has one call, completed or cut off by the next boundary of its thread or left open, valid exactly if that is its return in order, of its function, in time and with no violation between; ended calls come in the order in which they end |
| LocalMode.LocalSamples | crates/slice-collector/src/lib.rs:258-286 | for any stream of local events the profile holds, in order and with their frames, exactly the samples that come during a call that no violation has hit before |
| LocalMode.LocalCounters | crates/slice-collector/src/lib.rs:127-223 | for any stream of local events mismatches and suspicions are the sums of what each event adds, capped |
| ModeAgreement.ModesAgree | crates/slice-collector/src/lib.rs:112-382 | on loss-free traces whose thread clocks never go back, with samples during a call or after its return: if no locally valid call is tied, and while stack ids last only then, both modes report the same invocations up to renaming ids, and the same samples and frames for the complete valid ones |
| ModeAgreement.TiesAtEdges | crates/slice-collector/src/lib.rs:301-317 | a violation that lies in the span of a locally valid call has the time of its start or of its end |
| ModeAgreement.LateSampleTraced | crates/slice-ebpf/bpf/slice.bpf.c:232-233 | an entry, its return and then a sample still under the same id form such a trace |
| ModeAgreement.ViolationTieDiffers | crates/slice-collector/src/lib.rs:301-317 | a violation at the very time of an end leaves the call valid locally and makes it invalid in the source mode |
| ModeAgreement.EntryTieDiffers | crates/slice-collector/src/lib.rs:301-317 | a violation just before an entry of the same time does so too |
| ModeAgreement.SampleTieDiffers | crates/slice-collector/src/lib.rs:345-356 | a sample after the return but at its time is dropped locally and kept by the source mode |
| Validation.Validate | crates/slice-core/src/lib.rs:66-180 | the procedure answers the first fault in the order of its checks, and Ok exactly on well-formed profiles |
| Validation.FirstFaultDecides | crates/slice-core/src/lib.rs:66-180 | no fault is found if and only if ids are unique, references resolve, parent chains end, samples lie in invocations of their thread, and counters are consistent |
| ValidationFaults.FirstFaultIs | crates/slice-core/src/lib.rs:66-180 | the fault reported is the first in the order of the checks and names the version, id, reference, bounds, chain, thread or time that is wrong |
| Validation.IsCyclic | crates/slice-core/src/lib.rs:110-119 | the walk with its growing set of visited ids ends, and answers whether the parent chain never does |
| Validation.CycleErrorExact | crates/slice-core/src/lib.rs:105-119 | once the other invocation checks pass the cycle error is raised if and only if some parent chain never ends |
| Validation.UniqueIds | crates/slice-core/src/lib.rs:195-222 | the set of ids, or the first id that repeats an earlier one |
| TreeBuilders.TreeBuilder.Insert | crates/slice-core/src/lib.rs:409-417 | inserting into a tree of owned nodes in place adds the weight along the path and leaves every other node alone |
| TreeBuilders.TreeBuilder.Finish | crates/slice-core/src/lib.rs:419-429 | the finished node tree is that of the builder with children in the order of their names |
| FlameTrie.InsertAt | crates/slice-core/src/lib.rs:409-417 | insertion adds to exactly the prefixes of the labels, saturating |
| FlameTrie.TrieMeaning | crates/slice-core/src/lib.rs:409-417 | a path has a node exactly when it is a prefix of some hit, with the exact sum of the weights cut at the largest u64 |
| FlameTrie.BuildReorder | crates/slice-core/src/lib.rs:409-417 | the order of the samples does not change the tree |
| FlameTrie.FinishKeeps | crates/slice-core/src/lib.rs:419-429 | finishing keeps every path with its value and adds none |
| FlameTrie.FinishOrdered | crates/slice-core/src/lib.rs:419-429 | at every node the names of the children rise strictly |
| Ranks.RankExact | crates/slice-core/src/lib.rs:532-542 | a rank bound is the exact ceiling if and only if that ceiling is at most the largest usize divided by 100 |
| Ranks.RankIs | crates/slice-core/src/lib.rs:532-542 | in every case the rank is the least of the count, the ceiling and the saturated quotient |
| Ranks.CeilRankIs | crates/slice-core/src/lib.rs:532-542 | the intended rank of a whole percentile is that share of the count rounded up, the least integer not below it |
| LatencyWindow.ViewRankIs | crates/slice-render/src/lib.rs:142 | the viewer's rank of any percentile, whole or not, is the only integer k with k - 1 < share <= k |
| Ranks.PopulationSize | crates/slice-core/src/lib.rs:529-542 | the selection has between floor and ceiling of its share of the population, and exactly the floor up to p100 |
| Ranks.RangesMeet | crates/slice-core/src/lib.rs:532-542 | neighbouring ranges share their bound |
| Quantiles.R7Value | crates/slice-core/src/lib.rs:544-557 | the value at a percentile is that of the position that far from the first to the last, and between two positions in proportion |
| Quantiles.R7Clamps | crates/slice-core/src/lib.rs:545-549 | of no values there is none, and a percentile outside 0 to 100 is taken as the nearer bound |
| Quantiles.DurationValue | crates/slice-render/src/lib.rs:152 | the viewer reads durations off in the same way, and 0 if there are none |
| Quantiles.R7Monotone | crates/slice-core/src/lib.rs:544-557 | R-7 rises with the percentile from the minimum at 0 to the maximum at 100 |
| Quantiles.PercentileAtDuration | crates/slice-render/src/lib.rs:151 | the search loops of both sides compute the low and the high percentile of a duration |
| Quantiles.LowSideUndone | crates/slice-render/src/lib.rs:151-152 | the low side is undone by the interpolation for every value between minimum and maximum, and below the maximum it is the least percentile that is |
| LatencyWindow.SettleOnce | crates/slice-render/src/lib.rs:155-162 | the window settles at once: a second call with the same durations changes neither range nor window |
| LatencyWindow.WindowIs | crates/slice-render/src/lib.rs:155-162 | the settled window lies between the least and the greatest duration; one that lies there is kept, another is moved to the nearer end, and the first holds the durations of the range |
| LatencyWindow.RangeMoves | crates/slice-render/src/lib.rs:160 | a window with an extent gives the range its low and its high side |
| LatencyWindow.RangeStays | crates/slice-render/src/lib.rs:156-161 | without durations or without an extent the range stays |
| LatencyWindow.HighSideIs | crates/slice-render/src/lib.rs:151 | the high side of a duration is the position past all that are not greater, and between durations it is undone by the interpolation |
| LatencyWindow.LoadingKeepsRanks | crates/slice-render/src/lib.rs:142-168 | for a loaded query the ranks that the window leaves are the exact ceilings if and only if a stated condition on the sorted durations and the range holds |
| LatencyWindow.LoadedForm | crates/slice-render/src/lib.rs:142-168 | the viewer's ranks for a loaded query in closed form: an end read off between two durations keeps the exact ceiling, one read off at a duration moves past the smaller or the equal ones |
| LatencyWindow.DistinctDurationsKept | crates/slice-render/src/lib.rs:151-162 | for durations that all differ the condition holds exactly for fewer than two, for ranges up to p100, and where the upper percentile falls between two positions |
| LatencyWindow.WholeRangeKept | crates/slice-render/src/lib.rs:151-162 | the window never changes the ranks of p0:100 |
| LatencyWindow.UpperEdgeDiverges | crates/slice-render/src/lib.rs:151-168 | durations 1, 2, 3 at p0:50: the viewer ranks 0 to 3, the query 0 to 2 |
| LatencyWindow.TiesDiverge | crates/slice-render/src/lib.rs:151-168 | durations 1, 1, 1, 5 at p50:100: the viewer ranks 0 to 4, the query 2 to 4 |
| Queries.ExecuteQuery | crates/slice-core/src/lib.rs:432-527 | the filtering, sorting, sample and totals loops give the answer or error that `AnswerMeaning` describes |
| QueryTheorems.CandidatesAre | crates/slice-core/src/lib.rs:440-457 | the candidates are exactly the eligible invocations, sorted by duration and id |
| QueryTheorems.SelectionOrdered | crates/slice-core/src/lib.rs:457-469 | nothing ranked before the selection is slower and nothing after it is faster than anything in it |
| AnswerMeaning.PopulationIs | crates/slice-core/src/lib.rs:440-457 | the candidates are the complete valid calls of the function, on a queried thread and started in the queried time, end excluded, the shorter first and the smaller id first |
| AnswerMeaning.SelectionIs | crates/slice-core/src/lib.rs:463-464 | the selection is the block of the candidates between the two rounded shares |
| QueryTheorems.SelectionSize | crates/slice-core/src/lib.rs:463-464 | the size of the selection is the exact share, rounded |
| QueryTheorems.LatencyBounds | crates/slice-core/src/lib.rs:509-516 | the reported latency bounds are the durations of the first and last selected invocation and bound all others |
| QueryTheorems.CutMeaning | crates/slice-core/src/lib.rs:490-495 | a stack is cut at its first frame of the queried function |
| QueryTheorems.FlameMeaning | crates/slice-core/src/lib.rs:481-527 | in an answer a path has a node exactly when the cut stack of some included sample begins with it, with the saturated exact sum, and children are strictly ordered |
| AnswerMeaning.TreeSays | crates/slice-core/src/lib.rs:481-527 | at every path the value is the capped sum over the selected samples of the queried metric whose stack, cut at the first frame with the id or the name of the function, begins with it; a node is there exactly if there is such a sample |
| AnswerMeaning.TotalsSay | crates/slice-core/src/lib.rs:484-503 | the two totals are the capped sums of the counted on-CPU and off-CPU samples |
| AnswerMeaning.OtherMetricsEmpty | crates/slice-core/src/lib.rs:323-331 | a CPU answer reports no off-CPU time, and an off-CPU answer no CPU time |
| AnswerMeaning.NumbersSay | crates/slice-core/src/lib.rs:506-520 | ids in the order of the selection, the size of the population, and the lengths of the first and last selected call |
| AnswerMeaning.PercentilesSay | crates/slice-core/src/lib.rs:517-518 | the two percentile values are the R-7 quantiles of the population's lengths at the two ends of the range |
| AnswerMeaning.ErrorsSay | crates/slice-core/src/lib.rs:432-490 | an illegal range, an empty time and the first counted sample without a stack are reported as such, in that order, and otherwise there is an answer |
| QueryTheorems.PercentilesAdd | crates/slice-core/src/lib.rs:458-504 | for a < b < c the selection of a:c is that of a:b followed by that of b:c, and the tree and totals of its answer are the sums of those of the two answers at every path |
| QueryTheorems.MetricsAdd | crates/slice-core/src/lib.rs:323-331 | the tree and totals of the wall answer are the sums of those of the CPU and the off-CPU answer at every path |
| QueryIndependence.QueriesSucceed | crates/slice-core/src/lib.rs:432-438 | on a valid profile a query succeeds if and only if its ranges are legal |
| QueryIndependence.InvisiblePopulations | crates/slice-core/src/lib.rs:440-504 | deleting all incomplete or invalid invocations with their samples changes no answer |
| QueryIndependence.NumberingIrrelevant | crates/slice-core/src/lib.rs:471-504 | no answer depends on the order of the samples or the numbering of the stacks |
| EndToEndQueries.QueriedOffcpuBounded | crates/slice-core/src/lib.rs:484-503 | for every run and loss a query's off-CPU total is at most the total duration of the invocations it selects |
| EndToEndQueries.DeliveryOrderInvisible | ARCHITECTURE.md:138-141 | for every run and query the answer on the captured profile is the same for every delivery order |
| ViewerScript.ViewState.constructor | crates/slice-render/src/lib.rs:122-131 | the initial state is the loaded query: missing threads and time filled in, the time clamped to the capture, an empty one reset |
| Loading.StartsWithin | crates/slice-render/src/lib.rs:122-125 | every invocation starts within the capture bounds, the upper one included |
| Loading.BoundsAre | crates/slice-render/src/lib.rs:122-125 | every start, end and sample time lies within the bounds, which are such times themselves unless all are equal; without any they are 0 and 1 |
| Loading.LoadedTimeIs | crates/slice-render/src/lib.rs:128-131 | the loaded time is the part of the asked one inside the bounds, and all of them if there is none |
| Loading.LoadingKeepsPopulation | crates/slice-render/src/lib.rs:122-154 | for every legal query on a valid profile, with or without threads and time, the viewer lists the population of the query if and only if a stated condition on the asked time, the bounds and the starts holds |
| ViewerScript.ViewState.SyncLatencyWindow | crates/slice-render/src/lib.rs:155-162 | the state's window and percentile range end up settled for the given durations |
| ViewerScript.ViewState.Calculate | crates/slice-render/src/lib.rs:164-179 | the code settles the window, chooses by the settled range, and gives the list, the tree, the totals and the window that `PictureMeaning` describes |
| ViewerScript.ViewNode.Walk | crates/slice-render/src/lib.rs:175-176 | one sample's descent through owned mutable nodes changes the counts along its path and nothing else |
| PictureMeaning.ListShows | crates/slice-render/src/lib.rs:154 | the list has the complete valid calls that the view admits, the shorter first and the smaller id first |
| PictureMeaning.ChoiceShows | crates/slice-render/src/lib.rs:167 | the chosen calls are the block of the list between the ranks of the settled range |
| PictureMeaning.TotalsShow | crates/slice-render/src/lib.rs:168-174 | the sample count is over the drawn samples of the metric, the two totals over all drawn samples of a state |
| PictureMeaning.NodesShow | crates/slice-render/src/lib.rs:175-176 | every node's six counts are sums over the drawn samples whose cut stack begins with its path |
| Viewer.ViewerMeaning | crates/slice-render/src/lib.rs:176 | every node counts exactly the samples whose cut stack begins with its path: value, self value, samples, invocations, CPU and off-CPU time |
| Viewer.ViewerConserves | crates/slice-render/src/lib.rs:176 | at every node the value is the self value plus the values of the children |
| ViewerSelection.AllRetained | crates/slice-render/src/lib.rs:128-154 | when the asked time overlaps the capture the viewer lists the candidates in their order, but for those that start at its end |
| ViewerSelection.SelectionExact | crates/slice-render/src/lib.rs:122-168 | for every legal query on a valid profile the viewer chooses what the query selects if and only if a stated condition on the ranks and on the starts of the selected calls holds |
| ViewerSelection.SameSelection | crates/slice-render/src/lib.rs:142-168 | when loading keeps the population, and while ranks are exact, the viewer chooses what the query selects if and only if its window keeps the ranks or both choose nothing |
| ViewerSelection.WholeSelection | crates/slice-render/src/lib.rs:122-168 | for p0:100, while ranks are exact, the viewer chooses what the query selects if and only if loading keeps the population |
| ViewerSelection.EndCallHidden | crates/slice-render/src/lib.rs:125-154 | of calls 0 to 10 and 20 to 20, with no time or a covering one, a query for p0:100 selects both and the viewer chooses the first |
| ViewerSelection.BehindShown | crates/slice-render/src/lib.rs:129-131 | for a time behind that capture the query selects nothing and the viewer chooses the first call |
| Agreement.AggregationsAgree | crates/slice-render/src/lib.rs:164-179 | for the same selected ids, whatever they are, at every path the query's value is the viewer's cut at the largest u64, so both have the same nodes of positive value |
| Agreement.ViewerAgrees | crates/slice-render/src/lib.rs:122-179 | for every legal query on a valid profile, the ids, tree values and included totals that the viewer shows are those of the answer if and only if it has chosen the selected invocations |
| Agreement.ViewerShows | crates/slice-render/src/lib.rs:122-179 | the viewer shows the answer if and only if the condition on ranks and starts holds |
| Agreement.WholePopulationAgrees | crates/slice-render/src/lib.rs:122-179 | a query for p0:100 is shown as it is answered, while ranks are exact, if and only if loading keeps the population |

## Left out

- Probe attachment, perf descriptors, ring polling, signals, `/proc` parsing and doctor checks: input, output and foreign calls.
- The missing configuration record: the config map is an array whose slot always exists, so its null checks never fire; diagnostic counters and the observed process id feed only messages.
- The capacity of the kernel maps: a full map is the failing update that every action may choose.
- KernelInvariant.RunsKeep: a scheduler switch and a perf sample are single steps, so a perf interrupt inside a switch, and under stale translations the handlers of another CPU, are not interleaved with their effects.
- Exhaustion of the 64-bit id counter: the handlers wrap it, but a step of the machine takes an id only while one is left, so no run reuses an id.
- The two deletions of the translation maps in a return are one step: the thread is already unlinked, so no other handler distinguishes their order.
- Stack unwinding and symbolization: a stack is the list of frames that its slot has, and resolved frames carry no function id.
- Metadata, function build ids and source positions, and the encoding of profiles to files: no modelled property reads them.
- CaptureTheorems.CaptureIsWellFormed: the number of delivered records is taken to fit a 64-bit counter, as every vector length does.
- LocalMode.LocalCalls: stated while the local id counter has not saturated, like the samples and counters of the local mode.
- Accounting.LocalEntriesAccounted: stated while the local id counter has not saturated, since saturation repeats the last id.
- ModeAgreement.ModesAgree: stated for traces in which a return names the function of its entry, as the adapter always does; mismatch counters are not compared, since the source mode counts one for a sample after the return of a valid call and the local mode does not.
- OrderIndependence.DeliveryOrderIrrelevant: the multiset of samples with frames is compared while 32-bit stack ids last.
- Binary floating point and the viewer's number type: percentiles and R-7 are over exact reals and the viewer's counts are exact naturals.
- The order in which the viewer shows the children of a node is not modelled.
- Record values (invocations, stacks, samples) are values; the vectors and maps that hold them are fields of the classes.
- Library sorting: a stable sort is its specification, applied in place.
- Streams that mix events with and without transport ids: the counters and interning are proved for them, the uniqueness of ids is not, because both kinds draw on one number space.
- The viewer's moves of the latency window by mouse: `Settle` takes any window, but what a drag makes of it is not modelled.
- Drawing, mouse input, tooltips, the histogram, the command line and the repository checks: user interface and tooling, without properties of this kind.

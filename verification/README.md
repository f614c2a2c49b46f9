# zipkin-go in Dafny

A model of the parts of zipkin-go that decide, propagate, finish and deliver spans, with proofs of what they
guarantee. `dafny verify dfyconfig.toml` checks the whole project. Nothing was executed.

## What is modelled

- **Identifiers and the B3 codec** (`Hex`, `Model`, `B3Codec`, `B3Theorems`, `B3Grammar`, `IdJson`). Hex text and
  `strconv.ParseUint(s, 16, 64)` with its range check, 128-bit trace ids, the parser of the five B3 headers, the
  fixed-offset parser and the printer of the single `b3` header. The single-header parser has an explicit
  out-of-bounds outcome, because line 130 slices up to index 49 while line 110 admits 33 characters.
- **Carriers** (`B3Carriers`, `CarrierTheorems`, `Extraction`). HTTP requests (a set replaces, a get reads the first value),
  plain maps, and gRPC metadata (a set appends, a get reads the last value), as objects mutated in place, with
  the injection options and the single-or-multi fallback.
- **Samplers** (`Counting`, `Samplers`, `Reservoir`, `Uniformity`, `CountingSampler`). The boundary sampler over
  the 64-bit space, in-place reservoir sampling over two arrays, the uniformity of that algorithm, and the
  cyclic counter over its result.
- **Tracer and spans** (`Spans`, `Tracer`, `TraceChain`, `StartedSpans`, `SpanFinish`). Span options with the extraction failure
  policies, `StartSpan` with default tags, root, child and joined spans and the sampling decision; the
  whole-trace theorem over chains of local and remote hops; and finishing as a protocol of concurrent callers
  around one compare-and-swap. The id generator, the sampler and the clock are a `Supply` of the answers they
  would give during one call.
- **The HTTP batch reporter** (`BatchReporter`, `ReporterSafety`, `ReporterTheorems`,
  `ReporterSignals`, `SliceAliasing`). The
  critical sections as methods on the shared batch; the two goroutines, the capacity-one signal channel, `quit`
  and `Close` as a transition system whose events are the atomic steps, with any interleaving; and below it the
  batch as Go slices over shared backing arrays, with any growth of those arrays.
- **Protobuf and JSON numbers** (`ProtoSpans`, `ProtoTheorems`, `SpanJson`). The span mapping in both directions
  with wrapping, truncating and rounding integer conversions, big-endian bytes, and the hex route of trace ids.

A Go string is a sequence of bytes; a `char` stands for one byte. `uint64` and `int64` are bounded integers, and
every conversion that wraps or truncates is written out. nil and empty slices or maps are one value.

## Where the code differs from what one would expect

- `ParseSingleHeader` looks at no separator except the character at index 16: any other may be any character
  (`SeparatorsIgnored`). The "Single Header" section of the B3 Propagation specification separates all fields by
  hyphens; the accepted headers that conform are exactly those with a hyphen at every separator position
  (`HyphenatedExactly`), and 49 times the letter a is accepted without any (`AcceptedWithoutHyphens`). On the
  inputs of `OutOfBoundsExactly` the parser indexes out of bounds; the shortest has 33 characters
  (`OutOfBoundsExample`).
- A request is removed from the batch by its length. The positions removed are those sent if and only if nothing was
  disposed of while the request was in flight (`RemovalExactIff`). Else, after k disposals, the k positions after
  the request's are out of the batch and never delivered, whatever follows (`RemovalLaw`, `RemovalLoss`);
  `RemovalLosesUnsent` is such a run, and `EveryFateOnce` counts the spans removed unsent. The comment at
  `reporter/http/http.go:179` speaks of removing the sent spans.
- The comment on `MaxBacklog` says that spans are disposed of when the size reaches it; the code disposes of spans
  beyond it, and an append keeps all spans if and only if the size stays within it (`AppendKeepsAll`,
  `AppendAtTheLimit`).
- Under `ExtractFailurePolicyError` the panic value is nil: the error raised is that of the span under
  construction, which is never set (`StartPanics`).
- Annotation times before the epoch do not survive protobuf even at whole microseconds, because the conversion to
  `uint64` comes before the division; span timestamps do (`PreEpochAnnotationsShift`).
- The last 500 nanosecond durations wrap around and are written as a negative JSON field (`DurationFieldValid`).
- A failed `ID.UnmarshalJSON` overwrites its receiver, a failed `TraceID.UnmarshalJSON` does not (`FailedDecoding`).

## Model

| member | source | states |
|---|---|---|
| Hex.ParseUintCharacterised | propagation/b3/spancontext.go:66-72 | base-16 ParseUint with its early range check accepts exactly the nonempty hex strings of value below 2^64, at any length, and returns that value |
| Hex.ParseHex16 | model/span_id.go:25-28 | printing with %016x and parsing is the identity on 64-bit numbers |
| Model.TraceIDFromHexCharacterised | model/traceid.go:43-53 | succeeds iff the text is nonempty hex of value below 2^128, and then High*2^64 + Low is that value |
| Model.TraceIDFromHexInvertsString | model/traceid.go:34-53 | parsing inverts String for every trace id, 64 or 128 bits |
| IdJson.TraceIDVar.UnmarshalJSON | model/traceid.go:63-75 | the receiver is written only after a successful parse of the text between the quotes; under three bytes is an error |
| IdJson.IDVar.UnmarshalJSON | model/span_id.go:36-44 | the receiver takes ParseUint's number also next to an error; under three bytes nothing happens and no error is given |
| IdJson.JsonRoundTrip | model/span_id.go:30-44 | trace ids and span ids survive their JSON form |
| IdJson.FailedDecoding | model/span_id.go:36-44 | iff: when decoding fails, for trace ids and for span ids; a failure leaves a trace id as it was, and in a span id the largest number if the leading digits exceed 64 bits, else 0 |
| IdJson.SuccessfulDecoding | model/traceid.go:63-75 | a decoded id is the number the digits between the quotes denote, at any length |
| B3Codec.ParseHeaders | propagation/b3/spancontext.go:26-90 | the stepwise parser returns the first fault in the order Sampled, TraceID, SpanID, scope, parent, or the context the headers spell |
| B3Codec.ParseSingleHeader | propagation/b3/spancontext.go:94-179 | the fixed-offset parser agrees with the layout-directed reading, including where it indexes out of bounds |
| B3Codec.BuildSingleHeader | propagation/b3/spancontext.go:182-203 | the header is the join of identifiers, sampling state and parent id, each when present |
| B3Theorems.ParseMultiAccepts | propagation/b3/spancontext.go:26-90 | iff: acceptance and the resulting context in terms of hex values and sampling words, independent of the parser |
| B3Theorems.ParseMultiRejects | propagation/b3/spancontext.go:26-90 | iff: each error is returned exactly when its fault is the first in the source's order, with faults in terms of words in any case, hex digits and values; nothing is out of bounds |
| B3Theorems.ParseSingleAccepts | propagation/b3/spancontext.go:94-179 | iff: a header is accepted with a context exactly when it denotes it under the layout predicate |
| B3Theorems.ParseSingleRejects | propagation/b3/spancontext.go:94-179 | iff: a header is rejected exactly when it has a fault, with that fault's error; together with the previous and next row every input is covered |
| B3Theorems.OutOfBoundsExactly | propagation/b3/spancontext.go:110-130 | iff: 33 to 48 characters, no hyphen at index 16, and two leading groups of 16 hex digits |
| B3Grammar.OutOfBoundsExample | propagation/b3/spancontext.go:110-130 | 33 times the letter a is such an input |
| B3Grammar.SeparatorsIgnored | propagation/b3/spancontext.go:110-164 | whatever the header, changing the character at any separator position other than 16 changes nothing about the outcome |
| B3Grammar.HyphenatedExactly | propagation/b3/spancontext.go:104-179 | iff: the headers of the hyphenated grammar are exactly the accepted ones with hyphens at all separator positions |
| B3Grammar.AcceptedWithoutHyphens | propagation/b3/spancontext.go:115-135 | 49 times the letter a is accepted and not hyphenated |
| B3Grammar.BuiltIsHyphenated | propagation/b3/spancontext.go:182-203 | iff: which built headers conform to the hyphenated grammar, for every context |
| B3Theorems.AcceptedShapes | propagation/b3/spancontext.go:104-178 | accepted lengths are 1, 33, 35, 52 or 49, 51, 68 by width; an accepted parent id implies a sampling state |
| B3Theorems.ParseBuildSingle | propagation/b3/spancontext.go:94-203 | what parsing a built header gives, for every context: the normal form or one of four errors; never out of bounds |
| B3Theorems.ParseBuildParse | propagation/b3/spancontext.go:94-203 | parse-build-parse equals parse iff the context carries nonzero identifiers, or nothing but a sampling state |
| B3Theorems.BuildInjective | propagation/b3/spancontext.go:182-203 | equal headers come only from contexts with equal normal forms, for any two contexts, readable or not |
| B3Carriers.ResolveOptions | propagation/b3/http.go:33-49 | folding the options over the defaults leaves what the last one says |
| B3Carriers.ExtractSingleOrMulti | propagation/b3/http.go:64-85 | a readable single header wins, else the multi headers, and with both bad the single header's error |
| B3Carriers.MapCarrier.Extract | propagation/b3/map.go:26-59 | the same decision over a map |
| B3Carriers.MapCarrier.Inject | propagation/b3/map.go:62-101 | an empty context is refused and changes nothing; otherwise the map holds exactly the fields of the context in addition |
| B3Carriers.HTTPRequest.Extract | propagation/b3/http.go:53-87 | the same decision over the first header values |
| B3Carriers.HTTPRequest.Inject | propagation/b3/http.go:90-129 | as for maps, each field replacing the values of its header |
| B3Carriers.GRPCMetadata.Extract | propagation/b3/grpc.go:26-41 | only the multi headers are read, the last value of each |
| B3Carriers.GRPCMetadata.Inject | propagation/b3/grpc.go:44-73 | as for maps, each field appended |
| Extraction.MapExtracts | propagation/b3/map.go:26-59 | iff: over any map, the context or error: a readable single header decides whatever the other keys hold, a faulty one falls back to the multi headers, and with both bad its error is given; and when the read is out of bounds |
| Extraction.HTTPExtracts | propagation/b3/http.go:53-87 | iff: the same over any request, with the first value of each header |
| Extraction.GRPCExtracts | propagation/b3/grpc.go:26-41 | iff: over any metadata the last values of the multi headers alone decide |
| Extraction.SingleHeaderDecides | propagation/b3/http.go:71-76 | an unsampled single header next to sampled multi headers with identifiers: the context is unsampled |
| Extraction.WrittenFields | propagation/b3/http.go:90-129 | iff: which of the six keys are written for which options and contexts, and their wire values: "1" and "0", small hex digits padded to 16, 32 digits only for a wide trace id |
| Extraction.MapWrites | propagation/b3/map.go:68-100 | a written key holds its value, every other key what it held |
| Extraction.HTTPWrites | propagation/b3/http.go:97-126 | a written header holds that one value only, every other header what it held |
| Extraction.GRPCWrites | propagation/b3/grpc.go:44-87 | a written key has its value after those it had, every other key what it had |
| CarrierTheorems.MapReads | propagation/b3/map.go:26-101 | after an injection a key reads what was written there, else what it read before, whatever the carrier held |
| CarrierTheorems.HTTPReads | propagation/b3/http.go:53-129 | the same with replacing and first values |
| CarrierTheorems.GRPCReads | propagation/b3/grpc.go:44-87 | the same with appending and last values |
| CarrierTheorems.ParseBuiltMulti | propagation/b3/http.go:101-121 | the multi headers of a context parse to its normal form, for every context |
| CarrierTheorems.CarriersAgree | propagation/b3/grpc.go:26-87 | default inject then extract gives the same normal form over HTTP, map and gRPC carriers without B3 keys |
| CarrierTheorems.HTTPRelays | propagation/b3/http.go:53-129 | for any options: single and multi extracts what multi alone does; single alone the normal form, or the empty context without error when unreadable |
| CarrierTheorems.MapRelays | propagation/b3/map.go:26-101 | the same over a map |
| CarrierTheorems.GRPCRelays | propagation/b3/grpc.go:26-73 | inject then extract over gRPC metadata gives the normal form |
| CarrierTheorems.SingleOnlyLoses | propagation/b3/http.go:123-125 | iff: when the single header alone loses information |
| CarrierTheorems.OtherKeysKept | propagation/b3/map.go:68-100 | all other keys keep their values over the three carriers |
| Samplers.XorBits | sample.go:72 | the exclusive or used is bitwise exclusive or |
| Samplers.XorInvolution | sample.go:70-72 | for a fixed salt it is its own inverse on the id space |
| Samplers.BoundaryCount | sample.go:63-73 | for every salt exactly twice the boundary many ids are accepted |
| Samplers.BoundarySamplerCount | sample.go:52-74 | for every accepted rate exactly 2*floor(rate*2^63) of 2^64 ids, within 2 of the proportion |
| Samplers.BoundarySamplerExactly | sample.go:52-74 | iff: an id is taken when, with the bits of the salt in two's complement flipped, it is below 2*floor(rate*2^63); for every accepted rate |
| Samplers.BoundarySamplerMonotone | sample.go:63-73 | raising the rate under one salt only adds ids |
| Samplers.ModuloCount | sample.go:40-47 | for every mod one id in every mod is accepted, the ceiling of 2^64 / mod; 0 counts like 1 |
| Samplers.ModuloSamplerExactly | sample.go:40-47 | iff: the ids taken are the multiples of the modulus, and all for a modulus below 2 |
| Reservoir.ChosenDistinct | sample.go:116-129 | the slots stay distinct and within the positions seen |
| Reservoir.ChosenBySlot | sample.go:116-129 | each slot holds the position of the last round that drew it, else its first occupant |
| Reservoir.RandomBitSet | sample.go:114-131 | the in-place algorithm sets exactly the chosen positions and exactly cardinality bits, for every random sequence |
| Uniformity.Uniform | sample.go:114-131 | every target set of cardinality positions is produced by exactly (size-cardinality)! answer sequences |
| Uniformity.AllDrawsCount | sample.go:122-123 | there are size!/cardinality! answer sequences in all |
| Uniformity.EverySequenceHitsATarget | sample.go:114-131 | each answer sequence produces one such set |
| CountingSampler.PlanFor | sample.go:80-92 | accepted rates are 0 and 0.01 to 1; apart from 0 and 1 the number of hundredths is the one nearest to the rate, half way up, from 1 to 100 |
| CountingSampler.Sampler.constructor | sample.go:90-95 | the decisions hold exactly outOf100 trues |
| CountingSampler.Sampler.Sample | sample.go:97-106 | answers at the counter and advances it cyclically |
| CountingSampler.Sampler.SampleAll | sample.go:97-106 | any hundred consecutive calls from any counter state answer true exactly as often as there are true decisions |
| CountingSampler.FullTurn | sample.go:97-106 | a full turn from anywhere counts every decision once |
| BatchReporter.AppendInBounds | reporter/http/http.go:122-127 | the backlog cut is in bounds iff maxBacklog is not negative |
| BatchReporter.AppendKeepsAll | reporter/http/http.go:122-127 | iff: an append keeps all spans exactly when the new size is within maxBacklog, so also when it reaches it |
| BatchReporter.AppendAtTheLimit | reporter/http/http.go:122-127 | a second span at a limit of two disposes of nothing |
| BatchReporter.HTTPReporter.Append | reporter/http/http.go:119-132 | appends, keeps the newest maxBacklog spans, and returns the size |
| BatchReporter.HTTPReporter.EnqueueSend | reporter/http/http.go:111-117 | afterwards the signal channel holds a token |
| ReporterSafety.StepKeepsInv | reporter/http/http.go:76-185 | every atomic step of loop, sender and Close keeps the invariant |
| ReporterSafety.InvariantHolds | reporter/http/http.go:76-185 | in every interleaving the batch is a bounded suffix of the accepted spans, removed requests carry disjoint increasing contiguous blocks, and nothing is out of bounds |
| ReporterTheorems.RemovalLaw | reporter/http/http.go:137-182 | with k disposals in flight the slice is in bounds and the batch starts k positions after the block; with none exactly the sent spans go |
| ReporterTheorems.RemovalExactIff | reporter/http/http.go:137-182 | iff: the removal takes exactly the positions sent when nothing was disposed of since the snapshot |
| ReporterTheorems.RemovalLoss | reporter/http/http.go:137-182 | after k disposals in flight the k positions after the block are, in every continuation of the run, out of the batch, in no request that went through, and accounted for: disposed of if before the batch's start at the removal, else removed |
| ReporterTheorems.RemovalLosesUnsent | reporter/http/http.go:122-182 | a run in which a span that was neither sent nor disposed of is gone |
| ReporterTheorems.EveryFateOnce | reporter/http/http.go:119-185 | every accepted span is in exactly one of: sent, disposed of unsent, removed unsent, waiting; and the removed unsent are as many as the disposed of but sent |
| ReporterTheorems.Shutdown | reporter/http/http.go:71-109 | when Close returns nil the loop has stopped, the batch is empty and, without disposals, the payloads are all accepted spans in order; with an error the batch is the unsent suffix |
| ReporterTheorems.NothingAfterClose | reporter/http/http.go:71-109 | after Close has returned no step is possible |
| ReporterTheorems.NeverSignalsClosed | reporter/http/http.go:97-117 | the loop never sends on the closed channel |
| ReporterTheorems.LeavesByDisposalOrRemoval | reporter/http/http.go:119-185 | over any run the positions that come to lie before the batch are exactly those newly disposed of and those newly removed |
| ReporterTheorems.NoLostWakeup | reporter/http/http.go:86-117 | after a trigger and until the next snapshot a token waits or the sender is about to take one, and every span present at the trigger still waits or was disposed of or removed |
| ReporterTheorems.SnapshotTakesAll | reporter/http/http.go:134-142 | a snapshot of a nonempty batch is a request for all positions from its start to the last accepted span |
| ReporterTheorems.TriggerReachesSnapshot | reporter/http/http.go:86-138 | at the first snapshot after a trigger every span present at the trigger is in the request made, or was disposed of or removed |
| ReporterSignals.SignalsExactly | reporter/http/http.go:87-98 | iff: the loop signals next after a due tick, or after an append that leaves the batch at batchSize or above |
| ReporterSignals.FullBatchSignals | reporter/http/http.go:88-92 | after such an append and until the next snapshot the loop is about to signal, a token waits, or the sender is about to snapshot |
| ReporterSignals.FullBatchIsSent | reporter/http/http.go:88-138 | and a snapshot after it takes every span accepted so far, the last one included, unless disposed of or removed |
| ReporterSignals.AnswerDecides | reporter/http/http.go:134-185 | a failed request leaves the batch and all records alone and is what Close reports if it was the last; an answered one is removed and recorded, whatever the loop does meanwhile |
| ReporterSignals.AcceptsWhatItReceives | reporter/http/http.go:86-132 | over any run the accepted spans are those received, in order, without loss or repetition |
| ReporterSignals.SnapshotsMatchSignals | reporter/http/http.go:104-117 | over any run snapshots are at most the signals and one more after closing; each token is used once |
| ReporterSignals.CloseCanReturn | reporter/http/http.go:71-109 | no deadlock: from every reachable state some continuation ends with Close returning, and with nil unless the last request has failed already |
| SliceAliasing.GoAppendLeaves | reporter/http/http.go:122 | an append leaves every window that ends no later than the slice unchanged, although it may share its array |
| SliceAliasing.GoAppendWrites | reporter/http/http.go:122 | where an append writes: with capacity into the one slot behind the slice of the shared array, else into a new array |
| SliceAliasing.SnapshotNeverChanges | reporter/http/http.go:119-182 | in every run, however arrays grow, the slices represent the batch and the in-flight snapshot reads the spans it was taken with |
| Tracer.SpanImpl.Tag | span_implementation.go:65-77 | the first error tag wins, any other key is overwritten |
| Tracer.SpanImpl.Finish | span_implementation.go:79-88 | only the first finish of a span to be collected sets the elapsed duration and, if asked to, sends |
| Tracer.SpanImpl.FinishedWithDuration | span_implementation.go:90-99 | the same with a given duration |
| Tracer.SpanImpl.Flush | span_implementation.go:101-107 | sends exactly when the decision is to sample |
| Tracer.SpanImpl.Apply | span_options.go:28-88 | each option's effect, or the panic of a failed parent under the policy |
| Tracer.SpanImpl.SetTags | span_options.go:71-77 | the tags override, in whatever order they are visited |
| Tracer.TracerImpl.SetNoop | tracer.go:184-190 | the compare-and-swaps set the switch |
| Tracer.TracerImpl.StartSpan | tracer.go:84-166 | the stepwise construction gives the span, noop span or panic of the specification, and the sampler is called as it says |
| Tracer.TracerImpl.StartSpanFromContext | tracer.go:75-81 | the parent from the context comes after all other options |
| Tracer.TracerImpl.AddDefaultTags | tracer.go:113-116 | all default tags are set, in whatever order they are visited |
| TraceChain.OptionsDetermine | tracer.go:118-121 | the last error-free parent and the last kind decide the context and the kind |
| TraceChain.OptionsPanic | span_options.go:35-53 | options panic iff a parent's extraction failed under the error policy or an unknown one, and with which value |
| TraceChain.StartPanics | span_options.go:37-47 | the same for StartSpan; under the error policy the value is nil |
| TraceChain.StartDetermined | tracer.go:123-151 | the started context from the last parent and kind alone; the sampler is asked iff that parent carries no decision |
| TraceChain.StartedSpanIsDecided | tracer.go:140-158 | started spans carry a decision and no error, mustCollect equals the decision, and noop spans are exactly the unsampled ones when asked for |
| StartedSpans.RecordedFields | tracer.go:101-163 | every field of a recorded span: name, kind, endpoints, start time, shared flag, and flush-on-finish, each from the last option that speaks of it or the default |
| StartedSpans.RecordedTags | tracer.go:113-121 | every tag of a recorded span, key by key: the last of the Tags options and extraction errors, else the default tag |
| StartedSpans.NoopStarts | tracer.go:85-99 | a noop tracer hands on the context of the last valid parent and asks no sampler |
| StartedSpans.ExtractedContext | tracer.go:169-179 | what Extract returns: the context, or the error and nothing else; nothing at all when noop |
| StartedSpans.FailedExtractionRestarts | span_options.go:35-53 | a span after a failed extraction starts as without a parent, apart from the error tag if asked for, or panics, by policy |
| StartedSpans.ElapsedExactly | span_implementation.go:79-88 | the duration of Finish is the time since the start, saturating at 64 bits |
| StartedSpans.TagHistory | span_implementation.go:65-77 | over any calls of Tag the last value of a key wins, but the first error |
| TraceChain.WireDelivers | propagation/b3/http.go:53-129 | a decided context with identifiers arrives in normal form over every carrier and option |
| TraceChain.HopLinks | tracer.go:118-151 | one local or remote hop starts a linked span and asks no sampler |
| TraceChain.WholeTrace | tracer.go:84-179 | over any chain of hops every span has the first one's trace id, decision and debug flag, is linked to its predecessor, and no sampler is asked |
| TraceChain.RootIsPortable | tracer.go:123-146 | a root takes the generated ids and can begin such a chain; a decision from upstream is kept without asking the sampler, else the sampler is asked once and decides |
| SpanFinish.StepKeepsInv | span_implementation.go:79-107 | every step of every caller keeps the finish invariant |
| SpanFinish.SendsMatchCalls | span_implementation.go:79-107 | at every moment of every interleaving the sends are the completed flushes, plus one for a completed finish with flush-on-finish, if sampled, else none; one finish wins and its duration is sent |
| SpanFinish.EachSendsOnce | span_implementation.go:79-107 | at every moment each completed flush of a sampled span has sent exactly once, the winning finish exactly once if it has completed under flush-on-finish, and nobody else |
| SpanFinish.TotalSends | span_implementation.go:79-107 | when all calls have returned the number of sends depends on the calls alone |
| SpanFinish.FinishedSpanIsSent | span_implementation.go:79-99 | a sampled span is sent exactly once by however many finishes, if its last FlushOnFinish option is true or there is none, else never |
| SpanFinish.SentModels | span_implementation.go:79-107 | everything sent is the span as started, with the duration it started with or that of the winning finish |
| SpanFinish.FinishAlone | span_implementation.go:90-99 | undisturbed, the steps of the protocol are the method |
| ProtoSpans.ModelAnnotationsToProtoAnnotations | proto/zipkin_proto3/encode_proto.go:115-123 | one entry for each annotation, in order |
| ProtoSpans.ModelSpanToProtoSpan | proto/zipkin_proto3/encode_proto.go:51-88 | filling the buffers gives the encoded span; nil is an error |
| ProtoSpans.Serialize | proto/zipkin_proto3/encode_proto.go:31-44 | all spans encoded in order, or an error iff one is nil |
| ProtoSpans.ProtoAnnotationsToModelAnnotations | proto/zipkin_proto3/decode_proto.go:131-144 | the entries that are not nil, in order |
| ProtoSpans.ParseSpans | proto/zipkin_proto3/decode_proto.go:36-49 | the spans decoded before the first failure, with that failure |
| ProtoTheorems.HexPathIsBigEndian | proto/zipkin_proto3/decode_proto.go:57-63 | the trace id read through hex text is the pair of big-endian numbers, and reading 16 bytes never fails |
| ProtoTheorems.TimestampStable | proto/zipkin_proto3/encode_proto.go:68-71 | encode-decode-encode of a timestamp equals encode, for every instant |
| ProtoTheorems.TimestampSurvives | proto/zipkin_proto3/encode_proto.go:68-71 | iff: which timestamps come back unchanged |
| ProtoTheorems.DurationStable | proto/zipkin_proto3/encode_proto.go:82 | durations are stable, and unchanged iff whole microseconds |
| ProtoTheorems.AnnotationTimeSurvives | proto/zipkin_proto3/encode_proto.go:125-130 | iff: which annotation times come back unchanged |
| ProtoTheorems.PreEpochAnnotationsShift | proto/zipkin_proto3/encode_proto.go:125-130 | among whole microseconds exactly those from the epoch on survive as annotation times, all as timestamps |
| ProtoTheorems.WireIDs | proto/zipkin_proto3/encode_proto.go:56-66 | ids are 16 and 8 bytes whose big-endian number is the id; a missing parent is 0 |
| ProtoTheorems.WireTimestamp | proto/zipkin_proto3/encode_proto.go:68-71 | a zero time is 0, any other is rounded to the nearest microsecond |
| ProtoTheorems.WireAnnotationTime | proto/zipkin_proto3/encode_proto.go:125-130 | the time of an annotation is cut off at microseconds |
| ProtoTheorems.WireDuration | proto/zipkin_proto3/encode_proto.go:82 | a duration is cut off, so that below a microsecond 0 remains |
| ProtoTheorems.WireSpan | proto/zipkin_proto3/encode_proto.go:73-87 | the other fields of the message, with the numbers of the kinds, the debug flag, both endpoints and each annotation |
| ProtoTheorems.DecodeRejects | proto/zipkin_proto3/decode_proto.go:53-80 | iff: each decoding error for exactly its malformed messages |
| ProtoTheorems.DecodedContext | proto/zipkin_proto3/decode_proto.go:57-87 | the context of any other message: big-endian ids, no parent for no bytes, the transport's debug flag |
| ProtoTheorems.DecodedFields | proto/zipkin_proto3/decode_proto.go:88-115 | its other fields, within range |
| ProtoTheorems.DecodedAnnotations | proto/zipkin_proto3/decode_proto.go:131-144 | annotations decode one by one and in order, and nil ones are left out |
| ProtoTheorems.DecodeEncode | proto/zipkin_proto3/decode_proto.go:53-98 | decoding an encoded span never errors, and what it gives |
| ProtoTheorems.EncodeDecodeEncode | proto/zipkin_proto3/encode_proto.go:51-130 | encode-decode-encode equals encode for every span when the debug flag is passed on |
| ProtoTheorems.DecodeEncodeIdentity | proto/zipkin_proto3/decode_proto.go:53-149 | iff: encoding and decoding is the identity on exactly the normal spans |
| ProtoTheorems.RelayBatch | proto/zipkin_proto3/decode_proto.go:36-49 | a serialised batch parses without error, span by span |
| SpanJson.MarshalNumbers | model/span.go:84-127 | the stepwise rounding gives the timestamp and duration fields, or the error |
| SpanJson.DurationRounds | model/span.go:93-109 | the field is 0 only for 0, at least 1 otherwise, and within 500 ns from a microsecond on |
| SpanJson.DurationMonotone | model/span.go:93-109 | longer durations have no smaller fields |
| SpanJson.DurationStableInJson | model/span.go:127-152 | decoding and re-encoding a duration field changes nothing |
| SpanJson.DurationFieldValid | model/span.go:93-109 | iff: the durations written as a nonnegative field, and those refused |
| SpanJson.TimestampField | model/span.go:84-91 | iff: which timestamps are written; a zero time as 0, any other from the second after the epoch rounded to the nearest microsecond |
| SpanJson.TimestampRoundTrip | model/span.go:84-91 | a timestamp comes back rounded to microseconds iff that fits 64 bits of nanoseconds |

## Left out

- HTTP itself: URLs, bodies, timeouts, logging, status codes; a request fails or is answered. Answers outside 200 to 299 are removed like others, as in the code.
- Time in the reporter's loop: a tick is a step that may happen whenever the loop selects; `nextSend` is not kept.
- `Send` calls that block after the loop has stopped: their spans are not accepted.
- A second call of `Close`, which panics in Go.
- Progress: that an enabled step is eventually taken is the Go scheduler's business; safety, enabledness and the absence of deadlock are proved.
- HTTPReporter.Append: assumes a backlog limit that is not negative; AppendInBounds says that a negative one fails.
- CountingSampler.PlanFor: computes over the reals; a floating-point product can differ for rates half way between two hundredths.
- Samplers.BoundarySamplerCount: takes the rate as a real; NaN is not modelled, and scaling by 2^63 is exact.
- Canonical HTTP header names: net/http folds case; a key of the model is a canonical name.
- Injection into carriers that already hold B3 keys: unset keys are not cleared; MapReads, HTTPReads and GRPCReads describe what is read then, the round trips assume none are held.
- The transport's request sampler, which changes the decision on purpose, and baggage across hops.
- TraceChain.WholeTrace: assumes tracers that are not noop and generated span ids other than zero.
- Locks around span fields: the methods of SpanImpl are atomic; only the compare-and-swap of finishing is modelled as interleaved steps.
- `SetName`, `SetRemoteEndpoint` and the remaining setters beyond their one assignment, `NewEndpoint`, contexts, tracer options: easy members.
- `durationToMicros` in encode_proto.go: it is never called.
- The refusal of a span id of zero when a span is read from JSON.
- Serialised bytes: `encoding/json` and `proto.Marshal` are the boundary; the struct mapping and numbers are inside.
- nil against empty slices and maps; the lower-casing of names and dropping of empty endpoints in JSON.
- The Kafka, AMQP, log and recorder reporters, and the HTTP and gRPC middleware.

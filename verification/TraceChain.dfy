/** What starting spans guarantees, and the whole-trace theorem: over any chain of local children and remote
    hops every span keeps the identity and the sampling decision of the trace. */
module TraceChain {
  import opened Hex
  import opened Model
  import opened Spans
  import opened B3Codec
  import opened B3Theorems
  import opened B3Carriers
  import opened CarrierTheorems
  import opened Tracer

  // ---------------------------------------------------------------------------
  // One StartSpan
  // ---------------------------------------------------------------------------

  /** The context the options leave: that of the last parent that came without an error. */
  function LastParent(ctx: SpanContext, options: seq<SpanOption>): SpanContext {
    if options == [] then ctx
    else
      var o := options[|options| - 1];
      if o.Parent? && o.sc.err.None? then o.sc else LastParent(ctx, options[..|options| - 1])
  }

  function LastKind(kind: Kind, options: seq<SpanOption>): Kind {
    if options == [] then kind
    else
      var o := options[|options| - 1];
      if o.KindOption? then o.kind else LastKind(kind, options[..|options| - 1])
  }

  lemma {:induction false} OptionsDetermine(config: Config, s: SpanState, options: seq<SpanOption>)
    requires ApplyOptions(config, s, options).Ok?
    ensures var s' := ApplyOptions(config, s, options).value;
            && s'.model.ctx == LastParent(s.model.ctx, options)
            && s'.model.kind == LastKind(s.model.kind, options)
  {
    if options != [] {
      OptionsDetermine(config, s, options[..|options| - 1]);
    }
  }

  lemma {:induction false} LastParentHasNoError(ctx: SpanContext, options: seq<SpanOption>)
    requires ctx.err.None?
    ensures LastParent(ctx, options).err.None?
  {
    if options != [] {
      LastParentHasNoError(ctx, options[..|options| - 1]);
    }
  }

  predicate FailedParent(o: SpanOption) {
    o.Parent? && o.sc.err.Some?
  }

  /** StartSpan panics exactly when it is given a parent whose extraction failed, under the error policy or an
      unknown one. Under the error policy the panic value is nil: the error of the span under construction is
      raised, not that of the parent, and it is never set. */
  lemma {:induction false} OptionsPanic(config: Config, s: SpanState, options: seq<SpanOption>)
    requires s.model.ctx.err.None?
    ensures ApplyOptions(config, s, options).Err? <==>
            config.extractFailurePolicy !in {POLICY_RESTART, POLICY_TAG_AND_RESTART}
            && exists i :: 0 <= i < |options| && FailedParent(options[i])
    ensures ApplyOptions(config, s, options).Err? ==>
            ApplyOptions(config, s, options).error
            == if config.extractFailurePolicy == POLICY_ERROR then None else Some(ErrInvalidExtractFailurePolicy)
  {
    if options != [] {
      var last := |options| - 1;
      var init := options[..last];
      OptionsPanic(config, s, init);
      if exists i :: 0 <= i < last && FailedParent(init[i]) {
        var i :| 0 <= i < last && FailedParent(init[i]);
        assert FailedParent(options[i]);
      }
      assert forall i :: 0 <= i < last ==> options[i] == init[i];
      if ApplyOptions(config, s, init).Ok? {
        OptionsDetermine(config, s, init);
        LastParentHasNoError(s.model.ctx, init);
      }
    }
  }

  lemma StartPanics(noop: bool, config: Config, name: string, options: seq<SpanOption>, supply: Supply)
    ensures Start(noop, config, name, options, supply).Panicked? <==>
            config.extractFailurePolicy !in {POLICY_RESTART, POLICY_TAG_AND_RESTART}
            && exists i :: 0 <= i < |options| && FailedParent(options[i])
    ensures Start(noop, config, name, options, supply).Panicked? && config.extractFailurePolicy == POLICY_ERROR ==>
            Start(noop, config, name, options, supply).value == None
  {
    OptionsPanic(config, if noop then SpanState(BLANK_MODEL, false, false) else FreshSpan(config, name), options);
  }

  function ContextOf(s: Started): SpanContext
    requires !s.Panicked?
  {
    match s
    case Recording(span) => span.model.ctx
    case NoopSpan(ctx) => ctx
  }

  /** The context of a started span, from the last valid parent and kind alone. */
  function StartedContext(config: Config, parent: SpanContext, kind: Kind, supply: Supply): SpanContext {
    var ctx :=
      if parent.traceID.Empty() then parent.(traceID := supply.traceID, id := supply.spanID)
      else if config.sharedSpans && kind == SERVER then parent
      else parent.(parentID := Some(parent.id), id := supply.spanID);
    if ctx.Decided() then ctx else ctx.(sampled := Some(supply.verdict))
  }

  lemma StartedFrom(config: Config, s: SpanState, supply: Supply)
    ensures var r := StartWith(config, s, supply);
            && !r.Panicked?
            && ContextOf(r) == StartedContext(config, s.model.ctx, s.model.kind, supply)
    ensures SamplerCallsWith(config, s.model, supply)
            == if s.model.ctx.Decided() then []
               else [StartedContext(config, s.model.ctx, s.model.kind, supply).traceID.low]
  {
  }

  lemma StartDetermined(config: Config, name: string, options: seq<SpanOption>, supply: Supply)
    requires !Start(false, config, name, options, supply).Panicked?
    ensures ContextOf(Start(false, config, name, options, supply))
            == StartedContext(config, LastParent(BLANK, options), LastKind(UNDETERMINED, options), supply)
    ensures SamplerCalls(false, config, name, options, supply)
            == if LastParent(BLANK, options).Decided() then []
               else [ContextOf(Start(false, config, name, options, supply)).traceID.low]
  {
    OptionsDetermine(config, FreshSpan(config, name), options);
    StartedFrom(config, ApplyOptions(config, FreshSpan(config, name), options).value, supply);
  }

  /** A recording span is to be collected exactly when its decision says so; every started span is decided
      and free of extraction errors; an unsampled span is recorded only without unsampledNoop. */
  lemma StartedSpanIsDecided(config: Config, name: string, options: seq<SpanOption>, supply: Supply)
    requires !Start(false, config, name, options, supply).Panicked?
    ensures var r := Start(false, config, name, options, supply);
            && ContextOf(r).Decided() && ContextOf(r).err.None?
            && (r.Recording? ==> r.span.mustCollect == ContextOf(r).Decision())
            && (r.NoopSpan? <==> config.unsampledNoop && !ContextOf(r).Decision())
  {
    OptionsDetermine(config, FreshSpan(config, name), options);
    LastParentHasNoError(BLANK, options);
  }

  // ---------------------------------------------------------------------------
  // Hops
  // ---------------------------------------------------------------------------

  /** How a context travels: on a carrier that holds no B3 keys, with any injection options. */
  datatype Wire =
    | OverHTTP(base: Multimap, opts: seq<InjectOption>)
    | OverMap(entries: StringMap, opts: seq<InjectOption>)
    | OverGRPC(base: Multimap)
  {
    predicate Clean() {
      match this
      case OverHTTP(base, _) => NoB3Keys(base)
      case OverMap(entries, _) => NoB3Keys(entries)
      case OverGRPC(base) => NoB3Keys(base)
    }

    /** Inject on one side, extract on the other. */
    function Transmit(sc: SpanContext): Outcome {
      match this
      case OverHTTP(base, opts) => HTTPExtracted(HTTPStored(base, FieldsOf(Resolve(opts), sc)))
      case OverMap(entries, opts) => MapExtracted(MapStored(entries, FieldsOf(Resolve(opts), sc)))
      case OverGRPC(base) => GRPCExtracted(GRPCStored(base, FieldsOf(MULTI_ONLY, sc)))
    }
  }

  /** Starting the next span: any tracer that is not noop, any other options before and after the parent. */
  datatype Launch = Launch(config: Config, name: string, before: seq<SpanOption>, after: seq<SpanOption>, supply: Supply) {
    function Options(parent: SpanContext): seq<SpanOption> {
      before + [Parent(parent)] + after
    }

    predicate Ordinary() {
      && supply.spanID > 0
      && (forall i :: 0 <= i < |before| ==> !before[i].Parent?)
      && (forall i :: 0 <= i < |after| ==> !after[i].Parent?)
    }
  }

  datatype Hop = Local(launch: Launch) | Remote(wire: Wire, launch: Launch) {
    predicate Ordinary() {
      launch.Ordinary() && (Remote? ==> wire.Clean())
    }

    /** The parent context the next span is started with, if extraction does not fail outright. */
    function ParentContext(sc: SpanContext): Option<SpanContext> {
      match this
      case Local(_) => Some(sc)
      case Remote(wire, _) => ExtractContext(false, wire.Transmit(sc))
    }

    function Next(sc: SpanContext): Option<Started> {
      match ParentContext(sc)
      case Some(parent) =>
        Some(Start(false, launch.config, launch.name, launch.Options(parent), launch.supply))
      case None => None
    }

    /** The sampler calls of the next span. */
    function Calls(sc: SpanContext): seq<uint64> {
      match ParentContext(sc)
      case Some(parent) => SamplerCalls(false, launch.config, launch.name, launch.Options(parent), launch.supply)
      case None => []
    }
  }

  /** A context that can be handed on: identifiers, a decision, no error. */
  predicate Portable(sc: SpanContext) {
    sc.HasIDs() && sc.Decided() && sc.err.None?
  }

  /** What a hop keeps and how it links the new span to its predecessor. */
  predicate Linked(hop: Hop, sc: SpanContext, next: SpanContext) {
    && next.traceID == sc.traceID
    && next.Decision() == sc.Decision()
    && next.debug == sc.debug
    && (if hop.launch.config.sharedSpans
           && LastKind(UNDETERMINED, hop.launch.before + hop.launch.after) == SERVER then
          next.id == sc.id && next.parentID == sc.parentID
        else
          next.id == hop.launch.supply.spanID && next.parentID == Some(sc.id))
  }

  lemma {:induction false} LastParentSkips(ctx: SpanContext, options: seq<SpanOption>, parent: SpanContext, after: seq<SpanOption>)
    requires parent.err.None?
    requires forall i :: 0 <= i < |after| ==> !after[i].Parent?
    ensures LastParent(ctx, options + [Parent(parent)] + after) == parent
    decreases |after|
  {
    var all := options + [Parent(parent)] + after;
    if after != [] {
      var init := after[..|after| - 1];
      assert all[..|all| - 1] == options + [Parent(parent)] + init;
      LastParentSkips(ctx, options, parent, init);
    }
  }

  lemma {:induction false} LastKindSkips(kind: Kind, before: seq<SpanOption>, parent: SpanContext, after: seq<SpanOption>)
    ensures LastKind(kind, before + [Parent(parent)] + after) == LastKind(kind, before + after)
    decreases |after|
  {
    var all := before + [Parent(parent)] + after;
    if after == [] {
      assert all[..|all| - 1] == before;
      assert before + after == before;
    } else {
      var init := after[..|after| - 1];
      assert all[..|all| - 1] == before + [Parent(parent)] + init;
      assert (before + after)[..|before + after| - 1] == before + init;
      LastKindSkips(kind, before, parent, init);
    }
  }

  lemma NoFailedParent(launch: Launch, parent: SpanContext)
    requires launch.Ordinary() && parent.err.None?
    ensures forall i :: 0 <= i < |launch.Options(parent)| ==> !FailedParent(launch.Options(parent)[i])
  {
  }

  /** A portable context arrives in normal form over every wire, whatever the injection options. */
  lemma WireDelivers(wire: Wire, sc: SpanContext)
    requires wire.Clean() && Portable(sc)
    ensures wire.Transmit(sc) == Extracted(NormalForm(sc))
    ensures Portable(NormalForm(sc))
  {
    match wire {
      case OverHTTP(base, opts) => HTTPRelays(base, opts, sc);
      case OverMap(entries, opts) => MapRelays(entries, opts, sc);
      case OverGRPC(base) => GRPCRelays(base, sc);
    }
  }

  lemma LaunchLinks(launch: Launch, parent: SpanContext)
    requires launch.Ordinary() && Portable(parent)
    ensures var s := Start(false, launch.config, launch.name, launch.Options(parent), launch.supply);
            && !s.Panicked?
            && ContextOf(s) == StartedContext(launch.config, parent, LastKind(UNDETERMINED, launch.before + launch.after), launch.supply)
            && SamplerCalls(false, launch.config, launch.name, launch.Options(parent), launch.supply) == []
  {
    NoFailedParent(launch, parent);
    StartPanics(false, launch.config, launch.name, launch.Options(parent), launch.supply);
    StartDetermined(launch.config, launch.name, launch.Options(parent), launch.supply);
    LastParentSkips(BLANK, launch.before, parent, launch.after);
    LastKindSkips(UNDETERMINED, launch.before, parent, launch.after);
  }

  lemma StartedLinks(hop: Hop, sc: SpanContext, parent: SpanContext)
    requires hop.Ordinary() && Portable(sc) && (parent == sc || parent == NormalForm(sc))
    ensures var launch := hop.launch;
            var next := StartedContext(launch.config, parent, LastKind(UNDETERMINED, launch.before + launch.after), launch.supply);
            Linked(hop, sc, next) && Portable(next)
  {
  }

  /** One hop from a portable context: the next span starts, is linked, is portable, and asks no sampler. */
  lemma HopLinks(hop: Hop, sc: SpanContext)
    requires hop.Ordinary() && Portable(sc)
    ensures hop.Next(sc).Some? && !hop.Next(sc).value.Panicked?
    ensures Linked(hop, sc, ContextOf(hop.Next(sc).value))
    ensures Portable(ContextOf(hop.Next(sc).value))
    ensures hop.Calls(sc) == []
  {
    var parent := if hop.Local? then sc else NormalForm(sc);
    if hop.Remote? {
      WireDelivers(hop.wire, sc);
    }
    assert hop.ParentContext(sc) == Some(parent);
    LaunchLinks(hop.launch, parent);
    StartedLinks(hop, sc, parent);
  }

  // ---------------------------------------------------------------------------
  // Whole traces
  // ---------------------------------------------------------------------------

  /** The contexts of a chain of spans, the first included, as far as it gets. */
  function Chain(sc: SpanContext, hops: seq<Hop>): (ctxs: seq<SpanContext>)
    ensures |ctxs| >= 1 && ctxs[0] == sc
    decreases |hops|
  {
    if hops == [] then [sc]
    else
      match hops[0].Next(sc)
      case Some(s) => if s.Panicked? then [sc] else [sc] + Chain(ContextOf(s), hops[1..])
      case None => [sc]
  }

  /** The sampler calls made along a chain. */
  function ChainCalls(sc: SpanContext, hops: seq<Hop>): seq<uint64>
    decreases |hops|
  {
    if hops == [] then []
    else
      hops[0].Calls(sc) +
      match hops[0].Next(sc)
      case Some(s) => if s.Panicked? then [] else ChainCalls(ContextOf(s), hops[1..])
      case None => []
  }

  /** Over any chain of local children and remote hops from a portable span, no hop fails; every span has the
      first one's trace id, decision and debug flag; each is linked to its predecessor; and no sampler is
      asked again. */
  lemma {:induction false} WholeTrace(sc: SpanContext, hops: seq<Hop>)
    requires Portable(sc)
    requires forall i :: 0 <= i < |hops| ==> hops[i].Ordinary()
    ensures var ctxs := Chain(sc, hops);
            && |ctxs| == |hops| + 1
            && (forall i :: 0 <= i < |ctxs| ==>
                  Portable(ctxs[i]) && ctxs[i].traceID == sc.traceID
                  && ctxs[i].Decision() == sc.Decision() && ctxs[i].debug == sc.debug)
            && (forall i :: 0 <= i < |hops| ==> Linked(hops[i], ctxs[i], ctxs[i + 1]))
    ensures ChainCalls(sc, hops) == []
    decreases |hops|
  {
    if hops != [] {
      HopLinks(hops[0], sc);
      var next, rest := ContextOf(hops[0].Next(sc).value), hops[1..];
      WholeTrace(next, rest);
      var ctxs, tail := Chain(sc, hops), Chain(next, rest);
      assert ctxs == [sc] + tail;
      forall i | 0 <= i < |hops| ensures Linked(hops[i], ctxs[i], ctxs[i + 1]) {
        if i > 0 {
          assert Linked(rest[i - 1], tail[i - 1], tail[i]);
        }
      }
    }
  }

  /** A span started without a trace to join, with nonempty generated ids, begins a portable trace: its id and
      trace id are new. A decision that came from upstream is kept and no sampler asked; else the sampler is
      asked once and decides. */
  lemma RootIsPortable(config: Config, name: string, options: seq<SpanOption>, supply: Supply)
    requires LastParent(BLANK, options).traceID.Empty()
    requires !Start(false, config, name, options, supply).Panicked?
    requires !supply.traceID.Empty() && supply.spanID > 0
    ensures var ctx := ContextOf(Start(false, config, name, options, supply));
            && Portable(ctx) && ctx.traceID == supply.traceID && ctx.id == supply.spanID
            && (if LastParent(BLANK, options).Decided() then
                  ctx.debug == LastParent(BLANK, options).debug
                  && ctx.sampled == LastParent(BLANK, options).sampled
                  && SamplerCalls(false, config, name, options, supply) == []
                else
                  ctx.Decision() == supply.verdict
                  && SamplerCalls(false, config, name, options, supply) == [supply.traceID.low])
  {
    StartDetermined(config, name, options, supply);
    LastParentHasNoError(BLANK, options);
    OptionsDetermine(config, FreshSpan(config, name), options);
  }
}

/** Starting and finishing spans: tracer.go, span_options.go and span_implementation.go. The id generator, the
    sampler and the clock are a supply of the answers they give during one call. */
module Tracer {
  import opened Hex
  import opened Model
  import opened Spans
  import opened B3Codec

  // ---------------------------------------------------------------------------
  // Options and their effect on a span under construction
  // ---------------------------------------------------------------------------

  const POLICY_RESTART := 0
  const POLICY_ERROR := 1
  const POLICY_TAG_AND_RESTART := 2

  datatype Config = Config(
    defaultTags: map<string, string>,
    extractFailurePolicy: int,
    localEndpoint: Option<Endpoint>,
    sharedSpans: bool,
    unsampledNoop: bool)

  /** What the generator, the sampler and the clock would answer during one StartSpan. */
  datatype Supply = Supply(traceID: TraceID, spanID: uint64, verdict: bool, now: Time)

  datatype SpanOption =
    | KindOption(kind: Kind)
    | Parent(sc: SpanContext)
    | StartTime(start: Time)
    | RemoteEndpoint(endpoint: Option<Endpoint>)
    | Tags(tags: map<string, string>)
    | FlushOnFinish(flush: bool)

  datatype SpanState = SpanState(model: SpanModel, mustCollect: bool, flushOnFinish: bool)

  /** The texts of the errors an extraction can end with. */
  function ErrorText(e: Error): string {
    match e
    case ErrInvalidSampledByte => "invalid B3 Sampled found"
    case ErrInvalidSampledHeader => "invalid B3 Sampled header found"
    case ErrInvalidTraceIDHeader => "invalid B3 TraceID header found"
    case ErrInvalidSpanIDHeader => "invalid B3 SpanID header found"
    case ErrInvalidParentSpanIDHeader => "invalid B3 ParentSpanID header found"
    case ErrInvalidScope => "require either both TraceID and SpanID or none"
    case ErrInvalidScopeParent => "ParentSpanID requires both TraceID and SpanID to be available"
    case ErrInvalidScopeParentSingle => "ParentSpanID requires TraceID, SpanID and Sampled to be available"
    case ErrEmptyContext => "empty request context"
    case ErrInvalidTraceIDValue => "invalid B3 TraceID value found"
    case ErrInvalidSpanIDValue => "invalid B3 SpanID value found"
    case ErrInvalidParentSpanIDValue => "invalid B3 ParentSpanID value found"
    case ErrInvalidExtractFailurePolicy => "invalid extract failure policy provided"
    case OtherError(text) => text
  }

  /** One option; an Err is a panic with that value. */
  function ApplyOption(config: Config, s: SpanState, o: SpanOption): Result<SpanState, Option<Error>> {
    var m := s.model;
    match o
    case KindOption(kind) => Ok(s.(model := m.(kind := kind)))
    case StartTime(start) => Ok(s.(model := m.(timestamp := start)))
    case RemoteEndpoint(endpoint) => Ok(s.(model := m.(remoteEndpoint := endpoint)))
    case Tags(tags) => Ok(s.(model := m.(tags := m.tags + tags)))
    case FlushOnFinish(flush) => Ok(s.(flushOnFinish := flush))
    case Parent(sc) =>
      if sc.err.None? then Ok(s.(model := m.(ctx := sc)))
      else if config.extractFailurePolicy == POLICY_RESTART then Ok(s)
      else if config.extractFailurePolicy == POLICY_ERROR then Err(m.ctx.err)
      else if config.extractFailurePolicy == POLICY_TAG_AND_RESTART then
        Ok(s.(model := m.(tags := m.tags["error.extract" := ErrorText(sc.err.value)])))
      else Err(Some(ErrInvalidExtractFailurePolicy))
  }

  /** All options in order, up to the first panic. */
  function ApplyOptions(config: Config, s: SpanState, options: seq<SpanOption>): Result<SpanState, Option<Error>> {
    if options == [] then Ok(s)
    else
      match ApplyOptions(config, s, options[..|options| - 1])
      case Ok(before) => ApplyOption(config, before, options[|options| - 1])
      case Err(p) => Err(p)
  }

  // ---------------------------------------------------------------------------
  // StartSpan
  // ---------------------------------------------------------------------------

  datatype Started = Recording(span: SpanState) | NoopSpan(ctx: SpanContext) | Panicked(value: Option<Error>)

  const BLANK_MODEL := SpanModel(BLANK, "", UNDETERMINED, ZERO_TIME, 0, false, None, None, [], map[])

  function FreshSpan(config: Config, name: string): SpanState {
    SpanState(BLANK_MODEL.(name := name, localEndpoint := config.localEndpoint, tags := config.defaultTags), false, true)
  }

  /** Identity: a new root without a parent, the parent's own for a joined server span, else a child's. */
  function Identify(config: Config, m: SpanModel, supply: Supply): SpanModel {
    if m.ctx.traceID.Empty() then m.(ctx := m.ctx.(traceID := supply.traceID, id := supply.spanID))
    else if config.sharedSpans && m.kind == SERVER then m.(shared := true)
    else m.(ctx := m.ctx.(parentID := Some(m.ctx.id), id := supply.spanID))
  }

  /** The argument of the sampler, if it is consulted: only for a context that carries no decision. */
  function SamplerArgument(m: SpanModel): Option<uint64> {
    if m.ctx.Decided() then None else Some(m.ctx.traceID.low)
  }

  function Decide(m: SpanModel, supply: Supply): SpanModel {
    if m.ctx.Decided() then m else m.(ctx := m.ctx.(sampled := Some(supply.verdict)))
  }

  function Start(noop: bool, config: Config, name: string, options: seq<SpanOption>, supply: Supply): Started {
    match ApplyOptions(config, if noop then SpanState(BLANK_MODEL, false, false) else FreshSpan(config, name), options)
    case Err(p) => Panicked(p)
    case Ok(s) =>
      if noop then NoopSpan(s.model.ctx)
      else StartWith(config, s, supply)
  }

  /** Identity, decision and start time of a span whose options have been applied. */
  function StartWith(config: Config, s: SpanState, supply: Supply): Started {
    var m := Decide(Identify(config, s.model, supply), supply);
    if config.unsampledNoop && !m.ctx.Decision() then NoopSpan(m.ctx)
    else
      Recording(s.(model := if m.timestamp == ZERO_TIME then m.(timestamp := supply.now) else m,
                   mustCollect := m.ctx.Decision()))
  }

  /** The sampler calls StartSpan makes. */
  function SamplerCalls(noop: bool, config: Config, name: string, options: seq<SpanOption>, supply: Supply): seq<uint64> {
    if noop then []
    else
      match ApplyOptions(config, FreshSpan(config, name), options)
      case Err(_) => []
      case Ok(s) => SamplerCallsWith(config, s.model, supply)
  }

  function SamplerCallsWith(config: Config, m: SpanModel, supply: Supply): seq<uint64> {
    match SamplerArgument(Identify(config, m, supply))
    case Some(id) => [id]
    case None => []
  }

  /** Tracer.Extract: a noop tracer does not look; otherwise an error is carried in the context. An extractor
      that indexes out of bounds gives None. */
  function ExtractContext(noop: bool, outcome: Outcome): Option<SpanContext> {
    if noop then Some(BLANK)
    else match outcome
      case Extracted(sc) => Some(sc.(err := None))
      case Rejected(e) => Some(BLANK.(err := Some(e)))
      case OutOfBounds => None
  }

  // ---------------------------------------------------------------------------
  // The span object
  // ---------------------------------------------------------------------------

  /** reporter.Reporter, as far as it can be observed: what has been sent to it. */
  class Recorder {
    var sent: seq<SpanModel>

    constructor ()
      ensures sent == []
    {
      sent := [];
    }

    method Send(m: SpanModel)
      modifies this
      ensures sent == old(sent) + [m]
    {
      sent := sent + [m];
    }
  }

  /** time.Time.Sub, which saturates. */
  function Elapsed(now: Time, start: Time): int64 {
    var d := now - start;
    if d < -0x8000_0000_0000_0000 then -0x8000_0000_0000_0000
    else if d >= 0x8000_0000_0000_0000 then 0x7fff_ffff_ffff_ffff
    else d
  }

  /** The tags after Tag(key, value): the first error wins, any other key is overwritten. */
  function Tagged(tags: map<string, string>, key: string, value: string): map<string, string> {
    if key == "error" && key in tags then tags else tags[key := value]
  }

  class SpanImpl {
    var model: SpanModel
    var mustCollect: bool
    var flushOnFinish: bool
    const reporter: Recorder

    ghost function State(): SpanState
      reads this
    {
      SpanState(model, mustCollect, flushOnFinish)
    }

    constructor (model: SpanModel, flushOnFinish: bool, reporter: Recorder)
      ensures State() == SpanState(model, false, flushOnFinish) && this.reporter == reporter
    {
      this.model, this.mustCollect, this.flushOnFinish, this.reporter := model, false, flushOnFinish, reporter;
    }

    method SetName(name: string)
      modifies this
      ensures State() == old(State()).(model := old(model).(name := name))
    {
      model := model.(name := name);
    }

    method SetRemoteEndpoint(e: Option<Endpoint>)
      modifies this
      ensures State() == old(State()).(model := old(model).(remoteEndpoint := e))
    {
      model := model.(remoteEndpoint := e);
    }

    method Annotate(t: Time, value: string)
      modifies this
      ensures State() == old(State()).(model := old(model).(annotations := old(model).annotations + [Annotation(t, value)]))
    {
      model := model.(annotations := model.annotations + [Annotation(t, value)]);
    }

    method Tag(key: string, value: string)
      modifies this
      ensures State() == old(State()).(model := old(model).(tags := Tagged(old(model).tags, key, value)))
    {
      if key == "error" {
        if key in model.tags {
          return;
        }
      }
      model := model.(tags := model.tags[key := value]);
    }

    /** Only the first finish of a span that is to be collected has an effect. */
    method FinishedWithDuration(d: int64)
      modifies this, reporter
      ensures !mustCollect && flushOnFinish == old(flushOnFinish)
      ensures model == if old(mustCollect) then old(model).(duration := d) else old(model)
      ensures reporter.sent == old(reporter.sent) + (if old(mustCollect) && flushOnFinish then [model] else [])
    {
      if mustCollect {
        mustCollect := false;
        model := model.(duration := d);
        if flushOnFinish {
          reporter.Send(model);
        }
      }
    }

    method Finish(now: Time)
      modifies this, reporter
      ensures !mustCollect && flushOnFinish == old(flushOnFinish)
      ensures model == if old(mustCollect) then old(model).(duration := Elapsed(now, old(model).timestamp)) else old(model)
      ensures reporter.sent == old(reporter.sent) + (if old(mustCollect) && flushOnFinish then [model] else [])
    {
      if mustCollect {
        mustCollect := false;
        model := model.(duration := Elapsed(now, model.timestamp));
        if flushOnFinish {
          reporter.Send(model);
        }
      }
    }

    /** Sends whenever the sampling decision says so, however often it is called. */
    method Flush()
      modifies reporter
      ensures reporter.sent == old(reporter.sent) + (if model.ctx.Decision() then [model] else [])
    {
      if model.ctx.debug || (model.ctx.sampled.Some? && model.ctx.sampled.value) {
        reporter.Send(model);
      }
    }

    /** A span option; it may panic. */
    method Apply(config: Config, o: SpanOption) returns (panic: Option<Option<Error>>)
      modifies this
      ensures match ApplyOption(config, old(State()), o)
              case Ok(s) => panic == None && State() == s
              case Err(p) => panic == Some(p)
    {
      match o {
        case KindOption(kind) => model := model.(kind := kind);
        case StartTime(start) => model := model.(timestamp := start);
        case RemoteEndpoint(endpoint) => model := model.(remoteEndpoint := endpoint);
        case FlushOnFinish(flush) => flushOnFinish := flush;
        case Tags(tags) => SetTags(tags);
        case Parent(sc) =>
          if sc.err.Some? {
            if config.extractFailurePolicy == POLICY_RESTART {
            } else if config.extractFailurePolicy == POLICY_ERROR {
              return Some(model.ctx.err);
            } else if config.extractFailurePolicy == POLICY_TAG_AND_RESTART {
              model := model.(tags := model.tags["error.extract" := ErrorText(sc.err.value)]);
            } else {
              return Some(Some(ErrInvalidExtractFailurePolicy));
            }
            return None;
          }
          model := model.(ctx := sc);
      }
      return None;
    }

    /** Iterates over `tags` in whatever order. */
    method SetTags(tags: map<string, string>)
      modifies this
      ensures State() == old(State()).(model := old(model).(tags := old(model).tags + tags))
    {
      ghost var before := model;
      var rest := tags.Keys;
      while rest != {}
        invariant rest <= tags.Keys
        invariant mustCollect == old(mustCollect) && flushOnFinish == old(flushOnFinish)
        invariant model == before.(tags := before.tags + Without(tags, rest))
        decreases rest
      {
        var k :| k in rest;
        rest := rest - {k};
        model := model.(tags := model.tags[k := tags[k]]);
        OneMoreTag(before.tags, tags, rest, k);
      }
      assert Without(tags, {}) == tags;
    }
  }

  function Without(tags: map<string, string>, keys: set<string>): map<string, string> {
    map k | k in tags && k !in keys :: tags[k]
  }

  lemma OneMoreTag(before: map<string, string>, tags: map<string, string>, rest: set<string>, k: string)
    requires k in tags && k !in rest
    ensures (before + Without(tags, rest + {k}))[k := tags[k]] == before + Without(tags, rest)
  {
  }

  // ---------------------------------------------------------------------------
  // The tracer object
  // ---------------------------------------------------------------------------

  /** What StartSpan hands out: a recording span object, a noop span, or a panic. */
  datatype Handle = RecordingSpan(span: SpanImpl) | NoopHandle(ctx: SpanContext) | PanicHandle(value: Option<Error>)

  ghost function Abstract(h: Handle): Started
    reads if h.RecordingSpan? then {h.span} else {}
  {
    match h
    case RecordingSpan(span) => Recording(span.State())
    case NoopHandle(ctx) => NoopSpan(ctx)
    case PanicHandle(value) => Panicked(value)
  }

  class TracerImpl {
    const config: Config
    const reporter: Recorder
    var noop: bool
    ghost var samplerCalls: seq<uint64>

    constructor (config: Config, reporter: Recorder, noop: bool)
      ensures this.config == config && this.reporter == reporter && this.noop == noop && samplerCalls == []
    {
      this.config, this.reporter, this.noop := config, reporter, noop;
      samplerCalls := [];
    }

    method SetNoop(noop: bool)
      modifies this`noop
      ensures this.noop == noop
    {
      if noop {
        if !this.noop {
          this.noop := true;
        }
      } else if this.noop {
        this.noop := false;
      }
    }

    method ApplyAll(s: SpanImpl, options: seq<SpanOption>) returns (panic: Option<Option<Error>>)
      modifies s
      ensures match ApplyOptions(config, old(s.State()), options)
              case Ok(after) => panic == None && s.State() == after
              case Err(p) => panic == Some(p)
    {
      ghost var before := s.State();
      panic := None;
      for i := 0 to |options|
        invariant panic == None
        invariant ApplyOptions(config, before, options[..i]) == Ok(s.State())
      {
        assert options[..i + 1][..i] == options[..i];
        var p := s.Apply(config, options[i]);
        if p.Some? {
          PanicStays(config, before, options, i + 1);
          return p;
        }
      }
      assert options[..|options|] == options;
    }

    method StartSpan(name: string, options: seq<SpanOption>, supply: Supply) returns (h: Handle)
      modifies this`samplerCalls
      ensures Abstract(h) == Start(noop, config, name, options, supply)
      ensures samplerCalls == old(samplerCalls) + SamplerCalls(noop, config, name, options, supply)
      ensures h.RecordingSpan? ==> fresh(h.span) && h.span.reporter == reporter
    {
      if noop {
        var s := new SpanImpl(BLANK_MODEL, false, reporter);
        var panic := ApplyAll(s, options);
        if panic.Some? {
          return PanicHandle(panic.value);
        }
        return NoopHandle(s.model.ctx);
      }

      var s := new SpanImpl(BLANK_MODEL.(name := name, localEndpoint := config.localEndpoint), true, reporter);
      AddDefaultTags(s);
      var panic := ApplyAll(s, options);
      if panic.Some? {
        return PanicHandle(panic.value);
      }

      OptionsLeaveMustCollect(config, FreshSpan(config, name), options);
      h := Begin(s, supply);
    }

    /** The part of StartSpan after the options: identity, decision, start time. */
    method Begin(s: SpanImpl, supply: Supply) returns (h: Handle)
      requires !s.mustCollect
      modifies this`samplerCalls, s
      ensures Abstract(h) == StartWith(config, old(s.State()), supply)
      ensures samplerCalls == old(samplerCalls) + SamplerCallsWith(config, old(s.model), supply)
      ensures h.RecordingSpan? ==> h.span == s
    {
      var ctx := s.model.ctx;
      if ctx.traceID.Empty() {
        ctx := ctx.(traceID := supply.traceID);
        ctx := ctx.(id := supply.spanID);
      } else if config.sharedSpans && s.model.kind == SERVER {
        s.model := s.model.(shared := true);
      } else {
        var parentID := ctx.id;
        ctx := ctx.(parentID := Some(parentID));
        ctx := ctx.(id := supply.spanID);
      }

      assert s.model.(ctx := ctx) == Identify(config, old(s.model), supply);

      if !ctx.debug && ctx.sampled.None? {
        samplerCalls := samplerCalls + [ctx.traceID.low];
        ctx := ctx.(sampled := Some(supply.verdict));
        if supply.verdict {
          s.mustCollect := true;
        }
      } else if ctx.debug || ctx.sampled.value {
        s.mustCollect := true;
      }
      s.model := s.model.(ctx := ctx);

      if config.unsampledNoop && !s.mustCollect {
        return NoopHandle(ctx);
      }

      if s.model.timestamp == ZERO_TIME {
        s.model := s.model.(timestamp := supply.now);
      }
      return RecordingSpan(s);
    }

    method AddDefaultTags(s: SpanImpl)
      requires s.model.tags == map[]
      modifies s
      ensures s.State() == old(s.State()).(model := old(s.model).(tags := config.defaultTags))
    {
      ghost var before := s.model;
      var rest := config.defaultTags.Keys;
      while rest != {}
        invariant rest <= config.defaultTags.Keys
        invariant s.mustCollect == old(s.mustCollect) && s.flushOnFinish == old(s.flushOnFinish)
        invariant s.model == before.(tags := Without(config.defaultTags, rest))
        decreases rest
      {
        var k :| k in rest;
        rest := rest - {k};
        s.Tag(k, config.defaultTags[k]);
        OneMoreTag(map[], config.defaultTags, rest, k);
      }
      assert Without(config.defaultTags, {}) == config.defaultTags;
    }

    /** The parent found in the context comes after all other options. */
    method StartSpanFromContext(parent: Option<SpanContext>, name: string, options: seq<SpanOption>, supply: Supply)
      returns (h: Handle)
      modifies this`samplerCalls
      ensures var all := if parent.Some? then options + [Parent(parent.value)] else options;
              && Abstract(h) == Start(noop, config, name, all, supply)
              && samplerCalls == old(samplerCalls) + SamplerCalls(noop, config, name, all, supply)
    {
      if parent.Some? {
        h := StartSpan(name, options + [Parent(parent.value)], supply);
      } else {
        h := StartSpan(name, options, supply);
      }
    }
  }

  lemma {:induction false} OptionsLeaveMustCollect(config: Config, s: SpanState, options: seq<SpanOption>)
    ensures ApplyOptions(config, s, options).Ok? ==> ApplyOptions(config, s, options).value.mustCollect == s.mustCollect
  {
    if options != [] {
      OptionsLeaveMustCollect(config, s, options[..|options| - 1]);
    }
  }

  lemma {:induction false} PanicStays(config: Config, s: SpanState, options: seq<SpanOption>, n: nat)
    requires n <= |options| && ApplyOptions(config, s, options[..n]).Err?
    ensures ApplyOptions(config, s, options) == ApplyOptions(config, s, options[..n])
    decreases |options|
  {
    if n == |options| {
      assert options[..n] == options;
    } else {
      var init := options[..|options| - 1];
      assert init[..n] == options[..n];
      PanicStays(config, s, init, n);
    }
  }
}

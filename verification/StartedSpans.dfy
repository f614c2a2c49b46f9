/** A started span field by field, from the options alone: for each field the last option that speaks of it
    decides, and without one the tracer's default. */
module StartedSpans {
  import opened Hex
  import opened Model
  import opened Spans
  import opened B3Codec
  import opened B3Theorems
  import opened Tracer
  import opened TraceChain

  // ---------------------------------------------------------------------------
  // The last option of each kind
  // ---------------------------------------------------------------------------

  function LastFlush(flush: bool, options: seq<SpanOption>): bool {
    if options == [] then flush
    else
      var o := options[|options| - 1];
      if o.FlushOnFinish? then o.flush else LastFlush(flush, options[..|options| - 1])
  }

  function LastStart(start: Time, options: seq<SpanOption>): Time {
    if options == [] then start
    else
      var o := options[|options| - 1];
      if o.StartTime? then o.start else LastStart(start, options[..|options| - 1])
  }

  function LastRemote(endpoint: Option<Endpoint>, options: seq<SpanOption>): Option<Endpoint> {
    if options == [] then endpoint
    else
      var o := options[|options| - 1];
      if o.RemoteEndpoint? then o.endpoint else LastRemote(endpoint, options[..|options| - 1])
  }

  /** The value one option gives to a tag: of its own tags, or of the error of a failed parent, if those are
      to be tagged. */
  function TagOf(config: Config, o: SpanOption, key: string): Option<string> {
    match o
    case Tags(tags) => if key in tags then Some(tags[key]) else None
    case Parent(sc) =>
      if sc.err.Some? && config.extractFailurePolicy == POLICY_TAG_AND_RESTART && key == "error.extract" then
        Some(ErrorText(sc.err.value))
      else None
    case _ => None
  }

  function LastTag(config: Config, options: seq<SpanOption>, key: string): Option<string> {
    if options == [] then if key in config.defaultTags then Some(config.defaultTags[key]) else None
    else
      match TagOf(config, options[|options| - 1], key)
      case Some(value) => Some(value)
      case None => LastTag(config, options[..|options| - 1], key)
  }

  predicate Holds(tags: map<string, string>, key: string, value: Option<string>) {
    match value case Some(v) => key in tags && tags[key] == v case None => key !in tags
  }

  // ---------------------------------------------------------------------------
  // What the options leave
  // ---------------------------------------------------------------------------

  lemma OptionKeepsTag(config: Config, s: SpanState, o: SpanOption, key: string, value: Option<string>)
    requires ApplyOption(config, s, o).Ok? && Holds(s.model.tags, key, value)
    ensures Holds(ApplyOption(config, s, o).value.model.tags, key,
                  if TagOf(config, o, key).Some? then TagOf(config, o, key) else value)
  {
  }

  lemma {:induction false} TagsDetermined(config: Config, name: string, options: seq<SpanOption>, key: string)
    requires ApplyOptions(config, FreshSpan(config, name), options).Ok?
    ensures Holds(ApplyOptions(config, FreshSpan(config, name), options).value.model.tags, key,
                  LastTag(config, options, key))
  {
    if options != [] {
      var init := options[..|options| - 1];
      TagsDetermined(config, name, init, key);
      OptionKeepsTag(config, ApplyOptions(config, FreshSpan(config, name), init).value, options[|options| - 1], key,
                     LastTag(config, init, key));
    }
  }

  lemma {:induction false} FieldsDetermined(config: Config, s: SpanState, options: seq<SpanOption>)
    requires ApplyOptions(config, s, options).Ok?
    ensures var s' := ApplyOptions(config, s, options).value;
            && s'.flushOnFinish == LastFlush(s.flushOnFinish, options)
            && s'.model.timestamp == LastStart(s.model.timestamp, options)
            && s'.model.remoteEndpoint == LastRemote(s.model.remoteEndpoint, options)
  {
    if options != [] {
      FieldsDetermined(config, s, options[..|options| - 1]);
    }
  }

  /** The fields that no option touches. */
  predicate Untouched(m: SpanModel, m': SpanModel) {
    && m'.name == m.name && m'.localEndpoint == m.localEndpoint && m'.shared == m.shared
    && m'.duration == m.duration && m'.annotations == m.annotations
  }

  lemma OptionTouches(config: Config, s: SpanState, o: SpanOption)
    requires ApplyOption(config, s, o).Ok?
    ensures Untouched(s.model, ApplyOption(config, s, o).value.model)
  {
  }

  lemma {:induction false} FieldsUntouched(config: Config, s: SpanState, options: seq<SpanOption>)
    requires ApplyOptions(config, s, options).Ok?
    ensures Untouched(s.model, ApplyOptions(config, s, options).value.model)
  {
    if options != [] {
      var init := options[..|options| - 1];
      FieldsUntouched(config, s, init);
      OptionTouches(config, ApplyOptions(config, s, init).value, options[|options| - 1]);
    }
  }

  // ---------------------------------------------------------------------------
  // The started span
  // ---------------------------------------------------------------------------

  /** Every field of a recorded span but its context, which StartDetermined gives, and its tags. */
  lemma RecordedFields(config: Config, name: string, options: seq<SpanOption>, supply: Supply)
    requires Start(false, config, name, options, supply).Recording?
    ensures var m := Start(false, config, name, options, supply).span.model;
            && m.name == name
            && m.kind == LastKind(UNDETERMINED, options)
            && m.localEndpoint == config.localEndpoint
            && m.remoteEndpoint == LastRemote(None, options)
            && m.duration == 0 && m.annotations == []
    ensures var start := LastStart(ZERO_TIME, options);
            Start(false, config, name, options, supply).span.model.timestamp
            == if start == ZERO_TIME then supply.now else start
    ensures Start(false, config, name, options, supply).span.model.shared <==>
            !LastParent(BLANK, options).traceID.Empty() && config.sharedSpans
            && LastKind(UNDETERMINED, options) == SERVER
    ensures Start(false, config, name, options, supply).span.flushOnFinish == LastFlush(true, options)
  {
    OptionsDetermine(config, FreshSpan(config, name), options);
    FieldsDetermined(config, FreshSpan(config, name), options);
    FieldsUntouched(config, FreshSpan(config, name), options);
  }

  /** Its tags, key by key. */
  lemma RecordedTags(config: Config, name: string, options: seq<SpanOption>, supply: Supply, key: string)
    requires Start(false, config, name, options, supply).Recording?
    ensures Holds(Start(false, config, name, options, supply).span.model.tags, key, LastTag(config, options, key))
  {
    TagsDetermined(config, name, options, key);
  }

  /** A noop tracer hands on the parent's context as it is, generates nothing and asks no sampler. */
  lemma NoopStarts(config: Config, name: string, options: seq<SpanOption>, supply: Supply)
    requires !Start(true, config, name, options, supply).Panicked?
    ensures Start(true, config, name, options, supply) == NoopSpan(LastParent(BLANK, options))
    ensures SamplerCalls(true, config, name, options, supply) == []
  {
    OptionsDetermine(config, SpanState(BLANK_MODEL, false, false), options);
  }

  // ---------------------------------------------------------------------------
  // Failed extractions
  // ---------------------------------------------------------------------------

  lemma AppendedOption(config: Config, s: SpanState, options: seq<SpanOption>, o: SpanOption)
    requires ApplyOptions(config, s, options).Ok?
    ensures ApplyOptions(config, s, options + [o]) == ApplyOption(config, ApplyOptions(config, s, options).value, o)
  {
    assert (options + [o])[..|options|] == options;
  }

  /** The context that Extract makes of what the extractor gave: what it gave, or its error and nothing else; a
      noop tracer does not look. */
  lemma ExtractedContext(outcome: Outcome)
    ensures ExtractContext(true, outcome) == Some(BLANK)
    ensures outcome.Extracted? && outcome.sc.err.None? ==> ExtractContext(false, outcome) == Some(outcome.sc)
    ensures outcome.Rejected? ==>
              exists sc :: ExtractContext(false, outcome) == Some(sc)
                && sc.err == Some(outcome.err) && sc.traceID.Empty() && sc.id == 0 && sc.parentID.None?
                && !sc.Decided() && sc.baggage.None?
    ensures outcome.OutOfBounds? ==> ExtractContext(false, outcome).None?
  {
    if outcome.Rejected? {
      var sc := BLANK.(err := Some(outcome.err));
      assert ExtractContext(false, outcome) == Some(sc);
    }
  }

  lemma TagsPassThrough(config: Config, m: SpanModel, tags: map<string, string>, supply: Supply)
    ensures Identify(config, m, supply).tags == m.tags
    ensures Identify(config, m.(tags := tags), supply) == Identify(config, m, supply).(tags := tags)
    ensures Decide(m, supply).tags == m.tags
    ensures Decide(m.(tags := tags), supply) == Decide(m, supply).(tags := tags)
  {
  }

  lemma TagsDoNotMatter(config: Config, s: SpanState, tags: map<string, string>, supply: Supply)
    ensures var r := StartWith(config, s, supply);
            && (r.Recording? ==> r.span.model.tags == s.model.tags)
            && StartWith(config, s.(model := s.model.(tags := tags)), supply)
               == match r
                  case Recording(span) => Recording(span.(model := span.model.(tags := tags)))
                  case _ => r
  {
    TagsPassThrough(config, s.model, tags, supply);
    TagsPassThrough(config, Identify(config, s.model, supply), tags, supply);
  }

  lemma FailedParentOption(config: Config, s: SpanState, e: Error)
    ensures var sc := ExtractContext(false, Rejected(e)).value;
            if config.extractFailurePolicy == POLICY_RESTART then ApplyOption(config, s, Parent(sc)) == Ok(s)
            else if config.extractFailurePolicy == POLICY_TAG_AND_RESTART then
              ApplyOption(config, s, Parent(sc))
              == Ok(s.(model := s.model.(tags := s.model.tags["error.extract" := ErrorText(e)])))
            else ApplyOption(config, s, Parent(sc)).Err?
  {
  }

  /** A span started with the context of a failed extraction, after other options that do not fail: under the
      restart policies it starts as if there had been no such parent, apart from a tag with the error's text if
      asked for; under any other policy StartSpan panics. */
  lemma FailedExtractionRestarts(config: Config, name: string, options: seq<SpanOption>, supply: Supply, e: Error)
    requires !Start(false, config, name, options, supply).Panicked?
    ensures var sc := ExtractContext(false, Rejected(e)).value;
            var with := Start(false, config, name, options + [Parent(sc)], supply);
            var without := Start(false, config, name, options, supply);
            if config.extractFailurePolicy == POLICY_RESTART then with == without
            else if config.extractFailurePolicy == POLICY_TAG_AND_RESTART then
              match without
              case Recording(span) =>
                with == Recording(span.(model := span.model.(tags := span.model.tags["error.extract" := ErrorText(e)])))
              case _ => with == without
            else with.Panicked?
  {
    var s := ApplyOptions(config, FreshSpan(config, name), options).value;
    AppendedOption(config, FreshSpan(config, name), options, Parent(ExtractContext(false, Rejected(e)).value));
    FailedParentOption(config, s, e);
    TagsDoNotMatter(config, s, s.model.tags["error.extract" := ErrorText(e)], supply);
  }

  // ---------------------------------------------------------------------------
  // Elapsed time and tags
  // ---------------------------------------------------------------------------

  /** The duration that Finish stores is the time from the start to now, as far as 64 bits of nanoseconds go. */
  lemma ElapsedExactly(start: Time, d: int)
    ensures -0x8000_0000_0000_0000 <= d < 0x8000_0000_0000_0000 ==> Elapsed(start + d, start) == d
    ensures d >= 0x8000_0000_0000_0000 ==> Elapsed(start + d, start) == 0x7fff_ffff_ffff_ffff
    ensures d < -0x8000_0000_0000_0000 ==> Elapsed(start + d, start) == -0x8000_0000_0000_0000
  {
  }

  datatype TagCall = TagCall(key: string, value: string)

  /** The tags after a series of calls of Tag. */
  function TagAll(tags: map<string, string>, calls: seq<TagCall>): map<string, string> {
    if calls == [] then tags
    else
      var last := calls[|calls| - 1];
      Tagged(TagAll(tags, calls[..|calls| - 1]), last.key, last.value)
  }

  predicate FirstCall(calls: seq<TagCall>, key: string, i: nat) {
    i < |calls| && calls[i].key == key && forall j :: 0 <= j < i ==> calls[j].key != key
  }

  predicate LastCall(calls: seq<TagCall>, key: string, i: nat) {
    i < |calls| && calls[i].key == key && forall j :: i < j < |calls| ==> calls[j].key != key
  }

  lemma {:induction false} UntouchedTag(tags: map<string, string>, calls: seq<TagCall>, key: string)
    requires forall j :: 0 <= j < |calls| ==> calls[j].key != key
    ensures key in TagAll(tags, calls) <==> key in tags
    ensures key in tags ==> TagAll(tags, calls)[key] == tags[key]
  {
    if calls != [] {
      UntouchedTag(tags, calls[..|calls| - 1], key);
    }
  }

  lemma {:induction false} ErrorStays(tags: map<string, string>, calls: seq<TagCall>)
    requires "error" in tags
    ensures "error" in TagAll(tags, calls) && TagAll(tags, calls)["error"] == tags["error"]
  {
    if calls != [] {
      ErrorStays(tags, calls[..|calls| - 1]);
    }
  }

  /** Of all calls of Tag with a key the last one wins; but of the errors the first, and the one that was there
      before wins over all. */
  lemma {:induction false} TagHistory(tags: map<string, string>, calls: seq<TagCall>, key: string, i: nat)
    requires if key == "error" then "error" !in tags && FirstCall(calls, key, i) else LastCall(calls, key, i)
    ensures key in TagAll(tags, calls) && TagAll(tags, calls)[key] == calls[i].value
  {
    var init := calls[..|calls| - 1];
    if i == |calls| - 1 {
      if key == "error" {
        UntouchedTag(tags, init, key);
      }
    } else {
      TagHistory(tags, init, key, i);
    }
  }
}

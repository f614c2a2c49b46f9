/** Injecting into a carrier that holds no B3 keys and extracting again, over all three carriers. */
module CarrierTheorems {
  import opened Hex
  import opened Model
  import opened B3Codec
  import opened B3Theorems
  import opened B3Carriers

  function Text(v: Option<string>): string {
    match v case Some(s) => s case None => ""
  }

  /** What the extractors find on a carrier that held none of the keys. */
  function ReadBack(f: Fields): Headers {
    Headers(Text(f.traceID), Text(f.spanID), Text(f.parentSpanID), Text(f.sampled), Text(f.flags))
  }

  predicate NoB3Keys<V>(m: map<Key, V>) {
    m.Keys !! B3_KEYS
  }

  lemma SampledTexts()
    ensures ToLower("1") == "1" && ToLower("0") == "0"
  {
  }

  lemma ParseBuiltIDs(sc: SpanContext)
    requires sc.HasIDs()
    ensures sc.traceID.String() != "" && TraceIDFromHex(sc.traceID.String()) == Ok(sc.traceID)
    ensures Hex16(sc.id) != "" && ParseUint(Hex16(sc.id)) == Value(sc.id)
    ensures sc.parentID.Some? ==> var p := Hex16(sc.parentID.value); p != "" && ParseUint(p) == Value(sc.parentID.value)
  {
    TraceIDFromHexInvertsString(sc.traceID);
    ParseHex16(sc.id);
    if sc.parentID.Some? {
      ParseHex16(sc.parentID.value);
    }
  }

  lemma ParseBuiltMultiWithIDs(sc: SpanContext)
    requires sc.HasIDs()
    ensures ParseMulti(ReadBack(FieldsOf(MULTI_ONLY, sc))) == Extracted(NormalForm(sc))
  {
    SampledTexts();
    ParseBuiltIDs(sc);
  }

  /** The multi-header encoding loses exactly what NormalForm drops, for every context. */
  lemma ParseBuiltMulti(sc: SpanContext)
    ensures ParseMulti(ReadBack(FieldsOf(MULTI_ONLY, sc))) == Extracted(NormalForm(sc))
  {
    if sc.HasIDs() {
      ParseBuiltMultiWithIDs(sc);
    } else {
      SampledTexts();
    }
  }

  lemma ReadBackByOptions(sc: SpanContext)
    ensures ReadBack(FieldsOf(SINGLE_AND_MULTI, sc)) == ReadBack(FieldsOf(MULTI_ONLY, sc))
    ensures ReadBack(FieldsOf(SINGLE_ONLY, sc)) == NO_HEADERS
  {
  }

  /** What an extractor that knows the single header returns, by injection options: the normal form
      whenever multi headers are sent; with the single header only, the normal form unless that header
      cannot be read back, and then the empty context without error. */
  function Relayed(options: InjectOptions, sc: SpanContext): Outcome {
    if options.multi || SingleRoundTrip(sc).Extracted? then Extracted(NormalForm(sc)) else Extracted(BLANK)
  }

  lemma ExtractInjected(options: InjectOptions, sc: SpanContext)
    requires options.multi || options.single
    ensures ExtractEither(Text(FieldsOf(options, sc).single), ReadBack(FieldsOf(options, sc))) == Relayed(options, sc)
  {
    ParseBuiltMulti(sc);
    ReadBackByOptions(sc);
    ParseBuildSingle(sc);
    BlankHeaders();
  }

  lemma BlankHeaders()
    ensures ParseMulti(NO_HEADERS) == Extracted(BLANK)
  {
  }

  lemma MapGetPut(m: StringMap, key: Key, v: Option<string>, k: Key)
    ensures MapGet(MapPut(m, key, v), k) == if k == key && v.Some? then v.value else MapGet(m, k)
  {
  }

  /** After an injection a key holds what was written there, or else what it held before. */
  lemma MapReads(m: StringMap, f: Fields, k: Key)
    ensures MapGet(MapStored(m, f), k) ==
            match f.Get(k) case Some(v) => v case None => MapGet(m, k)
  {
    var m1 := MapPut(m, FlagsKey, f.flags);
    var m2 := MapPut(m1, SampledKey, f.sampled);
    var m3 := MapPut(m2, TraceIDKey, f.traceID);
    var m4 := MapPut(m3, SpanIDKey, f.spanID);
    var m5 := MapPut(m4, ParentSpanIDKey, f.parentSpanID);
    MapGetPut(m, FlagsKey, f.flags, k);
    MapGetPut(m1, SampledKey, f.sampled, k);
    MapGetPut(m2, TraceIDKey, f.traceID, k);
    MapGetPut(m3, SpanIDKey, f.spanID, k);
    MapGetPut(m4, ParentSpanIDKey, f.parentSpanID, k);
    MapGetPut(m5, ContextKey, f.single, k);
  }

  lemma MapReadsAll(m: StringMap, f: Fields)
    requires NoB3Keys(m)
    ensures HeadersFrom(k => MapGet(MapStored(m, f), k)) == ReadBack(f)
    ensures MapGet(MapStored(m, f), ContextKey) == Text(f.single)
  {
    forall k | k in B3_KEYS ensures MapGet(m, k) == "" {
      assert k !in m.Keys;
    }
    MapReads(m, f, TraceIDKey);
    MapReads(m, f, SpanIDKey);
    MapReads(m, f, ParentSpanIDKey);
    MapReads(m, f, SampledKey);
    MapReads(m, f, FlagsKey);
    MapReads(m, f, ContextKey);
  }

  lemma HTTPGetPut(m: Multimap, key: Key, v: Option<string>, k: Key)
    ensures HTTPGet(HTTPPut(m, key, v), k) == if k == key && v.Some? then v.value else HTTPGet(m, k)
  {
  }

  /** After an injection a key holds what was written there, or else what it held before. */
  lemma HTTPReads(m: Multimap, f: Fields, k: Key)
    ensures HTTPGet(HTTPStored(m, f), k) ==
            match f.Get(k) case Some(v) => v case None => HTTPGet(m, k)
  {
    var m1 := HTTPPut(m, FlagsKey, f.flags);
    var m2 := HTTPPut(m1, SampledKey, f.sampled);
    var m3 := HTTPPut(m2, TraceIDKey, f.traceID);
    var m4 := HTTPPut(m3, SpanIDKey, f.spanID);
    var m5 := HTTPPut(m4, ParentSpanIDKey, f.parentSpanID);
    HTTPGetPut(m, FlagsKey, f.flags, k);
    HTTPGetPut(m1, SampledKey, f.sampled, k);
    HTTPGetPut(m2, TraceIDKey, f.traceID, k);
    HTTPGetPut(m3, SpanIDKey, f.spanID, k);
    HTTPGetPut(m4, ParentSpanIDKey, f.parentSpanID, k);
    HTTPGetPut(m5, ContextKey, f.single, k);
  }

  lemma HTTPReadsAll(m: Multimap, f: Fields)
    requires NoB3Keys(m)
    ensures HeadersFrom(k => HTTPGet(HTTPStored(m, f), k)) == ReadBack(f)
    ensures HTTPGet(HTTPStored(m, f), ContextKey) == Text(f.single)
  {
    forall k | k in B3_KEYS ensures HTTPGet(m, k) == "" {
      assert k !in m.Keys;
    }
    HTTPReads(m, f, TraceIDKey);
    HTTPReads(m, f, SpanIDKey);
    HTTPReads(m, f, ParentSpanIDKey);
    HTTPReads(m, f, SampledKey);
    HTTPReads(m, f, FlagsKey);
    HTTPReads(m, f, ContextKey);
  }

  lemma GRPCGetPut(m: Multimap, key: Key, v: Option<string>, k: Key)
    ensures GRPCGet(GRPCPut(m, key, v), k) == if k == key && v.Some? then v.value else GRPCGet(m, k)
  {
  }

  /** After an injection a key holds what was written there, or else what it held before. */
  lemma GRPCReads(m: Multimap, f: Fields, k: Key)
    ensures GRPCGet(GRPCStored(m, f), k) ==
            match (if k == ContextKey then None else f.Get(k)) case Some(v) => v case None => GRPCGet(m, k)
  {
    var m1 := GRPCPut(m, FlagsKey, f.flags);
    var m2 := GRPCPut(m1, SampledKey, f.sampled);
    var m3 := GRPCPut(m2, TraceIDKey, f.traceID);
    var m4 := GRPCPut(m3, SpanIDKey, f.spanID);
    var m5 := GRPCPut(m4, ParentSpanIDKey, f.parentSpanID);
    GRPCGetPut(m, FlagsKey, f.flags, k);
    GRPCGetPut(m1, SampledKey, f.sampled, k);
    GRPCGetPut(m2, TraceIDKey, f.traceID, k);
    GRPCGetPut(m3, SpanIDKey, f.spanID, k);
    GRPCGetPut(m4, ParentSpanIDKey, f.parentSpanID, k);
  }

  lemma GRPCReadsAll(m: Multimap, f: Fields)
    requires NoB3Keys(m)
    ensures HeadersFrom(k => GRPCGet(GRPCStored(m, f), k)) == ReadBack(f)
  {
    forall k | k in B3_KEYS ensures GRPCGet(m, k) == "" {
      assert k !in m.Keys;
    }
    GRPCReads(m, f, TraceIDKey);
    GRPCReads(m, f, SpanIDKey);
    GRPCReads(m, f, ParentSpanIDKey);
    GRPCReads(m, f, SampledKey);
    GRPCReads(m, f, FlagsKey);
  }

  /** Over a map, with any injection options. With both encodings this is the extraction of the multi headers
      alone, even when the single header is unreadable. */
  lemma {:induction false} MapRelays(m: StringMap, opts: seq<InjectOption>, sc: SpanContext)
    requires NoB3Keys(m)
    ensures MapExtracted(MapStored(m, FieldsOf(Resolve(opts), sc))) == Relayed(Resolve(opts), sc)
  {
    MapReadsAll(m, FieldsOf(Resolve(opts), sc));
    ExtractInjected(Resolve(opts), sc);
  }

  /** Over an HTTP request, with any injection options. */
  lemma {:induction false} HTTPRelays(m: Multimap, opts: seq<InjectOption>, sc: SpanContext)
    requires NoB3Keys(m)
    ensures HTTPExtracted(HTTPStored(m, FieldsOf(Resolve(opts), sc))) == Relayed(Resolve(opts), sc)
  {
    HTTPReadsAll(m, FieldsOf(Resolve(opts), sc));
    ExtractInjected(Resolve(opts), sc);
  }

  /** Over gRPC metadata, which knows the multi headers only. */
  lemma GRPCRelays(m: Multimap, sc: SpanContext)
    requires NoB3Keys(m)
    ensures GRPCExtracted(GRPCStored(m, FieldsOf(MULTI_ONLY, sc))) == Extracted(NormalForm(sc))
  {
    GRPCReadsAll(m, FieldsOf(MULTI_ONLY, sc));
    ParseBuiltMulti(sc);
  }

  /** Default injection carries the same normal form over every carrier, for every context. */
  lemma CarriersAgree(texts: StringMap, lists: Multimap, sc: SpanContext)
    requires NoB3Keys(texts) && NoB3Keys(lists)
    ensures MapExtracted(MapStored(texts, FieldsOf(MULTI_ONLY, sc))) == Extracted(NormalForm(sc))
    ensures HTTPExtracted(HTTPStored(lists, FieldsOf(MULTI_ONLY, sc))) == Extracted(NormalForm(sc))
    ensures GRPCExtracted(GRPCStored(lists, FieldsOf(MULTI_ONLY, sc))) == Extracted(NormalForm(sc))
  {
    MapRelays(texts, [], sc);
    HTTPRelays(lists, [], sc);
    GRPCRelays(lists, sc);
  }

  /** When the single header alone loses information: exactly when a parent id travels without the
      sampling state it needs, or a sampling state next to a parent id without identifiers. */
  lemma SingleOnlyLoses(sc: SpanContext)
    ensures Relayed(SINGLE_ONLY, sc) != Extracted(NormalForm(sc)) <==>
            sc.parentID.Some? && (if sc.HasIDs() then !sc.Decided() else sc.Decided())
  {
  }

  /** Injection leaves every key outside the six as it was. */
  lemma OtherKeysKept(texts: StringMap, lists: Multimap, f: Fields, k: Key)
    requires k !in B3_KEYS
    ensures k in MapStored(texts, f) <==> k in texts
    ensures k in texts ==> MapStored(texts, f)[k] == texts[k]
    ensures k in HTTPStored(lists, f) <==> k in lists
    ensures k in GRPCStored(lists, f) <==> k in lists
    ensures k in lists ==> HTTPStored(lists, f)[k] == lists[k] && GRPCStored(lists, f)[k] == lists[k]
  {
    assert k.OtherKey?;
  }
}

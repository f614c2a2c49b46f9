/** What extraction and injection mean key by key, over carriers with any contents and for any context. */
module Extraction {
  import opened Hex
  import opened Model
  import opened B3Codec
  import opened B3Theorems
  import opened B3Carriers

  // ---------------------------------------------------------------------------
  // Extraction
  // ---------------------------------------------------------------------------

  /** The header leaves the string when read: it is 33 to 48 characters long with a wide trace id. */
  predicate ReadsTooFar(h: string) {
    33 <= |h| <= 48 && h[16] != '-' && AllHex(h[..16]) && AllHex(h[16..32])
  }

  /** Which context a single header and multi headers together stand for: that of the single header where it
      stands for one, whatever the others say; theirs where it is absent or faulty. */
  predicate Means(single: string, multi: Headers, sc: SpanContext) {
    if single != "" && Fault(single).None? then Denotes(single, sc) else MultiDenotes(multi, sc)
  }

  /** Which error they amount to: none while either is good; with both bad that of the single header. */
  predicate Fails(single: string, multi: Headers, e: Error) {
    if single == "" then MultiFault(multi) == Some(e)
    else Fault(single) == Some(e) && MultiFault(multi).Some?
  }

  lemma EitherDecided(single: string, multi: Headers, sc: SpanContext, e: Error)
    ensures ExtractEither(single, multi) == Extracted(sc) <==> Means(single, multi, sc)
    ensures ExtractEither(single, multi) == Rejected(e) <==> Fails(single, multi, e)
    ensures ExtractEither(single, multi).OutOfBounds? <==> ReadsTooFar(single)
  {
    ParseSingleAccepts(single, sc);
    ParseSingleRejects(single);
    OutOfBoundsExactly(single);
    ParseMultiAccepts(multi, sc);
    MultiDecided(multi, e);
  }

  lemma MultiDecided(multi: Headers, e: Error)
    ensures ParseMulti(multi) == Rejected(e) <==> MultiFault(multi) == Some(e)
    ensures ParseMulti(multi).Rejected? <==> MultiFault(multi).Some?
    ensures !ParseMulti(multi).OutOfBounds?
  {
    ParseMultiRejects(multi, e);
    if ParseMulti(multi).Rejected? {
      ParseMultiRejects(multi, ParseMulti(multi).err);
    }
    if MultiFault(multi).Some? {
      ParseMultiRejects(multi, MultiFault(multi).value);
    }
  }

  /** `text` is what is found under `key`: the entry, or nothing. */
  predicate MapHolds(m: StringMap, key: Key, text: string) {
    if key in m then m[key] == text else text == ""
  }

  /** Extraction from any map, with whatever under its keys. */
  lemma MapExtracts(m: StringMap, single: string, multi: Headers, sc: SpanContext, e: Error)
    requires MapHolds(m, ContextKey, single)
    requires MapHolds(m, TraceIDKey, multi.traceID) && MapHolds(m, SpanIDKey, multi.spanID)
    requires MapHolds(m, ParentSpanIDKey, multi.parentSpanID)
    requires MapHolds(m, SampledKey, multi.sampled) && MapHolds(m, FlagsKey, multi.flags)
    ensures MapExtracted(m) == Extracted(sc) <==> Means(single, multi, sc)
    ensures MapExtracted(m) == Rejected(e) <==> Fails(single, multi, e)
    ensures MapExtracted(m).OutOfBounds? <==> ReadsTooFar(single)
  {
    EitherDecided(single, multi, sc, e);
    assert HeadersFrom(k => MapGet(m, k)) == multi;
  }

  /** `text` is the first value under `key`, or nothing. */
  predicate FirstValue(m: Multimap, key: Key, text: string) {
    if key in m && |m[key]| > 0 then m[key][0] == text else text == ""
  }

  /** Extraction from any HTTP request, with any number of values under each header. */
  lemma HTTPExtracts(m: Multimap, single: string, multi: Headers, sc: SpanContext, e: Error)
    requires FirstValue(m, ContextKey, single)
    requires FirstValue(m, TraceIDKey, multi.traceID) && FirstValue(m, SpanIDKey, multi.spanID)
    requires FirstValue(m, ParentSpanIDKey, multi.parentSpanID)
    requires FirstValue(m, SampledKey, multi.sampled) && FirstValue(m, FlagsKey, multi.flags)
    ensures HTTPExtracted(m) == Extracted(sc) <==> Means(single, multi, sc)
    ensures HTTPExtracted(m) == Rejected(e) <==> Fails(single, multi, e)
    ensures HTTPExtracted(m).OutOfBounds? <==> ReadsTooFar(single)
  {
    EitherDecided(single, multi, sc, e);
    assert HeadersFrom(k => HTTPGet(m, k)) == multi;
  }

  /** `text` is the last value under `key`, or nothing. */
  predicate LastValue(m: Multimap, key: Key, text: string) {
    if key in m && |m[key]| > 0 then m[key][|m[key]| - 1] == text else text == ""
  }

  /** Extraction from any gRPC metadata: the single header plays no part. */
  lemma GRPCExtracts(m: Multimap, multi: Headers, sc: SpanContext, e: Error)
    requires LastValue(m, TraceIDKey, multi.traceID) && LastValue(m, SpanIDKey, multi.spanID)
    requires LastValue(m, ParentSpanIDKey, multi.parentSpanID)
    requires LastValue(m, SampledKey, multi.sampled) && LastValue(m, FlagsKey, multi.flags)
    ensures GRPCExtracted(m) == Extracted(sc) <==> MultiDenotes(multi, sc)
    ensures GRPCExtracted(m) == Rejected(e) <==> MultiFault(multi) == Some(e)
    ensures !GRPCExtracted(m).OutOfBounds?
  {
    ParseMultiAccepts(multi, sc);
    MultiDecided(multi, e);
    assert HeadersFrom(k => GRPCGet(m, k)) == multi;
  }

  /** An unsampled single header next to sampled multi headers with identifiers: the single header decides. */
  lemma SingleHeaderDecides()
    ensures ExtractEither("0", Headers("1", "2", "", "1", "")) == Extracted(BLANK.(sampled := Some(false)))
  {
    EitherDecided("0", Headers("1", "2", "", "1", ""), BLANK.(sampled := Some(false)), ErrEmptyContext);
  }

  // ---------------------------------------------------------------------------
  // Injection
  // ---------------------------------------------------------------------------

  predicate LowerHex(s: string) {
    forall i :: 0 <= i < |s| ==> '0' <= s[i] <= '9' || 'a' <= s[i] <= 'f'
  }

  lemma {:induction false} DigitsAreLower(n: nat, width: nat)
    ensures LowerHex(Digits(n, width))
  {
    if width > 0 {
      DigitsAreLower(n / 16, width - 1);
    }
  }

  /** `text` is an identifier on the wire: `n` in small hex digits, zero padded to 16. */
  predicate WireID(text: string, n: uint64) {
    |text| == 16 && LowerHex(text) && AllHex(text) && HexValue(text) == n
  }

  /** A trace id on the wire: 16 digits, or 32 when the high half is used. */
  predicate WireTraceID(text: string, t: TraceID) {
    && |text| == (if t.high == 0 then 16 else 32)
    && LowerHex(text) && AllHex(text) && HexValue(text) == t.Number()
  }

  lemma Hex16IsWire(n: uint64)
    ensures WireID(Hex16(n), n)
  {
    DigitsAreLower(n, 16);
    ParseHex16(n);
  }

  lemma StringIsWire(t: TraceID)
    ensures WireTraceID(t.String(), t)
  {
    DigitsAreLower(t.high, 16);
    DigitsAreLower(t.low, 16);
    TraceIDFromHexInvertsString(t);
    TraceIDFromHexCharacterised(t.String());
  }

  /** Whether the options ask for multi headers: by default, or when the last option says both. */
  predicate AsksForMulti(opts: seq<InjectOption>) {
    |opts| > 0 ==> opts[|opts| - 1].WithSingleAndMultiHeader?
  }

  /** What is written under each key, for every context and list of options. */
  lemma WrittenFields(opts: seq<InjectOption>, sc: SpanContext)
    ensures var f, multi := FieldsOf(Resolve(opts), sc), AsksForMulti(opts);
            && (f.flags.Some? <==> multi && sc.debug)
            && (f.flags.Some? ==> f.flags.value == "1")
            && (f.sampled.Some? <==> multi && !sc.debug && sc.sampled.Some?)
            && (f.sampled.Some? ==> (f.sampled.value == "1" <==> sc.sampled == Some(true)))
            && (f.sampled.Some? ==> (f.sampled.value == "0" <==> sc.sampled == Some(false)))
    ensures var f, ids := FieldsOf(Resolve(opts), sc), AsksForMulti(opts) && !sc.traceID.Empty() && sc.id != 0;
            && (f.traceID.Some? <==> ids) && (ids ==> WireTraceID(f.traceID.value, sc.traceID))
            && (f.spanID.Some? <==> ids) && (ids ==> WireID(f.spanID.value, sc.id))
            && (f.parentSpanID.Some? <==> ids && sc.parentID.Some?)
            && (ids && sc.parentID.Some? ==> WireID(f.parentSpanID.value, sc.parentID.value))
    ensures FieldsOf(Resolve(opts), sc).single == if |opts| > 0 then Some(SingleHeader(sc)) else None
  {
    StringIsWire(sc.traceID);
    Hex16IsWire(sc.id);
    if sc.parentID.Some? {
      Hex16IsWire(sc.parentID.value);
    }
  }

  /** What a carrier has under a key, if anything. */
  function Entry<V>(m: map<Key, V>, k: Key): Option<V> {
    if k in m then Some(m[k]) else None
  }

  lemma MapPutEntry(m: StringMap, key: Key, v: Option<string>, k: Key)
    ensures Entry(MapPut(m, key, v), k) == if k == key && v.Some? then Some(v.value) else Entry(m, k)
  {
  }

  /** What is in a map after an injection, key by key: what was written, or else what was there. */
  lemma MapWrites(m: StringMap, f: Fields, k: Key)
    ensures Entry(MapStored(m, f), k) == if f.Get(k).Some? then Some(f.Get(k).value) else Entry(m, k)
  {
    var m1 := MapPut(m, FlagsKey, f.flags);
    var m2 := MapPut(m1, SampledKey, f.sampled);
    var m3 := MapPut(m2, TraceIDKey, f.traceID);
    var m4 := MapPut(m3, SpanIDKey, f.spanID);
    var m5 := MapPut(m4, ParentSpanIDKey, f.parentSpanID);
    MapPutEntry(m, FlagsKey, f.flags, k);
    MapPutEntry(m1, SampledKey, f.sampled, k);
    MapPutEntry(m2, TraceIDKey, f.traceID, k);
    MapPutEntry(m3, SpanIDKey, f.spanID, k);
    MapPutEntry(m4, ParentSpanIDKey, f.parentSpanID, k);
    MapPutEntry(m5, ContextKey, f.single, k);
  }

  lemma HTTPPutEntry(m: Multimap, key: Key, v: Option<string>, k: Key)
    ensures Entry(HTTPPut(m, key, v), k) == if k == key && v.Some? then Some([v.value]) else Entry(m, k)
  {
  }

  /** In an HTTP request a written header has that one value, whatever values it had; the others keep theirs. */
  lemma HTTPWrites(m: Multimap, f: Fields, k: Key)
    ensures Entry(HTTPStored(m, f), k) == if f.Get(k).Some? then Some([f.Get(k).value]) else Entry(m, k)
  {
    var m1 := HTTPPut(m, FlagsKey, f.flags);
    var m2 := HTTPPut(m1, SampledKey, f.sampled);
    var m3 := HTTPPut(m2, TraceIDKey, f.traceID);
    var m4 := HTTPPut(m3, SpanIDKey, f.spanID);
    var m5 := HTTPPut(m4, ParentSpanIDKey, f.parentSpanID);
    HTTPPutEntry(m, FlagsKey, f.flags, k);
    HTTPPutEntry(m1, SampledKey, f.sampled, k);
    HTTPPutEntry(m2, TraceIDKey, f.traceID, k);
    HTTPPutEntry(m3, SpanIDKey, f.spanID, k);
    HTTPPutEntry(m4, ParentSpanIDKey, f.parentSpanID, k);
    HTTPPutEntry(m5, ContextKey, f.single, k);
  }

  lemma GRPCPutEntry(m: Multimap, key: Key, v: Option<string>, k: Key)
    ensures Entry(GRPCPut(m, key, v), k)
            == if k == key && v.Some? then Some((if k in m then m[k] else []) + [v.value]) else Entry(m, k)
  {
  }

  /** In gRPC metadata the value comes after those that were there; the single header is never written. */
  lemma GRPCWrites(m: Multimap, f: Fields, k: Key)
    ensures Entry(GRPCStored(m, f), k)
            == if k != ContextKey && f.Get(k).Some? then Some((if k in m then m[k] else []) + [f.Get(k).value])
               else Entry(m, k)
  {
    var m1 := GRPCPut(m, FlagsKey, f.flags);
    var m2 := GRPCPut(m1, SampledKey, f.sampled);
    var m3 := GRPCPut(m2, TraceIDKey, f.traceID);
    var m4 := GRPCPut(m3, SpanIDKey, f.spanID);
    GRPCPutEntry(m, FlagsKey, f.flags, k);
    GRPCPutEntry(m1, SampledKey, f.sampled, k);
    GRPCPutEntry(m2, TraceIDKey, f.traceID, k);
    GRPCPutEntry(m3, SpanIDKey, f.spanID, k);
    GRPCPutEntry(m4, ParentSpanIDKey, f.parentSpanID, k);
  }
}

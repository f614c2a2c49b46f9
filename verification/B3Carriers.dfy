/** Injecting and extracting span contexts: HTTP requests, plain maps and gRPC metadata
    (propagation/b3/http.go, map.go, grpc.go). The carriers are mutated in place. */
module B3Carriers {
  import opened Hex
  import opened Model
  import opened B3Codec

  // ---------------------------------------------------------------------------
  // Keys and options
  // ---------------------------------------------------------------------------

  /** The keys of propagation/b3/shared.go and any other key. For HTTP these are canonical header names. */
  datatype Key =
    | TraceIDKey | SpanIDKey | ParentSpanIDKey | SampledKey | FlagsKey
    | ContextKey
    | OtherKey(name: string)

  const B3_KEYS: set<Key> := {TraceIDKey, SpanIDKey, ParentSpanIDKey, SampledKey, FlagsKey, ContextKey}

  datatype InjectOptions = InjectOptions(single: bool, multi: bool)

  datatype InjectOption = WithSingleAndMultiHeader | WithSingleHeaderOnly

  const MULTI_ONLY := InjectOptions(false, true)
  const SINGLE_AND_MULTI := InjectOptions(true, true)
  const SINGLE_ONLY := InjectOptions(true, false)

  /** Each option overwrites both flags, so the last one decides. */
  function Resolve(opts: seq<InjectOption>): InjectOptions {
    if opts == [] then MULTI_ONLY
    else if opts[|opts| - 1] == WithSingleAndMultiHeader then SINGLE_AND_MULTI
    else SINGLE_ONLY
  }

  method ResolveOptions(opts: seq<InjectOption>) returns (options: InjectOptions)
    ensures options == Resolve(opts)
  {
    options := InjectOptions(false, true);
    for i := 0 to |opts|
      invariant options == Resolve(opts[..i])
    {
      match opts[i] {
        case WithSingleAndMultiHeader =>
          options := options.(single := true);
          options := options.(multi := true);
        case WithSingleHeaderOnly =>
          options := options.(single := true);
          options := options.(multi := false);
      }
      assert opts[..i + 1][|opts[..i + 1]| - 1] == opts[i];
    }
    assert opts[..|opts|] == opts;
  }

  // ---------------------------------------------------------------------------
  // What an injection writes, and how extractors choose
  // ---------------------------------------------------------------------------

  /** The value, if any, under each of the six keys. */
  datatype Fields = Fields(
    flags: Option<string>, sampled: Option<string>,
    traceID: Option<string>, spanID: Option<string>, parentSpanID: Option<string>,
    single: Option<string>)
  {
    function Get(k: Key): Option<string> {
      match k
      case FlagsKey => flags
      case SampledKey => sampled
      case TraceIDKey => traceID
      case SpanIDKey => spanID
      case ParentSpanIDKey => parentSpanID
      case ContextKey => single
      case OtherKey(_) => None
    }
  }

  /** What a context puts under each key: Debug is sent as a flag and hides Sampled, and the three
      identifiers are sent together or not at all. */
  function FieldsOf(options: InjectOptions, sc: SpanContext): Fields {
    var ids := options.multi && sc.HasIDs();
    Fields(
      if options.multi && sc.debug then Some("1") else None,
      if options.multi && !sc.debug && sc.sampled.Some? then Some(if sc.sampled.value then "1" else "0") else None,
      if ids then Some(sc.traceID.String()) else None,
      if ids then Some(Hex16(sc.id)) else None,
      if ids && sc.parentID.Some? then Some(Hex16(sc.parentID.value)) else None,
      if options.single then Some(SingleHeader(sc)) else None)
  }

  function HeadersFrom(get: Key -> string): Headers {
    Headers(get(TraceIDKey), get(SpanIDKey), get(ParentSpanIDKey), get(SampledKey), get(FlagsKey))
  }

  /** A readable single header wins; otherwise the multi headers decide, but if both are bad the
      single header's error is the one reported. */
  function ExtractEither(single: string, multi: Headers): Outcome {
    var s := ParseSingle(single);
    if single != "" && !s.Rejected? then s
    else
      var m := ParseMulti(multi);
      if single != "" && m.Rejected? then s else m
  }

  /** The decision common to the HTTP and map extractors. */
  method ExtractSingleOrMulti(singleHeader: string, multi: Headers) returns (r: Outcome)
    ensures r == ExtractEither(singleHeader, multi)
  {
    var sErr: Option<Error> := None;
    if singleHeader != "" {
      r := ParseSingleHeader(singleHeader);
      if !r.Rejected? {
        return;
      }
      sErr := Some(r.err);
    }
    r := ParseHeaders(multi);
    if r.Rejected? && sErr.Some? {
      r := Rejected(sErr.value);
    }
  }

  // ---------------------------------------------------------------------------
  // Plain map carrier
  // ---------------------------------------------------------------------------

  type StringMap = map<Key, string>

  function MapGet(m: StringMap, key: Key): string {
    if key in m then m[key] else ""
  }

  function MapExtracted(m: StringMap): Outcome {
    ExtractEither(MapGet(m, ContextKey), HeadersFrom(k => MapGet(m, k)))
  }

  function MapPut(m: StringMap, key: Key, value: Option<string>): StringMap {
    match value case Some(v) => m[key := v] case None => m
  }

  function MapStored(m: StringMap, f: Fields): StringMap {
    var sampling := MapPut(MapPut(m, FlagsKey, f.flags), SampledKey, f.sampled);
    var ids := MapPut(MapPut(MapPut(sampling, TraceIDKey, f.traceID), SpanIDKey, f.spanID), ParentSpanIDKey, f.parentSpanID);
    MapPut(ids, ContextKey, f.single)
  }

  class MapCarrier {
    var entries: StringMap

    constructor (entries: StringMap)
      ensures this.entries == entries
    {
      this.entries := entries;
    }

    method Extract() returns (r: Outcome)
      ensures r == MapExtracted(entries)
    {
      var m := entries;
      r := ExtractSingleOrMulti(MapGet(m, ContextKey), HeadersFrom(k => MapGet(m, k)));
    }

    method Inject(opts: seq<InjectOption>, sc: SpanContext) returns (err: Option<Error>)
      modifies this
      ensures sc == BLANK ==> err == Some(ErrEmptyContext) && entries == old(entries)
      ensures sc != BLANK ==> err == None && entries == MapStored(old(entries), FieldsOf(Resolve(opts), sc))
    {
      var options := ResolveOptions(opts);
      if sc == BLANK {
        return Some(ErrEmptyContext);
      }

      if options.multi {
        if sc.debug {
          entries := entries[FlagsKey := "1"];
        } else if sc.sampled.Some? {
          if sc.sampled.value {
            entries := entries[SampledKey := "1"];
          } else {
            entries := entries[SampledKey := "0"];
          }
        }

        if !sc.traceID.Empty() && sc.id > 0 {
          entries := entries[TraceIDKey := sc.traceID.String()];
          entries := entries[SpanIDKey := Hex16(sc.id)];
          if sc.parentID.Some? {
            entries := entries[ParentSpanIDKey := Hex16(sc.parentID.value)];
          }
        }
      }

      if options.single {
        var text := BuildSingleHeader(sc);
        entries := entries[ContextKey := text];
      }
      return None;
    }
  }

  // ---------------------------------------------------------------------------
  // HTTP carrier
  // ---------------------------------------------------------------------------

  type Multimap = map<Key, seq<string>>

  /** Header.Get: the first value. */
  function HTTPGet(m: Multimap, key: Key): string {
    if key in m && m[key] != [] then m[key][0] else ""
  }

  function HTTPExtracted(m: Multimap): Outcome {
    ExtractEither(HTTPGet(m, ContextKey), HeadersFrom(k => HTTPGet(m, k)))
  }

  /** Header.Set: the value replaces whatever was under the key. */
  function HTTPPut(m: Multimap, key: Key, value: Option<string>): Multimap {
    match value case Some(v) => m[key := [v]] case None => m
  }

  function HTTPStored(m: Multimap, f: Fields): Multimap {
    var sampling := HTTPPut(HTTPPut(m, FlagsKey, f.flags), SampledKey, f.sampled);
    var ids := HTTPPut(HTTPPut(HTTPPut(sampling, TraceIDKey, f.traceID), SpanIDKey, f.spanID), ParentSpanIDKey, f.parentSpanID);
    HTTPPut(ids, ContextKey, f.single)
  }

  class HTTPRequest {
    var header: Multimap

    constructor (header: Multimap)
      ensures this.header == header
    {
      this.header := header;
    }

    method Extract() returns (r: Outcome)
      ensures r == HTTPExtracted(header)
    {
      var m := header;
      r := ExtractSingleOrMulti(HTTPGet(m, ContextKey), HeadersFrom(k => HTTPGet(m, k)));
    }

    method Set(key: Key, value: string)
      modifies this
      ensures header == HTTPPut(old(header), key, Some(value))
    {
      header := header[key := [value]];
    }

    method Inject(opts: seq<InjectOption>, sc: SpanContext) returns (err: Option<Error>)
      modifies this
      ensures sc == BLANK ==> err == Some(ErrEmptyContext) && header == old(header)
      ensures sc != BLANK ==> err == None && header == HTTPStored(old(header), FieldsOf(Resolve(opts), sc))
    {
      var options := ResolveOptions(opts);
      if sc == BLANK {
        return Some(ErrEmptyContext);
      }

      if options.multi {
        if sc.debug {
          Set(FlagsKey, "1");
        } else if sc.sampled.Some? {
          if sc.sampled.value {
            Set(SampledKey, "1");
          } else {
            Set(SampledKey, "0");
          }
        }

        if !sc.traceID.Empty() && sc.id > 0 {
          Set(TraceIDKey, sc.traceID.String());
          Set(SpanIDKey, Hex16(sc.id));
          if sc.parentID.Some? {
            Set(ParentSpanIDKey, Hex16(sc.parentID.value));
          }
        }
      }

      if options.single {
        var text := BuildSingleHeader(sc);
        Set(ContextKey, text);
      }
      return None;
    }
  }

  // ---------------------------------------------------------------------------
  // gRPC carrier
  // ---------------------------------------------------------------------------

  /** GetGRPCHeader: the last value. */
  function GRPCGet(m: Multimap, key: Key): string {
    if key in m && m[key] != [] then m[key][|m[key]| - 1] else ""
  }

  function GRPCExtracted(m: Multimap): Outcome {
    ParseMulti(HeadersFrom(k => GRPCGet(m, k)))
  }

  function Values(m: Multimap, key: Key): seq<string> {
    if key in m then m[key] else []
  }

  function GRPCPut(m: Multimap, key: Key, value: Option<string>): Multimap {
    match value case Some(v) => m[key := Values(m, key) + [v]] case None => m
  }

  function GRPCStored(m: Multimap, f: Fields): Multimap {
    var sampling := GRPCPut(GRPCPut(m, FlagsKey, f.flags), SampledKey, f.sampled);
    GRPCPut(GRPCPut(GRPCPut(sampling, TraceIDKey, f.traceID), SpanIDKey, f.spanID), ParentSpanIDKey, f.parentSpanID)
  }

  class GRPCMetadata {
    var md: Multimap

    constructor (md: Multimap)
      ensures this.md == md
    {
      this.md := md;
    }

    method Extract() returns (r: Outcome)
      ensures r == GRPCExtracted(md)
    {
      var m := md;
      r := ParseHeaders(HeadersFrom(k => GRPCGet(m, k)));
    }

    method SetHeader(key: Key, value: string)
      modifies this
      ensures md == GRPCPut(old(md), key, Some(value))
    {
      md := md[key := Values(md, key) + [value]];
    }

    method Inject(sc: SpanContext) returns (err: Option<Error>)
      modifies this
      ensures sc == BLANK ==> err == Some(ErrEmptyContext) && md == old(md)
      ensures sc != BLANK ==> err == None && md == GRPCStored(old(md), FieldsOf(MULTI_ONLY, sc))
    {
      if sc == BLANK {
        return Some(ErrEmptyContext);
      }

      if sc.debug {
        SetHeader(FlagsKey, "1");
      } else if sc.sampled.Some? {
        if sc.sampled.value {
          SetHeader(SampledKey, "1");
        } else {
          SetHeader(SampledKey, "0");
        }
      }

      if !sc.traceID.Empty() && sc.id > 0 {
        SetHeader(TraceIDKey, sc.traceID.String());
        SetHeader(SpanIDKey, Hex16(sc.id));
        if sc.parentID.Some? {
          SetHeader(ParentSpanIDKey, Hex16(sc.parentID.value));
        }
      }
      return None;
    }
  }
}

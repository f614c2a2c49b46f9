/** The B3 wire formats of propagation/b3/spancontext.go: the multi-header parser, the fixed-offset
    single-header parser and the single-header printer, with what each accepts and how they invert. */
module B3Codec {
  import opened Hex
  import opened Model

  /** What a parser can do: return a context, return an error, or index past the end of its input. */
  datatype Outcome = Extracted(sc: SpanContext) | Rejected(err: Error) | OutOfBounds

  // ---------------------------------------------------------------------------
  // Multiple headers
  // ---------------------------------------------------------------------------

  datatype Headers = Headers(traceID: string, spanID: string, parentSpanID: string, sampled: string, flags: string)

  const NO_HEADERS: Headers := Headers("", "", "", "", "")

  /** strings.ToLower, which agrees with ASCII lowering as far as "true" and "false" are concerned. */
  function ToLower(s: string): string {
    seq(|s|, i requires 0 <= i < |s| => if 'A' <= s[i] <= 'Z' then (s[i] as int + 32) as char else s[i])
  }

  function SampledValue(text: string): Option<bool> {
    if text == "1" || text == "true" then Some(true)
    else if text == "0" || text == "false" then Some(false)
    else None
  }

  predicate IDText(s: string) {
    ParseUint(s).Value?
  }

  /** The reading of the five headers: the first fault in this order decides the error, and without a
      fault each header contributes its own part of the context. */
  function ParseMulti(h: Headers): Outcome {
    if h.sampled != "" && SampledValue(ToLower(h.sampled)).None? then Rejected(ErrInvalidSampledHeader)
    else if h.traceID != "" && TraceIDFromHex(h.traceID).Err? then Rejected(ErrInvalidTraceIDHeader)
    else if h.spanID != "" && !IDText(h.spanID) then Rejected(ErrInvalidSpanIDHeader)
    else if (h.traceID == "") != (h.spanID == "") then Rejected(ErrInvalidScope)
    else if h.parentSpanID != "" && h.traceID == "" then Rejected(ErrInvalidScopeParent)
    else if h.parentSpanID != "" && !IDText(h.parentSpanID) then Rejected(ErrInvalidParentSpanIDHeader)
    else Extracted(MultiContext(h))
  }

  function MultiContext(h: Headers): SpanContext {
    BLANK.(
      traceID := (match TraceIDFromHex(h.traceID) case Ok(t) => t case Err(_) => TraceID(0, 0)),
      id := (match ParseUint(h.spanID) case Value(n) => n case _ => 0),
      parentID := (match ParseUint(h.parentSpanID) case Value(n) => Some(n) case _ => None),
      debug := h.flags == "1",
      sampled := if h.flags == "1" then None else SampledValue(ToLower(h.sampled)))
  }

  method ParseHeaders(h: Headers) returns (r: Outcome)
    ensures r == ParseMulti(h)
  {
    var sc, requiredCount := BLANK, 0;

    var sampled := ToLower(h.sampled);
    if sampled == "0" || sampled == "false" {
      sc := sc.(sampled := Some(false));
    } else if sampled == "1" || sampled == "true" {
      sc := sc.(sampled := Some(true));
    } else if sampled != "" {
      return Rejected(ErrInvalidSampledHeader);
    }

    if h.flags == "1" {
      sc := sc.(debug := true);
      sc := sc.(sampled := None);
    }

    if h.traceID != "" {
      requiredCount := requiredCount + 1;
      match TraceIDFromHex(h.traceID) {
        case Ok(t) => sc := sc.(traceID := t);
        case Err(_) => return Rejected(ErrInvalidTraceIDHeader);
      }
    }

    if h.spanID != "" {
      requiredCount := requiredCount + 1;
      match ParseUint(h.spanID) {
        case Value(n) => sc := sc.(id := n);
        case _ => return Rejected(ErrInvalidSpanIDHeader);
      }
    }

    if requiredCount != 0 && requiredCount != 2 {
      return Rejected(ErrInvalidScope);
    }

    if h.parentSpanID != "" {
      if requiredCount == 0 {
        return Rejected(ErrInvalidScopeParent);
      }
      match ParseUint(h.parentSpanID) {
        case Value(n) => sc := sc.(parentID := Some(n));
        case _ => return Rejected(ErrInvalidParentSpanIDHeader);
      }
    }

    return Extracted(sc);
  }

  // ---------------------------------------------------------------------------
  // Single header: parser
  // ---------------------------------------------------------------------------

  /** Adds the sampling byte, or no byte, to a context read so far. */
  function WithSampling(sc: SpanContext, sampling: string): Outcome {
    if sampling == "d" then Extracted(sc.(debug := true))
    else if sampling == "1" then Extracted(sc.(sampled := Some(true)))
    else if sampling == "0" then Extracted(sc.(sampled := Some(false)))
    else if sampling == "" then Extracted(sc)
    else Rejected(ErrInvalidSampledByte)
  }

  function ParseSingle(h: string): Outcome {
    if h == "" then Rejected(ErrEmptyContext)
    else if |h| == 1 then WithSampling(BLANK, h)
    else if |h| == 16 || |h| == 32 then Rejected(ErrInvalidScope)
    else if |h| < 33 then Rejected(ErrInvalidTraceIDValue)
    else if h[16] == '-' then ParseIDs(h, 0)
    else
      match ParseUint(h[..16])
      case Value(high) => ParseIDs(h[16..], high)
      case _ => Rejected(ErrInvalidTraceIDValue)
  }

  /** `rest` begins with the low half of the trace id. */
  function ParseIDs(rest: string, high: uint64): Outcome
    requires |rest| >= 17
  {
    match ParseUint(rest[..16])
    case Value(low) =>
      if |rest| < 33 then OutOfBounds
      else
        (match ParseUint(rest[17..33])
         case Value(id) => ParseTail(rest[33..], BLANK.(traceID := TraceID(high, low), id := id))
         case _ => Rejected(ErrInvalidSpanIDValue))
    case _ => Rejected(ErrInvalidTraceIDValue)
  }

  /** What follows the span id: nothing, "-s", or "-s-parent"; the separators are not looked at. */
  function ParseTail(tail: string, sc: SpanContext): Outcome {
    if tail == "" then Extracted(sc)
    else if |tail| == 1 then Rejected(ErrInvalidSampledByte)
    else if |tail| == 2 then WithSampling(sc, tail[1..])
    else if |tail| == 17 then Rejected(ErrInvalidScopeParentSingle)
    else if |tail| == 19 then
      match ParseUint(tail[3..])
      case Value(parent) => WithSampling(sc.(parentID := Some(parent)), tail[1..2])
      case _ => Rejected(ErrInvalidParentSpanIDValue)
    else Rejected(ErrInvalidParentSpanIDValue)
  }

  method ParseSingleHeader(contextHeader: string) returns (r: Outcome)
    ensures r == ParseSingle(contextHeader)
  {
    if contextHeader == "" {
      return Rejected(ErrEmptyContext);
    }

    var sc, sampling := BLANK, "";
    var headerLen := |contextHeader|;

    if headerLen == 1 {
      sampling := contextHeader;
    } else if headerLen == 16 || headerLen == 32 {
      return Rejected(ErrInvalidScope);
    } else if headerLen >= 16 + 16 + 1 {
      var high: uint64, pos := 0, 0;
      if contextHeader[16] != '-' {
        match ParseUint(contextHeader[0..16]) {
          case Value(n) => high := n;
          case _ => return Rejected(ErrInvalidTraceIDValue);
        }
        pos := 16;
      }

      ghost var rest := contextHeader[pos..];
      assert contextHeader[0..16] == contextHeader[..16];
      assert contextHeader[pos..pos + 16] == rest[..16];
      match ParseUint(contextHeader[pos..pos + 16]) {
        case Value(low) => sc := sc.(traceID := TraceID(high, low));
        case _ => return Rejected(ErrInvalidTraceIDValue);
      }

      if headerLen < pos + 16 + 1 + 16 {
        return OutOfBounds;
      }
      assert contextHeader[pos + 16 + 1..pos + 16 + 1 + 16] == rest[17..33];
      match ParseUint(contextHeader[pos + 16 + 1..pos + 16 + 1 + 16]) {
        case Value(rawID) => sc := sc.(id := rawID);
        case _ => return Rejected(ErrInvalidSpanIDValue);
      }

      ghost var tail := rest[33..];
      if headerLen > pos + 16 + 1 + 16 {
        if headerLen == pos + 16 + 1 + 16 + 1 {
          return Rejected(ErrInvalidSampledByte);
        }

        if headerLen == pos + 16 + 1 + 16 + 1 + 1 {
          sampling := [contextHeader[pos + 16 + 1 + 16 + 1]];
          assert sampling == tail[1..];
        } else if headerLen == pos + 16 + 1 + 16 + 1 + 16 {
          return Rejected(ErrInvalidScopeParentSingle);
        } else if headerLen == pos + 16 + 1 + 16 + 1 + 1 + 1 + 16 {
          sampling := [contextHeader[pos + 16 + 1 + 16 + 1]];
          assert sampling == tail[1..2];
          assert contextHeader[pos + 16 + 1 + 16 + 1 + 1 + 1..] == tail[3..];
          match ParseUint(contextHeader[pos + 16 + 1 + 16 + 1 + 1 + 1..]) {
            case Value(rawParentID) => sc := sc.(parentID := Some(rawParentID));
            case _ => return Rejected(ErrInvalidParentSpanIDValue);
          }
        } else {
          return Rejected(ErrInvalidParentSpanIDValue);
        }
      }
    } else {
      return Rejected(ErrInvalidTraceIDValue);
    }

    match sampling {
      case "d" => sc := sc.(debug := true);
      case "1" => sc := sc.(sampled := Some(true));
      case "0" => sc := sc.(sampled := Some(false));
      case "" =>
      case _ => return Rejected(ErrInvalidSampledByte);
    }
    return Extracted(sc);
  }

  // ---------------------------------------------------------------------------
  // Single header: printer
  // ---------------------------------------------------------------------------

  /** strings.Join(pieces, "-") */
  function Join(pieces: seq<string>): string {
    if |pieces| == 0 then ""
    else if |pieces| == 1 then pieces[0]
    else pieces[0] + "-" + Join(pieces[1..])
  }

  function IDPieces(sc: SpanContext): seq<string> {
    if sc.HasIDs() then [sc.traceID.String(), Hex16(sc.id)] else []
  }

  function SamplingPieces(sc: SpanContext): seq<string> {
    if sc.debug then ["d"]
    else match sc.sampled
      case Some(b) => [if b then "1" else "0"]
      case None => []
  }

  function ParentPieces(sc: SpanContext): seq<string> {
    match sc.parentID
    case Some(p) => [Hex16(p)]
    case None => []
  }

  function SingleHeader(sc: SpanContext): string {
    Join(IDPieces(sc) + SamplingPieces(sc) + ParentPieces(sc))
  }

  method BuildSingleHeader(sc: SpanContext) returns (text: string)
    ensures text == SingleHeader(sc)
  {
    var header: seq<string> := [];
    if !sc.traceID.Empty() && sc.id > 0 {
      header := header + [sc.traceID.String(), Hex16(sc.id)];
    }
    assert header == IDPieces(sc);

    if sc.debug {
      header := header + ["d"];
    } else if sc.sampled.Some? {
      if sc.sampled.value {
        header := header + ["1"];
      } else {
        header := header + ["0"];
      }
    }
    assert header == IDPieces(sc) + SamplingPieces(sc);

    if sc.parentID.Some? {
      header := header + [Hex16(sc.parentID.value)];
    }
    assert header == IDPieces(sc) + SamplingPieces(sc) + ParentPieces(sc);
    return Join(header);
  }

  // ---------------------------------------------------------------------------
  // What the single-header parser accepts
  // ---------------------------------------------------------------------------

  /** The sampling state a single byte stands for is the one `sc` has. */
  predicate SamplingByte(c: char, sc: SpanContext) {
    || (c == 'd' && sc.debug && sc.sampled.None?)
    || (c == '1' && !sc.debug && sc.sampled == Some(true))
    || (c == '0' && !sc.debug && sc.sampled == Some(false))
  }

  predicate HexAt(h: string, at: nat, value: uint64) {
    && at + 16 <= |h|
    && AllHex(h[at..at + 16])
    && HexValue(h[at..at + 16]) == value
  }

  /** The layout, independently of any parser: a lone sampling byte, or a trace id of `width` digits, a
      span id, and optionally a sampling byte, or a sampling byte and a parent id, one byte apart. */
  predicate Denotes(h: string, sc: SpanContext) {
    && sc.err.None?
    && sc.baggage.None?
    && if |h| == 1 then
         sc.traceID.Empty() && sc.id == 0 && sc.parentID.None? && SamplingByte(h[0], sc)
       else
         && |h| > 16
         && var width := if h[16] == '-' then 16 else 32;
         && |h| in {width + 17, width + 19, width + 36}
         && HexAt(h, width - 16, sc.traceID.low)
         && (if width == 16 then sc.traceID.high == 0 else HexAt(h, 0, sc.traceID.high))
         && HexAt(h, width + 1, sc.id)
         && (if |h| == width + 17 then !sc.debug && sc.sampled.None? else SamplingByte(h[width + 18], sc))
         && (if |h| == width + 36 then sc.parentID.Some? && HexAt(h, width + 20, sc.parentID.value)
             else sc.parentID.None?)
  }
}

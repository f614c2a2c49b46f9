/** Span identity: trace ids, span contexts and the errors of the B3 codec. */
module Model {
  import opened Hex

  datatype Option<+T> = None | Some(value: T)

  datatype Result<+T, +E> = Ok(value: T) | Err(error: E)

  datatype TraceID = TraceID(high: uint64, low: uint64) {
    predicate Empty() {
      low == 0 && high == 0
    }

    /** The 128-bit number the two halves stand for. */
    function Number(): (n: nat)
      ensures n < TWO128
    {
      high * TWO64 + low
    }

    function String(): (s: string)
      ensures |s| == if high == 0 then 16 else 32
      ensures AllHex(s)
    {
      if high == 0 then Hex16(low) else Hex16(high) + Hex16(low)
    }
  }

  /** model.TraceIDFromHex: the last 16 characters are the low half, whatever precedes them the high half. */
  function TraceIDFromHex(h: string): Result<TraceID, ParseResult> {
    if |h| > 16 then
      match ParseUint(h[..|h| - 16])
      case Value(high) =>
        (match ParseUint(h[|h| - 16..])
         case Value(low) => Ok(TraceID(high, low))
         case e => Err(e))
      case e => Err(e)
    else
      match ParseUint(h)
      case Value(low) => Ok(TraceID(0, low))
      case e => Err(e)
  }

  datatype Error =
    | ErrInvalidSampledByte
    | ErrInvalidSampledHeader
    | ErrInvalidTraceIDHeader
    | ErrInvalidSpanIDHeader
    | ErrInvalidParentSpanIDHeader
    | ErrInvalidScope
    | ErrInvalidScopeParent
    | ErrInvalidScopeParentSingle
    | ErrEmptyContext
    | ErrInvalidTraceIDValue
    | ErrInvalidSpanIDValue
    | ErrInvalidParentSpanIDValue
    | ErrInvalidExtractFailurePolicy
    | OtherError(text: string)

  /** A reference to a baggage implementation; only its identity matters here. */
  datatype Baggage = Baggage(handle: nat)

  datatype SpanContext = SpanContext(
    traceID: TraceID,
    id: uint64,
    parentID: Option<uint64>,
    debug: bool,
    sampled: Option<bool>,
    err: Option<Error>,
    baggage: Option<Baggage>)
  {
    /** The guard under which every encoder writes the identifiers. */
    predicate HasIDs() {
      !traceID.Empty() && id > 0
    }

    /** The sampling decision in force: Debug implies it. */
    predicate Decision() {
      debug || sampled == Some(true)
    }

    /** A decision has been taken, upstream or here. */
    predicate Decided() {
      debug || sampled.Some?
    }
  }

  /** model.SpanContext{} */
  const BLANK: SpanContext := SpanContext(TraceID(0, 0), 0, None, false, None, None, None)

  /** A hex string names a trace id exactly when it is nonempty, all digits, and below 2^128; leading
      zeros and any length are allowed, and the halves then add up to its value. */
  lemma TraceIDFromHexCharacterised(h: string)
    ensures TraceIDFromHex(h).Ok? <==> h != "" && AllHex(h) && HexValue(h) < TWO128
    ensures TraceIDFromHex(h).Ok? ==> TraceIDFromHex(h).value.Number() == HexValue(h)
  {
    if |h| > 16 {
      ParseUintCharacterised(h[..|h| - 16]);
      ParseSixteen(h[|h| - 16..]);
      LongHexValue(h);
    } else {
      ParseUintCharacterised(h);
      if AllHex(h) {
        HexValueBound(h);
        Pow16At16();
        Pow16Monotone(|h|, 16);
      }
    }
  }

  lemma LongHexValue(h: string)
    requires |h| > 16
    ensures var front, back := h[..|h| - 16], h[|h| - 16..];
            && (AllHex(h) <==> AllHex(front) && AllHex(back))
            && (AllHex(h) ==>
                  && HexValue(h) == HexValue(front) * TWO64 + HexValue(back)
                  && (HexValue(h) < TWO128 <==> HexValue(front) < TWO64))
  {
    var front, back := h[..|h| - 16], h[|h| - 16..];
    assert h == front + back;
    if AllHex(front) && AllHex(back) {
      HexValueConcat(front, back);
      ParseSixteen(back);
      Pow16At16();
      HighHalfFits(HexValue(front), HexValue(back));
    }
  }

  lemma HighHalfFits(high: nat, low: nat)
    requires low < TWO64
    ensures high * TWO64 + low < TWO128 <==> high < TWO64
  {
  }

  lemma {:induction false} Pow16Monotone(j: nat, k: nat)
    requires j <= k
    ensures Pow16(j) <= Pow16(k)
  {
    if j < k {
      Pow16Monotone(j, k - 1);
    }
  }

  /** Parsing inverts printing, in both the 64-bit and the 128-bit form. */
  lemma TraceIDFromHexInvertsString(t: TraceID)
    ensures TraceIDFromHex(t.String()) == Ok(t)
  {
    ParseHex16(t.high);
    ParseHex16(t.low);
    var s := t.String();
    if t.high != 0 {
      assert s[..16] == Hex16(t.high) && s[16..] == Hex16(t.low);
    }
  }
}

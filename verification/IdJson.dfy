/** The JSON form of trace and span ids (model/traceid.go, model/span_id.go): a hex string in quotes. The
    decoders write through their receiver, the one for span ids even when it fails. */
module IdJson {
  import opened Hex
  import opened Model

  datatype JsonError = ErrValidTraceIDRequired | ParseError(cause: ParseResult)

  /** fmt.Sprintf("%q", s) for a string of hex digits. */
  function Quoted(s: string): string {
    "\"" + s + "\""
  }

  function Unquoted(b: string): string
    requires |b| >= 2
  {
    b[1..|b| - 1]
  }

  /** The number strconv.ParseUint returns, also next to an error. */
  function ParsedNumber(r: ParseResult): uint64 {
    match r
    case Value(n) => n
    case SyntaxError => 0
    case RangeError => 0xFFFF_FFFF_FFFF_FFFF
  }

  class TraceIDVar {
    var t: TraceID

    constructor (t: TraceID)
      ensures this.t == t
    {
      this.t := t;
    }

    method UnmarshalJSON(b: string) returns (err: Option<JsonError>)
      modifies this
      ensures (t, err) == AfterTraceID(old(t), b)
    {
      if |b| < 3 {
        return Some(ErrValidTraceIDRequired);
      }
      match TraceIDFromHex(Unquoted(b)) {
        case Err(e) => return Some(ParseError(e));
        case Ok(id) => t := id;
      }
      return None;
    }
  }

  function AfterTraceID(before: TraceID, b: string): (TraceID, Option<JsonError>) {
    if |b| < 3 then (before, Some(ErrValidTraceIDRequired))
    else match TraceIDFromHex(Unquoted(b))
      case Ok(id) => (id, None)
      case Err(e) => (before, Some(ParseError(e)))
  }

  class IDVar {
    var id: uint64

    constructor (id: uint64)
      ensures this.id == id
    {
      this.id := id;
    }

    /** Too short an input is ignored without error. */
    method UnmarshalJSON(b: string) returns (err: Option<JsonError>)
      modifies this
      ensures (id, err) == AfterID(old(id), b)
    {
      if |b| < 3 {
        return None;
      }
      var r := ParseUint(Unquoted(b));
      id := ParsedNumber(r);
      if !r.Value? {
        err := Some(ParseError(r));
      } else {
        err := None;
      }
    }
  }

  function AfterID(before: uint64, b: string): (uint64, Option<JsonError>) {
    if |b| < 3 then (before, None)
    else
      var r := ParseUint(Unquoted(b));
      (ParsedNumber(r), if r.Value? then None else Some(ParseError(r)))
  }

  /** Ids survive JSON, whatever the receiver held before. */
  lemma JsonRoundTrip(t: TraceID, id: uint64, beforeT: TraceID, beforeID: uint64)
    ensures AfterTraceID(beforeT, Quoted(t.String())) == (t, None)
    ensures AfterID(beforeID, Quoted(Hex16(id))) == (id, None)
  {
    assert Unquoted(Quoted(t.String())) == t.String();
    assert Unquoted(Quoted(Hex16(id))) == Hex16(id);
    TraceIDFromHexInvertsString(t);
    ParseHex16(id);
  }

  /** What a successful decoding leaves: the number the digits between the quotes denote, at any length; for
      a span id nothing changes when there are no digits to read. */
  lemma SuccessfulDecoding(t: TraceID, id: uint64, b: string)
    ensures AfterTraceID(t, b).1.None? ==> |b| >= 3 && AfterTraceID(t, b).0.Number() == HexNumber(Unquoted(b))
    ensures AfterID(id, b).1.None? ==> AfterID(id, b).0 == if |b| < 3 then id else HexNumber(Unquoted(b))
    ensures AfterTraceID(t, b).1 == Some(ErrValidTraceIDRequired) <==> |b| < 3
  {
    if |b| >= 3 {
      TraceIDFromHexCharacterised(Unquoted(b));
      ParseUintCharacterised(Unquoted(b));
    }
  }

  function HexNumber(s: string): nat {
    if AllHex(s) then HexValue(s) else 0
  }

  /** When decoding fails. A failed decoding leaves a trace id as it was, but overwrites a span id: with the
      largest number when the digits in front of the first other character are too large, and else with 0. */
  lemma FailedDecoding(t: TraceID, id: uint64, b: string)
    ensures AfterTraceID(t, b).1.Some? <==>
            |b| < 3 || !(AllHex(Unquoted(b)) && HexValue(Unquoted(b)) < TWO128)
    ensures AfterTraceID(t, b).1.Some? ==> AfterTraceID(t, b).0 == t
    ensures AfterID(id, b).1.Some? <==>
            |b| >= 3 && !(AllHex(Unquoted(b)) && HexValue(Unquoted(b)) < TWO64)
    ensures AfterID(id, b).1.Some? ==>
            AfterID(id, b).0 == if HexValue(HexPrefix(Unquoted(b))) >= TWO64 then 0xFFFF_FFFF_FFFF_FFFF else 0
  {
    if |b| >= 3 {
      TraceIDFromHexCharacterised(Unquoted(b));
      ParseUintCharacterised(Unquoted(b));
      RangeErrorExactly(Unquoted(b));
    }
  }
}

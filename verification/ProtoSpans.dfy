/** The protobuf span mapping of proto/zipkin_proto3: encode_proto.go and decode_proto.go at the level of the
    message structs. Integer conversions wrap and truncate as Go's do. */
module ProtoSpans {
  import opened Hex
  import opened Model
  import opened Spans

  type int32 = n: int | -0x8000_0000 <= n < 0x8000_0000

  datatype ProtoAnnotation = ProtoAnnotation(timestamp: uint64, value: string)

  datatype ProtoEndpoint = ProtoEndpoint(serviceName: string, ipv4: seq<byte>, ipv6: seq<byte>, port: int32)

  /** A zipkin.proto3.Span; a nil element of the annotation list is None. */
  datatype ProtoSpan = ProtoSpan(
    traceID: seq<byte>,
    parentID: seq<byte>,
    id: seq<byte>,
    debug: bool,
    kind: int32,
    name: string,
    timestamp: uint64,
    tags: map<string, string>,
    duration: uint64,
    localEndpoint: Option<ProtoEndpoint>,
    remoteEndpoint: Option<ProtoEndpoint>,
    shared: bool,
    annotations: seq<Option<ProtoAnnotation>>)

  // ---------------------------------------------------------------------------
  // Machine integers
  // ---------------------------------------------------------------------------

  /** The 64-bit two's complement value of n. */
  function Wrap(n: int): int64 {
    var r := n % TWO64;
    if r < 0x8000_0000_0000_0000 then r else r - TWO64
  }

  /** Go's integer division by a positive constant: towards zero. */
  function Quot(a: int, b: int): int
    requires b > 0
  {
    if a >= 0 then a / b else -((-a) / b)
  }

  /** binary.BigEndian.PutUint64 as a value: the `width` low bytes, most significant first. */
  function BigEndian(v: nat, width: nat): (b: seq<byte>)
    ensures |b| == width
  {
    if width == 0 then [] else BigEndian(v / 256, width - 1) + [v % 256]
  }

  /** binary.BigEndian.Uint64 */
  function NumberOf(b: seq<byte>): nat {
    if b == [] then 0 else 256 * NumberOf(b[..|b| - 1]) + b[|b| - 1]
  }

  /** fmt.Sprintf("%x", b) */
  function HexOfBytes(b: seq<byte>): (s: string)
    ensures |s| == 2 * |b| && AllHex(s)
  {
    if b == [] then "" else HexOfBytes(b[..|b| - 1]) + Digits(b[|b| - 1], 2)
  }

  // ---------------------------------------------------------------------------
  // Kinds, times, endpoints
  // ---------------------------------------------------------------------------

  const UNSPECIFIED := "SPAN_KIND_UNSPECIFIED"

  /** Span_Kind_value: names without a number read as 0. */
  function KindNumber(kind: Kind): int32 {
    if kind == CLIENT then 1
    else if kind == SERVER then 2
    else if kind == PRODUCER then 3
    else if kind == CONSUMER then 4
    else 0
  }

  function Decimal(n: nat): string {
    var digit := [DigitChar(n % 10)];
    if n < 10 then digit else Decimal(n / 10) + digit
  }

  /** Span_Kind.String(): numbers without a name print in decimal. */
  function KindName(n: int32): Kind {
    if n == 0 then UNSPECIFIED
    else if n == 1 then CLIENT
    else if n == 2 then SERVER
    else if n == 3 then PRODUCER
    else if n == 4 then CONSUMER
    else
      var m: int := n;
      if m < 0 then "-" + Decimal(-m) else Decimal(m)
  }

  /** Time.Round(time.Microsecond): to the nearest, halves up. */
  function RoundMicro(t: Time): Time {
    var r := t % 1000;
    if r + r < 1000 then t - r else t + (1000 - r)
  }

  /** uint64(t.Round(time.Microsecond).UnixNano() / 1e3), zero times apart. */
  function TimestampMicros(t: Time): uint64 {
    if t == ZERO_TIME then 0 else ToUint64(Quot(Wrap(RoundMicro(t)), 1000))
  }

  /** timeToMicros: here the conversion to uint64 comes before the division. */
  function AnnotationMicros(t: Time): uint64 {
    if t == ZERO_TIME then 0 else ToUint64(Wrap(t)) / 1000
  }

  /** uint64(d.Nanoseconds() / 1e3) */
  function DurationMicros(d: int64): uint64 {
    ToUint64(Quot(d, 1000))
  }

  /** microsToTime: time.Unix(0, int64(us*1e3)) */
  function MicrosToTime(us: uint64): Time {
    Wrap(us * 1000)
  }

  /** microsToDuration */
  function MicrosToDuration(us: uint64): int64 {
    Wrap(us * 1000)
  }

  function EncodeEndpoint(ep: Option<Endpoint>): Option<ProtoEndpoint> {
    match ep
    case None => None
    case Some(e) => Some(ProtoEndpoint(e.serviceName, e.ipv4, e.ipv6, e.port))
  }

  function DecodeEndpoint(ep: Option<ProtoEndpoint>): Option<Endpoint> {
    match ep
    case None => None
    case Some(e) => Some(Endpoint(e.serviceName, e.ipv4, e.ipv6, e.port % 0x1_0000))
  }

  // ---------------------------------------------------------------------------
  // Encoding
  // ---------------------------------------------------------------------------

  function EncodeAnnotations(mas: seq<Annotation>): seq<Option<ProtoAnnotation>> {
    seq(|mas|, i requires 0 <= i < |mas| => Some(ProtoAnnotation(AnnotationMicros(mas[i].timestamp), mas[i].value)))
  }

  function EncodeSpan(sm: SpanModel): ProtoSpan {
    ProtoSpan(
      BigEndian(sm.ctx.traceID.high, 8) + BigEndian(sm.ctx.traceID.low, 8),
      BigEndian(if sm.ctx.parentID.Some? then sm.ctx.parentID.value else 0, 8),
      BigEndian(sm.ctx.id, 8),
      sm.ctx.debug,
      KindNumber(sm.kind),
      sm.name,
      TimestampMicros(sm.timestamp),
      sm.tags,
      DurationMicros(sm.duration),
      EncodeEndpoint(sm.localEndpoint),
      EncodeEndpoint(sm.remoteEndpoint),
      sm.shared,
      EncodeAnnotations(sm.annotations))
  }

  method PutUint64(b: array<byte>, at: nat, v: uint64)
    requires at + 8 <= b.Length
    modifies b
    ensures b[at..at + 8] == BigEndian(v, 8)
    ensures b[..at] == old(b[..at]) && b[at + 8..] == old(b[at + 8..])
  {
    var bytes := BigEndian(v, 8);
    forall i | 0 <= i < 8 {
      b[at + i] := bytes[i];
    }
  }

  method ModelAnnotationsToProtoAnnotations(mas: seq<Annotation>) returns (pas: seq<Option<ProtoAnnotation>>)
    ensures pas == EncodeAnnotations(mas)
  {
    pas := [];
    for i := 0 to |mas|
      invariant pas == EncodeAnnotations(mas[..i])
    {
      pas := pas + [Some(ProtoAnnotation(AnnotationMicros(mas[i].timestamp), mas[i].value))];
    }
    assert mas[..|mas|] == mas;
  }

  /** The two halves side by side in one buffer. */
  method TraceIDBytes(t: TraceID) returns (b: seq<byte>)
    ensures b == BigEndian(t.high, 8) + BigEndian(t.low, 8)
  {
    var buffer := new byte[16](_ => 0);
    PutUint64(buffer, 0, t.high);
    assert buffer[..8] == buffer[0..8];
    PutUint64(buffer, 8, t.low);
    assert buffer[..] == buffer[..8] + buffer[8..16];
    b := buffer[..];
  }

  /** A missing id leaves the zero buffer. */
  method IDBytes(id: Option<uint64>) returns (b: seq<byte>)
    ensures b == BigEndian(if id.Some? then id.value else 0, 8)
  {
    var buffer := new byte[8](_ => 0);
    ZeroBytes(buffer[..]);
    if id.Some? {
      PutUint64(buffer, 0, id.value);
      assert buffer[..] == buffer[0..8];
    }
    b := buffer[..];
  }

  datatype EncodeError = NilModelSpan

  method ModelSpanToProtoSpan(span: Option<SpanModel>) returns (r: Result<ProtoSpan, EncodeError>)
    ensures r == match span case None => Err(NilModelSpan) case Some(sm) => Ok(EncodeSpan(sm))
  {
    if span.None? {
      return Err(NilModelSpan);
    }
    var sm := span.value;

    var traceID := TraceIDBytes(sm.ctx.traceID);
    var parentID := IDBytes(sm.ctx.parentID);
    var id := IDBytes(Some(sm.ctx.id));

    var timeStamp := 0;
    if sm.timestamp != ZERO_TIME {
      timeStamp := ToUint64(Quot(Wrap(RoundMicro(sm.timestamp)), 1000));
    }
    var annotations := ModelAnnotationsToProtoAnnotations(sm.annotations);

    return Ok(ProtoSpan(
                traceID, parentID, id, sm.ctx.debug, KindNumber(sm.kind), sm.name, timeStamp, sm.tags,
                ToUint64(Quot(sm.duration, 1000)),
                EncodeEndpoint(sm.localEndpoint), EncodeEndpoint(sm.remoteEndpoint), sm.shared, annotations));
  }

  lemma ZeroBytes(b: seq<byte>)
    requires |b| == 8 && forall i :: 0 <= i < 8 ==> b[i] == 0
    ensures b == BigEndian(0, 8)
  {
    BigEndianZero(8);
  }

  lemma {:induction false} BigEndianZero(width: nat)
    ensures forall i :: 0 <= i < width ==> BigEndian(0, width)[i] == 0
  {
    if width > 0 {
      BigEndianZero(width - 1);
    }
  }

  /** The span list that Serialize hands to proto.Marshal. */
  method Serialize(sms: seq<Option<SpanModel>>) returns (r: Result<seq<Option<ProtoSpan>>, EncodeError>)
    ensures r.Err? <==> None in sms
    ensures r.Ok? ==> |r.value| == |sms| && forall i :: 0 <= i < |sms| ==> r.value[i] == Some(EncodeSpan(sms[i].value))
  {
    var spans: seq<Option<ProtoSpan>> := [];
    for i := 0 to |sms|
      invariant |spans| == i
      invariant forall k :: 0 <= k < i ==> sms[k].Some? && spans[k] == Some(EncodeSpan(sms[k].value))
    {
      var sp := ModelSpanToProtoSpan(sms[i]);
      match sp {
        case Err(e) => return Err(e);
        case Ok(p) => spans := spans + [Some(p)];
      }
    }
    return Ok(spans);
  }

  // ---------------------------------------------------------------------------
  // Decoding
  // ---------------------------------------------------------------------------

  datatype DecodeError = NilSpan | TraceIDLength(n: nat) | InvalidTraceID | InvalidParentID | InvalidSpanID | NoSpanID

  /** protoSpanIDToModelSpanID: blank for no bytes, an error for any number of bytes other than 8. */
  function DecodeID(b: seq<byte>): Result<Option<uint64>, nat> {
    if b == [] then Ok(None)
    else if |b| != 8 then Err(|b|)
    else
      NumberBound(b);
      Ok(Some(NumberOf(b)))
  }

  function Pow256(k: nat): (p: nat)
    ensures p > 0
  {
    if k == 0 then 1 else 256 * Pow256(k - 1)
  }

  lemma Pow256At8()
    ensures Pow256(8) == TWO64
  {
    assert Pow256(4) == 0x1_0000_0000;
    assert Pow256(8) == 0x1_0000_0000 * Pow256(4);
  }

  lemma {:induction false} NumberBelow(b: seq<byte>)
    ensures NumberOf(b) < Pow256(|b|)
  {
    if b != [] {
      NumberBelow(b[..|b| - 1]);
    }
  }

  lemma NumberBound(b: seq<byte>)
    requires |b| == 8
    ensures NumberOf(b) < TWO64
  {
    NumberBelow(b);
    Pow256At8();
  }

  /** The annotations that are not nil. */
  function DecodeAnnotations(zpa: seq<Option<ProtoAnnotation>>): seq<Annotation> {
    if zpa == [] then []
    else
      DecodeAnnotations(zpa[..|zpa| - 1]) +
      match zpa[|zpa| - 1]
      case Some(za) => [Annotation(MicrosToTime(za.timestamp), za.value)]
      case None => []
  }

  /** The trace id goes through hex text, the other ids do not. */
  function DecodeSpan(span: Option<ProtoSpan>, debugWasSet: bool): Result<SpanModel, DecodeError> {
    match span
    case None => Err(NilSpan)
    case Some(s) =>
      if |s.traceID| != 16 then Err(TraceIDLength(|s.traceID|))
      else
        match TraceIDFromHex(HexOfBytes(s.traceID))
        case Err(_) => Err(InvalidTraceID)
        case Ok(traceID) =>
          if DecodeID(s.parentID).Err? then Err(InvalidParentID)
          else if DecodeID(s.id).Err? then Err(InvalidSpanID)
          else if DecodeID(s.id).value.None? then Err(NoSpanID)
          else
            Ok(SpanModel(
                 SpanContext(traceID, DecodeID(s.id).value.value, DecodeID(s.parentID).value, debugWasSet, None, None, None),
                 s.name, KindName(s.kind), MicrosToTime(s.timestamp), MicrosToDuration(s.duration), s.shared,
                 DecodeEndpoint(s.localEndpoint), DecodeEndpoint(s.remoteEndpoint),
                 DecodeAnnotations(s.annotations), s.tags))
  }

  method ProtoAnnotationsToModelAnnotations(zpa: seq<Option<ProtoAnnotation>>) returns (zma: seq<Annotation>)
    ensures zma == DecodeAnnotations(zpa)
  {
    zma := [];
    for i := 0 to |zpa|
      invariant zma == DecodeAnnotations(zpa[..i])
    {
      if zpa[i].Some? {
        zma := zma + [Annotation(MicrosToTime(zpa[i].value.timestamp), zpa[i].value.value)];
      }
      assert zpa[..i + 1][..i] == zpa[..i];
    }
    assert zpa[..|zpa|] == zpa;
  }

  /** ParseSpans after unmarshalling: on an error the spans decoded before it are returned with it. */
  method ParseSpans(spans: seq<Option<ProtoSpan>>, debugWasSet: bool) returns (zss: seq<SpanModel>, err: Option<DecodeError>)
    ensures |zss| <= |spans|
    ensures forall i :: 0 <= i < |zss| ==> DecodeSpan(spans[i], debugWasSet) == Ok(zss[i])
    ensures err == if |zss| == |spans| then None
                   else match DecodeSpan(spans[|zss|], debugWasSet) case Err(e) => Some(e) case Ok(_) => None
    ensures err.None? <==> |zss| == |spans|
  {
    zss, err := [], None;
    for i := 0 to |spans|
      invariant |zss| == i && err.None?
      invariant forall k :: 0 <= k < i ==> DecodeSpan(spans[k], debugWasSet) == Ok(zss[k])
    {
      match DecodeSpan(spans[i], debugWasSet) {
        case Err(e) => return zss, Some(e);
        case Ok(zms) => zss := zss + [zms];
      }
    }
  }
}

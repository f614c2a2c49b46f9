/** Round trips of the protobuf mapping. */
module ProtoTheorems {
  import opened Hex
  import opened Model
  import opened Spans
  import opened ProtoSpans

  // ---------------------------------------------------------------------------
  // Identifiers
  // ---------------------------------------------------------------------------

  lemma {:induction false} NumberOfBigEndian(v: nat, width: nat)
    requires v < Pow256(width)
    ensures NumberOf(BigEndian(v, width)) == v
  {
    if width > 0 {
      NumberOfBigEndian(v / 256, width - 1);
      assert BigEndian(v, width)[..width - 1] == BigEndian(v / 256, width - 1);
    }
  }

  lemma NumberOfUint64(v: uint64)
    ensures NumberOf(BigEndian(v, 8)) == v
  {
    Pow256At8();
    NumberOfBigEndian(v, 8);
  }

  lemma ByteDigits(v: byte)
    ensures HexValue(Digits(v, 2)) == v && Pow16(2) == 256
  {
    assert Pow16(2) == 16 * Pow16(1) && Pow16(1) == 16;
    DigitsValue(v, 2);
  }

  /** Hex text of bytes denotes their big-endian number. */
  lemma {:induction false} HexOfBytesValue(b: seq<byte>)
    ensures HexValue(HexOfBytes(b)) == NumberOf(b)
  {
    if b != [] {
      var init, last := b[..|b| - 1], b[|b| - 1];
      HexOfBytesValue(init);
      ByteDigits(last);
      HexValueConcat(HexOfBytes(init), Digits(last, 2));
    }
  }

  lemma Regroup(a: string, b: string, c: string)
    ensures (a + b) + c == a + (b + c)
  {
  }

  lemma {:induction false} HexOfBytesConcat(a: seq<byte>, b: seq<byte>)
    ensures HexOfBytes(a + b) == HexOfBytes(a) + HexOfBytes(b)
  {
    if b == [] {
      assert a + b == a;
    } else {
      var init, last := b[..|b| - 1], b[|b| - 1];
      HexOfBytesConcat(a, init);
      assert (a + b)[..|a + b| - 1] == a + init;
      assert (a + b)[|a + b| - 1] == last;
      Regroup(HexOfBytes(a), HexOfBytes(init), Digits(last, 2));
    }
  }

  /** Reading a 16-byte trace id through hex text is reading its halves as big-endian numbers, and so never
      fails. */
  lemma HexPathIsBigEndian(b: seq<byte>)
    requires |b| == 16
    ensures NumberOf(b[..8]) < TWO64 && NumberOf(b[8..]) < TWO64
    ensures TraceIDFromHex(HexOfBytes(b)) == Ok(TraceID(NumberOf(b[..8]), NumberOf(b[8..])))
  {
    var high, low := b[..8], b[8..];
    NumberBound(high);
    NumberBound(low);
    assert b == high + low;
    HexOfBytesConcat(high, low);
    var h := HexOfBytes(b);
    assert h[..16] == HexOfBytes(high) && h[16..] == HexOfBytes(low);
    HexOfBytesValue(high);
    HexOfBytesValue(low);
    ParseSixteen(HexOfBytes(high));
    ParseSixteen(HexOfBytes(low));
  }

  lemma TraceIDSurvives(t: TraceID)
    ensures TraceIDFromHex(HexOfBytes(BigEndian(t.high, 8) + BigEndian(t.low, 8))) == Ok(t)
  {
    var b := BigEndian(t.high, 8) + BigEndian(t.low, 8);
    HexPathIsBigEndian(b);
    assert b[..8] == BigEndian(t.high, 8) && b[8..] == BigEndian(t.low, 8);
    NumberOfUint64(t.high);
    NumberOfUint64(t.low);
  }

  lemma IDSurvives(v: uint64)
    ensures DecodeID(BigEndian(v, 8)) == Ok(Some(v))
  {
    NumberOfUint64(v);
  }

  // ---------------------------------------------------------------------------
  // Times
  // ---------------------------------------------------------------------------

  predicate InInt64(n: int) {
    -0x8000_0000_0000_0000 <= n < 0x8000_0000_0000_0000
  }

  lemma WrapInRange(n: int)
    requires InInt64(n)
    ensures Wrap(n) == n
  {
  }

  lemma WrapShift(n: int, k: int)
    ensures Wrap(n + k * TWO64) == Wrap(n)
  {
    assert (n + k * TWO64) % TWO64 == n % TWO64;
  }

  /** Microseconds that went out as a signed number of times a thousand within 64 bits come back as that. */
  lemma SignedMicros(m: int)
    requires InInt64(1000 * m)
    ensures MicrosToTime(ToUint64(m)) == 1000 * m
  {
    WrapInRange(1000 * m);
    if m < 0 {
      assert ToUint64(m) == m + TWO64;
      WrapShift(1000 * m, 1000);
    }
  }

  lemma QuotBound(w: int64)
    ensures InInt64(1000 * Quot(w, 1000))
    ensures 1000 * Quot(w, 1000) == w <==> w % 1000 == 0
  {
  }

  lemma QuotMultiple(m: int)
    ensures Quot(1000 * m, 1000) == m
  {
  }

  lemma RoundMicroMultiple(t: Time)
    ensures RoundMicro(t) % 1000 == 0
    ensures t % 1000 == 0 ==> RoundMicro(t) == t
    ensures -500 < RoundMicro(t) - t <= 500
  {
    var r := t % 1000;
    if r + r >= 1000 {
      assert (t + (1000 - r)) % 1000 == 0;
    }
  }

  /** Whatever instant was encoded, decoding and encoding again gives the same microseconds. */
  lemma TimestampStable(t: Time)
    ensures TimestampMicros(MicrosToTime(TimestampMicros(t))) == TimestampMicros(t)
  {
    if t == ZERO_TIME {
      assert MicrosToTime(0) == 0;
      assert TimestampMicros(0) == 0;
    } else {
      var w := Wrap(RoundMicro(t));
      var m := Quot(w, 1000);
      QuotBound(w);
      SignedMicros(m);
      RoundMicroMultiple(1000 * m);
      WrapInRange(1000 * m);
      QuotMultiple(m);
    }
  }

  /** A timestamp comes back exactly when it is a whole number of microseconds that fits 64 bits of
      nanoseconds; before the epoch too. */
  lemma TimestampSurvives(t: Time)
    ensures MicrosToTime(TimestampMicros(t)) == t <==> InInt64(t) && t % 1000 == 0
  {
    if t == ZERO_TIME {
      assert MicrosToTime(0) == 0;
    } else {
      var w := Wrap(RoundMicro(t));
      QuotBound(w);
      SignedMicros(Quot(w, 1000));
      RoundMicroMultiple(t);
      if InInt64(t) && t % 1000 == 0 {
        WrapInRange(t);
      }
    }
  }

  lemma DurationStable(d: int64)
    ensures DurationMicros(MicrosToDuration(DurationMicros(d))) == DurationMicros(d)
    ensures MicrosToDuration(DurationMicros(d)) == d <==> d % 1000 == 0
  {
    QuotBound(d);
    SignedMicros(Quot(d, 1000));
    QuotMultiple(Quot(d, 1000));
  }

  /** q * 1000 for the whole microseconds of an unsigned nanosecond count. */
  lemma UnsignedMicros(u: uint64)
    ensures MicrosToTime(u / 1000) == Wrap(u - u % 1000)
    ensures ToUint64(Wrap(u - u % 1000)) == u - u % 1000
  {
    assert u / 1000 * 1000 == u - u % 1000;
  }

  lemma AnnotationTimeStable(t: Time)
    ensures AnnotationMicros(MicrosToTime(AnnotationMicros(t))) == AnnotationMicros(t)
  {
    if t == ZERO_TIME {
      assert MicrosToTime(0) == 0;
    } else {
      var u := ToUint64(Wrap(t));
      UnsignedMicros(u);
      assert ToUint64(Wrap(Wrap(u - u % 1000))) == u - u % 1000 by {
        WrapInRange(Wrap(u - u % 1000));
      }
    }
  }

  lemma PatternOfWrap(t: int)
    ensures ToUint64(Wrap(t)) == ToUint64(t)
    ensures InInt64(t) ==> Wrap(ToUint64(t)) == t
  {
  }

  lemma PatternSurvives(t: Time, u: uint64)
    requires u == ToUint64(t)
    ensures Wrap(u - u % 1000) == t <==> InInt64(t) && u % 1000 == 0
  {
    PatternOfWrap(t);
    UnsignedMicros(u);
  }

  /** An annotation time comes back exactly when its 64-bit pattern, read unsigned, is a whole number of
      microseconds. */
  lemma AnnotationTimeSurvives(t: Time)
    ensures MicrosToTime(AnnotationMicros(t)) == t <==> InInt64(t) && ToUint64(t) % 1000 == 0
  {
    if t == ZERO_TIME {
      assert MicrosToTime(0) == 0;
    } else {
      PatternOfWrap(t);
      UnsignedMicros(ToUint64(t));
      PatternSurvives(t, ToUint64(t));
    }
  }

  lemma PatternOfMicros(t: int)
    requires InInt64(t) && t % 1000 == 0
    ensures ToUint64(t) % 1000 == 0 <==> t >= 0
  {
    if t < 0 {
      assert ToUint64(t) == t + TWO64;
      NegativeRemainder(t / 1000);
    }
  }

  /** Among whole microseconds only those from the epoch on survive as annotation times, because the
      conversion to uint64 comes before the division; as span timestamps all of them do. */
  lemma PreEpochAnnotationsShift(t: Time)
    requires InInt64(t) && t % 1000 == 0
    ensures MicrosToTime(AnnotationMicros(t)) == t <==> t >= 0
    ensures MicrosToTime(TimestampMicros(t)) == t
  {
    AnnotationTimeSurvives(t);
    TimestampSurvives(t);
    PatternOfMicros(t);
  }

  lemma NegativeRemainder(m: int)
    ensures (1000 * m + TWO64) % 1000 == 616
  {
    assert 1000 * m + TWO64 == 1000 * (m + 18446744073709551) + 616;
  }

  lemma PreEpochAnnotationExample()
    ensures MicrosToTime(AnnotationMicros(-1000)) == -1616
  {
  }

  // ---------------------------------------------------------------------------
  // Spans
  // ---------------------------------------------------------------------------

  function ReadBackAnnotation(a: Annotation): Annotation {
    Annotation(MicrosToTime(AnnotationMicros(a.timestamp)), a.value)
  }

  function ReadBackAnnotations(mas: seq<Annotation>): seq<Annotation> {
    seq(|mas|, i requires 0 <= i < |mas| => ReadBackAnnotation(mas[i]))
  }

  lemma {:induction false} AnnotationsReadBack(mas: seq<Annotation>)
    ensures DecodeAnnotations(EncodeAnnotations(mas)) == ReadBackAnnotations(mas)
  {
    if mas != [] {
      var n := |mas| - 1;
      AnnotationsReadBack(mas[..n]);
      assert EncodeAnnotations(mas)[..n] == EncodeAnnotations(mas[..n]);
      assert ReadBackAnnotations(mas) == ReadBackAnnotations(mas[..n]) + [ReadBackAnnotation(mas[n])];
    }
  }

  lemma EndpointSurvives(ep: Option<Endpoint>)
    ensures DecodeEndpoint(EncodeEndpoint(ep)) == ep
  {
  }

  /** What decoding an encoded span gives: times at microsecond precision, a parent id of 0 for none, the
      transport's debug flag, no sampling state, and a named kind. */
  function ReadBack(sm: SpanModel, debugWasSet: bool): SpanModel {
    sm.(ctx := SpanContext(
          sm.ctx.traceID, sm.ctx.id, Some(if sm.ctx.parentID.Some? then sm.ctx.parentID.value else 0),
          debugWasSet, None, None, None),
        kind := KindName(KindNumber(sm.kind)),
        timestamp := MicrosToTime(TimestampMicros(sm.timestamp)),
        duration := MicrosToDuration(DurationMicros(sm.duration)),
        annotations := ReadBackAnnotations(sm.annotations))
  }

  /** Decoding an encoded span never errors. */
  lemma DecodeEncode(sm: SpanModel, debugWasSet: bool)
    ensures DecodeSpan(Some(EncodeSpan(sm)), debugWasSet) == Ok(ReadBack(sm, debugWasSet))
  {
    TraceIDSurvives(sm.ctx.traceID);
    IDSurvives(sm.ctx.id);
    IDSurvives(if sm.ctx.parentID.Some? then sm.ctx.parentID.value else 0);
    AnnotationsReadBack(sm.annotations);
    EndpointSurvives(sm.localEndpoint);
    EndpointSurvives(sm.remoteEndpoint);
  }

  lemma KindStable(kind: Kind)
    ensures KindNumber(KindName(KindNumber(kind))) == KindNumber(kind)
    ensures KindName(KindNumber(kind)) == kind <==> kind in {CLIENT, SERVER, PRODUCER, CONSUMER, UNSPECIFIED}
  {
  }

  lemma AnnotationsStable(mas: seq<Annotation>)
    ensures EncodeAnnotations(ReadBackAnnotations(mas)) == EncodeAnnotations(mas)
  {
    forall i | 0 <= i < |mas|
      ensures EncodeAnnotations(ReadBackAnnotations(mas))[i] == EncodeAnnotations(mas)[i]
    {
      AnnotationTimeStable(mas[i].timestamp);
    }
  }

  /** Encoding what was decoded from an encoding gives that encoding, for every span whatever its times,
      when the transport's debug flag is the span's. */
  lemma EncodeDecodeEncode(sm: SpanModel)
    ensures EncodeSpan(ReadBack(sm, sm.ctx.debug)) == EncodeSpan(sm)
  {
    KindStable(sm.kind);
    TimestampStable(sm.timestamp);
    DurationStable(sm.duration);
    AnnotationsStable(sm.annotations);
  }

  /** The spans that come back unchanged. */
  predicate Normal(sm: SpanModel, debugWasSet: bool) {
    && sm.ctx.parentID.Some?
    && sm.ctx.debug == debugWasSet
    && sm.ctx.sampled.None? && sm.ctx.err.None? && sm.ctx.baggage.None?
    && sm.kind in {CLIENT, SERVER, PRODUCER, CONSUMER, UNSPECIFIED}
    && InInt64(sm.timestamp) && sm.timestamp % 1000 == 0
    && sm.duration % 1000 == 0
    && forall i :: 0 <= i < |sm.annotations| ==>
         InInt64(sm.annotations[i].timestamp) && ToUint64(sm.annotations[i].timestamp) % 1000 == 0
  }

  lemma AnnotationsUnchanged(mas: seq<Annotation>)
    ensures ReadBackAnnotations(mas) == mas <==>
            forall i :: 0 <= i < |mas| ==> InInt64(mas[i].timestamp) && ToUint64(mas[i].timestamp) % 1000 == 0
  {
    forall i | 0 <= i < |mas|
      ensures ReadBackAnnotations(mas)[i] == mas[i] <==> InInt64(mas[i].timestamp) && ToUint64(mas[i].timestamp) % 1000 == 0
    {
      AnnotationTimeSurvives(mas[i].timestamp);
    }
    if ReadBackAnnotations(mas) == mas {
      forall i | 0 <= i < |mas| ensures InInt64(mas[i].timestamp) && ToUint64(mas[i].timestamp) % 1000 == 0 {
        assert ReadBackAnnotations(mas)[i] == mas[i];
      }
    }
  }

  /** Encoding and decoding is the identity on exactly the normal spans. */
  lemma DecodeEncodeIdentity(sm: SpanModel, debugWasSet: bool)
    ensures DecodeSpan(Some(EncodeSpan(sm)), debugWasSet) == Ok(sm) <==> Normal(sm, debugWasSet)
  {
    DecodeEncode(sm, debugWasSet);
    KindStable(sm.kind);
    TimestampSurvives(sm.timestamp);
    DurationStable(sm.duration);
    AnnotationsUnchanged(sm.annotations);
    ReadBackUnchanged(sm, debugWasSet);
  }

  lemma ReadBackUnchanged(sm: SpanModel, debugWasSet: bool)
    ensures ReadBack(sm, debugWasSet) == sm <==>
            && ReadBack(sm, debugWasSet).ctx == sm.ctx
            && KindName(KindNumber(sm.kind)) == sm.kind
            && MicrosToTime(TimestampMicros(sm.timestamp)) == sm.timestamp
            && MicrosToDuration(DurationMicros(sm.duration)) == sm.duration
            && ReadBackAnnotations(sm.annotations) == sm.annotations
  {
  }

  // ---------------------------------------------------------------------------
  // The messages themselves
  // ---------------------------------------------------------------------------

  /** `b` is an id in `width` bytes, most significant first. */
  predicate WireNumber(b: seq<byte>, width: nat, n: nat) {
    |b| == width && NumberOf(b) == n
  }

  lemma {:induction false} NumberOfConcat(a: seq<byte>, b: seq<byte>)
    ensures NumberOf(a + b) == NumberOf(a) * Pow256(|b|) + NumberOf(b)
  {
    if b == [] {
      assert a + b == a;
    } else {
      var init := b[..|b| - 1];
      NumberOfConcat(a, init);
      assert (a + b)[..|a + b| - 1] == a + init;
      Shift(NumberOf(a), Pow256(|init|), NumberOf(init), b[|b| - 1]);
    }
  }

  lemma Shift(a: nat, p: nat, b: nat, d: nat)
    ensures 256 * (a * p + b) + d == a * (256 * p) + (256 * b + d)
  {
    assert 256 * (a * p) == a * (256 * p);
  }

  lemma WireIDs(sm: SpanModel)
    ensures var p := EncodeSpan(sm);
            && WireNumber(p.traceID, 16, sm.ctx.traceID.Number())
            && WireNumber(p.id, 8, sm.ctx.id)
            && WireNumber(p.parentID, 8, if sm.ctx.parentID.Some? then sm.ctx.parentID.value else 0)
  {
    NumberOfUint64(sm.ctx.traceID.high);
    NumberOfUint64(sm.ctx.traceID.low);
    NumberOfConcat(BigEndian(sm.ctx.traceID.high, 8), BigEndian(sm.ctx.traceID.low, 8));
    Pow256At8();
    NumberOfUint64(sm.ctx.id);
    NumberOfUint64(if sm.ctx.parentID.Some? then sm.ctx.parentID.value else 0);
  }

  predicate WireEndpoint(ep: Option<Endpoint>, p: Option<ProtoEndpoint>) {
    match ep
    case None => p == None
    case Some(e) =>
      p.Some? && p.value.serviceName == e.serviceName && p.value.ipv4 == e.ipv4 && p.value.ipv6 == e.ipv6
      && p.value.port == e.port
  }

  /** A zero time is 0 on the wire, an instant from the epoch on is rounded to the nearest microsecond. */
  lemma WireTimestamp(t: Time)
    ensures TimestampMicros(ZERO_TIME) == 0
    ensures 0 <= t && InInt64(t + 500) ==> -500 < 1000 * TimestampMicros(t) - t <= 500
  {
    if 0 <= t && InInt64(t + 500) {
      var r := RoundMicro(t);
      RoundMicroMultiple(t);
      WrapInRange(r);
      assert r == 1000 * (r / 1000);
      ToUint64InRange(r / 1000);
    }
  }

  lemma ToUint64InRange(n: int)
    requires 0 <= n < TWO64
    ensures ToUint64(n) == n
  {
  }

  lemma CutOff(n: int)
    requires 0 <= n
    ensures -1000 < 1000 * (n / 1000) - n <= 0
  {
  }

  /** The time of an annotation is cut off. */
  lemma WireAnnotationTime(t: Time)
    ensures AnnotationMicros(ZERO_TIME) == 0
    ensures 0 <= t && InInt64(t) ==> -1000 < 1000 * AnnotationMicros(t) - t <= 0
  {
    if 0 <= t && InInt64(t) {
      WrapInRange(t);
      ToUint64InRange(t);
      CutOff(t);
    }
  }

  /** So is a duration: below a microsecond nothing is left. */
  lemma WireDuration(d: int64)
    ensures 0 <= d ==> -1000 < 1000 * DurationMicros(d) - d <= 0
  {
    if 0 <= d {
      CutOff(d);
      ToUint64InRange(d / 1000);
    }
  }

  /** The message of a span, field by field; the numbers of the kinds are those of zipkin.proto. */
  lemma WireSpan(sm: SpanModel)
    ensures var p := EncodeSpan(sm);
            && p.debug == sm.ctx.debug && p.shared == sm.shared && p.name == sm.name && p.tags == sm.tags
            && (p.kind == 1 <==> sm.kind == CLIENT) && (p.kind == 2 <==> sm.kind == SERVER)
            && (p.kind == 3 <==> sm.kind == PRODUCER) && (p.kind == 4 <==> sm.kind == CONSUMER)
            && 0 <= p.kind <= 4
            && WireEndpoint(sm.localEndpoint, p.localEndpoint) && WireEndpoint(sm.remoteEndpoint, p.remoteEndpoint)
            && p.timestamp == TimestampMicros(sm.timestamp) && p.duration == DurationMicros(sm.duration)
            && |p.annotations| == |sm.annotations|
            && (forall i :: 0 <= i < |p.annotations| ==>
                  && p.annotations[i].Some? && p.annotations[i].value.value == sm.annotations[i].value
                  && p.annotations[i].value.timestamp == AnnotationMicros(sm.annotations[i].timestamp))
  {
  }

  /** The first thing wrong with a message: a trace id not of 16 bytes, a parent id neither absent nor of 8
      bytes, a span id that is absent or not of 8 bytes. */
  function WireFault(p: Option<ProtoSpan>): Option<DecodeError> {
    if p == None then Some(NilSpan)
    else if |p.value.traceID| != 16 then Some(TraceIDLength(|p.value.traceID|))
    else if |p.value.parentID| != 0 && |p.value.parentID| != 8 then Some(InvalidParentID)
    else if |p.value.id| == 0 then Some(NoSpanID)
    else if |p.value.id| != 8 then Some(InvalidSpanID)
    else None
  }

  /** Decoding fails exactly on such messages, with that error. */
  lemma DecodeRejects(p: Option<ProtoSpan>, debugWasSet: bool, e: DecodeError)
    ensures DecodeSpan(p, debugWasSet) == Err(e) <==> WireFault(p) == Some(e)
  {
    if p.Some? && |p.value.traceID| == 16 {
      HexPathIsBigEndian(p.value.traceID);
    }
  }

  lemma DecodedTraceID(b: seq<byte>)
    requires |b| == 16
    ensures TraceIDFromHex(HexOfBytes(b)).Ok? && TraceIDFromHex(HexOfBytes(b)).value.Number() == NumberOf(b)
  {
    var high, low := b[..8], b[8..];
    assert b == high + low;
    HexPathIsBigEndian(b);
    NumberOfConcat(high, low);
    Pow256At8();
  }

  predicate SmallPort(p: Option<ProtoEndpoint>) {
    p.Some? ==> 0 <= p.value.port < 0x1_0000
  }

  lemma DecodedEndpoint(p: Option<ProtoEndpoint>)
    requires SmallPort(p)
    ensures WireEndpoint(DecodeEndpoint(p), p)
  {
  }

  /** And any other message decodes to the span it spells. Its context: ids as big-endian numbers, no parent for
      no bytes, the transport's debug flag, and no sampling state. */
  lemma DecodedContext(p: ProtoSpan, debugWasSet: bool)
    requires WireFault(Some(p)) == None
    ensures DecodeSpan(Some(p), debugWasSet).Ok?
    ensures var ctx := DecodeSpan(Some(p), debugWasSet).value.ctx;
            && WireNumber(p.traceID, 16, ctx.traceID.Number())
            && WireNumber(p.id, 8, ctx.id)
            && (if p.parentID == [] then ctx.parentID == None
                else ctx.parentID.Some? && WireNumber(p.parentID, 8, ctx.parentID.value))
            && ctx.debug == debugWasSet && ctx.sampled == None && ctx.err == None
  {
    DecodedTraceID(p.traceID);
  }

  /** Its other fields, where they are within range. */
  lemma DecodedFields(p: ProtoSpan, debugWasSet: bool)
    requires DecodeSpan(Some(p), debugWasSet).Ok?
    ensures var sm := DecodeSpan(Some(p), debugWasSet).value;
            && sm.name == p.name && sm.tags == p.tags && sm.shared == p.shared
            && (p.kind == 1 ==> sm.kind == CLIENT) && (p.kind == 2 ==> sm.kind == SERVER)
            && (p.kind == 3 ==> sm.kind == PRODUCER) && (p.kind == 4 ==> sm.kind == CONSUMER)
            && (SmallPort(p.localEndpoint) ==> WireEndpoint(sm.localEndpoint, p.localEndpoint))
            && (SmallPort(p.remoteEndpoint) ==> WireEndpoint(sm.remoteEndpoint, p.remoteEndpoint))
            && (InInt64(1000 * p.timestamp) ==> sm.timestamp == 1000 * p.timestamp)
            && (InInt64(1000 * p.duration) ==> sm.duration == 1000 * p.duration)
            && sm.annotations == DecodeAnnotations(p.annotations)
  {
    if SmallPort(p.localEndpoint) {
      DecodedEndpoint(p.localEndpoint);
    }
    if SmallPort(p.remoteEndpoint) {
      DecodedEndpoint(p.remoteEndpoint);
    }
    if InInt64(1000 * p.timestamp) {
      WrapInRange(p.timestamp * 1000);
    }
    if InInt64(1000 * p.duration) {
      WrapInRange(p.duration * 1000);
    }
  }

  /** Annotations decode one by one and in order, and those that are nil are left out. */
  lemma {:induction false} DecodedAnnotations(a: seq<Option<ProtoAnnotation>>, b: seq<Option<ProtoAnnotation>>)
    ensures DecodeAnnotations(a + b) == DecodeAnnotations(a) + DecodeAnnotations(b)
    ensures DecodeAnnotations([None]) == []
    ensures forall za :: DecodeAnnotations([Some(za)]) == [Annotation(MicrosToTime(za.timestamp), za.value)]
  {
    if b == [] {
      assert a + b == a;
    } else {
      var init := b[..|b| - 1];
      DecodedAnnotations(a, init);
      assert (a + b)[..|a + b| - 1] == a + init;
    }
  }

  /** A whole batch: what Serialize produces, ParseSpans reads without error, span by span. */
  method RelayBatch(sms: seq<Option<SpanModel>>, debugWasSet: bool) returns (zss: seq<SpanModel>, ok: bool)
    ensures ok <==> None !in sms
    ensures ok ==> |zss| == |sms| && forall i :: 0 <= i < |sms| ==> zss[i] == ReadBack(sms[i].value, debugWasSet)
  {
    var r := Serialize(sms);
    if r.Err? {
      return [], false;
    }
    var err;
    zss, err := ParseSpans(r.value, debugWasSet);
    forall i | 0 <= i < |sms|
      ensures DecodeSpan(r.value[i], debugWasSet) == Ok(ReadBack(sms[i].value, debugWasSet))
    {
      DecodeEncode(sms[i].value, debugWasSet);
    }
    ok := err.None?;
  }
}

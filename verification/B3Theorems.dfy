/** What the B3 codec guarantees: exact acceptance, exact bounds, and the round trips. */
module B3Theorems {
  import opened Hex
  import opened Model
  import opened B3Codec

  // ---------------------------------------------------------------------------
  // Acceptance
  // ---------------------------------------------------------------------------

  lemma TailAccepts(tail: string, ids: SpanContext, sc: SpanContext)
    requires ids == BLANK.(traceID := ids.traceID, id := ids.id)
    ensures ParseTail(tail, ids) == Extracted(sc) <==>
            && |tail| in {0, 2, 19}
            && sc.traceID == ids.traceID && sc.id == ids.id && sc.err.None? && sc.baggage.None?
            && (if |tail| == 0 then !sc.debug && sc.sampled.None? else SamplingByte(tail[1], sc))
            && (if |tail| == 19 then sc.parentID.Some? && HexAt(tail, 3, sc.parentID.value) else sc.parentID.None?)
  {
    if |tail| == 2 {
      assert tail[1..] == [tail[1]];
    } else if |tail| == 19 {
      assert tail[1..2] == [tail[1]];
      assert tail[3..] == tail[3..19];
      ParseSixteen(tail[3..]);
    }
  }

  lemma IDsAccept(rest: string, high: uint64, sc: SpanContext)
    requires |rest| >= 17
    ensures ParseIDs(rest, high) == Extracted(sc) <==>
            && |rest| in {33, 35, 52}
            && sc.traceID.high == high && sc.err.None? && sc.baggage.None?
            && HexAt(rest, 0, sc.traceID.low)
            && HexAt(rest, 17, sc.id)
            && (if |rest| == 33 then !sc.debug && sc.sampled.None? else SamplingByte(rest[34], sc))
            && (if |rest| == 52 then sc.parentID.Some? && HexAt(rest, 36, sc.parentID.value) else sc.parentID.None?)
  {
    assert rest[0..16] == rest[..16];
    ParseSixteen(rest[..16]);
    if ParseUint(rest[..16]).Value? && |rest| >= 33 {
      assert rest[17..17 + 16] == rest[17..33];
      ParseSixteen(rest[17..33]);
      if ParseUint(rest[17..33]).Value? {
        var ids := BLANK.(traceID := TraceID(high, ParseUint(rest[..16]).value), id := ParseUint(rest[17..33]).value);
        TailAccepts(rest[33..], ids, sc);
        if |rest| == 52 {
          assert rest[33..][3..19] == rest[36..52];
        }
      }
    }
  }

  lemma ShiftHexAt(h: string, at: nat, value: uint64)
    requires |h| >= 16
    ensures HexAt(h[16..], at, value) <==> HexAt(h, at + 16, value)
  {
    if at + 32 <= |h| {
      assert h[16..][at..at + 16] == h[at + 16..at + 32];
    }
  }

  lemma NarrowAccepts(h: string, sc: SpanContext)
    requires |h| >= 33 && h[16] == '-'
    ensures ParseSingle(h) == Extracted(sc) <==> Denotes(h, sc)
  {
    IDsAccept(h, 0, sc);
  }

  lemma WideAccepts(h: string, sc: SpanContext)
    requires |h| >= 33 && h[16] != '-'
    ensures ParseSingle(h) == Extracted(sc) <==> Denotes(h, sc)
  {
    assert h[0..16] == h[..16];
    ParseSixteen(h[..16]);
    if ParseUint(h[..16]).Value? {
      IDsAccept(h[16..], ParseUint(h[..16]).value, sc);
      ShiftHexAt(h, 0, sc.traceID.low);
      ShiftHexAt(h, 17, sc.id);
      if sc.parentID.Some? {
        ShiftHexAt(h, 36, sc.parentID.value);
      }
    }
  }

  /** The parser accepts exactly the layout, and returns the context the layout denotes. */
  lemma ParseSingleAccepts(h: string, sc: SpanContext)
    ensures ParseSingle(h) == Extracted(sc) <==> Denotes(h, sc)
  {
    if |h| == 1 {
      assert h == [h[0]];
    } else if |h| >= 33 && h[16] == '-' {
      NarrowAccepts(h, sc);
    } else if |h| >= 33 {
      WideAccepts(h, sc);
    }
  }

  /** Line 130 slices past the end exactly on a 128-bit trace id that is followed by too little. */
  lemma OutOfBoundsExactly(h: string)
    ensures ParseSingle(h).OutOfBounds? <==>
            33 <= |h| <= 48 && h[16] != '-' && AllHex(h[..16]) && AllHex(h[16..32])
  {
    if |h| >= 33 {
      ParseSixteen(h[..16]);
      if h[16] != '-' {
        assert h[16..][..16] == h[16..32];
        ParseSixteen(h[16..32]);
      }
    }
  }

  // The parts of a header of at least 33 characters, independently of the order in which they are read.

  /** Digits in the trace id: its end is marked by a hyphen after 16 digits, or else not marked. */
  function Width(h: string): nat
    requires |h| >= 33
  {
    if h[16] == '-' then 16 else 32
  }

  predicate TraceReadable(h: string)
    requires |h| >= 33
  {
    AllHex(h[..16]) && (Width(h) == 32 ==> AllHex(h[16..32]))
  }

  predicate IDsReadable(h: string) {
    && |h| >= 33
    && TraceReadable(h)
    && |h| >= Width(h) + 17
    && AllHex(h[Width(h) + 1..Width(h) + 17])
  }

  predicate KnownByte(c: char) {
    c == 'd' || c == '1' || c == '0'
  }

  /** The error for each malformed header; with ParseSingleAccepts and OutOfBoundsExactly this covers every
      input. */
  function Fault(h: string): Option<Error> {
    if h == "" then Some(ErrEmptyContext)
    else if |h| == 1 then if KnownByte(h[0]) then None else Some(ErrInvalidSampledByte)
    else if |h| == 16 || |h| == 32 then Some(ErrInvalidScope)
    else if |h| < 33 || !TraceReadable(h) then Some(ErrInvalidTraceIDValue)
    else if |h| < Width(h) + 17 then None
    else if !IDsReadable(h) then Some(ErrInvalidSpanIDValue)
    else
      var after := |h| - Width(h) - 17;
      if after == 0 then None
      else if after == 17 then Some(ErrInvalidScopeParentSingle)
      else if after == 1 then Some(ErrInvalidSampledByte)
      else if after == 2 then if KnownByte(h[Width(h) + 18]) then None else Some(ErrInvalidSampledByte)
      else if after != 19 || !AllHex(h[Width(h) + 20..]) then Some(ErrInvalidParentSpanIDValue)
      else if KnownByte(h[Width(h) + 18]) then None
      else Some(ErrInvalidSampledByte)
  }

  lemma TailFaults(tail: string, sc: SpanContext)
    ensures ParseTail(tail, sc).Rejected? ==>
            ParseTail(tail, sc).err ==
            if |tail| == 17 then ErrInvalidScopeParentSingle
            else if |tail| == 1 || |tail| == 2 then ErrInvalidSampledByte
            else if |tail| != 19 || !AllHex(tail[3..]) then ErrInvalidParentSpanIDValue
            else ErrInvalidSampledByte
    ensures ParseTail(tail, sc).Rejected? <==>
            !(|tail| == 0
              || (|tail| == 2 && KnownByte(tail[1]))
              || (|tail| == 19 && AllHex(tail[3..]) && KnownByte(tail[1])))
    ensures !ParseTail(tail, sc).OutOfBounds?
  {
    if |tail| == 2 {
      assert tail[1..] == [tail[1]];
    } else if |tail| == 19 {
      assert tail[1..2] == [tail[1]];
      ParseSixteen(tail[3..]);
    }
  }

  lemma IDFaults(h: string, pos: nat, high: uint64)
    requires |h| >= 33 && pos + 16 == Width(h) && (pos == 16 ==> AllHex(h[..16]))
    ensures ParseIDs(h[pos..], high).Rejected? <==> Fault(h).Some?
    ensures Fault(h).Some? ==> ParseIDs(h[pos..], high).err == Fault(h).value
  {
    var rest := h[pos..];
    assert rest[..16] == h[pos..pos + 16];
    assert pos == 0 ==> h[pos..pos + 16] == h[..16];
    ParseSixteen(rest[..16]);
    if |rest| >= 33 {
      assert rest[17..33] == h[pos + 17..pos + 33];
      ParseSixteen(rest[17..33]);
      if ParseUint(rest[..16]).Value? && ParseUint(rest[17..33]).Value? {
        var tail := rest[33..];
        TailFaults(tail, BLANK.(traceID := TraceID(high, ParseUint(rest[..16]).value), id := ParseUint(rest[17..33]).value));
        if |tail| == 19 {
          assert tail[3..] == h[Width(h) + 20..];
        }
      }
    }
  }

  /** A header is rejected exactly when it has a fault, and with the error of that fault. */
  lemma ParseSingleRejects(h: string)
    ensures ParseSingle(h).Rejected? <==> Fault(h).Some?
    ensures Fault(h).Some? ==> ParseSingle(h) == Rejected(Fault(h).value)
  {
    if |h| == 1 {
      assert h == [h[0]];
    } else if |h| >= 33 {
      if h[16] == '-' {
        assert h[0..] == h;
        IDFaults(h, 0, 0);
      } else {
        ParseSixteen(h[..16]);
        if ParseUint(h[..16]).Value? {
          IDFaults(h, 16, ParseUint(h[..16]).value);
        }
      }
    }
  }

  /** The lengths of accepted headers, by width of the trace id; a parent id needs a sampling state. */
  lemma AcceptedShapes(h: string, sc: SpanContext)
    requires ParseSingle(h) == Extracted(sc)
    ensures |h| == 1 || (if h[16] == '-' then |h| in {33, 35, 52} else |h| in {49, 51, 68})
    ensures sc.parentID.Some? ==> sc.Decided() && |h| in {52, 68}
    ensures !(sc.debug && sc.sampled.Some?)
    ensures sc.err.None? && sc.baggage.None?
  {
    ParseSingleAccepts(h, sc);
  }

  /** `text` is `word`, a word of small letters, with any of them capitalised. */
  predicate AnyCase(text: string, word: string) {
    |text| == |word| && forall i :: 0 <= i < |word| ==> text[i] == word[i] || text[i] as int + 32 == word[i] as int
  }

  predicate SmallLetters(word: string) {
    forall i :: 0 <= i < |word| ==> 'a' <= word[i] <= 'z'
  }

  lemma ToLowerLetters(text: string, word: string)
    requires SmallLetters(word)
    ensures ToLower(text) == word <==> AnyCase(text, word)
  {
    if ToLower(text) == word {
      forall i | 0 <= i < |word| ensures text[i] == word[i] || text[i] as int + 32 == word[i] as int {
        assert ToLower(text)[i] == word[i];
      }
    }
  }

  lemma ToLowerDigit(text: string, digit: char)
    requires '0' <= digit <= '9'
    ensures ToLower(text) == [digit] <==> text == [digit]
  {
    if ToLower(text) == [digit] {
      assert ToLower(text)[0] == digit;
    }
  }

  predicate Yes(sampled: string) {
    sampled == "1" || AnyCase(sampled, "true")
  }

  predicate No(sampled: string) {
    sampled == "0" || AnyCase(sampled, "false")
  }

  lemma SampledWords(sampled: string)
    ensures SampledValue(ToLower(sampled)) == if Yes(sampled) then Some(true) else if No(sampled) then Some(false) else None
    ensures !(Yes(sampled) && No(sampled))
  {
    ToLowerDigit(sampled, '1');
    ToLowerDigit(sampled, '0');
    ToLowerLetters(sampled, "true");
    ToLowerLetters(sampled, "false");
  }

  predicate ReadableTraceID(s: string) {
    s != "" && AllHex(s) && HexValue(s) < TWO128
  }

  predicate ReadableID(s: string) {
    s != "" && AllHex(s) && HexValue(s) < TWO64
  }

  /** The context the five headers spell, independently of any parser: a known sampling word or none, and
      either no identifier at all or both a trace id and a span id, with at most a valid parent id; an unknown
      flag is ignored. */
  predicate MultiDenotes(h: Headers, sc: SpanContext) {
    && sc.err.None? && sc.baggage.None?
    && (h.sampled == "" || Yes(h.sampled) || No(h.sampled))
    && sc.debug == (h.flags == "1")
    && sc.sampled == (if sc.debug || h.sampled == "" then None else Some(Yes(h.sampled)))
    && (if h.traceID == "" then
          h.spanID == "" && h.parentSpanID == ""
          && sc.traceID.Empty() && sc.id == 0 && sc.parentID.None?
        else
          && AllHex(h.traceID) && HexValue(h.traceID) == sc.traceID.Number()
          && h.spanID != "" && AllHex(h.spanID) && HexValue(h.spanID) == sc.id
          && (if h.parentSpanID == "" then sc.parentID.None?
              else sc.parentID.Some? && AllHex(h.parentSpanID) && HexValue(h.parentSpanID) == sc.parentID.value))
  }

  /** The multi-header parser accepts exactly the headers that spell a context, and returns it. */
  lemma ParseMultiAccepts(h: Headers, sc: SpanContext)
    ensures ParseMulti(h) == Extracted(sc) <==> MultiDenotes(h, sc)
  {
    SampledWords(h.sampled);
    TraceIDFromHexCharacterised(h.traceID);
    ParseUintCharacterised(h.spanID);
    ParseUintCharacterised(h.parentSpanID);
    match TraceIDFromHex(h.traceID) {
      case Ok(t) => NumberInjective(t, sc.traceID);
      case Err(_) =>
    }
  }

  /** The error for each malformed set of headers, the first that applies. */
  function MultiFault(h: Headers): Option<Error> {
    if !(h.sampled == "" || Yes(h.sampled) || No(h.sampled)) then Some(ErrInvalidSampledHeader)
    else if !(h.traceID == "" || ReadableTraceID(h.traceID)) then Some(ErrInvalidTraceIDHeader)
    else if !(h.spanID == "" || ReadableID(h.spanID)) then Some(ErrInvalidSpanIDHeader)
    else if (h.traceID == "") != (h.spanID == "") then Some(ErrInvalidScope)
    else if h.parentSpanID == "" then None
    else if h.traceID == "" then Some(ErrInvalidScopeParent)
    else if !ReadableID(h.parentSpanID) then Some(ErrInvalidParentSpanIDHeader)
    else None
  }

  /** Headers are rejected exactly when they have a fault, with that fault's error; and nothing is read out of
      bounds. */
  lemma ParseMultiRejects(h: Headers, e: Error)
    ensures ParseMulti(h) == Rejected(e) <==> MultiFault(h) == Some(e)
    ensures !ParseMulti(h).OutOfBounds?
  {
    SampledWords(h.sampled);
    TraceIDFromHexCharacterised(h.traceID);
    ParseUintCharacterised(h.spanID);
    ParseUintCharacterised(h.parentSpanID);
  }

  lemma NumberInjective(t: TraceID, u: TraceID)
    ensures t.Number() == u.Number() <==> t == u
  {
  }

  // ---------------------------------------------------------------------------
  // Building and parsing back
  // ---------------------------------------------------------------------------

  /** What survives a header: Err and Baggage do not, Debug hides Sampled, and identifiers travel only
      together. */
  function NormalForm(sc: SpanContext): SpanContext {
    SpanContext(
      if sc.HasIDs() then sc.traceID else TraceID(0, 0),
      if sc.HasIDs() then sc.id else 0,
      if sc.HasIDs() then sc.parentID else None,
      sc.debug,
      if sc.debug then None else sc.sampled,
      None,
      None)
  }

  /** What parsing the single header built from `sc` gives, for every context. */
  function SingleRoundTrip(sc: SpanContext): Outcome {
    if sc.HasIDs() then
      if sc.parentID.Some? && !sc.Decided() then Rejected(ErrInvalidScopeParentSingle)
      else Extracted(NormalForm(sc))
    else if sc.parentID.Some? then
      if sc.Decided() then Rejected(ErrInvalidTraceIDValue) else Rejected(ErrInvalidScope)
    else if sc.Decided() then Extracted(NormalForm(sc))
    else Rejected(ErrEmptyContext)
  }

  function SamplingText(sc: SpanContext): (s: string)
    ensures |s| == if sc.Decided() then 1 else 0
  {
    if sc.debug then "d"
    else match sc.sampled
      case Some(b) => if b then "1" else "0"
      case None => ""
  }

  function TailText(sc: SpanContext): string {
    (if sc.Decided() then "-" + SamplingText(sc) else "")
    + (match sc.parentID case Some(p) => "-" + Hex16(p) case None => "")
  }

  lemma JoinFront(a: string, pieces: seq<string>)
    ensures Join([a] + pieces) == if pieces == [] then a else a + "-" + Join(pieces)
  {
    assert ([a] + pieces)[1..] == pieces;
  }

  lemma JoinAfterIDs(sc: SpanContext)
    ensures var after := SamplingPieces(sc) + ParentPieces(sc);
            TailText(sc) == if after == [] then "" else "-" + Join(after)
  {
    assert SamplingPieces(sc) == if sc.Decided() then [SamplingText(sc)] else [];
    if sc.Decided() {
      JoinFront(SamplingText(sc), ParentPieces(sc));
    }
  }

  lemma Regroup(t: string, i: string, tail: string)
    ensures t + "-" + (i + tail) == t + "-" + i + tail
  {
  }

  lemma JoinThree(t: string, i: string, after: seq<string>, tail: string)
    requires tail == if after == [] then "" else "-" + Join(after)
    ensures Join([t] + ([i] + after)) == t + "-" + i + tail
  {
    JoinFront(t, [i] + after);
    JoinFront(i, after);
    Regroup(t, i, tail);
  }

  lemma SingleHeaderWithIDs(sc: SpanContext)
    requires sc.HasIDs()
    ensures SingleHeader(sc) == sc.traceID.String() + "-" + Hex16(sc.id) + TailText(sc)
  {
    var t, i, after := sc.traceID.String(), Hex16(sc.id), SamplingPieces(sc) + ParentPieces(sc);
    assert IDPieces(sc) + SamplingPieces(sc) + ParentPieces(sc) == [t] + ([i] + after);
    JoinAfterIDs(sc);
    JoinThree(t, i, after, TailText(sc));
  }

  lemma ParseBuiltTail(sc: SpanContext, ids: SpanContext)
    requires ids == BLANK.(traceID := ids.traceID, id := ids.id)
    ensures ParseTail(TailText(sc), ids) ==
            if sc.parentID.Some? && !sc.Decided() then Rejected(ErrInvalidScopeParentSingle)
            else Extracted(NormalForm(sc).(traceID := ids.traceID, id := ids.id, parentID := sc.parentID))
  {
    var tail := TailText(sc);
    match sc.parentID {
      case Some(p) =>
        ParseHex16(p);
        if sc.Decided() {
          assert tail[3..] == Hex16(p);
          assert tail[1..2] == SamplingText(sc);
        }
      case None =>
        if sc.Decided() {
          assert tail[1..] == SamplingText(sc);
        }
    }
  }

  lemma HexHasNoDash(n: uint64)
    ensures Hex16(n)[0] != '-'
  {
  }

  /** The part of a built header from the low half of the trace id on. */
  function FromLow(sc: SpanContext): (s: string)
    ensures |s| >= 33
  {
    Hex16(sc.traceID.low) + "-" + Hex16(sc.id) + TailText(sc)
  }

  lemma ParseFromLow(sc: SpanContext, high: uint64)
    requires sc.HasIDs()
    ensures ParseIDs(FromLow(sc), high) ==
            if sc.parentID.Some? && !sc.Decided() then Rejected(ErrInvalidScopeParentSingle)
            else Extracted(NormalForm(sc).(traceID := TraceID(high, sc.traceID.low)))
  {
    var rest := FromLow(sc);
    assert rest[..16] == Hex16(sc.traceID.low);
    assert rest[17..33] == Hex16(sc.id);
    assert rest[33..] == TailText(sc);
    ParseHex16(sc.traceID.low);
    ParseHex16(sc.id);
    ParseBuiltTail(sc, BLANK.(traceID := TraceID(high, sc.traceID.low), id := sc.id));
  }

  lemma ParseBuiltNarrow(sc: SpanContext)
    requires sc.HasIDs() && sc.traceID.high == 0
    ensures ParseSingle(SingleHeader(sc)) == SingleRoundTrip(sc)
  {
    var h, rest := SingleHeader(sc), FromLow(sc);
    SingleHeaderWithIDs(sc);
    assert h == rest;
    assert ParseSingle(h) == ParseIDs(rest, 0) by {
      assert |h| >= 33 && h[16] == '-';
    }
    ParseFromLow(sc, 0);
  }

  /** A group of 16 in front of a text that does not begin with a hyphen is the high half. */
  lemma ParseWide(group: string, rest: string, high: uint64)
    requires |group| == 16 && |rest| >= 33 && rest[0] != '-'
    requires ParseUint(group) == Value(high)
    ensures ParseSingle(group + rest) == ParseIDs(rest, high)
  {
    var h := group + rest;
    assert h[..16] == group && h[16..] == rest && h[16] == rest[0];
  }

  lemma MoveFront(a: string, b: string, i: string, tail: string)
    ensures (a + b) + "-" + i + tail == a + (b + "-" + i + tail)
  {
  }

  lemma WideHeader(sc: SpanContext)
    requires sc.HasIDs() && sc.traceID.high != 0
    ensures SingleHeader(sc) == Hex16(sc.traceID.high) + FromLow(sc)
    ensures FromLow(sc)[0] != '-'
  {
    SingleHeaderWithIDs(sc);
    MoveFront(Hex16(sc.traceID.high), Hex16(sc.traceID.low), Hex16(sc.id), TailText(sc));
    HexHasNoDash(sc.traceID.low);
  }

  lemma ParseBuiltWide(sc: SpanContext)
    requires sc.HasIDs() && sc.traceID.high != 0
    ensures ParseSingle(SingleHeader(sc)) == SingleRoundTrip(sc)
  {
    WideHeader(sc);
    ParseHex16(sc.traceID.high);
    ParseWide(Hex16(sc.traceID.high), FromLow(sc), sc.traceID.high);
    ParseFromLow(sc, sc.traceID.high);
  }

  lemma ParseBuiltWithoutIDs(sc: SpanContext)
    requires !sc.HasIDs()
    ensures ParseSingle(SingleHeader(sc)) == SingleRoundTrip(sc)
  {
    assert SamplingPieces(sc) == if sc.Decided() then [SamplingText(sc)] else [];
    if sc.Decided() && sc.parentID.Some? {
      var pieces := IDPieces(sc) + SamplingPieces(sc) + ParentPieces(sc);
      assert pieces == [SamplingText(sc)] + [Hex16(sc.parentID.value)];
      JoinFront(SamplingText(sc), [Hex16(sc.parentID.value)]);
    }
  }

  /** parse . build is known for every context; in particular a built header is never out of bounds. */
  lemma ParseBuildSingle(sc: SpanContext)
    ensures ParseSingle(SingleHeader(sc)) == SingleRoundTrip(sc)
  {
    if sc.HasIDs() && sc.traceID.high == 0 {
      ParseBuiltNarrow(sc);
    } else if sc.HasIDs() {
      ParseBuiltWide(sc);
    } else {
      ParseBuiltWithoutIDs(sc);
    }
  }

  /** The condition under which an extracted context survives being written and read again. */
  predicate Rebuildable(sc: SpanContext) {
    sc.HasIDs() || (sc.traceID.Empty() && sc.id == 0 && sc.parentID.None? && sc.Decided())
  }

  /** parse . build . parse == parse exactly for contexts that carry nonzero identifiers, or only a
      sampling state; a header that spells out zero identifiers does not come back. */
  lemma ParseBuildParse(h: string, sc: SpanContext)
    requires ParseSingle(h) == Extracted(sc)
    ensures ParseSingle(SingleHeader(sc)) == Extracted(sc) <==> Rebuildable(sc)
  {
    AcceptedShapes(h, sc);
    ParseBuildSingle(sc);
  }

  lemma ThreeFields(t: string, i: string, p: string)
    requires |i| == 16
    ensures var h := t + "-" + i + ("-" + p);
            && |h| == |t| + 18 + |p|
            && h[..|t|] == t && h[|t| + 1..|t| + 17] == i && h[|t| + 18..] == p
  {
  }

  /** A parent id without a sampling state is not read back by the parser, but the header still spells out
      the three identifiers. */
  lemma UndecidedHeader(sc: SpanContext)
    requires sc.HasIDs() && sc.parentID.Some? && !sc.Decided()
    ensures var h, t := SingleHeader(sc), sc.traceID.String();
            && |h| == |t| + 34
            && h[..|t|] == t && h[|t| + 1..|t| + 17] == Hex16(sc.id) && h[|t| + 18..] == Hex16(sc.parentID.value)
  {
    SingleHeaderWithIDs(sc);
    assert TailText(sc) == "-" + Hex16(sc.parentID.value);
    ThreeFields(sc.traceID.String(), Hex16(sc.id), Hex16(sc.parentID.value));
  }

  lemma UndecidedInjective(a: SpanContext, b: SpanContext)
    requires a.HasIDs() && a.parentID.Some? && !a.Decided()
    requires b.HasIDs() && b.parentID.Some? && !b.Decided()
    requires SingleHeader(a) == SingleHeader(b)
    ensures NormalForm(a) == NormalForm(b)
  {
    UndecidedHeader(a);
    UndecidedHeader(b);
    TraceIDFromHexInvertsString(a.traceID);
    TraceIDFromHexInvertsString(b.traceID);
    ParseHex16(a.id);
    ParseHex16(b.id);
    ParseHex16(a.parentID.value);
    ParseHex16(b.parentID.value);
  }

  lemma ParentOnlyHeader(sc: SpanContext)
    requires !sc.HasIDs() && sc.Decided()
    ensures SingleHeader(sc) != "" && SingleHeader(sc)[..1] == SamplingText(sc)
  {
    assert SamplingPieces(sc) == [SamplingText(sc)];
    assert IDPieces(sc) + SamplingPieces(sc) + ParentPieces(sc) == [SamplingText(sc)] + ParentPieces(sc);
    JoinFront(SamplingText(sc), ParentPieces(sc));
  }

  /** Equal headers come only from contexts that agree on all that is written, whatever the contexts. */
  lemma BuildInjective(a: SpanContext, b: SpanContext)
    requires SingleHeader(a) == SingleHeader(b)
    ensures NormalForm(a) == NormalForm(b)
  {
    ParseBuildSingle(a);
    ParseBuildSingle(b);
    match SingleRoundTrip(a) {
      case Rejected(ErrInvalidScopeParentSingle) => UndecidedInjective(a, b);
      case Rejected(ErrInvalidTraceIDValue) =>
        ParentOnlyHeader(a);
        ParentOnlyHeader(b);
      case _ =>
    }
  }
}

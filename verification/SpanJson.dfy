/** The numbers in the JSON form of a span (model/span.go): timestamp and duration in microseconds. */
module SpanJson {
  import opened Hex
  import opened Model
  import opened Spans
  import opened ProtoSpans
  import opened ProtoTheorems

  datatype JsonError = ErrValidTimestampRequired | ErrValidDurationRequired

  /** The largest duration that can still be rounded up by 500 ns within 64 bits. */
  const LAST_ROUNDABLE: int := 0x7fff_ffff_ffff_ffff - 500

  /** The duration field for a duration; adding 500 ns may wrap around. */
  function JsonDuration(d: int64): Result<int, JsonError> {
    if d < 0 then Err(ErrValidDurationRequired)
    else if d == 0 then Ok(0)
    else if d < 1000 then Ok(1)
    else Ok(Quot(Wrap(d + 500), 1000))
  }

  /** Time.Unix(): whole seconds since the epoch, rounded down. */
  function UnixSeconds(t: Time): int {
    t / 1_000_000_000
  }

  /** The timestamp field; zero times are left out as 0, and times before the second after the epoch refused. */
  function JsonTimestamp(t: Time): Result<int, JsonError> {
    if t == ZERO_TIME then Ok(0)
    else if UnixSeconds(t) < 1 then Err(ErrValidTimestampRequired)
    else Ok(Quot(Wrap(RoundMicro(t)), 1000))
  }

  /** MarshalJSON up to the point where the fields are handed to encoding/json. */
  method MarshalNumbers(timestamp: Time, duration: int64) returns (r: Result<(int, int), JsonError>)
    ensures r == match JsonTimestamp(timestamp)
                 case Err(e) => Err(e)
                 case Ok(t) =>
                   (match JsonDuration(duration)
                    case Err(e) => Err(e)
                    case Ok(d) => Ok((t, d)))
  {
    var t := 0;
    if timestamp != ZERO_TIME {
      if UnixSeconds(timestamp) < 1 {
        return Err(ErrValidTimestampRequired);
      }
      t := Quot(Wrap(RoundMicro(timestamp)), 1000);
    }

    var d: int64 := duration;
    if d < 1000 {
      if d < 0 {
        return Err(ErrValidDurationRequired);
      } else if d > 0 {
        d := 1000;
      }
    } else {
      d := Wrap(d + 500);
    }
    return Ok((t, Quot(d, 1000)));
  }

  /** UnmarshalJSON: the duration of a decoded span, from an unsigned field. */
  function DecodedDuration(d: uint64): int64 {
    Wrap(d * 1000)
  }

  /** The timestamp of a decoded span: a field of 0 leaves it as it was. */
  function DecodedTimestamp(t: uint64, before: Time): Time {
    if t > 0 then Wrap(Wrap(t) * 1000) else before
  }

  /** Up to LAST_ROUNDABLE the field is 0 only for 0, at least 1 otherwise, and within half a microsecond. */
  lemma DurationRounds(d: int64)
    requires 0 <= d <= LAST_ROUNDABLE
    ensures JsonDuration(d).Ok?
    ensures JsonDuration(d).value >= 0
    ensures JsonDuration(d).value == 0 <==> d == 0
    ensures d >= 1000 ==> -500 < 1000 * JsonDuration(d).value - d <= 500
    ensures d >= 1000 ==> JsonDuration(d).value == (d + 500) / 1000
  {
    WrapInRange(d + 500);
  }

  lemma DurationMonotone(d: int64, e: int64)
    requires 0 <= d <= e <= LAST_ROUNDABLE
    ensures JsonDuration(d).value <= JsonDuration(e).value
  {
    DurationRounds(d);
    DurationRounds(e);
  }

  /** Decoding the field and encoding again gives the same field. */
  lemma DurationStableInJson(d: int64)
    requires 0 <= d <= LAST_ROUNDABLE
    ensures var field := JsonDuration(d).value;
            && 0 <= field
            && DecodedDuration(field) == 1000 * field
            && JsonDuration(DecodedDuration(field)) == Ok(field)
  {
    DurationRounds(d);
    var field := JsonDuration(d).value;
    assert 1000 * field <= d + 1000;
    if d >= 1000 {
      assert 1000 * field <= 9223372036854775000;
    }
    WrapInRange(1000 * field);
    WrapInRange(1000 * field + 500);
  }

  /** A duration is written as a nonnegative field exactly when it is nonnegative and can be rounded; the last
      500 nanosecond values wrap around to a negative field. */
  lemma DurationFieldValid(d: int64)
    ensures JsonDuration(d).Ok? && JsonDuration(d).value >= 0 <==> 0 <= d <= LAST_ROUNDABLE
    ensures d > LAST_ROUNDABLE ==> JsonDuration(d).Ok? && JsonDuration(d).value < 0
    ensures JsonDuration(d) == Err(ErrValidDurationRequired) <==> d < 0
  {
    if 0 <= d <= LAST_ROUNDABLE {
      DurationRounds(d);
    } else if d > LAST_ROUNDABLE {
      WrapShift(d + 500 - TWO64, 1);
      WrapInRange(d + 500 - TWO64);
    }
  }

  /** A timestamp from the second after the epoch on comes back at microsecond precision, exactly when its
      rounding fits 64 bits of nanoseconds; and then encoding again gives the same field. */
  lemma TimestampRoundTrip(t: Time)
    requires UnixSeconds(t) >= 1
    ensures var field := JsonTimestamp(t).value;
            && (0 < field < TWO64 && DecodedTimestamp(field, ZERO_TIME) == RoundMicro(t) <==> InInt64(RoundMicro(t)))
            && (InInt64(RoundMicro(t)) ==> JsonTimestamp(RoundMicro(t)) == Ok(field))
  {
    RoundMicroMultiple(t);
    RoundMicroMultiple(RoundMicro(t));
    if InInt64(RoundMicro(t)) {
      WrapInRange(RoundMicro(t));
      assert 1000 * JsonTimestamp(t).value == RoundMicro(t);
      WrapInRange(JsonTimestamp(t).value);
    }
  }

  /** Which timestamps are written, and as what: a zero time as 0, which is left out and on decoding leaves the
      time as it was; times before the second after the epoch are refused; any other is rounded to the nearest
      microsecond, as long as that fits 64 bits of nanoseconds. */
  lemma TimestampField(t: Time, before: Time)
    ensures JsonTimestamp(t).Ok? <==> t == ZERO_TIME || t >= 1_000_000_000
    ensures JsonTimestamp(t).Err? ==> JsonTimestamp(t).error == ErrValidTimestampRequired
    ensures JsonTimestamp(ZERO_TIME) == Ok(0) && DecodedTimestamp(0, before) == before
    ensures 1_000_000_000 <= t && InInt64(t + 500) ==>
              var field := JsonTimestamp(t).value;
              field > 0 && -500 < 1000 * field - t <= 500
  {
    if 1_000_000_000 <= t && InInt64(t + 500) {
      RoundMicroMultiple(t);
      WrapInRange(RoundMicro(t));
    }
  }
}

/** Hexadecimal text and unsigned 64-bit numbers: `%016x` and `strconv.ParseUint(s, 16, 64)`.
    A Go string is a sequence of bytes; each `char` here stands for one byte. */
module Hex {

  const TWO64: int := 0x1_0000_0000_0000_0000
  const TWO128: int := TWO64 * TWO64

  type uint64 = n: int | 0 <= n < 0x1_0000_0000_0000_0000

  type int64 = n: int | -0x8000_0000_0000_0000 <= n < 0x8000_0000_0000_0000

  /** uint64(n): two's complement. */
  function ToUint64(n: int): uint64 {
    n % TWO64
  }

  predicate IsHexDigit(c: char) {
    '0' <= c <= '9' || 'a' <= c <= 'f' || 'A' <= c <= 'F'
  }

  predicate AllHex(s: string) {
    forall i :: 0 <= i < |s| ==> IsHexDigit(s[i])
  }

  function DigitValue(c: char): (d: int)
    requires IsHexDigit(c)
    ensures 0 <= d < 16
  {
    if '0' <= c <= '9' then c as int - '0' as int
    else if 'a' <= c <= 'f' then c as int - 'a' as int + 10
    else c as int - 'A' as int + 10
  }

  function DigitChar(d: int): (c: char)
    requires 0 <= d < 16
    ensures IsHexDigit(c) && DigitValue(c) == d
  {
    if d < 10 then (d + '0' as int) as char else (d - 10 + 'a' as int) as char
  }

  function Pow16(k: nat): (p: nat)
    ensures p > 0
  {
    if k == 0 then 1 else 16 * Pow16(k - 1)
  }

  /** The number a string of hex digits denotes. */
  function HexValue(s: string): nat
    requires AllHex(s)
  {
    if s == "" then 0 else 16 * HexValue(s[..|s| - 1]) + DigitValue(s[|s| - 1])
  }

  /** The last `width` hex digits of `n`, lower case and zero padded. */
  function Digits(n: nat, width: nat): (s: string)
    ensures |s| == width && AllHex(s)
  {
    if width == 0 then "" else Digits(n / 16, width - 1) + [DigitChar(n % 16)]
  }

  /** `fmt.Sprintf("%016x", n)`: a 64-bit number never needs more than the 16 padded digits. */
  function Hex16(n: uint64): (s: string)
    ensures |s| == 16 && AllHex(s)
  {
    Digits(n, 16)
  }

  datatype ParseResult = Value(value: uint64) | SyntaxError | RangeError

  /** The scanning loop of strconv.ParseUint for base 16, with `n` read so far. It stops at the
      first byte that is not a digit or does not fit, whatever follows. */
  function Scan(s: string, n: uint64): ParseResult {
    if s == "" then Value(n)
    else if !IsHexDigit(s[0]) then SyntaxError
    else if n >= 0x1000_0000_0000_0000 then RangeError
    else Scan(s[1..], n * 16 + DigitValue(s[0]))
  }

  function ParseUint(s: string): ParseResult {
    if s == "" then SyntaxError else Scan(s, 0)
  }

  lemma Pow16At16()
    ensures Pow16(16) == TWO64
  {
    assert Pow16(4) == 0x10000;
    assert Pow16(8) == 0x10000 * Pow16(4);
    assert Pow16(12) == 0x10000 * Pow16(8);
    assert Pow16(16) == 0x10000 * Pow16(12);
  }

  lemma {:induction false} HexValueBound(s: string)
    requires AllHex(s)
    ensures HexValue(s) < Pow16(|s|)
  {
    if s != "" {
      HexValueBound(s[..|s| - 1]);
    }
  }

  lemma ConcatStep(a: nat, p: nat, b: nat, d: nat)
    ensures 16 * (a * p + b) + d == a * (16 * p) + (16 * b + d)
  {
    assert 16 * (a * p) == a * (16 * p);
  }

  lemma {:induction false} HexValueConcat(s: string, t: string)
    requires AllHex(s) && AllHex(t)
    ensures AllHex(s + t)
    ensures HexValue(s + t) == HexValue(s) * Pow16(|t|) + HexValue(t)
  {
    if t == "" {
      assert s + t == s;
    } else {
      var t', d := t[..|t| - 1], DigitValue(t[|t| - 1]);
      HexValueConcat(s, t');
      assert (s + t)[..|s + t| - 1] == s + t';
      ConcatStep(HexValue(s), Pow16(|t'|), HexValue(t'), d);
    }
  }

  lemma {:induction false} DigitsValue(n: nat, width: nat)
    requires n < Pow16(width)
    ensures HexValue(Digits(n, width)) == n
  {
    if width > 0 {
      DigitsValue(n / 16, width - 1);
      var s := Digits(n, width);
      assert s[..|s| - 1] == Digits(n / 16, width - 1);
    }
  }

  lemma Distribute(a: int, b: int, p: int)
    ensures (a + b) * p == a * p + b * p
  {
  }

  lemma ScanStep(n: nat, d: int, p: nat, rest: nat)
    ensures (n * 16 + d) * p + rest == n * (16 * p) + (d * p + rest)
  {
    Distribute(n * 16, d, p);
    assert n * 16 * p == n * (16 * p);
  }

  lemma ScanOverflow(n: nat, q: nat)
    requires n >= 0x1000_0000_0000_0000 && q >= 16
    ensures n * q >= TWO64
  {
    Distribute(q - 16, 16, n);
    assert (q - 16) * n >= 0;
  }

  lemma HexValueFront(s: string)
    requires s != "" && AllHex(s)
    ensures AllHex(s[1..])
    ensures HexValue(s) == DigitValue(s[0]) * Pow16(|s| - 1) + HexValue(s[1..])
  {
    HexValueConcat([s[0]], s[1..]);
    assert [s[0]] + s[1..] == s;
    assert HexValue([s[0]]) == DigitValue(s[0]) by {
      assert [s[0]][..0] == "";
    }
  }

  lemma {:induction false} ScanCharacterised(s: string, n: uint64)
    ensures Scan(s, n).Value? <==> AllHex(s) && n * Pow16(|s|) + HexValue(s) < TWO64
    ensures Scan(s, n).Value? ==> Scan(s, n).value == n * Pow16(|s|) + HexValue(s)
  {
    if s != "" && IsHexDigit(s[0]) {
      var rest, d := s[1..], DigitValue(s[0]);
      assert AllHex(rest) ==> AllHex(s);
      if AllHex(s) {
        HexValueFront(s);
        ScanStep(n, d, Pow16(|rest|), HexValue(rest));
        if n >= 0x1000_0000_0000_0000 {
          ScanOverflow(n, 16 * Pow16(|rest|));
        }
      }
      if n < 0x1000_0000_0000_0000 {
        ScanCharacterised(rest, n * 16 + d);
      }
    }
  }

  /** The digits in front of the first other character. */
  function HexPrefix(s: string): (p: string)
    ensures AllHex(p)
  {
    if s == "" || !IsHexDigit(s[0]) then "" else [s[0]] + HexPrefix(s[1..])
  }

  lemma {:induction false} ScanOverflows(s: string, n: uint64)
    ensures Scan(s, n).RangeError? <==> n * Pow16(|HexPrefix(s)|) + HexValue(HexPrefix(s)) >= TWO64
  {
    if s != "" && IsHexDigit(s[0]) {
      var prefix, rest, d := HexPrefix(s), HexPrefix(s[1..]), DigitValue(s[0]);
      assert prefix[1..] == rest;
      HexValueFront(prefix);
      ScanStep(n, d, Pow16(|rest|), HexValue(rest));
      if n >= 0x1000_0000_0000_0000 {
        ScanOverflow(n, 16 * Pow16(|rest|));
      } else {
        ScanOverflows(s[1..], n * 16 + d);
      }
    }
  }

  /** The range error comes exactly when the digits in front of the first other character are too large. */
  lemma RangeErrorExactly(s: string)
    ensures ParseUint(s).RangeError? <==> HexValue(HexPrefix(s)) >= TWO64
  {
    ScanOverflows(s, 0);
  }

  /** ParseUint accepts exactly the nonempty hex strings whose value fits 64 bits, at any length. */
  lemma ParseUintCharacterised(s: string)
    ensures ParseUint(s).Value? <==> s != "" && AllHex(s) && HexValue(s) < TWO64
    ensures ParseUint(s).Value? ==> ParseUint(s).value == HexValue(s)
  {
    ScanCharacterised(s, 0);
  }

  /** Sixteen hex digits always fit. */
  lemma ParseSixteen(s: string)
    requires |s| == 16
    ensures ParseUint(s).Value? <==> AllHex(s)
    ensures AllHex(s) ==> HexValue(s) < TWO64 && ParseUint(s) == Value(HexValue(s))
  {
    ParseUintCharacterised(s);
    if AllHex(s) {
      HexValueBound(s);
      Pow16At16();
    }
  }

  /** Printing with `%016x` and parsing back is the identity. */
  lemma ParseHex16(n: uint64)
    ensures ParseUint(Hex16(n)) == Value(n)
    ensures HexValue(Hex16(n)) == n
  {
    Pow16At16();
    DigitsValue(n, 16);
    ParseUintCharacterised(Hex16(n));
  }
}

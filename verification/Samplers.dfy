/** The deterministic samplers of sample.go: never, always, modulo and boundary, and how many of the
    2^64 trace ids each accepts. */
module Samplers {
  import opened Counting
  import opened Hex
  import opened Model

  datatype Sampler =
    | NeverSample
    | AlwaysSample
    | ModuloSampler(mod: uint64)
    | BoundarySampler(boundary: uint64, usalt: uint64)
  {
    predicate WellFormed() {
      ModuloSampler? ==> mod >= 2
    }

    predicate Sample(id: uint64)
      requires WellFormed()
    {
      match this
      case NeverSample => false
      case AlwaysSample => true
      case ModuloSampler(mod) => id % mod == 0
      case BoundarySampler(boundary, usalt) => Xor(64, id, usalt) / 2 < boundary
    }
  }

  function NewModuloSampler(mod: uint64): (s: Sampler)
    ensures s.WellFormed()
  {
    if mod < 2 then AlwaysSample else ModuloSampler(mod)
  }

  /** Scaling a rate in [0, 1] by 2^63 is exact in floating point, so a real rate loses nothing. */
  function NewBoundarySampler(rate: real, salt: int64): (r: Result<Sampler, string>)
    ensures r.Ok? ==> r.value.WellFormed()
    ensures r.Ok? <==> rate == 0.0 || 0.0001 <= rate <= 1.0
  {
    if rate == 0.0 then Ok(NeverSample)
    else if rate == 1.0 then Ok(AlwaysSample)
    else if rate < 0.0001 || rate > 1.0 then Err("rate should be 0.0 or between 0.0001 and 1")
    else
      var boundary := (rate * 0x8000_0000_0000_0000 as real).Floor;
      Ok(BoundarySampler(boundary, ToUint64(salt)))
  }

  // ---------------------------------------------------------------------------
  // Exclusive or on `width`-bit numbers
  // ---------------------------------------------------------------------------

  function Pow2(k: nat): (p: nat)
    ensures p > 0
  {
    if k == 0 then 1 else 2 * Pow2(k - 1)
  }

  function Xor(width: nat, a: nat, b: nat): nat {
    if width == 0 then 0 else 2 * Xor(width - 1, a / 2, b / 2) + (a + b) % 2
  }

  function Bit(n: nat, i: nat): bool {
    if i == 0 then n % 2 == 1 else Bit(n / 2, i - 1)
  }

  lemma Halves(n: nat, p: nat)
    requires p < 2
    ensures (2 * n + p) / 2 == n && (2 * n + p) % 2 == p
  {
  }

  lemma XorStep(width: nat, y: nat, p: nat, b: nat)
    requires width > 0 && p < 2
    ensures Xor(width, 2 * y + p, b) == 2 * Xor(width - 1, y, b / 2) + (p + b) % 2
  {
    Halves(y, p);
    EvenCancels(y, p + b);
  }

  lemma EvenCancels(y: nat, n: nat)
    ensures (2 * y + n) % 2 == n % 2
  {
  }

  lemma ParityCancels(a: nat, b: nat)
    ensures ((a + b) % 2 + b) % 2 == a % 2
  {
  }

  /** Bit by bit this is exclusive or. */
  lemma {:induction false} XorBits(width: nat, a: nat, b: nat, i: nat)
    requires i < width
    ensures Bit(Xor(width, a, b), i) <==> (Bit(a, i) != Bit(b, i))
  {
    Halves(Xor(width - 1, a / 2, b / 2), (a + b) % 2);
    if i > 0 {
      XorBits(width - 1, a / 2, b / 2, i - 1);
    }
  }

  /** Numbers of `width` bits are determined by their bits. */
  lemma {:induction false} BitsDetermine(width: nat, a: nat, b: nat)
    requires a < Pow2(width) && b < Pow2(width)
    requires forall i: nat :: i < width ==> (Bit(a, i) <==> Bit(b, i))
    ensures a == b
  {
    if width > 0 {
      assert Bit(a, 0) <==> Bit(b, 0);
      forall i: nat | i < width - 1 ensures Bit(a / 2, i) <==> Bit(b / 2, i) {
        assert Bit(a, i + 1) <==> Bit(b, i + 1);
      }
      BitsDetermine(width - 1, a / 2, b / 2);
    }
  }

  /** `x` is `id` with the bits of `usalt` flipped. */
  predicate Flipped(x: uint64, id: uint64, usalt: uint64) {
    forall i: nat :: i < 64 ==> (Bit(x, i) <==> (Bit(id, i) != Bit(usalt, i)))
  }

  lemma FlippedIsXor(x: uint64, id: uint64, usalt: uint64)
    requires Flipped(x, id, usalt)
    ensures Xor(64, id, usalt) == x
  {
    Pow2At64();
    XorBound(64, id, usalt);
    forall i: nat | i < 64 ensures Bit(Xor(64, id, usalt), i) <==> Bit(x, i) {
      XorBits(64, id, usalt, i);
    }
    BitsDetermine(64, Xor(64, id, usalt), x);
  }

  lemma {:induction false} XorBound(width: nat, a: nat, b: nat)
    ensures Xor(width, a, b) < Pow2(width)
  {
    if width > 0 {
      XorBound(width - 1, a / 2, b / 2);
    }
  }

  /** Exclusive or with a fixed salt is its own inverse, hence a bijection of the id space. */
  lemma {:induction false} XorInvolution(width: nat, a: nat, b: nat)
    requires a < Pow2(width)
    ensures Xor(width, Xor(width, a, b), b) == a
  {
    if width > 0 {
      var y, p := Xor(width - 1, a / 2, b / 2), (a + b) % 2;
      XorInvolution(width - 1, a / 2, b / 2);
      XorStep(width, y, p, b);
      ParityCancels(a, b);
    }
  }

  lemma Pow2At64()
    ensures Pow2(64) == TWO64
  {
    assert Pow2(4) == 16;
    Pow2Sum(4, 4);
    assert Pow2(8) == 0x100;
    Pow2Sum(8, 8);
    assert Pow2(16) == 0x10000;
    Pow2Sum(16, 16);
    assert Pow2(32) == 0x1_0000_0000;
    Pow2Sum(32, 32);
  }

  lemma {:induction false} Pow2Sum(j: nat, k: nat)
    ensures Pow2(j + k) == Pow2(j) * Pow2(k)
  {
    if k > 0 {
      Pow2Sum(j, k - 1);
      assert 2 * (Pow2(j) * Pow2(k - 1)) == Pow2(j) * (2 * Pow2(k - 1));
    }
  }

  // ---------------------------------------------------------------------------
  // Counting accepted ids
  // ---------------------------------------------------------------------------

  ghost function Accepted(s: Sampler): set<int>
    requires s.WellFormed()
  {
    set id | 0 <= id < TWO64 && s.Sample(id)
  }

  /** For every salt the boundary sampler accepts exactly twice its boundary many ids. */
  lemma BoundaryCount(boundary: uint64, usalt: uint64)
    requires boundary <= 0x8000_0000_0000_0000
    ensures |Accepted(BoundarySampler(boundary, usalt))| == 2 * boundary
  {
    var flip: int -> int := x => if 0 <= x then Xor(64, x, usalt) else x;
    var ids := Accepted(BoundarySampler(boundary, usalt));
    Pow2At64();
    forall x | x in ids ensures flip(x) in Below(2 * boundary) && flip(flip(x)) == x {
      XorInvolution(64, x, usalt);
    }
    forall y | y in Below(2 * boundary) ensures flip(y) in ids && flip(flip(y)) == y {
      XorInvolution(64, y, usalt);
      XorBound(64, y, usalt);
    }
    CardBijection(ids, Below(2 * boundary), flip, flip);
    CardBelow(2 * boundary);
  }

  function TimesMod(mod: uint64): int -> int {
    k => k * mod
  }

  function OverMod(mod: uint64): int -> int
    requires mod > 0
  {
    x => x / mod
  }

  /** `n` is 2^64 / mod, rounded up. */
  predicate Ceiling(mod: uint64, n: nat) {
    n > 0 && (n - 1) * mod < TWO64 <= n * mod
  }

  lemma SmallerMultiple(a: int, b: int, m: nat)
    requires a < b
    ensures a * m + m <= b * m
  {
    Distribute(b - a - 1, a + 1, m);
    Distribute(a, 1, m);
    assert (b - a - 1) * m >= 0;
  }

  lemma QuotientInRange(x: uint64, mod: uint64, n: nat)
    requires mod >= 2 && x % mod == 0 && Ceiling(mod, n)
    ensures OverMod(mod)(x) in Below(n) && TimesMod(mod)(OverMod(mod)(x)) == x
  {
    var q := x / mod;
    assert x == q * mod;
    if q >= n {
      if q > n {
        SmallerMultiple(n, q, mod);
      }
    }
  }

  lemma MultipleInRange(k: nat, mod: uint64, n: nat)
    requires mod >= 2 && k < n && Ceiling(mod, n)
    ensures TimesMod(mod)(k) in Accepted(ModuloSampler(mod)) && OverMod(mod)(TimesMod(mod)(k)) == k
  {
    if k < n - 1 {
      SmallerMultiple(k, n - 1, mod);
    }
    MultipleDivides(k, mod);
  }

  lemma MultipleDivides(k: nat, m: nat)
    requires m > 0
    ensures (k * m) % m == 0 && (k * m) / m == k
  {
    var q, r := (k * m) / m, (k * m) % m;
    assert k * m == q * m + r;
    if q < k {
      SmallerMultiple(q, k, m);
    } else if k < q {
      SmallerMultiple(k, q, m);
    }
  }

  lemma MultiplesCount(mod: uint64, n: nat)
    requires mod >= 2 && Ceiling(mod, n)
    ensures |Accepted(ModuloSampler(mod))| == n
  {
    var ids, over, times := Accepted(ModuloSampler(mod)), OverMod(mod), TimesMod(mod);
    forall x | x in ids ensures over(x) in Below(n) && times(over(x)) == x {
      QuotientInRange(x, mod, n);
    }
    forall k | k in Below(n) ensures times(k) in ids && over(times(k)) == k {
      MultipleInRange(k, mod, n);
    }
    CardBijection(ids, Below(n), over, times);
    CardBelow(n);
  }

  lemma AlwaysCount()
    ensures |Accepted(AlwaysSample)| == TWO64
  {
    assert Accepted(AlwaysSample) == Below(TWO64);
    CardBelow(TWO64);
  }

  /** The modulo sampler accepts one id in every `mod`; a modulus of 0 is taken like 1. */
  lemma ModuloCount(mod: uint64, n: nat)
    requires Ceiling(if mod == 0 then 1 else mod, n)
    ensures |Accepted(NewModuloSampler(mod))| == n
  {
    if mod < 2 {
      AlwaysCount();
    } else {
      MultiplesCount(mod, n);
    }
  }

  lemma FloorBounds(rate: real)
    ensures var boundary := (rate * 0x8000_0000_0000_0000 as real).Floor;
            rate * TWO64 as real - 2.0 < (2 * boundary) as real <= rate * TWO64 as real
  {
    assert rate * TWO64 as real == 2.0 * (rate * 0x8000_0000_0000_0000 as real);
  }

  /** For every accepted rate, whatever the salt, the sampler takes exactly 2 * floor(rate * 2^63) of the
      2^64 ids, which is within 2 of the proportion asked for. */
  lemma BoundarySamplerCount(rate: real, salt: int64)
    requires NewBoundarySampler(rate, salt).Ok?
    ensures var count := |Accepted(NewBoundarySampler(rate, salt).value)|;
            && count == 2 * (rate * 0x8000_0000_0000_0000 as real).Floor
            && rate * TWO64 as real - 2.0 < count as real <= rate * TWO64 as real
  {
    FloorBounds(rate);
    match NewBoundarySampler(rate, salt).value {
      case NeverSample =>
        assert Accepted(NeverSample) == {};
      case AlwaysSample =>
        AlwaysCount();
      case BoundarySampler(boundary, usalt) =>
        BoundaryCount(boundary, usalt);
    }
  }

  /** Which ids the boundary sampler takes, for every accepted rate: those that the salt, in two's complement,
      flips to a number below twice the boundary. */
  lemma BoundarySamplerExactly(rate: real, salt: int64, usalt: uint64, id: uint64, x: uint64)
    requires NewBoundarySampler(rate, salt).Ok?
    requires usalt == if salt >= 0 then salt else TWO64 + salt
    requires Flipped(x, id, usalt)
    ensures NewBoundarySampler(rate, salt).value.Sample(id) <==> x < 2 * (rate * 0x8000_0000_0000_0000 as real).Floor
  {
    FlippedIsXor(x, id, usalt);
    SaltPattern(salt);
  }

  lemma SaltPattern(salt: int64)
    ensures ToUint64(salt) == if salt >= 0 then salt else TWO64 + salt
  {
  }

  predicate IsMultiple(id: uint64, mod: uint64, k: nat) {
    id == k * mod
  }

  /** Which ids the modulo sampler takes: the multiples of the modulus, and all for a modulus below 2. */
  lemma ModuloSamplerExactly(mod: uint64, id: uint64)
    ensures NewModuloSampler(mod).Sample(id) <==> mod < 2 || exists k: nat :: IsMultiple(id, mod, k)
  {
    if mod >= 2 {
      if id % mod == 0 {
        assert IsMultiple(id, mod, id / mod);
      }
      if k: nat :| IsMultiple(id, mod, k) {
        MultipleDivides(k, mod);
      }
    }
  }

  /** Raising the rate only adds ids, as long as the salt stays. */
  lemma BoundarySamplerMonotone(low: real, high: real, salt: int64, id: uint64)
    requires low <= high
    requires NewBoundarySampler(low, salt).Ok? && NewBoundarySampler(high, salt).Ok?
    requires NewBoundarySampler(low, salt).value.Sample(id)
    ensures NewBoundarySampler(high, salt).value.Sample(id)
  {
    var scale := 0x8000_0000_0000_0000 as real;
    assert low * scale <= high * scale;
  }
}

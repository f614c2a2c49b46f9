/** randomBitSet and the counting sampler of sample.go: reservoir sampling with the random source given
    as the sequence of its answers, its uniformity, and the cyclic counter over its result. */
module Reservoir {
  import opened Counting

  /** draws[k] is what rnd.Intn(i + 1) answers in the round i == cardinality + k. */
  predicate ValidDraws(cardinality: nat, draws: seq<nat>) {
    forall k :: 0 <= k < |draws| ==> draws[k] <= cardinality + k
  }

  /** The reservoir after the rounds of `draws`: the positions chosen so far, by slot. */
  function Chosen(cardinality: nat, draws: seq<nat>): (slots: seq<nat>)
    ensures |slots| == cardinality
  {
    if draws == [] then seq(cardinality, i => i)
    else
      var last := |draws| - 1;
      var before := Chosen(cardinality, draws[..last]);
      if draws[last] < cardinality then before[draws[last] := cardinality + last] else before
  }

  lemma {:induction false} ChosenDistinct(cardinality: nat, draws: seq<nat>)
    ensures Distinct(Chosen(cardinality, draws))
    ensures forall p :: 0 <= p < cardinality ==> Chosen(cardinality, draws)[p] < cardinality + |draws|
  {
    if draws != [] {
      var last := |draws| - 1;
      ChosenDistinct(cardinality, draws[..last]);
      if draws[last] < cardinality {
        MemberOfUpdate(Chosen(cardinality, draws[..last]), draws[last], cardinality + last);
      }
    }
  }

  /** Number of answers up to and including the last one that is `slot`; 0 if there is none. */
  function LastDraw(draws: seq<nat>, slot: nat): (n: nat)
    ensures n <= |draws|
  {
    if draws == [] then 0
    else if draws[|draws| - 1] == slot then |draws|
    else LastDraw(draws[..|draws| - 1], slot)
  }

  /** Slot by slot: a slot holds the position of the last round that drew it, or else what it began with. */
  lemma {:induction false} ChosenBySlot(cardinality: nat, draws: seq<nat>, slot: nat)
    requires slot < cardinality
    ensures var n := LastDraw(draws, slot);
            Chosen(cardinality, draws)[slot] == if n == 0 then slot else cardinality + n - 1
  {
    if draws != [] {
      ChosenBySlot(cardinality, draws[..|draws| - 1], slot);
    }
  }

  method RandomBitSet(size: nat, cardinality: nat, draws: seq<nat>) returns (result: array<bool>)
    requires cardinality <= size && |draws| == size - cardinality
    requires ValidDraws(cardinality, draws)
    ensures fresh(result) && result.Length == size
    ensures forall p: nat :: p < size ==> (result[p] <==> p in Chosen(cardinality, draws))
    ensures CountTrue(result[..]) == cardinality
  {
    result := new bool[size](_ => false);
    var chosen := new nat[cardinality](_ => 0);
    var i: nat := 0;
    while i < cardinality
      invariant 0 <= i <= cardinality
      invariant forall p :: 0 <= p < i ==> chosen[p] == p
      invariant forall p: nat :: p < size ==> (result[p] <==> p < i)
    {
      chosen[i] := i;
      result[i] := true;
      i := i + 1;
    }
    FirstChosen(cardinality, chosen[..]);
    assert draws[..0] == [];
    ghost var slots := chosen[..];
    while i < size
      invariant cardinality <= i <= size
      invariant slots == Chosen(cardinality, draws[..i - cardinality])
      invariant forall s :: 0 <= s < cardinality ==> chosen[s] == slots[s]
      invariant forall p: nat :: p < size ==> (result[p] <==> p in slots)
    {
      var j := draws[i - cardinality];
      NextChosen(cardinality, draws, i);
      if j < cardinality {
        result[chosen[j]] := false;
        result[i] := true;
        chosen[j] := i;
        slots := slots[j := i];
      }
      i := i + 1;
    }
    assert draws[..|draws|] == draws;
    TrueBits(cardinality, draws, result[..]);
  }

  lemma FirstChosen(cardinality: nat, slots: seq<nat>)
    requires |slots| == cardinality && forall p :: 0 <= p < cardinality ==> slots[p] == p
    ensures slots == Chosen(cardinality, [])
    ensures forall p: nat :: p in slots <==> p < cardinality
  {
    forall p: nat | p < cardinality ensures p in slots {
      assert slots[p] == p;
    }
  }

  /** The round of position i: the newcomer replaces the occupant of the drawn slot, if there is such a slot. */
  lemma NextChosen(cardinality: nat, draws: seq<nat>, i: nat)
    requires cardinality <= i < cardinality + |draws| && ValidDraws(cardinality, draws)
    ensures var slots, j := Chosen(cardinality, draws[..i - cardinality]), draws[i - cardinality];
            if j < cardinality then
              && Chosen(cardinality, draws[..i + 1 - cardinality]) == slots[j := i]
              && (forall p: nat {:trigger p in slots[j := i]} :: p in slots[j := i] <==> p == i || (p in slots && p != slots[j]))
              && slots[j] < i
            else Chosen(cardinality, draws[..i + 1 - cardinality]) == slots
  {
    var k := i - cardinality;
    assert draws[..i + 1 - cardinality][..k] == draws[..k];
    ChosenDistinct(cardinality, draws[..k]);
    if draws[k] < cardinality {
      MemberOfUpdate(Chosen(cardinality, draws[..k]), draws[k], i);
    }
  }

  /** A bit set that is true exactly at the chosen positions has `cardinality` true bits. */
  lemma TrueBits(cardinality: nat, draws: seq<nat>, bits: seq<bool>)
    requires |bits| == cardinality + |draws|
    requires forall p: nat :: p < |bits| ==> (bits[p] <==> p in Chosen(cardinality, draws))
    ensures CountTrue(bits) == cardinality
  {
    var slots := Chosen(cardinality, draws);
    ChosenDistinct(cardinality, draws);
    CardDistinct(slots);
    CountTrueIsCard(bits);
    assert SetOf(slots) == TruePositions(bits);
  }

  // ---------------------------------------------------------------------------
  // Uniformity
  // ---------------------------------------------------------------------------

  /** Every sequence of `rounds` answers the random source can give. */
  function AllDraws(cardinality: nat, rounds: nat): set<seq<nat>> {
    if rounds == 0 then {[]}
    else set d, j: nat | d in AllDraws(cardinality, rounds - 1) && j in Below(cardinality + rounds) :: d + [j]
  }

  function Init(d: seq<nat>): seq<nat> {
    if d == [] then [] else d[..|d| - 1]
  }

  function Last(d: seq<nat>): nat {
    if d == [] then 0 else d[|d| - 1]
  }

  lemma InitLast(d: seq<nat>, j: nat)
    ensures Init(d + [j]) == d && Last(d + [j]) == j
    ensures d != [] ==> Init(d) + [Last(d)] == d
  {
  }

  lemma LastRound(cardinality: nat, rounds: nat, d: seq<nat>)
    requires rounds > 0
    ensures d in AllDraws(cardinality, rounds) <==>
            d != [] && Init(d) in AllDraws(cardinality, rounds - 1) && Last(d) < cardinality + rounds
  {
    if d in AllDraws(cardinality, rounds) {
      var d', j: nat :| d' in AllDraws(cardinality, rounds - 1) && j in Below(cardinality + rounds) && d == d' + [j];
      InitLast(d', j);
    }
    if d != [] && Last(d) < cardinality + rounds {
      InitLast(d, 0);
      assert Last(d) in Below(cardinality + rounds);
    }
  }

  lemma ValidInit(cardinality: nat, d: seq<nat>)
    requires d != []
    ensures ValidDraws(cardinality, d) <==> ValidDraws(cardinality, Init(d)) && Last(d) < cardinality + |d|
  {
    if ValidDraws(cardinality, Init(d)) && Last(d) < cardinality + |d| {
      forall k | 0 <= k < |d| ensures d[k] <= cardinality + k {
        assert k < |d| - 1 ==> d[k] == Init(d)[k];
      }
    }
  }

  lemma {:induction false} AllDrawsAreAll(cardinality: nat, rounds: nat, d: seq<nat>)
    ensures d in AllDraws(cardinality, rounds) <==> |d| == rounds && ValidDraws(cardinality, d)
  {
    if rounds > 0 {
      LastRound(cardinality, rounds, d);
      AllDrawsAreAll(cardinality, rounds - 1, Init(d));
      if d != [] {
        ValidInit(cardinality, d);
      }
    }
  }

  /** The answers under which the reservoir ends up holding exactly `target`. */
  function Producing(cardinality: nat, rounds: nat, target: set<nat>): set<seq<nat>> {
    set d | d in AllDraws(cardinality, rounds) && SetOf(Chosen(cardinality, d)) == target
  }
}

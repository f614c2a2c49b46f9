/** Reservoir sampling is uniform (Knuth, The Art of Computer Programming, section 3.4.2, Algorithm R):
    of all the answer sequences the random source can give, equally many produce each target set. */
module Uniformity {
  import opened Counting
  import opened Reservoir

  /** The position whose occupant the last round put out, if it put one out. */
  function Evicted(cardinality: nat, d: seq<nat>): nat {
    if Last(d) < cardinality then Chosen(cardinality, Init(d))[Last(d)] else 0
  }

  function EvictedBy(cardinality: nat): seq<nat> -> nat {
    d => Evicted(cardinality, d)
  }

  function Slot(slots: seq<nat>, x: nat): nat {
    if slots == [] || slots[0] == x then 0 else 1 + Slot(slots[1..], x)
  }

  lemma {:induction false} SlotHolds(slots: seq<nat>, x: nat)
    requires x in slots
    ensures Slot(slots, x) < |slots| && slots[Slot(slots, x)] == x
  {
    if slots[0] != x {
      SlotHolds(slots[1..], x);
    }
  }

  lemma SlotUnique(slots: seq<nat>, j: nat)
    requires j < |slots| && Distinct(slots)
    ensures Slot(slots, slots[j]) == j
  {
    SlotHolds(slots, slots[j]);
  }

  /** What the last round does to the set held. */
  lemma LastRoundSet(cardinality: nat, d: seq<nat>)
    requires d != [] && ValidDraws(cardinality, d)
    ensures var i, before := cardinality + |d| - 1, SetOf(Chosen(cardinality, Init(d)));
            && i !in before
            && SetOf(Chosen(cardinality, d)) ==
               (if Last(d) < cardinality then before - {Evicted(cardinality, d)} + {i} else before)
            && (Last(d) < cardinality ==> Evicted(cardinality, d) in before)
  {
    var slots := Chosen(cardinality, Init(d));
    ValidInit(cardinality, d);
    ChosenDistinct(cardinality, Init(d));
    if Last(d) < cardinality {
      SetOfUpdate(slots, Last(d), cardinality + |d| - 1);
    }
  }

  lemma MembersBelow(cardinality: nat, d: seq<nat>)
    requires ValidDraws(cardinality, d)
    ensures SetOf(Chosen(cardinality, d)) <= Below(cardinality + |d|)
    ensures |SetOf(Chosen(cardinality, d))| == cardinality
  {
    ChosenDistinct(cardinality, d);
    CardDistinct(Chosen(cardinality, d));
  }

  predicate Target(cardinality: nat, rounds: nat, target: set<nat>) {
    target <= Below(cardinality + rounds) && |target| == cardinality
  }

  lemma FullSubset(n: nat, s: set<nat>)
    requires s <= Below(n) && |s| == n
    ensures s == Below(n)
  {
    CardBelow(n);
    CardSplit(Below(n), s);
    assert Below(n) - s == {};
  }

  lemma NoRounds(cardinality: nat, target: set<nat>)
    requires Target(cardinality, 0, target)
    ensures |Producing(cardinality, 0, target)| == 1
  {
    FullSubset(cardinality, target);
    MembersBelow(cardinality, []);
    FullSubset(cardinality, SetOf(Chosen(cardinality, [])));
    assert Producing(cardinality, 0, target) == {[]};
  }

  // ---------------------------------------------------------------------------
  // The last position is not in the target: the last round must have missed every slot
  // ---------------------------------------------------------------------------

  function Misses(cardinality: nat, rounds: nat): set<nat> {
    Below(cardinality + rounds) - Below(cardinality)
  }

  lemma {:induction false} CardMisses(cardinality: nat, rounds: nat)
    ensures |Misses(cardinality, rounds)| == rounds
  {
    CardBelow(cardinality + rounds);
    CardBelow(cardinality);
    CardSplit(Below(cardinality + rounds), Below(cardinality));
  }

  lemma MissOnly(cardinality: nat, rounds: nat, target: set<nat>, d: seq<nat>)
    requires rounds > 0 && cardinality + rounds - 1 !in target
    ensures d in Producing(cardinality, rounds, target) <==>
            d != [] && Init(d) in Producing(cardinality, rounds - 1, target) && Last(d) in Misses(cardinality, rounds)
  {
    LastRound(cardinality, rounds, d);
    AllDrawsAreAll(cardinality, rounds, d);
    if d in AllDraws(cardinality, rounds) {
      LastRoundSet(cardinality, d);
    }
  }

  lemma MissGroup(cardinality: nat, rounds: nat, target: set<nat>, j: nat)
    requires rounds > 0 && cardinality + rounds - 1 !in target
    requires j in Misses(cardinality, rounds)
    ensures |Group(Producing(cardinality, rounds, target), Last, j)| == |Producing(cardinality, rounds - 1, target)|
  {
    var group := Group(Producing(cardinality, rounds, target), Last, j);
    var shorter := Producing(cardinality, rounds - 1, target);
    var extend: seq<nat> -> seq<nat> := d => d + [j];
    forall d | d in group ensures Init(d) in shorter && extend(Init(d)) == d {
      MissOnly(cardinality, rounds, target, d);
      InitLast(d, j);
    }
    forall d | d in shorter ensures extend(d) in group && Init(extend(d)) == d {
      InitLast(d, j);
      MissOnly(cardinality, rounds, target, d + [j]);
    }
    CardBijection(group, shorter, Init, extend);
  }

  lemma MissCount(cardinality: nat, rounds: nat, target: set<nat>)
    requires rounds > 0 && cardinality + rounds - 1 !in target
    ensures |Producing(cardinality, rounds, target)| == rounds * |Producing(cardinality, rounds - 1, target)|
  {
    var all, misses := Producing(cardinality, rounds, target), Misses(cardinality, rounds);
    forall d | d in all ensures Last(d) in misses {
      MissOnly(cardinality, rounds, target, d);
    }
    forall j | j in misses ensures |Group(all, Last, j)| == |Producing(cardinality, rounds - 1, target)| {
      MissGroup(cardinality, rounds, target, j);
    }
    CardMisses(cardinality, rounds);
    CardByGroups(all, misses, Last, rounds, |Producing(cardinality, rounds - 1, target)|);
  }

  // ---------------------------------------------------------------------------
  // The last position is in the target: it put out some position outside the target
  // ---------------------------------------------------------------------------

  function Candidates(i: nat, target: set<nat>): set<nat> {
    Below(i) - target
  }

  lemma CardCandidates(cardinality: nat, rounds: nat, target: set<nat>)
    requires rounds > 0 && Target(cardinality, rounds, target) && cardinality + rounds - 1 in target
    ensures |Candidates(cardinality + rounds - 1, target)| == rounds
  {
    var i := cardinality + rounds - 1;
    CardBelow(i);
    CardSplit(Below(i), target - {i});
    assert Below(i) - (target - {i}) == Candidates(i, target);
  }

  /** What the reservoir held before the last round put out `x` for position `i`. */
  function Before(i: nat, target: set<nat>, x: nat): set<nat> {
    target - {i} + {x}
  }

  lemma HitOnly(cardinality: nat, rounds: nat, target: set<nat>, d: seq<nat>)
    requires rounds > 0 && cardinality + rounds - 1 in target
    requires d in Producing(cardinality, rounds, target)
    ensures d != [] && Last(d) < cardinality
    ensures var i := cardinality + rounds - 1;
            && Evicted(cardinality, d) in Candidates(i, target)
            && Init(d) in Producing(cardinality, rounds - 1, Before(i, target, Evicted(cardinality, d)))
  {
    var i, x := cardinality + rounds - 1, Evicted(cardinality, d);
    LastRound(cardinality, rounds, d);
    AllDrawsAreAll(cardinality, rounds, d);
    ValidInit(cardinality, d);
    LastRoundSet(cardinality, d);
    MembersBelow(cardinality, Init(d));
    assert SetOf(Chosen(cardinality, Init(d))) == Before(i, target, x);
  }

  /** The one way to extend `d` so that `x` is put out. */
  function Hit(cardinality: nat, d: seq<nat>, x: nat): seq<nat> {
    d + [Slot(Chosen(cardinality, d), x)]
  }

  lemma HitProduces(cardinality: nat, rounds: nat, target: set<nat>, x: nat, d: seq<nat>)
    requires rounds > 0 && cardinality + rounds - 1 in target
    requires x in Candidates(cardinality + rounds - 1, target)
    requires d in Producing(cardinality, rounds - 1, Before(cardinality + rounds - 1, target, x))
    ensures Hit(cardinality, d, x) in Producing(cardinality, rounds, target)
    ensures Init(Hit(cardinality, d, x)) == d && Evicted(cardinality, Hit(cardinality, d, x)) == x
  {
    var i, slots, e := cardinality + rounds - 1, Chosen(cardinality, d), Hit(cardinality, d, x);
    assert x in SetOf(slots);
    SlotHolds(slots, x);
    InitLast(d, Slot(slots, x));
    LastRound(cardinality, rounds, e);
    AllDrawsAreAll(cardinality, rounds, e);
    LastRoundSet(cardinality, e);
    assert Before(i, target, x) - {x} + {i} == target;
  }

  lemma HitGroup(cardinality: nat, rounds: nat, target: set<nat>, x: nat)
    requires rounds > 0 && cardinality + rounds - 1 in target
    requires x in Candidates(cardinality + rounds - 1, target)
    ensures |Group(Producing(cardinality, rounds, target), EvictedBy(cardinality), x)|
            == |Producing(cardinality, rounds - 1, Before(cardinality + rounds - 1, target, x))|
  {
    var group := Group(Producing(cardinality, rounds, target), EvictedBy(cardinality), x);
    var shorter := Producing(cardinality, rounds - 1, Before(cardinality + rounds - 1, target, x));
    var extend: seq<nat> -> seq<nat> := d => Hit(cardinality, d, x);
    forall d | d in group ensures Init(d) in shorter && extend(Init(d)) == d {
      HitOnly(cardinality, rounds, target, d);
      AllDrawsAreAll(cardinality, rounds - 1, Init(d));
      ChosenDistinct(cardinality, Init(d));
      SlotUnique(Chosen(cardinality, Init(d)), Last(d));
      InitLast(d, 0);
    }
    forall d | d in shorter ensures extend(d) in group && Init(extend(d)) == d {
      HitProduces(cardinality, rounds, target, x, d);
    }
    CardBijection(group, shorter, Init, extend);
  }

  lemma BeforeIsTarget(cardinality: nat, rounds: nat, target: set<nat>, x: nat)
    requires rounds > 0 && Target(cardinality, rounds, target) && cardinality + rounds - 1 in target
    requires x in Candidates(cardinality + rounds - 1, target)
    ensures Target(cardinality, rounds - 1, Before(cardinality + rounds - 1, target, x))
  {
    var i := cardinality + rounds - 1;
    assert |target - {i}| == cardinality - 1;
    assert x !in target - {i};
  }

  lemma HitCount(cardinality: nat, rounds: nat, target: set<nat>, n: nat)
    requires rounds > 0 && Target(cardinality, rounds, target) && cardinality + rounds - 1 in target
    requires forall x {:trigger x in Candidates(cardinality + rounds - 1, target)} ::
               x in Candidates(cardinality + rounds - 1, target) ==>
               |Producing(cardinality, rounds - 1, Before(cardinality + rounds - 1, target, x))| == n
    ensures |Producing(cardinality, rounds, target)| == rounds * n
  {
    var i, all, key := cardinality + rounds - 1, Producing(cardinality, rounds, target), EvictedBy(cardinality);
    forall d | d in all ensures key(d) in Candidates(i, target) {
      HitOnly(cardinality, rounds, target, d);
    }
    forall x | x in Candidates(i, target) ensures |Group(all, key, x)| == n {
      HitGroup(cardinality, rounds, target, x);
    }
    CardCandidates(cardinality, rounds, target);
    CardByGroups(all, Candidates(i, target), key, rounds, n);
  }

  // ---------------------------------------------------------------------------
  // Both cases together
  // ---------------------------------------------------------------------------

  /** Every target set of `cardinality` positions is produced by exactly `n` answer sequences. */
  ghost predicate EquallyMany(cardinality: nat, rounds: nat, n: nat) {
    forall target :: Target(cardinality, rounds, target) ==> |Producing(cardinality, rounds, target)| == n
  }

  lemma MissTarget(cardinality: nat, rounds: nat, target: set<nat>)
    requires rounds > 0 && Target(cardinality, rounds, target) && cardinality + rounds - 1 !in target
    ensures Target(cardinality, rounds - 1, target)
  {
  }

  lemma MissStep(cardinality: nat, rounds: nat, target: set<nat>, n: nat)
    requires rounds > 0 && Target(cardinality, rounds, target) && cardinality + rounds - 1 !in target
    requires EquallyMany(cardinality, rounds - 1, n)
    ensures |Producing(cardinality, rounds, target)| == rounds * n
  {
    MissTarget(cardinality, rounds, target);
    MissCount(cardinality, rounds, target);
  }

  lemma HitStep(cardinality: nat, rounds: nat, target: set<nat>, n: nat)
    requires rounds > 0 && Target(cardinality, rounds, target) && cardinality + rounds - 1 in target
    requires EquallyMany(cardinality, rounds - 1, n)
    ensures |Producing(cardinality, rounds, target)| == rounds * n
  {
    var i := cardinality + rounds - 1;
    forall x | x in Candidates(i, target)
      ensures |Producing(cardinality, rounds - 1, Before(i, target, x))| == n
    {
      BeforeIsTarget(cardinality, rounds, target, x);
    }
    HitCount(cardinality, rounds, target, n);
  }

  lemma {:induction false} EquallyManyByFactorial(cardinality: nat, rounds: nat)
    ensures EquallyMany(cardinality, rounds, Factorial(rounds))
  {
    if rounds > 0 {
      EquallyManyByFactorial(cardinality, rounds - 1);
    }
    forall target | Target(cardinality, rounds, target)
      ensures |Producing(cardinality, rounds, target)| == Factorial(rounds)
    {
      if rounds == 0 {
        NoRounds(cardinality, target);
      } else if cardinality + rounds - 1 in target {
        HitStep(cardinality, rounds, target, Factorial(rounds - 1));
      } else {
        MissStep(cardinality, rounds, target, Factorial(rounds - 1));
      }
    }
  }

  /** Every target set of `cardinality` positions is produced by exactly rounds! answer sequences. */
  lemma Uniform(cardinality: nat, rounds: nat, target: set<nat>)
    requires Target(cardinality, rounds, target)
    ensures |Producing(cardinality, rounds, target)| == Factorial(rounds)
  {
    EquallyManyByFactorial(cardinality, rounds);
  }

  lemma Rearrange(n: nat, a: nat, b: nat)
    ensures n * a * b == n * (a * b)
  {
  }

  lemma OneRoundMore(cardinality: nat, rounds: nat)
    requires rounds > 0
    ensures |AllDraws(cardinality, rounds)| == (cardinality + rounds) * |AllDraws(cardinality, rounds - 1)|
  {
    var all, shorter, n := AllDraws(cardinality, rounds), AllDraws(cardinality, rounds - 1), cardinality + rounds;
    forall d | d in all ensures Last(d) in Below(n) {
      LastRound(cardinality, rounds, d);
    }
    forall j | j in Below(n) ensures |Group(all, Last, j)| == |shorter| {
      DrawGroup(cardinality, rounds, j);
    }
    CardBelow(n);
    CardByGroups(all, Below(n), Last, n, |shorter|);
  }

  /** Every answer sequence produces one such set, and there are size! / cardinality! of them; so each of the
      equally likely targets takes one part in binomial(size, cardinality). */
  lemma {:induction false} AllDrawsCount(cardinality: nat, rounds: nat)
    ensures |AllDraws(cardinality, rounds)| * Factorial(cardinality) == Factorial(cardinality + rounds)
  {
    if rounds > 0 {
      OneRoundMore(cardinality, rounds);
      AllDrawsCount(cardinality, rounds - 1);
      Rearrange(cardinality + rounds, |AllDraws(cardinality, rounds - 1)|, Factorial(cardinality));
    }
  }

  lemma DrawGroup(cardinality: nat, rounds: nat, j: nat)
    requires rounds > 0 && j < cardinality + rounds
    ensures |Group(AllDraws(cardinality, rounds), Last, j)| == |AllDraws(cardinality, rounds - 1)|
  {
    var group, shorter := Group(AllDraws(cardinality, rounds), Last, j), AllDraws(cardinality, rounds - 1);
    var extend: seq<nat> -> seq<nat> := d => d + [j];
    forall d | d in group ensures Init(d) in shorter && extend(Init(d)) == d {
      LastRound(cardinality, rounds, d);
      InitLast(d, j);
    }
    forall d | d in shorter ensures extend(d) in group && Init(extend(d)) == d {
      InitLast(d, j);
      LastRound(cardinality, rounds, d + [j]);
    }
    CardBijection(group, shorter, Init, extend);
  }

  lemma EverySequenceHitsATarget(cardinality: nat, rounds: nat, d: seq<nat>)
    requires d in AllDraws(cardinality, rounds)
    ensures Target(cardinality, rounds, SetOf(Chosen(cardinality, d)))
    ensures d in Producing(cardinality, rounds, SetOf(Chosen(cardinality, d)))
  {
    AllDrawsAreAll(cardinality, rounds, d);
    MembersBelow(cardinality, d);
  }
}

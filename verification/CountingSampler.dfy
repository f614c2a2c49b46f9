/** The counting sampler of sample.go: a cyclic walk over a bit set made by reservoir sampling. */
module CountingSampler {
  import opened Hex
  import opened Model
  import opened Counting
  import opened Reservoir

  datatype Plan = Never | Always | OutOf100(n: nat)

  /** The rate as the nearest number of hundredths, half way up; over the reals, so exact. */
  function PlanFor(rate: real): (r: Result<Plan, string>)
    ensures r.Ok? <==> rate == 0.0 || 0.01 <= rate <= 1.0
    ensures r.Ok? ==> (r.value.Never? <==> rate == 0.0) && (r.value.Always? <==> rate == 1.0)
    ensures r.Ok? && r.value.OutOf100? ==>
              1 <= r.value.n <= 100 && -0.5 < r.value.n as real - rate * 100.0 <= 0.5
  {
    if rate == 0.0 then Ok(Never)
    else if rate == 1.0 then Ok(Always)
    else if rate < 0.01 || rate > 1.0 then Err("rate should be 0.0 or between 0.01 and 1")
    else Ok(OutOf100((rate * 100.0 + 0.5).Floor))
  }

  /** The answers of `n` calls in a row, from counter state `i` on. */
  function Answers(decisions: seq<bool>, i: nat, n: nat): (answers: seq<bool>)
    requires i < |decisions|
    ensures |answers| == n
  {
    if n == 0 then []
    else Answers(decisions, i, n - 1) + [decisions[(i + n - 1) % |decisions|]]
  }

  lemma {:induction false} AnswersAt(decisions: seq<bool>, i: nat, n: nat, k: nat)
    requires i < |decisions| && k < n
    ensures Answers(decisions, i, n)[k] == decisions[(i + k) % |decisions|]
  {
    if k < n - 1 {
      AnswersAt(decisions, i, n - 1, k);
    }
  }

  /** One full turn from anywhere gives every decision once. */
  lemma FullTurn(decisions: seq<bool>, i: nat)
    requires i < |decisions|
    ensures CountTrue(Answers(decisions, i, |decisions|)) == CountTrue(decisions)
  {
    var n := |decisions|;
    var front, back := decisions[..i], decisions[i..];
    forall k | 0 <= k < n ensures Answers(decisions, i, n)[k] == (back + front)[k] {
      AnswersAt(decisions, i, n, k);
      Wrap(i + k, n);
    }
    assert Answers(decisions, i, n) == back + front;
    assert decisions == front + back;
    CountTrueConcat(back, front);
    CountTrueConcat(front, back);
  }

  lemma Wrap(k: nat, n: nat)
    requires 0 < n && k < 2 * n
    ensures k % n == if k < n then k else k - n
  {
    if k >= n {
      assert k == n + (k - n);
    }
  }

  class Sampler {
    var decisions: array<bool>
    var i: nat

    ghost predicate Valid()
      reads this
    {
      decisions.Length == 100 && i < 100
    }

    constructor (outOf100: nat, draws: seq<nat>)
      requires 1 <= outOf100 <= 100 && |draws| == 100 - outOf100
      requires ValidDraws(outOf100, draws)
      ensures Valid() && i == 0 && fresh(decisions)
      ensures CountTrue(decisions[..]) == outOf100
    {
      var bits := RandomBitSet(100, outOf100, draws);
      decisions := bits;
      i := 0;
    }

    method Sample(id: uint64) returns (result: bool)
      requires Valid()
      modifies this
      ensures Valid() && decisions == old(decisions)
      ensures result == decisions[old(i)]
      ensures i == (old(i) + 1) % 100
    {
      result := decisions[i];
      i := i + 1;
      if i == 100 {
        i := 0;
      }
    }

    /** Consecutive calls, whatever the ids; a hundred of them answer true exactly outOf100 times. */
    method SampleAll(ids: seq<uint64>) returns (answers: seq<bool>)
      requires Valid()
      modifies this
      ensures Valid() && decisions == old(decisions)
      ensures answers == Answers(decisions[..], old(i), |ids|)
      ensures |ids| == 100 ==> CountTrue(answers) == CountTrue(decisions[..])
    {
      answers := [];
      ghost var start, bits := i, decisions[..];
      for k := 0 to |ids|
        invariant Valid() && decisions == old(decisions) && decisions[..] == bits
        invariant answers == Answers(bits, start, k)
        invariant i == (start + k) % 100
      {
        var answer := Sample(ids[k]);
        answers := answers + [answer];
        NextIndex(start + k);
      }
      if |ids| == 100 {
        FullTurn(bits, start);
      }
    }
  }

  lemma NextIndex(k: nat)
    ensures (k % 100 + 1) % 100 == (k + 1) % 100
  {
  }
}

/** Counting finite sets: bijections, partitions into equal groups, distinct sequences. */
module Counting {

  predicate InRange(i: int, n: nat) {
    0 <= i < n
  }

  /** {0, ..., n - 1} */
  function Below(n: nat): (s: set<nat>)
    ensures forall i: nat :: i in s <==> i < n
  {
    set i: nat | 0 <= i < n && InRange(i, n)
  }

  lemma {:induction false} CardBelow(n: nat)
    ensures |Below(n)| == n
  {
    if n > 0 {
      CardBelow(n - 1);
      assert Below(n) == Below(n - 1) + {n - 1};
    }
  }

  /** Sets carried onto each other by a pair of inverse maps are equally large. */
  lemma {:induction false} CardBijection<T, U>(a: set<T>, b: set<U>, f: T -> U, g: U -> T)
    requires forall x {:trigger x in a} :: x in a ==> f(x) in b && g(f(x)) == x
    requires forall y {:trigger y in b} :: y in b ==> g(y) in a && f(g(y)) == y
    ensures |a| == |b|
  {
    if |a| == 0 {
      assert forall y :: y in b ==> g(y) in a;
    } else {
      var x :| x in a;
      CardBijection(a - {x}, b - {f(x)}, f, g);
    }
  }

  function Group<T, K(==)>(s: set<T>, key: T -> K, k: K): set<T> {
    set e | e in s && key(e) == k
  }

  lemma GroupOfRest<T, K>(s: set<T>, key: T -> K, k: K, k': K)
    requires k != k'
    ensures Group(s - Group(s, key, k), key, k') == Group(s, key, k')
  {
  }

  lemma CardSplit<T>(s: set<T>, g: set<T>)
    requires g <= s
    ensures |s| == |g| + |s - g|
  {
    assert s == g + (s - g);
  }

  /** A set split by a key into groups of equal size. */
  lemma {:induction false} CardByGroups<T, K>(s: set<T>, keys: set<K>, key: T -> K, m: nat, n: nat)
    requires |keys| == m
    requires forall e {:trigger e in s} :: e in s ==> key(e) in keys
    requires forall k {:trigger k in keys} :: k in keys ==> |Group(s, key, k)| == n
    ensures |s| == m * n
    decreases m
  {
    if m == 0 {
      assert forall e :: e in s ==> key(e) in keys;
      assert |s| == 0;
    } else {
      var k :| k in keys;
      var g, rest := Group(s, key, k), keys - {k};
      forall k' | k' in rest ensures |Group(s - g, key, k')| == n {
        GroupOfRest(s, key, k, k');
      }
      CardByGroups(s - g, rest, key, m - 1, n);
      CardSplit(s, g);
      OneMore(m - 1, n);
    }
  }

  lemma OneMore(m: nat, n: nat)
    ensures (m + 1) * n == m * n + n
  {
  }

  predicate Distinct<T(==)>(s: seq<T>) {
    forall i, j :: 0 <= i < j < |s| ==> s[i] != s[j]
  }

  function SetOf<T>(s: seq<T>): set<T> {
    set x | x in s
  }

  lemma {:induction false} CardDistinct<T>(s: seq<T>)
    requires Distinct(s)
    ensures |SetOf(s)| == |s|
  {
    if |s| > 0 {
      var init, last := s[..|s| - 1], s[|s| - 1];
      CardDistinct(init);
      assert last !in init;
      assert SetOf(s) == SetOf(init) + {last};
    }
  }

  lemma MemberOfUpdate<T>(s: seq<T>, j: nat, x: T)
    requires j < |s| && Distinct(s) && x !in s
    ensures forall y {:trigger y in s[j := x]} :: y in s[j := x] <==> y == x || (y in s && y != s[j])
    ensures Distinct(s[j := x])
  {
    var t := s[j := x];
    forall y | y in s && y != s[j] ensures y in t {
      var i :| 0 <= i < |s| && s[i] == y;
      assert t[i] == y;
    }
    assert t[j] == x;
    forall y | y in t ensures y == x || (y in s && y != s[j]) {
      var i :| 0 <= i < |t| && t[i] == y;
      if i != j {
        assert s[i] == y;
      }
    }
  }

  lemma SetOfUpdate<T>(s: seq<T>, j: nat, x: T)
    requires j < |s| && Distinct(s) && x !in s
    ensures SetOf(s[j := x]) == SetOf(s) - {s[j]} + {x}
  {
    MemberOfUpdate(s, j, x);
  }

  function Factorial(n: nat): (f: nat)
    ensures f > 0
  {
    if n == 0 then 1 else n * Factorial(n - 1)
  }

  function CountTrue(s: seq<bool>): nat {
    if s == [] then 0 else CountTrue(s[..|s| - 1]) + (if s[|s| - 1] then 1 else 0)
  }

  function TruePositions(s: seq<bool>): set<nat> {
    set p | p in Below(|s|) && s[p]
  }

  lemma {:induction false} CountTrueIsCard(s: seq<bool>)
    ensures CountTrue(s) == |TruePositions(s)|
  {
    if s != [] {
      var n := |s| - 1;
      CountTrueIsCard(s[..n]);
      assert TruePositions(s) == TruePositions(s[..n]) + (if s[n] then {n} else {});
    }
  }

  lemma {:induction false} CountTrueConcat(s: seq<bool>, t: seq<bool>)
    ensures CountTrue(s + t) == CountTrue(s) + CountTrue(t)
  {
    if t == [] {
      assert s + t == s;
    } else {
      var n := |t| - 1;
      CountTrueConcat(s, t[..n]);
      assert (s + t)[..|s + t| - 1] == s + t[..n];
    }
  }
}

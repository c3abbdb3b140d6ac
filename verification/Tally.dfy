/** Sums over the threads of a system: every invariant that says "this counter
    equals the number of threads at these program points" is a Total. */
module Tally {

  /** The sum of the weights of the elements of s. */
  function Total<T>(s: seq<T>, weight: T -> nat): nat {
    if s == [] then 0 else weight(s[0]) + Total(s[1..], weight)
  }

  function Bit(b: bool): nat {
    if b then 1 else 0
  }

  /** Moving one thread changes a total by the difference of the two weights. */
  lemma {:induction false} TotalUpdate<T>(s: seq<T>, i: nat, v: T, weight: T -> nat)
    requires i < |s|
    ensures Total(s[i := v], weight) + weight(s[i]) == Total(s, weight) + weight(v)
  {
    if i == 0 {
      assert s[i := v][1..] == s[1..];
    } else {
      assert s[i := v][1..] == s[1..][i - 1 := v];
      TotalUpdate(s[1..], i - 1, v, weight);
    }
  }

  /** One element, or two different ones, weigh no more than the whole. */
  lemma {:induction false} TotalCovers<T>(s: seq<T>, i: nat, j: nat, weight: T -> nat)
    requires i < |s| && j < |s|
    ensures weight(s[i]) <= Total(s, weight)
    ensures i != j ==> weight(s[i]) + weight(s[j]) <= Total(s, weight)
  {
    if i == 0 && j == 0 {
    } else if i == 0 {
      TotalCovers(s[1..], j - 1, j - 1, weight);
    } else if j == 0 {
      TotalCovers(s[1..], i - 1, i - 1, weight);
    } else {
      TotalCovers(s[1..], i - 1, j - 1, weight);
    }
  }

  /** A positive total has an element that contributes to it. */
  lemma {:induction false} TotalWitness<T>(s: seq<T>, weight: T -> nat) returns (i: nat)
    requires Total(s, weight) > 0
    ensures i < |s| && weight(s[i]) > 0
  {
    if weight(s[0]) > 0 {
      i := 0;
    } else {
      var k := TotalWitness(s[1..], weight);
      i := k + 1;
    }
  }

  /** Weights that are zero everywhere sum to zero. */
  lemma {:induction false} TotalZero<T>(s: seq<T>, weight: T -> nat)
    requires forall i :: 0 <= i < |s| ==> weight(s[i]) == 0
    ensures Total(s, weight) == 0
  {
    if s != [] {
      TotalZero(s[1..], weight);
    }
  }

  /** Pointwise comparison of weights carries over to the totals. */
  lemma {:induction false} TotalMonotone<T>(s: seq<T>, light: T -> nat, heavy: T -> nat)
    requires forall i :: 0 <= i < |s| ==> light(s[i]) <= heavy(s[i])
    ensures Total(s, light) <= Total(s, heavy)
  {
    if s != [] {
      TotalMonotone(s[1..], light, heavy);
    }
  }

  /** A bound on every weight bounds the total. */
  lemma {:induction false} TotalBound<T>(s: seq<T>, weight: T -> nat, bound: nat)
    requires forall i :: 0 <= i < |s| ==> weight(s[i]) <= bound
    ensures Total(s, weight) <= bound * |s|
  {
    if s != [] {
      TotalBound(s[1..], weight, bound);
    }
  }

  /** When the total is at most one, whoever contributes is alone. */
  lemma TotalSole<T>(s: seq<T>, t: nat, weight: T -> nat)
    requires t < |s| && weight(s[t]) > 0 && Total(s, weight) <= 1
    ensures Total(s, weight) == 1 && weight(s[t]) == 1
    ensures forall u :: 0 <= u < |s| && u != t ==> weight(s[u]) == 0
  {
    TotalCovers(s, t, t, weight);
    forall u | 0 <= u < |s| && u != t
      ensures weight(s[u]) == 0
    {
      TotalCovers(s, t, u, weight);
    }
  }

  /** How many turns a schedule gives to thread t. */
  function TurnsOf(schedule: seq<nat>, t: nat): nat {
    if schedule == [] then 0 else Bit(schedule[0] == t) + TurnsOf(schedule[1..], t)
  }
}

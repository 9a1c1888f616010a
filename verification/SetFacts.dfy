/** Cardinalities of small finite sets, used to bound channel buffers and column counts. */
module SetFacts {

  /** The numbers below `n`. */
  function Below(n: nat): (r: set<nat>)
    ensures forall k: nat :: k in r <==> k < n
    ensures |r| == n
  {
    if n == 0 then {} else Below(n - 1) + {n - 1}
  }

  function Elements(xs: seq<nat>): (r: set<nat>)
    ensures forall x: nat :: x in r <==> x in xs
  {
    if xs == [] then {} else Elements(xs[..|xs| - 1]) + {xs[|xs| - 1]}
  }

  lemma ElementsHead(xs: seq<nat>)
    requires xs != []
    ensures Elements(xs) == {xs[0]} + Elements(xs[1..])
  {
    assert xs == [xs[0]] + xs[1..];
  }

  ghost predicate Distinct(xs: seq<nat>) {
    forall i, j :: 0 <= i < j < |xs| ==> xs[i] != xs[j]
  }

  lemma SubsetSize(A: set<nat>, B: set<nat>)
    requires A <= B
    ensures |A| <= |B|
  {
    assert |B| == |B - A| + |A|;
  }

  /** Taking away less leaves more, by exactly the difference. */
  lemma DifferenceSize(A: set<nat>, B: set<nat>, C: set<nat>)
    requires C <= B <= A
    ensures |A - C| == |A - B| + |B - C|
  {
    assert A - C == (A - B) + (B - C);
    assert |(A - B) + (B - C)| == |A - B| + |B - C|;
  }

  lemma {:induction false} DistinctSize(xs: seq<nat>)
    requires Distinct(xs)
    ensures |Elements(xs)| == |xs|
  {
    if xs != [] { DistinctSize(xs[..|xs| - 1]); }
  }

  /** Distinct numbers below a bound, one number being left out, are fewer than the bound. */
  lemma RoomLeft(xs: seq<nat>, max: nat, i: nat)
    requires Distinct(xs) && i < max && i !in xs && forall x :: x in xs ==> x < max
    ensures |xs| < max
  {
    DistinctSize(xs);
    SubsetSize(Elements(xs) + {i}, Below(max));
  }
}

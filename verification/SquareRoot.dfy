/** math/math_helper.go: the integer square root that warm-starts Newton's iteration
    from the root of the last balance it was asked for. */
module SquareRoot {

  /** One more than the largest uint64. */
  const U64: nat := 0x1_0000_0000_0000_0000

  ghost predicate IsRoot(r: nat, b: nat) {
    r * r <= b < (r + 1) * (r + 1)
  }

  /** The reference definition: the greatest number whose square does not exceed `b`. */
  function Isqrt(b: nat): (r: nat)
    ensures r <= b
  {
    if b == 0 then 0 else Raise(Isqrt(b - 1), b)
  }

  function Raise(r: nat, b: nat): (s: nat)
    ensures r <= s <= r + 1
  {
    if (r + 1) * (r + 1) <= b then r + 1 else r
  }

  lemma {:induction false} SquareMonotone(x: nat, y: nat)
    requires x <= y
    ensures x * x <= y * y
  {
    if x < y {
      SquareMonotone(x, y - 1);
      assert y * y == (y - 1) * (y - 1) + 2 * y - 1;
    }
  }

  lemma {:induction false} IsqrtIsRoot(b: nat)
    ensures IsRoot(Isqrt(b), b)
  {
    if b > 0 {
      IsqrtIsRoot(b - 1);
      var r := Isqrt(b - 1);
      assert (r + 2) * (r + 2) == (r + 1) * (r + 1) + 2 * r + 3;
    }
  }

  lemma RootUnique(r: nat, b: nat)
    requires IsRoot(r, b)
    ensures r == Isqrt(b)
  {
    var s := Isqrt(b);
    IsqrtIsRoot(b);
    if r < s { SquareMonotone(r + 1, s); }
    if s < r { SquareMonotone(s + 1, r); }
  }

  datatype Outcome = Root(value: nat) | Panic

  /** The cached pair, and the pair every completed call leaves behind. */
  datatype Cache = Cache(root: nat, balance: nat) {
    ghost predicate Sound() { 0 < balance < U64 && root == Isqrt(balance) }

    /** The one input that breaks the first Newton step: 1 + (2^64 - 1) wraps to 0. */
    predicate Overflows(b: nat) { root == 1 && b == U64 - 1 }

    function After(b: nat): Cache { if b == 0 then this else Cache(Isqrt(b), b) }
  }

  const INITIAL := Cache(126491106, 15999999897103236)

  lemma InitialSound()
    ensures INITIAL.Sound()
  {
    assert 126491106 * 126491106 <= 15999999897103236;
    assert 15999999897103236 < 126491107 * 126491107;
    RootUnique(126491106, 15999999897103236);
  }

  lemma RootPositive(c: Cache)
    requires c.Sound()
    ensures 1 <= c.root < 0x1_0000_0000
  {
    IsqrtIsRoot(c.balance);
    if c.root >= 0x1_0000_0000 { SquareMonotone(0x1_0000_0000, c.root); }
  }

  lemma QuotientBounds(b: nat, s: nat)
    requires s > 0
    ensures s * (b / s) <= b < s * (b / s + 1)
  {
  }

  lemma {:induction false} ProductAboveSum(s: nat, q: nat)
    requires s > 0 && q > 0
    ensures s + q <= s * q + 1
    ensures s > 1 && q > 1 ==> s + q <= s * q
  {
    if q > 1 {
      ProductAboveSum(s, q - 1);
      assert s * q == s * (q - 1) + s;
    }
  }

  /** The sum inside a Newton step never exceeds both b + 1 and the step's start. */
  lemma SumBound(s: nat, b: nat)
    requires s > 0
    ensures s + b / s <= b + 1 || s + b / s == s
    ensures 1 < s <= b ==> s + b / s <= if b / s == 1 then s + 1 else b
  {
    var q := b / s;
    QuotientBounds(b, s);
    if q > 0 { SumBelow(s, q, b); }
  }

  lemma SumBelow(s: nat, q: nat, b: nat)
    requires s > 0 && q > 0 && s * q <= b
    ensures s + q <= b + 1
    ensures s > 1 && q > 1 ==> s + q <= b
  {
    ProductAboveSum(s, q);
  }

  /** So with a 32-bit start the uint64 sum wraps for one pair of arguments only. */
  lemma SumFits(s: nat, b: nat)
    requires 1 <= s < 0x1_0000_0000 && b < U64
    ensures s + b / s < U64 <==> !(s == 1 && b == U64 - 1)
  {
    SumBound(s, b);
    QuotientBounds(b, s);
  }

  /** AM-GM: from any positive start one Newton step lands at or above the root. */
  lemma NewtonAbove(s: nat, b: nat)
    requires s > 0
    ensures Isqrt(b) <= (s + b / s) / 2
  {
    QuotientBounds(b, s);
    var q := b / s;
    var t := (s + q) / 2;
    var u := 2 * (t + 1);
    assert u >= s + q + 1;
    SquareMonotone(s + q + 1, u);
    assert (s + q + 1) * (s + q + 1) >= 4 * (s * (q + 1)) by {
      var d := s - (q + 1);
      assert d * d >= 0;
      assert (s + (q + 1)) * (s + (q + 1)) == d * d + 4 * (s * (q + 1));
    }
    assert u * u == 4 * ((t + 1) * (t + 1));
    IsqrtIsRoot(b);
    if t < Isqrt(b) { SquareMonotone(t + 1, Isqrt(b)); }
  }

  lemma SquareBelow(t: nat, q: nat, b: nat)
    requires t <= q && t * q <= b
    ensures t * t <= b
  {
  }

  /** The loop's exit test, together with NewtonAbove, pins the root. */
  lemma NewtonStops(t: nat, b: nat)
    requires 0 < t <= b / t && Isqrt(b) <= t
    ensures t == Isqrt(b)
  {
    SquareBelow(t, b / t, b) by { QuotientBounds(b, t); }
    IsqrtIsRoot(b);
    if Isqrt(b) < t { SquareMonotone(Isqrt(b) + 1, t); }
  }

  lemma RootOneIff(b: nat)
    ensures Isqrt(b) == 1 <==> 1 <= b <= 3
  {
    IsqrtIsRoot(b);
    if Isqrt(b) > 1 { SquareMonotone(2, Isqrt(b)); }
  }

  /** A run of calls: each starts from the pair its predecessor left, until one overflows. */
  ghost predicate Survives(c: Cache, calls: seq<nat>)
    decreases |calls|
  {
    calls == [] || (!c.Overflows(calls[0]) && Survives(c.After(calls[0]), calls[1..]))
  }

  /** Call `j` asks for 2^64 - 1 right after a balance of at most 3; zero balances do not count. */
  ghost predicate BadPair(calls: seq<nat>, i: int, j: int) {
    && -1 <= i < j < |calls| && calls[j] == U64 - 1
    && (i >= 0 ==> 1 <= calls[i] <= 3)
    && forall k :: i < k < j ==> calls[k] == 0
  }

  ghost predicate NoBadPair(root: nat, calls: seq<nat>) {
    forall i, j :: BadPair(calls, i, j) ==> i == -1 && root != 1
  }

  lemma {:induction false} SurvivalFrom(c: Cache, calls: seq<nat>)
    requires c.Sound()
    requires forall k :: 0 <= k < |calls| ==> calls[k] < U64
    ensures Survives(c, calls) <==> NoBadPair(c.root, calls)
    decreases |calls|
  {
    if calls != [] {
      var b, rest := calls[0], calls[1..];
      if c.Overflows(b) {
        assert BadPair(calls, -1, 0);
      } else {
        SurvivalFrom(c.After(b), rest);
        ShiftPairs(c, calls);
      }
    }
  }

  /** How the bad pairs of a run relate to those of its tail. */
  lemma ShiftPairs(c: Cache, calls: seq<nat>)
    requires calls != [] && c.Sound() && calls[0] < U64 && !c.Overflows(calls[0])
    ensures NoBadPair(c.root, calls) <==> NoBadPair(c.After(calls[0]).root, calls[1..])
  {
    var b, rest := calls[0], calls[1..];
    RootOneIff(b);
    forall i, j | BadPair(calls, i, j) && j > 0
      ensures BadPair(rest, if i > 0 then i - 1 else -1, j - 1)
    {
      assert forall k :: 0 <= k < |rest| ==> rest[k] == calls[k + 1];
    }
    forall i, j | BadPair(rest, i, j)
      ensures i >= 0 ==> BadPair(calls, i + 1, j + 1)
      ensures i == -1 && b == 0 ==> BadPair(calls, -1, j + 1)
      ensures i == -1 && 1 <= b <= 3 ==> BadPair(calls, 0, j + 1)
    {
      assert forall k :: 1 <= k < |calls| ==> calls[k] == rest[k - 1];
    }
    assert forall i, j :: BadPair(calls, i, j) && j > 0 ==>
                            BadPair(rest, if i > 0 then i - 1 else -1, j - 1);
  }

  /** From start-up, a run of calls panics exactly when some call asks for 2^64 - 1 and the last
      non-zero balance before it was 1, 2 or 3. */
  lemma RunPanicsIff(calls: seq<nat>)
    requires forall k :: 0 <= k < |calls| ==> calls[k] < U64
    ensures !Survives(INITIAL, calls) <==> exists i, j :: i >= 0 && BadPair(calls, i, j)
  {
    InitialSound();
    SurvivalFrom(INITIAL, calls);
  }

  /** Asking for 1 and then for 2^64 - 1 panics. */
  lemma PanickingCalls()
    ensures !Survives(INITIAL, [1, U64 - 1])
  {
    var calls := [1, U64 - 1];
    assert BadPair(calls, 0, 1);
    RunPanicsIff(calls);
  }

  /** One pass of the loop body on uint64 values, wrap-around included. */
  function NewtonStep(s: nat, b: nat): (t: nat)
    requires s > 0
  {
    (s + b / s) % U64 / 2
  }

  /** What a pass does: without a wrap it lands at or above the root, above zero, and once the
      start is above its quotient every pass strictly decreases. */
  lemma StepFacts(s: nat, b: nat)
    requires s > 0 && 0 < b
    ensures s + b / s < U64 ==>
              && Isqrt(b) <= NewtonStep(s, b) < U64 / 2
              && 0 < NewtonStep(s, b)
              && (b / s < s ==> NewtonStep(s, b) < s)
  {
    SumAtLeastTwo(s, b);
    if s + b / s < U64 {
      HalfSum(s, b / s);
      NewtonAbove(s, b);
    }
  }

  lemma HalfSum(s: nat, q: nat)
    requires 2 <= s + q < U64
    ensures (s + q) % U64 == s + q
    ensures 0 < (s + q) / 2 < U64 / 2
    ensures q < s ==> (s + q) / 2 < s
  {
  }

  lemma SumAtLeastTwo(s: nat, b: nat)
    requires s > 0 && b > 0
    ensures s + b / s >= 2
  {
    if s == 1 { QuotientBounds(b, s); }
  }

  class SquareRootCache {
    var squareRoot: nat
    var balance: nat

    ghost function Abs(): Cache
      reads this
    {
      Cache(squareRoot, balance)
    }

    constructor ()
      ensures Abs() == INITIAL && Abs().Sound()
    {
      squareRoot, balance := 126491106, 15999999897103236;
      new;
      InitialSound();
    }

    /** uint64 addition, division and the division-by-zero panic are explicit. A root of 0 is the
        state a panic leaves behind; Sound() never holds of it. */
    method CachedSquareRoot(b: nat) returns (r: Outcome)
      requires b < U64
      requires Abs().Sound() || squareRoot == 0
      modifies this
      // The answer is the integer square root exactly when the wrapping input is avoided.
      ensures old(Abs()).Sound() ==>
                (r == Root(Isqrt(b)) <==> !old(Abs()).Overflows(b))
      ensures old(Abs()).Sound() && !old(Abs()).Overflows(b) ==>
                Abs() == old(Abs()).After(b) && Abs().Sound()
      ensures old(Abs()).Sound() && old(Abs()).Overflows(b) ==> r == Panic && Abs() == Cache(0, b)
      // A panic is never recovered from.
      ensures old(squareRoot) == 0 ==>
                && squareRoot == 0
                && balance == (if b == 0 then old(balance) else b)
                && r == (if b == 0 || b == old(balance) then Root(0) else Panic)
    {
      ghost var before := Abs();
      if b == 0 {
        return Root(0);
      }
      if b == balance {
        return Root(squareRoot);
      }
      balance := b;
      if squareRoot == 0 {
        return Panic;
      }
      RootPositive(before);
      SumFits(squareRoot, b);
      var val := b / squareRoot;
      ghost var first := true;
      while true
        invariant balance == b && 0 < squareRoot && val == b / squareRoot
        invariant first ==> squareRoot == before.root
        invariant !first ==> !before.Overflows(b) && val < squareRoot < U64 / 2
        decreases first, squareRoot
      {
        StepFacts(squareRoot, b);
        squareRoot := (squareRoot + val) % U64 / 2;
        if squareRoot == 0 {
          return Panic;
        }
        val := b / squareRoot;
        if squareRoot <= val {
          NewtonStops(squareRoot, b);
          return Root(squareRoot);
        }
        first := false;
      }
    }
  }
}

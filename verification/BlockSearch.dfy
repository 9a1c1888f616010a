/** Finding an execution block by time: BlockByTimestamp and its linear searches in
    beacon-chain/execution/block_reader.go, with the header cache of block_cache.go. */
module BlockSearch {
  import opened Wrappers

  const WORD: nat := 0x1_0000_0000_0000_0000
  const SEARCH_THRESHOLD: nat := 5
  const REPEATED_SEARCHES: nat := 2 * SEARCH_THRESHOLD

  type Time = t: nat | t < WORD

  datatype Header = Header(number: nat, time: Time)
  datatype Error = TooLate | Cancelled | Unanswered | Missing
  datatype Result = Found(header: Header) | Failed(error: Error)

  // ----- uint64 arithmetic -----

  function Wrap(n: int): Time {
    n % WORD
  }

  lemma WrapFits(n: nat)
    requires n < WORD
    ensures Wrap(n) == n
  {
  }

  function Quotient(gap: Time, unit: Time): (q: Time)
    requires unit > 0
    ensures q <= gap
  {
    QuotientAtMost(gap, unit);
    gap / unit
  }

  lemma {:induction false} ProductMonotone(m: nat, n: nat, unit: nat)
    requires unit > 0 && m <= n
    ensures m <= m * unit <= n * unit
    decreases n
  {
    if m < n {
      ProductMonotone(m, n - 1, unit);
      assert n * unit == (n - 1) * unit + unit;
    } else if m > 0 {
      ProductMonotone(m - 1, m - 1, unit);
      assert m * unit == (m - 1) * unit + unit;
    }
  }

  lemma QuotientAtMost(gap: nat, unit: nat)
    requires unit > 0
    ensures gap / unit <= gap
  {
    var q, rest := gap / unit, gap % unit;
    assert gap == q * unit + rest;
    ProductMonotone(q, q, unit);
  }

  lemma QuotientAtLeast(gap: nat, unit: nat, n: nat)
    requires unit > 0 && gap >= n * unit
    ensures gap / unit >= n
  {
    var q, rest := gap / unit, gap % unit;
    assert gap == q * unit + rest && rest < unit;
    assert (q + 1) * unit == q * unit + unit;
    if q < n {
      ProductMonotone(q + 1, n, unit);
    }
  }

  // ----- What is searched for -----

  predicate StrictlyIncreasing(times: seq<Time>) {
    forall i, j :: 0 <= i < j < |times| ==> times[i] < times[j]
  }

  /** Height n is the last one whose time does not exceed the target. */
  predicate LastUpTo(times: seq<Time>, target: Time, n: nat) {
    n < |times| && times[n] <= target && forall m: nat :: n < m < |times| ==> target < times[m]
  }

  lemma LastUpToUnique(times: seq<Time>, target: Time, n: nat, m: nat)
    requires StrictlyIncreasing(times) && LastUpTo(times, target, n) && LastUpTo(times, target, m)
    ensures n == m
  {
  }

  /** There is a block to find exactly when the chain starts no later than the target. */
  lemma {:induction false} LastUpToExists(times: seq<Time>, target: Time) returns (n: nat)
    requires StrictlyIncreasing(times) && times != []
    ensures times[0] <= target <==> LastUpTo(times, target, n)
  {
    if times[0] <= target {
      n := 0;
      while n + 1 < |times| && times[n + 1] <= target
        invariant n < |times| && times[n] <= target
      {
        n := n + 1;
      }
    } else {
      n := 0;
    }
  }

  // ----- One round of interpolation -----

  datatype Guess = Stop | Try(number: nat)

  /** The height to look at next. Sums and differences wrap, yet no guess is above the head. */
  function NextGuess(cursor: Time, cursorTime: Time, target: Time, latest: Time, secondsPerBlock: Time): (g: Guess)
    requires cursor <= latest && secondsPerBlock > 0
    ensures g.Try? ==> g.number <= latest
  {
    var buffer := Wrap(SEARCH_THRESHOLD * secondsPerBlock);
    if target > Wrap(cursorTime + buffer) then
      var number := Wrap(cursor + Quotient(Wrap(target - cursorTime), secondsPerBlock));
      if number > latest then Stop else Try(number)
    else if Wrap(target + buffer) < cursorTime then
      var blocks := Quotient(Wrap(cursorTime - target), secondsPerBlock);
      if blocks >= cursor then Stop else Try(cursor - blocks)
    else Stop
  }

  /** A guess upwards, when nothing wraps. */
  lemma GuessUpIs(cursor: Time, cursorTime: Time, target: Time, latest: Time, secondsPerBlock: Time)
    requires cursor <= latest && secondsPerBlock > 0 && cursor + target < WORD
    requires cursorTime + SEARCH_THRESHOLD * secondsPerBlock < target
    ensures var number := cursor + Quotient(target - cursorTime, secondsPerBlock);
            NextGuess(cursor, cursorTime, target, latest, secondsPerBlock)
            == if number > latest then Stop else Try(number)
  {
    var buffer := SEARCH_THRESHOLD * secondsPerBlock;
    WrapFits(buffer);
    WrapFits(cursorTime + buffer);
    WrapFits(target - cursorTime);
    WrapFits(cursor + Quotient(target - cursorTime, secondsPerBlock));
  }

  lemma GuessUp(cursor: Time, cursorTime: Time, target: Time, latest: Time, secondsPerBlock: Time)
    requires cursor <= latest && secondsPerBlock > 0 && cursor + target < WORD
    requires cursorTime + SEARCH_THRESHOLD * secondsPerBlock < target
    ensures var g := NextGuess(cursor, cursorTime, target, latest, secondsPerBlock);
            g.Try? ==> g.number >= cursor + SEARCH_THRESHOLD
  {
    GuessUpIs(cursor, cursorTime, target, latest, secondsPerBlock);
    QuotientAtLeast(target - cursorTime, secondsPerBlock, SEARCH_THRESHOLD);
  }

  /** A guess downwards, when nothing wraps. */
  lemma GuessDownIs(cursor: Time, cursorTime: Time, target: Time, latest: Time, secondsPerBlock: Time)
    requires cursor <= latest && secondsPerBlock > 0
    requires target + SEARCH_THRESHOLD * secondsPerBlock < cursorTime
    requires cursorTime + SEARCH_THRESHOLD * secondsPerBlock < WORD
    ensures var blocks := Quotient(cursorTime - target, secondsPerBlock);
            NextGuess(cursor, cursorTime, target, latest, secondsPerBlock)
            == if blocks >= cursor then Stop else Try(cursor - blocks)
  {
    var buffer := SEARCH_THRESHOLD * secondsPerBlock;
    WrapFits(buffer);
    WrapFits(cursorTime + buffer);
    WrapFits(target + buffer);
    WrapFits(cursorTime - target);
  }

  lemma GuessDown(cursor: Time, cursorTime: Time, target: Time, latest: Time, secondsPerBlock: Time)
    requires cursor <= latest && secondsPerBlock > 0
    requires target + SEARCH_THRESHOLD * secondsPerBlock < cursorTime
    requires cursorTime + SEARCH_THRESHOLD * secondsPerBlock < WORD
    ensures var g := NextGuess(cursor, cursorTime, target, latest, secondsPerBlock);
            g.Try? ==> g.number + SEARCH_THRESHOLD <= cursor
  {
    GuessDownIs(cursor, cursorTime, target, latest, secondsPerBlock);
    QuotientAtLeast(cursorTime - target, secondsPerBlock, SEARCH_THRESHOLD);
  }

  /** As long as no sum wraps, a guess is at least the threshold's number of blocks nearer the target's side,
      and there is none within the buffer. */
  lemma GuessMovesTowards(cursor: Time, cursorTime: Time, target: Time, latest: Time, secondsPerBlock: Time)
    requires cursor <= latest && secondsPerBlock > 0 && cursor + target < WORD
    requires cursorTime + SEARCH_THRESHOLD * secondsPerBlock < WORD
    requires target + SEARCH_THRESHOLD * secondsPerBlock < WORD
    ensures var g := NextGuess(cursor, cursorTime, target, latest, secondsPerBlock);
            g.Try? ==> if target > cursorTime then g.number >= cursor + SEARCH_THRESHOLD
                       else g.number + SEARCH_THRESHOLD <= cursor
  {
    var buffer := SEARCH_THRESHOLD * secondsPerBlock;
    if target > cursorTime + buffer {
      GuessUp(cursor, cursorTime, target, latest, secondsPerBlock);
    } else if target + buffer < cursorTime {
      GuessDown(cursor, cursorTime, target, latest, secondsPerBlock);
    } else {
      WrapFits(buffer);
      WrapFits(cursorTime + buffer);
      WrapFits(target + buffer);
    }
  }

  // ----- How long a search takes -----

  /** The guesses looked up, and the height at which the estimate settles. */
  datatype Estimate = Estimate(rounds: nat, at: nat)

  function Guesses(times: seq<Time>, cursor: nat, target: Time, latest: nat, secondsPerBlock: Time,
                   n: nat): (g: Estimate)
    requires cursor <= latest < |times| <= WORD && secondsPerBlock > 0
    ensures g.rounds <= n && g.at <= latest
    decreases n
  {
    if n == 0 then Estimate(0, cursor)
    else
      var guess := NextGuess(cursor, times[cursor], target, latest, secondsPerBlock);
      if guess == Stop then Estimate(0, cursor)
      else
        var g := Guesses(times, guess.number, target, latest, secondsPerBlock, n - 1);
        Estimate(g.rounds + 1, g.at)
  }

  function Distance(a: nat, b: nat): nat {
    if a <= b then b - a else a - b
  }

  /** The lookups of the linear search from height `at` to the block found: one for each height from the one to the
      other, and when it goes up to a block before the target, one past it and one back. */
  function LinearCalls(times: seq<Time>, at: nat, target: Time, found: nat): nat
    requires at < |times| && found < |times|
  {
    Distance(at, found) + if times[at] < target && times[found] < target then 3 else 1
  }

  function Calls(times: seq<Time>, latest: nat, secondsPerBlock: Time, target: Time, found: nat): nat
    requires latest < |times| <= WORD && secondsPerBlock > 0 && found < |times|
  {
    var g := Guesses(times, latest, target, latest, secondsPerBlock, REPEATED_SEARCHES);
    g.rounds + LinearCalls(times, g.at, target, found)
  }

  /** The estimate lies within the time buffer of the target. */
  predicate Near(times: seq<Time>, at: nat, target: Time, secondsPerBlock: Time)
    requires at < |times|
  {
    && target <= times[at] + SEARCH_THRESHOLD * secondsPerBlock
    && times[at] <= target + SEARCH_THRESHOLD * secondsPerBlock
  }

  /** Blocks come no faster than expected. */
  predicate Spaced(times: seq<Time>, gap: nat) {
    forall i :: 0 < i < |times| ==> times[i - 1] + gap <= times[i]
  }

  lemma {:induction false} SpacedBy(times: seq<Time>, gap: nat, i: nat, j: nat)
    requires Spaced(times, gap) && i <= j < |times|
    ensures times[i] + (j - i) * gap <= times[j]
    decreases j
  {
    if i < j {
      SpacedBy(times, gap, i, j - 1);
      assert (j - i) * gap == (j - 1 - i) * gap + gap;
      assert times[j - 1] + gap <= times[j];
    }
  }

  lemma FewBlocks(n: nat, gap: nat)
    requires gap > 0 && n * gap <= SEARCH_THRESHOLD * gap
    ensures n <= SEARCH_THRESHOLD
  {
    if n > SEARCH_THRESHOLD {
      ProductMonotone(SEARCH_THRESHOLD + 1, n, gap);
    }
  }

  /** From within the buffer, on a chain whose blocks come no faster than expected, the linear search is short. */
  lemma NearIsShort(times: seq<Time>, at: nat, target: Time, secondsPerBlock: Time, found: nat)
    requires secondsPerBlock > 0 && Spaced(times, secondsPerBlock) && LastUpTo(times, target, found)
    requires at < |times| && Near(times, at, target, secondsPerBlock)
    ensures LinearCalls(times, at, target, found) <= SEARCH_THRESHOLD + 3
  {
    if at <= found {
      SpacedBy(times, secondsPerBlock, at, found);
      FewBlocks(found - at, secondsPerBlock);
    } else {
      SpacedBy(times, secondsPerBlock, found + 1, at);
      FewBlocks(at - found - 1, secondsPerBlock);
    }
  }

  /** So the promised order of twenty lookups is kept whenever the estimate settles within the buffer and blocks come
      no faster than expected. */
  lemma PromiseKept(times: seq<Time>, latest: nat, secondsPerBlock: Time, target: Time, found: nat)
    requires latest < |times| <= WORD && secondsPerBlock > 0 && Spaced(times, secondsPerBlock)
    requires LastUpTo(times, target, found)
    requires Near(times, Guesses(times, latest, target, latest, secondsPerBlock, REPEATED_SEARCHES).at, target,
                  secondsPerBlock)
    ensures Calls(times, latest, secondsPerBlock, target, found) <= REPEATED_SEARCHES + SEARCH_THRESHOLD + 3
    ensures Calls(times, latest, secondsPerBlock, target, found) < 2 * REPEATED_SEARCHES
  {
    NearIsShort(times, Guesses(times, latest, target, latest, secondsPerBlock, REPEATED_SEARCHES).at, target,
                secondsPerBlock, found);
  }

  /** A chain with a block every `gap` seconds. */
  function Regular(n: nat, gap: nat): (times: seq<Time>)
    requires gap > 0 && n * gap < WORD
    ensures |times| == n + 1 && forall i :: 0 <= i <= n ==> times[i] == i * gap
  {
    seq(n + 1, i requires 0 <= i <= n => ProductMonotone(i, n, gap); i * gap)
  }

  lemma RegularIncreases(n: nat, gap: nat)
    requires gap > 0 && n * gap < WORD
    ensures StrictlyIncreasing(Regular(n, gap)) && Spaced(Regular(n, gap), gap)
  {
    var times := Regular(n, gap);
    forall i, j | 0 <= i < j < |times| ensures times[i] + gap <= times[j] {
      ProductMonotone(i + 1, j, gap);
      assert (i + 1) * gap == i * gap + gap;
    }
  }

  lemma QuotientBounds(gap: nat, unit: nat)
    requires unit > 0
    ensures gap / unit * unit <= gap < (gap / unit + 1) * unit
  {
    var q, rest := gap / unit, gap % unit;
    assert gap == q * unit + rest && rest < unit;
    assert (q + 1) * unit == q * unit + unit;
  }

  lemma {:induction false} ProductCancels(m: nat, n: nat, unit: nat)
    requires unit > 0 && m * unit < n * unit
    ensures m < n
  {
    if n <= m {
      ProductMonotone(n, m, unit);
    }
  }

  /** The guess from the head of a regular chain, for a target out of the buffer: the first block from the target on. */
  lemma RegularGuess(n: nat, gap: Time, target: Time) returns (at: nat)
    requires gap > 0 && n * gap + SEARCH_THRESHOLD * gap < WORD
    requires 0 < target && target + SEARCH_THRESHOLD * gap < n * gap
    ensures n < WORD && NextGuess(n, n * gap, target, n, gap) == Try(at)
    ensures 0 < at <= n && (at - 1) * gap < target <= at * gap
  {
    ProductMonotone(n, n, gap);
    GuessDownIs(n, n * gap, target, n, gap);
    at := BlocksBack(n, gap, target, Quotient(n * gap - target, gap));
  }

  lemma BlocksBack(n: nat, gap: nat, target: nat, q: nat) returns (at: nat)
    requires gap > 0 && 0 < target <= n * gap && q == (n * gap - target) / gap
    ensures q < n && at == n - q && (at - 1) * gap < target <= at * gap
  {
    QuotientBounds(n * gap - target, gap);
    ProductCancels(q, n, gap);
    at := n - q;
    ProductMinus(n, q, gap);
    ProductMinus(at, 1, gap);
    ProductMinus(q + 1, 1, gap);
  }

  lemma ProductMinus(m: nat, n: nat, unit: nat)
    requires n <= m
    ensures (m - n) * unit == m * unit - n * unit
  {
  }

  /** Within the buffer nothing more is guessed. */
  lemma NearStops(cursor: Time, cursorTime: Time, target: Time, latest: Time, secondsPerBlock: Time)
    requires cursor <= latest && secondsPerBlock > 0
    requires target <= cursorTime + SEARCH_THRESHOLD * secondsPerBlock < WORD
    requires cursorTime <= target + SEARCH_THRESHOLD * secondsPerBlock < WORD
    ensures NextGuess(cursor, cursorTime, target, latest, secondsPerBlock) == Stop
  {
    var buffer := SEARCH_THRESHOLD * secondsPerBlock;
    WrapFits(buffer);
    WrapFits(cursorTime + buffer);
    WrapFits(target + buffer);
  }

  lemma OneGuess(times: seq<Time>, cursor: nat, target: Time, latest: nat, secondsPerBlock: Time, n: nat, at: nat)
    requires cursor <= latest < |times| <= WORD && secondsPerBlock > 0 && n > 1
    requires NextGuess(cursor, times[cursor], target, latest, secondsPerBlock) == Try(at)
    requires at <= latest && NextGuess(at, times[at], target, latest, secondsPerBlock) == Stop
    ensures Guesses(times, cursor, target, latest, secondsPerBlock, n) == Estimate(1, at)
  {
    assert Guesses(times, at, target, latest, secondsPerBlock, n - 1) == Estimate(0, at);
  }

  /** From the first block from the target on, the search ends there or one block before. */
  lemma NextToFound(n: nat, gap: Time, target: Time, at: nat, found: nat)
    requires gap > 0 && n * gap < WORD && 0 < at <= n && (at - 1) * gap < target <= at * gap
    requires LastUpTo(Regular(n, gap), target, found)
    ensures LinearCalls(Regular(n, gap), at, target, found) <= 2
  {
    var times := Regular(n, gap);
    RegularIncreases(n, gap);
    assert times[at - 1] == (at - 1) * gap && times[at] == at * gap;
    assert at - 1 <= found <= at;
  }

  lemma FarSearch(n: nat, gap: Time, target: Time, found: nat)
    requires gap > 0 && n * gap + SEARCH_THRESHOLD * gap < WORD && n < WORD
    requires 0 < target && target + SEARCH_THRESHOLD * gap < n * gap && LastUpTo(Regular(n, gap), target, found)
    ensures Calls(Regular(n, gap), n, gap, target, found) <= 3
  {
    var times := Regular(n, gap);
    var at := RegularGuess(n, gap, target);
    ProductMonotone(at, n, gap);
    assert at * gap == (at - 1) * gap + gap;
    NearStops(at, at * gap, target, n, gap);
    OneGuess(times, n, target, n, gap, REPEATED_SEARCHES, at);
    NextToFound(n, gap, target, at, found);
  }

  /** On a chain with regular blocks every target but the first block's time is found within eight lookups, and within
      three if it is out of the buffer of the head. */
  lemma RegularSearch(n: nat, gap: Time, target: Time, found: nat)
    requires gap > 0 && n * gap + SEARCH_THRESHOLD * gap < WORD && n < WORD
    requires 0 < target <= n * gap && LastUpTo(Regular(n, gap), target, found)
    ensures Calls(Regular(n, gap), n, gap, target, found)
         <= if target + SEARCH_THRESHOLD * gap < n * gap then 3 else SEARCH_THRESHOLD + 3
  {
    if target + SEARCH_THRESHOLD * gap < n * gap {
      FarSearch(n, gap, target, found);
    } else {
      NearStops(n, n * gap, target, n, gap);
      RegularIncreases(n, gap);
      NearIsShort(Regular(n, gap), n, target, gap, found);
    }
  }

  /** The first block's time is the exception: the way back looks infeasible from the head, so nothing is guessed and
      the search walks down all n blocks. */
  lemma LongSearch(n: nat, gap: Time, found: nat)
    requires gap > 0 && SEARCH_THRESHOLD < n < WORD && n * gap + SEARCH_THRESHOLD * gap < WORD
    requires LastUpTo(Regular(n, gap), 0, found)
    ensures StrictlyIncreasing(Regular(n, gap)) && Spaced(Regular(n, gap), gap)
    ensures found == 0 && Guesses(Regular(n, gap), n, 0, n, gap, REPEATED_SEARCHES) == Estimate(0, n)
    ensures Calls(Regular(n, gap), n, gap, 0, found) == n + 1
  {
    var times := Regular(n, gap);
    RegularIncreases(n, gap);
    LastUpToUnique(times, 0, found, 0);
    ProductMonotone(SEARCH_THRESHOLD + 1, n, gap);
    GuessDownIs(n, n * gap, 0, n, gap);
    QuotientAtLeast(n * gap, gap, n);
  }

  /** And a target within the buffer, but a block every second: the search walks down seventy blocks. */
  lemma FastSearch(n: nat, found: nat)
    requires 70 <= n && n + 70 < WORD && LastUpTo(Regular(n, 1), n - 70, found)
    ensures StrictlyIncreasing(Regular(n, 1)) && Near(Regular(n, 1), n, n - 70, 14)
    ensures found == n - 70 && Guesses(Regular(n, 1), n, n - 70, n, 14, REPEATED_SEARCHES) == Estimate(0, n)
    ensures Calls(Regular(n, 1), n, 14, n - 70, found) == 71
  {
    var times := Regular(n, 1);
    RegularIncreases(n, 1);
    LastUpToUnique(times, n - 70, found, n - 70);
    WrapFits(70);
    WrapFits(n + 70);
    WrapFits(n);
    assert NextGuess(n, n, n - 70, n, 14) == Stop;
  }

  function Newest(headers: seq<Header>, n: nat): seq<Header> {
    if |headers| <= n then headers else headers[|headers| - n..]
  }

  // ----- The search -----

  class Service {
    /** The execution chain: the time of each block, by height. */
    const times: seq<Time>
    /** The head the service knows of, which may lag behind the chain. */
    const latest: nat
    const secondsPerBlock: Time
    const capacity: nat
    /** Whether the provider answers its k-th request, and whether the context is live at the k-th look. */
    const answers: nat -> bool
    const live: nat -> bool

    /** The cached headers, oldest first. */
    var cache: seq<Header>
    /** The heights looked up so far, the heights asked of the provider, and the number of looks at the context. */
    var lookups: nat
    var asked: seq<nat>
    var looks: nat

    ghost predicate Genuine(h: Header) {
      h.number < |times| && h.time == times[h.number]
    }

    ghost predicate Valid()
      reads this
    {
      && StrictlyIncreasing(times) && |times| <= WORD && latest < |times| && secondsPerBlock > 0
      && forall h :: h in cache ==> Genuine(h)
    }

    /** No request so far after the first `from` went above `limit`. */
    ghost predicate AskedUpTo(from: nat, limit: nat)
      reads this
    {
      forall k :: from <= k < |asked| ==> asked[k] <= limit
    }

    /** Only failures of the provider or the context stop a search. */
    ghost predicate Interrupted(error: Error) {
      (error == Unanswered && exists k :: !answers(k)) || (error == Cancelled && exists k :: !live(k))
    }

    constructor (times: seq<Time>, latest: nat, secondsPerBlock: Time, capacity: nat,
                 answers: nat -> bool, live: nat -> bool)
      requires StrictlyIncreasing(times) && |times| <= WORD && latest < |times| && secondsPerBlock > 0
      ensures Valid() && cache == [] && asked == [] && looks == 0 && lookups == 0
      ensures this.times == times && this.latest == latest && this.secondsPerBlock == secondsPerBlock
      ensures this.answers == answers && this.live == live
    {
      this.times, this.latest, this.secondsPerBlock, this.capacity := times, latest, secondsPerBlock, capacity;
      this.answers, this.live := answers, live;
      cache, asked, looks, lookups := [], [], 0, 0;
    }

    method Cached(number: nat) returns (found: bool, header: Header)
      ensures found ==> header in cache && header.number == number
      ensures !found ==> forall h :: h in cache ==> h.number != number
    {
      for k := 0 to |cache|
        invariant forall j :: 0 <= j < k ==> cache[j].number != number
      {
        if cache[k].number == number {
          return true, cache[k];
        }
      }
      found, header := false, Header(number, 0);
    }

    ghost predicate Has(number: nat)
      reads this`cache
    {
      exists h :: h in cache && h.number == number
    }

    /** No header up to the height is cached. */
    ghost predicate ColdUpTo(height: int)
      reads this`cache
    {
      forall h :: h in cache ==> h.number > height
    }

    /** A height not yet cached is added; the oldest headers make room. */
    method AddHeader(header: Header)
      requires Valid() && Genuine(header)
      modifies this`cache
      ensures Valid()
      ensures cache == Newest(if old(Has(header.number)) then old(cache) else old(cache) + [header], capacity)
    {
      var present, other := Cached(header.number);
      var full := if present then cache else cache + [header];
      var dropped := 0;
      while |full| - dropped > capacity
        invariant 0 <= dropped <= |full| && (dropped == 0 || |full| - dropped >= capacity)
      {
        dropped := dropped + 1;
      }
      cache := full[dropped..];
    }

    method RetrieveHeaderInfo(number: nat) returns (r: Result)
      requires Valid()
      modifies this`cache, this`asked, this`lookups
      ensures lookups == old(lookups) + 1 && forall h :: h in cache ==> h in old(cache) || h.number == number
      ensures Valid() && asked == if old(Has(number)) then old(asked) else old(asked) + [number]
      ensures r.Found? ==> Genuine(r.header) && r.header.number == number
      ensures r.Failed? && r.error != Missing ==> Interrupted(r.error)
      ensures r.Failed? && r.error == Missing ==> number >= |times|
    {
      lookups := lookups + 1;
      var exists_, info := Cached(number);
      if exists_ {
        return Found(info);
      }
      asked := asked + [number];
      if !answers(|asked| - 1) {
        return Failed(Unanswered);
      }
      if number >= |times| {
        return Failed(Missing);
      }
      info := Header(number, times[number]);
      AddHeader(info);
      r := Found(info);
    }

    method ContextLive() returns (ok: bool)
      modifies this`looks
      ensures !ok ==> Interrupted(Cancelled)
    {
      ok := live(looks);
      looks := looks + 1;
    }

    /** Downwards from a block later than the target. Below the genesis time the height goes negative; its
        magnitude is then asked for, so the search climbs again and ends past the head of the chain. */
    method FindMaxTargetBlock(upper: nat, target: Time) returns (r: Result)
      requires Valid() && upper < |times| && times[upper] > target
      modifies this
      ensures Valid() && old(asked) <= asked
      ensures times[0] <= target ==> AskedUpTo(|old(asked)|, upper)
      ensures r.Found? ==> Genuine(r.header) && LastUpTo(times, target, r.header.number)
      ensures r.Failed? && r.error != Missing ==> Interrupted(r.error)
      ensures r.Failed? && r.error == Missing ==> target < times[0]
      ensures r.Found? ==> lookups == old(lookups) + LinearCalls(times, upper, target, r.header.number)
      ensures |asked| - |old(asked)| <= lookups - old(lookups)
      ensures r.Found? && old(ColdUpTo(upper)) ==> |asked| - |old(asked)| == lookups - old(lookups)
    {
      var bn: int := upper;
      ghost var cold := ColdUpTo(upper);
      while true
        invariant -|times| <= bn <= upper && Valid() && old(asked) <= asked
        invariant lookups == old(lookups) + (upper - bn) && |asked| - |old(asked)| <= upper - bn
        invariant bn >= -1 && cold ==> ColdUpTo(bn) && |asked| - |old(asked)| == upper - bn
        invariant forall m: nat :: bn < m < |times| ==> target < times[m]
        invariant bn < 0 ==> target < times[0]
        invariant times[0] <= target ==> AskedUpTo(|old(asked)|, upper)
        decreases bn + |times|
      {
        var ok := ContextLive();
        if !ok {
          return Failed(Cancelled);
        }
        var info := RetrieveHeaderInfo(if bn < 0 then -bn else bn);
        if info.Failed? {
          return info;
        }
        if info.header.time <= target {
          return info;
        }
        bn := bn - 1;
      }
    }

    /** Upwards from a block earlier than the target. */
    method FindMinTargetBlock(lower: nat, target: Time) returns (r: Result)
      requires Valid() && lower <= latest && times[lower] < target <= times[latest]
      modifies this
      ensures Valid() && old(asked) <= asked && AskedUpTo(|old(asked)|, latest)
      ensures r.Found? ==> Genuine(r.header) && LastUpTo(times, target, r.header.number)
      ensures r.Failed? ==> Interrupted(r.error)
      ensures r.Found? ==> lookups == old(lookups) + LinearCalls(times, lower, target, r.header.number)
      ensures |asked| - |old(asked)| <= lookups - old(lookups)
    {
      var bn := lower;
      while true
        invariant lower <= bn <= latest && Valid() && old(asked) <= asked
        invariant lookups == old(lookups) + (bn - lower) && |asked| - |old(asked)| <= bn - lower
        invariant bn > lower ==> times[bn - 1] < target
        invariant AskedUpTo(|old(asked)|, latest)
        decreases latest - bn
      {
        var ok := ContextLive();
        if !ok {
          return Failed(Cancelled);
        }
        var info := RetrieveHeaderInfo(bn);
        if info.Failed? {
          return info;
        }
        if info.header.time > target {
          r := RetrieveHeaderInfo(info.header.number - 1);
          return;
        }
        if info.header.time == target {
          return info;
        }
        bn := bn + 1;
      }
    }

    /** The interpolation: cursor and estimate agree, at the height where the guesses settle. */
    method SettleEstimate(target: Time)
      returns (failure: Option<Error>, cursor: nat, cursorTime: Time, estimate: nat)
      requires Valid()
      modifies this
      ensures Valid() && old(asked) <= asked && AskedUpTo(|old(asked)|, latest)
      ensures failure.Some? ==> Interrupted(failure.value)
      ensures |asked| - |old(asked)| <= lookups - old(lookups)
      ensures failure.None? ==>
                && cursor == estimate <= latest && cursorTime == times[cursor]
                && Guesses(times, latest, target, latest, secondsPerBlock, REPEATED_SEARCHES)
                   == Estimate(lookups - old(lookups), cursor)
      ensures failure.None? && lookups == old(lookups) ==> cache == old(cache)
    {
      failure, cursor, cursorTime, estimate := None, latest, times[latest], latest;
      ghost var settled := Guesses(times, latest, target, latest, secondsPerBlock, REPEATED_SEARCHES);
      for k := 0 to REPEATED_SEARCHES
        invariant Valid() && old(asked) <= asked && AskedUpTo(|old(asked)|, latest)
        invariant cursor == estimate <= latest && cursorTime == times[cursor]
        invariant lookups == old(lookups) + k && |asked| - |old(asked)| <= k && (k == 0 ==> cache == old(cache))
        invariant var g := Guesses(times, cursor, target, latest, secondsPerBlock, REPEATED_SEARCHES - k);
                  settled == Estimate(g.rounds + k, g.at)
      {
        var ok := ContextLive();
        if !ok {
          return Some(Cancelled), cursor, cursorTime, estimate;
        }
        var guess := NextGuess(cursor, cursorTime, target, latest, secondsPerBlock);
        if guess == Stop {
          return;
        }
        estimate := guess.number;
        var info := RetrieveHeaderInfo(estimate);
        if info.Failed? {
          return Some(info.error), cursor, cursorTime, estimate;
        }
        cursor, cursorTime := info.header.number, info.header.time;
      }
    }

    /** The block found is the last one up to the target; a target in the known range is found unless the provider or
        the context gives way, and none outside it is; from genesis time on no request goes above the known head. The
        number of lookups is exact, and so is the number of requests where nothing is cached and nothing is guessed. */
    method BlockByTimestamp(target: Time) returns (r: Result)
      requires Valid()
      modifies this
      ensures Valid() && old(asked) <= asked
      ensures r.Found? ==> Genuine(r.header) && LastUpTo(times, target, r.header.number)
      ensures r.Found? ==> times[0] <= target <= times[latest]
      ensures times[0] <= target <= times[latest] && r.Failed? ==> Interrupted(r.error)
      ensures times[latest] < target ==> r == Failed(TooLate) && asked == old(asked)
      ensures times[0] <= target ==> AskedUpTo(|old(asked)|, latest)
      ensures |asked| - |old(asked)| <= lookups - old(lookups)
      ensures r.Found? ==> lookups - old(lookups) == Calls(times, latest, secondsPerBlock, target, r.header.number)
      ensures r.Found? && old(cache) == []
              && Guesses(times, latest, target, latest, secondsPerBlock, REPEATED_SEARCHES).rounds == 0 ==>
                |asked| - |old(asked)| == lookups - old(lookups)
    {
      if target > times[latest] {
        return Failed(TooLate);
      }
      var failure, cursor, cursorTime, estimate := SettleEstimate(target);
      if failure.Some? {
        return Failed(failure.value);
      }
      if cursorTime == target {
        r := RetrieveHeaderInfo(cursor);
      } else if cursorTime > target {
        r := FindMaxTargetBlock(estimate, target);
      } else {
        r := FindMinTargetBlock(estimate, target);
      }
    }
  }

  /** On the regular chain a search for its first block with an empty cache makes n + 1 requests, whatever n is. */
  method LongColdSearch(n: nat, gap: Time, capacity: nat) returns (requests: nat)
    requires gap > 0 && SEARCH_THRESHOLD < n < WORD && n * gap + SEARCH_THRESHOLD * gap < WORD
    ensures requests == n + 1
  {
    RegularIncreases(n, gap);
    var service := new Service(Regular(n, gap), n, gap, capacity, _ => true, _ => true);
    var r := service.BlockByTimestamp(0);
    LongSearch(n, gap, r.header.number);
    requests := |service.asked|;
  }
}

/** How far and how fast a catch-up of beacon-chain/execution/log_processing.go gets: which rounds succeed, how the
    window shrinks and grows, and how many client calls are enough. */
module DepositProgress {
  import opened DepositLogs
  import opened DepositCatchUp
  import opened DepositRetries

  // ----- What makes a window succeed -----

  ghost predicate SavesSucceed(s: State, e: Env) {
    forall k :: k >= s.saves ==> k !in e.badSaves
  }

  /** Chain start is over, or every header of the range is at hand. */
  ghost predicate Covered(s: State, h: Headers, lo: nat, hi: int) {
    s.started || forall b: nat :: lo <= b <= hi ==> b in h.have
  }

  /** A periodic save follows the chain's log j: whenever the last index is a multiple of a thousand. */
  predicate SaveDue(c: seq<Log>, s: State, j: nat)
    requires j < |c|
  {
    !c[j].Foreign? && (|Longer(s.trie, Deposits(c[..j + 1]))| - 1) % 1000 == 0
  }

  /** A log of the chain that comes after all those before it is refused exactly if a periodic save is due and fails. */
  lemma LogAcceptedIff(c: seq<Log>, s: State, e: Env, j: nat)
    requires ValidChain(c) && j < |c| && HasUpTo(c, s, j)
    ensures var (r, ok) := ProcessLog(s, e, c[j]);
            && (ok <==> !SaveDue(c, s, j) || s.saves !in e.badSaves)
            && r.saves == s.saves + if SaveDue(c, s, j) then 1 else 0
  {
    TakeLog(c, s, e, j);
    assert c[..j + 1][..j] == c[..j];
  }

  lemma {:induction false} CheckOk(s: State, e: Env, h: Headers, i: nat, end: int)
    requires Covered(s, h, i, end)
    ensures var r := CheckHeaderRange(s, e, h, i, end);
            r.ok && r.h == h && r.s.saves == s.saves && (s.started ==> r.s.started)
    decreases end + 1 - i
  {
    if i <= end {
      CheckOk(CheckBlock(s, e, i), e, h, i + 1, end);
    }
  }

  /** What a successful log leaves for the next. */
  ghost predicate Going(c: seq<Log>, s: State, e: Env, j: nat) {
    j <= |c| && HasUpTo(c, s, j) && SavesSucceed(s, e)
  }

  lemma ScanLogOk(c: seq<Log>, s: State, e: Env, h: Headers, current: nat, lastReq: nat, j: nat, end: nat)
    requires ValidChain(c) && j < |c| && Going(c, s, e, j) && Covered(s, h, current, end) && c[j].block <= end
    ensures var r := ScanLog(s, e, h, current, lastReq, c[j]);
            r.ok && r.h == h && Going(c, r.s, e, j + 1) && Covered(r.s, h, r.current, end)
  {
    var checked := CheckHeaderRange(s, e, h, current, c[j].block - 1);
    CheckKeeps(s, e, h, current, c[j].block - 1);
    CheckOk(s, e, h, current, c[j].block - 1);
    var s1 := if c[j].block > current then checked.s.(lastRequested := current) else s;
    LogAcceptedIff(c, s1, e, j);
    ScanLogTakes(c, s, e, h, current, lastReq, j);
    TookHas(c, s, ScanLog(s, e, h, current, lastReq, c[j]).s, j + 1, j + 1);
  }

  lemma {:induction false} ScanOk(c: seq<Log>, s: State, e: Env, h: Headers, current: nat, lastReq: nat, j: nat,
                                  hi: nat, end: nat)
    requires ValidChain(c) && j <= hi <= |c| && Going(c, s, e, j) && Covered(s, h, current, end)
    requires hi > 0 ==> c[hi - 1].block <= end
    ensures var r := ScanLogs(s, e, h, current, lastReq, c[j..hi]);
            r.ok && r.h == h && Going(c, r.s, e, hi) && Covered(r.s, h, r.current, end)
    decreases hi - j
  {
    if j < hi {
      ScanSplit(c, s, e, h, current, lastReq, j, hi);
      assert c[j].block <= c[hi - 1].block;
      ScanLogOk(c, s, e, h, current, lastReq, j, end);
      var r := ScanLog(s, e, h, current, lastReq, c[j]);
      ScanOk(c, r.s, e, r.h, r.current, lastReq, j + 1, hi, end);
    }
  }

  lemma WindowOk(c: seq<Log>, s: State, e: Env, h: Headers, current: nat, end: nat)
    requires ValidChain(c) && current <= end && Going(c, s, e, Before(c, current)) && Covered(s, h, current, end)
    ensures var w := ProcessWindow(s, e, h, current, end, Window(c, current, end));
            w.ok && w.h == h && Going(c, w.s, e, Before(c, end))
  {
    BeforeMonotone(c, current, end + 1);
    BeforeMonotone(c, end, end + 1);
    BeforeSpec(c, end + 1);
    ScanOk(c, s, e, h, current, s.lastRequested, Before(c, current), Before(c, end + 1), end);
    var r := ScanLogs(s, e, h, current, s.lastRequested, Window(c, current, end));
    CheckOk(r.s, e, r.h, r.current, end);
    CheckKeeps(r.s, e, r.h, r.current, end);
    HasLess(c, r.s, Before(c, end), Before(c, end + 1));
  }

  /** Every header request brings all headers from `lo` to `hi`. */
  ghost predicate Generous(tape: seq<HeaderReply>, lo: nat, hi: nat) {
    forall k :: 0 <= k < |tape| ==> tape[k].GotHeaders? && forall b: nat :: lo <= b <= hi ==> b in tape[k].got
  }

  /** A true answer, headers and saves make a batch go through, for one header request before chain start. */
  lemma BatchOk(c: seq<Log>, s: State, e: Env, h: Headers, cfg: Config, current: nat, size: nat)
    requires ValidChain(c) && current < cfg.follow && Going(c, s, e, Before(c, current))
    requires Generous(h.tape, current, cfg.follow) && (s.started || h.tape != [])
    ensures var end := Min(current + size, cfg.follow);
            var b := ProcessBatch(s, e, h, cfg, current, size, Answer(Window(c, current, end)));
            && b.Next? && b.current == end && b.size == Grow(cfg, size) && Going(c, b.s, e, Before(c, end))
            && b.h.tape == (if s.started then h.tape else h.tape[1..]) && (s.started ==> b.s.started)
  {
    var end := Min(current + size, cfg.follow);
    var h1 := if s.started then h else Headers(h.have + h.tape[0].got, h.tape[1..]);
    WindowOk(c, s, e, h1, current, end);
    WindowKeeps(s, e, h1, current, end, Window(c, current, end), []);
  }

  // ----- A client that serves windows up to a width -----

  /** Windows of at most w + 1 blocks, from a to a + w, are answered, larger ones refused. */
  ghost predicate Serves(p: Provider, c: seq<Log>, w: nat) {
    forall n: nat, a: nat, b: nat :: a <= b ==>
      p(n, a, b) == if b - a <= w then Answer(Window(c, a, b)) else TooMuchData
  }

  /** How often a window of this size has to be halved before it is served. */
  function Halvings(size: nat, w: nat): nat {
    if size <= w || size == 0 then 0 else 1 + Halvings(size / 2, w)
  }

  lemma {:induction false} HalvingsMonotone(a: nat, b: nat, w: nat)
    requires a <= b
    ensures Halvings(a, w) <= Halvings(b, w)
    decreases b
  {
    if a > w && a > 0 {
      HalvingsMonotone(a / 2, b / 2, w);
    }
  }

  /** No served window advances by less, except up to the follow height. */
  function Stride(limit: nat, w: nat): nat {
    Min(limit, (w + 1) / 2)
  }

  /** How many strides cover a gap. */
  function Rounds(gap: nat, stride: nat): nat
    requires stride > 0
  {
    if gap <= stride then Min(gap, 1) else 1 + Rounds(gap - stride, stride)
  }

  lemma {:induction false} RoundsCover(gap: nat, stride: nat)
    requires stride > 0
    ensures gap <= Rounds(gap, stride) * stride < gap + stride
  {
    if gap > stride {
      RoundsCover(gap - stride, stride);
      assert Rounds(gap, stride) * stride == Rounds(gap - stride, stride) * stride + stride;
    }
  }

  lemma {:induction false} RoundsMonotone(a: nat, b: nat, stride: nat)
    requires stride > 0 && a <= b
    ensures Rounds(a, stride) <= Rounds(b, stride)
    decreases b
  {
    if a > stride {
      RoundsMonotone(a - stride, b - stride, stride);
    }
  }

  /** Client calls that are enough from a gap and a window that still needs `left` halvings: each stride takes its
      halvings and an answer. */
  function Enough(gap: nat, stride: nat, halvings: nat, left: nat): nat
    requires stride > 0
  {
    if gap == 0 then 0
    else 1 + left + if gap <= stride then 0 else Enough(gap - stride, stride, halvings, halvings)
  }

  lemma {:induction false} EnoughMonotone(a: nat, b: nat, stride: nat, halvings: nat, left: nat, more: nat)
    requires stride > 0 && a <= b && left <= more
    ensures Enough(a, stride, halvings, left) <= Enough(b, stride, halvings, more)
    decreases b
  {
    if a > stride {
      EnoughMonotone(a - stride, b - stride, stride, halvings, halvings, halvings);
    }
  }

  /** After an answer that advances by at least a stride. */
  lemma Advanced(gap: nat, stride: nat, halvings: nat, left: nat, advance: nat, next: nat)
    requires 0 < stride <= advance < gap && next <= halvings
    ensures Enough(gap - advance, stride, halvings, next) + 1 <= Enough(gap, stride, halvings, left)
    ensures Rounds(gap - advance, stride) + 1 <= Rounds(gap, stride)
  {
    EnoughMonotone(gap - advance, gap - stride, stride, halvings, next, halvings);
    RoundsMonotone(gap - advance, gap - stride, stride);
  }

  lemma {:induction false} EnoughIs(gap: nat, stride: nat, halvings: nat)
    requires stride > 0
    ensures Enough(gap, stride, halvings, halvings) == Rounds(gap, stride) * (1 + halvings)
    ensures Rounds(gap, stride) <= Rounds(gap, stride) * (1 + halvings)
  {
    if gap > stride {
      EnoughIs(gap - stride, stride, halvings);
      var r := Rounds(gap - stride, stride);
      assert (1 + r) * (1 + halvings) == 1 + halvings + r * (1 + halvings);
    }
  }

  /** A refused round: the same place, half the window. */
  lemma RefusedRound(c: seq<Log>, s: State, e: Env, h: Headers, cfg: Config, current: nat, size: nat, p: Provider,
                     n: nat, w: nat)
    requires Serves(p, c, w) && current < cfg.follow && Min(current + size, cfg.follow) - current > w
    ensures Round(s, e, h, cfg, current, size, p, n) == Next(s, h, current, size / 2)
    ensures Halvings(size, w) == 1 + Halvings(size / 2, w)
  {
  }

  /** All that the rest of the catch-up needs. */
  ghost predicate Ready(c: seq<Log>, s: State, e: Env, h: Headers, cfg: Config, current: nat, size: nat, w: nat,
                        calls: int)
    requires w > 0 && cfg.limit > 0
  {
    var stride := Stride(cfg.limit, w);
    && current <= cfg.follow && Going(c, s, e, Before(c, current)) && Generous(h.tape, current, cfg.follow)
    && stride <= size <= cfg.limit && (s.started || Rounds(cfg.follow - current, stride) <= |h.tape|)
    && calls >= Enough(cfg.follow - current, stride, Halvings(cfg.limit, w), Halvings(size, w))
  }

  lemma RefusedStaysReady(c: seq<Log>, s: State, e: Env, h: Headers, cfg: Config, current: nat, size: nat, w: nat,
                          calls: nat)
    requires w > 0 && cfg.limit > 0 && Ready(c, s, e, h, cfg, current, size, w, calls) && current < cfg.follow
    requires Min(current + size, cfg.follow) - current > w
    ensures calls > 0 && Ready(c, s, e, h, cfg, current, size / 2, w, calls - 1)
  {
  }

  lemma AnsweredStaysReady(c: seq<Log>, s: State, e: Env, h: Headers, cfg: Config, current: nat, size: nat, w: nat,
                           calls: nat, b: Batch)
    requires ValidChain(c) && w > 0 && cfg.limit > 0 && Ready(c, s, e, h, cfg, current, size, w, calls)
    requires current < cfg.follow
    requires b == ProcessBatch(s, e, h, cfg, current, size, Answer(Window(c, current, Min(current + size, cfg.follow))))
    ensures calls > 0 && b.Next? && Ready(c, b.s, e, b.h, cfg, b.current, b.size, w, calls - 1)
  {
    var stride, gap := Stride(cfg.limit, w), cfg.follow - current;
    BatchOk(c, s, e, h, cfg, current, size);
    HalvingsMonotone(Grow(cfg, size), cfg.limit, w);
    if size < gap {
      Advanced(gap, stride, Halvings(cfg.limit, w), Halvings(size, w), size, Halvings(Grow(cfg, size), w));
    }
  }

  lemma NextRound(c: seq<Log>, s: State, e: Env, h: Headers, cfg: Config, current: nat, size: nat, p: Provider,
                  n: nat, w: nat, calls: nat) returns (b: Batch)
    requires ValidChain(c) && Serves(p, c, w) && w > 0 && cfg.limit > 0
    requires Ready(c, s, e, h, cfg, current, size, w, calls) && current < cfg.follow
    ensures b == Round(s, e, h, cfg, current, size, p, n)
    ensures calls > 0 && b.Next? && Ready(c, b.s, e, b.h, cfg, b.current, b.size, w, calls - 1)
  {
    b := Round(s, e, h, cfg, current, size, p, n);
    if Min(current + size, cfg.follow) - current > w {
      RefusedRound(c, s, e, h, cfg, current, size, p, n, w);
      RefusedStaysReady(c, s, e, h, cfg, current, size, w, calls);
    } else {
      AnsweredStaysReady(c, s, e, h, cfg, current, size, w, calls, b);
    }
  }

  lemma {:induction false} LoopEnds(c: seq<Log>, s: State, e: Env, h: Headers, cfg: Config, current: nat, size: nat,
                                   p: Provider, n: nat, w: nat, calls: nat)
    requires ValidChain(c) && Serves(p, c, w) && w > 0 && cfg.limit > 0
    requires Ready(c, s, e, h, cfg, current, size, w, calls)
    ensures CatchUpFrom(s, e, h, cfg, current, size, p, n, calls).Done?
    decreases calls
  {
    if current < cfg.follow {
      var b := NextRound(c, s, e, h, cfg, current, size, p, n, w, calls);
      LoopEnds(c, b.s, e, b.h, cfg, b.current, b.size, p, n + 1, w, calls - 1);
    }
  }

  /** Where a client serves single blocks only, or the window is of size zero for good, no round moves on. */
  lemma {:induction false} NeverMoves(c: seq<Log>, s: State, e: Env, h: Headers, cfg: Config, current: nat, size: nat,
                                     p: Provider, n: nat, calls: nat, w: nat)
    requires Serves(p, c, w) && current < cfg.follow && (w == 0 || (cfg.limit == 0 && size == 0))
    ensures CatchUpFrom(s, e, h, cfg, current, size, p, n, calls).Failure?
    decreases calls
  {
    if calls > 0 {
      var b := Round(s, e, h, cfg, current, size, p, n);
      if b.Next? {
        assert b.current == current;
        NeverMoves(c, b.s, e, b.h, cfg, current, b.size, p, n + 1, calls - 1, w);
      }
    }
  }

  /** The calls that are enough for a whole catch-up. */
  function CallsEnough(gap: nat, limit: nat, w: nat): nat {
    if limit == 0 || w == 0 then 0 else Rounds(gap, Stride(limit, w)) * (1 + Halvings(limit, w))
  }

  /** Against a client that refuses windows wider than w, with headers that arrive and saves that succeed, a catch-up
      returns without error within a number of client calls that depends on the gap, the limit and w only; exactly if
      neither w nor the limit is zero. Otherwise it never does. */
  lemma CatchUpEndsIff(c: seq<Log>, s: State, e: Env, tape: seq<HeaderReply>, cfg: Config, deployment: nat, p: Provider,
                       calls: nat, w: nat)
    requires ValidChain(c) && Serves(p, c, w) && Resumable(c, s, deployment) && SavesSucceed(s, e)
    requires StartBlock(s, deployment) < cfg.follow && Generous(tape, StartBlock(s, deployment), cfg.follow)
    requires w > 0 && cfg.limit > 0 && !s.started ==>
               Rounds(cfg.follow - StartBlock(s, deployment), Stride(cfg.limit, w)) <= |tape|
    requires calls >= CallsEnough(cfg.follow - StartBlock(s, deployment), cfg.limit, w)
    ensures CatchUp(s, e, tape, cfg, deployment, p, calls).Done? <==> w > 0 && cfg.limit > 0
  {
    var start, h := StartBlock(s, deployment), Headers({}, tape);
    if w > 0 && cfg.limit > 0 {
      EnoughIs(cfg.follow - start, Stride(cfg.limit, w), Halvings(cfg.limit, w));
      LoopEnds(c, s, e, h, cfg, start, cfg.limit, p, 0, w, calls);
    } else {
      NeverMoves(c, s, e, h, cfg, start, cfg.limit, p, 0, calls, w);
    }
  }

  // ----- The size of the window -----

  /** Where the loop is after k rounds, if none of them stopped it. */
  function After(s: State, e: Env, h: Headers, cfg: Config, current: nat, size: nat, p: Provider, n: nat, k: nat): Batch
    decreases k
  {
    if k == 0 then Next(s, h, current, size)
    else
      var b := Round(s, e, h, cfg, current, size, p, n);
      if b.Stopped? then b else After(b.s, e, b.h, cfg, b.current, b.size, p, n + 1, k - 1)
  }

  function Halved(size: nat, k: nat): nat {
    if k == 0 then size else Halved(size, k - 1) / 2
  }

  lemma {:induction false} HalvedFirst(size: nat, k: nat)
    ensures Halved(size / 2, k) == Halved(size, k + 1)
  {
    if k > 0 {
      HalvedFirst(size, k - 1);
    }
  }

  /** Refusals halve the window and change nothing else; one that is refused at size zero is given up. */
  lemma {:induction false} RefusalsHalve(s: State, e: Env, h: Headers, cfg: Config, current: nat, size: nat,
                                        p: Provider, n: nat, k: nat)
    requires forall j: nat, a: nat, b: nat :: n <= j < n + k ==> p(j, a, b) == TooMuchData
    ensures After(s, e, h, cfg, current, size, p, n, k)
         == if k == 0 || Halved(size, k - 1) > 0 then Next(s, h, current, Halved(size, k)) else Stopped(s, h)
    decreases k
  {
    if k > 0 {
      if size > 0 {
        RefusalsHalve(s, e, h, cfg, current, size / 2, p, n + 1, k - 1);
        HalvedFirst(size, k - 1);
        if k > 1 {
          HalvedFirst(size, k - 2);
        }
      } else {
        HalvedZero(k - 1);
      }
    }
  }

  lemma {:induction false} HalvedZero(k: nat)
    ensures Halved(0, k) == 0
  {
    if k > 0 {
      HalvedZero(k - 1);
    }
  }

  /** An error other than too much data ends the catch-up at once, also after refusals, and leaves the service as it
      was. */
  lemma {:induction false} OtherErrorEnds(s: State, e: Env, h: Headers, cfg: Config, current: nat, size: nat,
                                         p: Provider, n: nat, last: nat, calls: nat)
    requires n <= last && forall j: nat, a: nat, b: nat :: n <= j < last ==> p(j, a, b) == TooMuchData
    requires (forall a: nat, b: nat :: p(last, a, b) == Failed) && current < cfg.follow
    ensures CatchUpFrom(s, e, h, cfg, current, size, p, n, calls) == Failure(s)
    decreases last - n
  {
    if calls > 0 && n < last && size > 0 {
      OtherErrorEnds(s, e, h, cfg, current, size / 2, p, n + 1, last, calls - 1);
    }
  }

  /** The window's size after k answers in a row, and the blocks they span. */
  function Grown(size: nat, additive: nat, limit: nat, k: nat): nat {
    Min(size + k * additive, limit)
  }

  function Span(size: nat, additive: nat, limit: nat, k: nat): nat
    decreases k
  {
    if k == 0 then 0 else size + Span(Grown(size, additive, limit, 1), additive, limit, k - 1)
  }

  lemma GrownFirst(size: nat, additive: nat, limit: nat, k: nat)
    requires k > 0
    ensures Grown(Grown(size, additive, limit, 1), additive, limit, k - 1) == Grown(size, additive, limit, k)
  {
    assert k * additive == (k - 1) * additive + additive;
  }

  /** Answers grow the window by the additive step, up to the limit, and each moves on by the window's size at the
      time, up to the follow height. */
  lemma {:induction false} AnswersGrow(s: State, e: Env, h: Headers, cfg: Config, current: nat, size: nat, p: Provider,
                                      n: nat, k: nat)
    requires forall j: nat, a: nat, b: nat :: n <= j < n + k ==> p(j, a, b).Answer?
    requires size <= cfg.limit && current <= cfg.follow && After(s, e, h, cfg, current, size, p, n, k).Next?
    ensures var r := After(s, e, h, cfg, current, size, p, n, k);
            && r.size == Grown(size, cfg.additive, cfg.limit, k)
            && r.current == Min(current + Span(size, cfg.additive, cfg.limit, k), cfg.follow)
    decreases k
  {
    if k > 0 {
      var b := Round(s, e, h, cfg, current, size, p, n);
      AnsweredRound(s, e, h, cfg, current, size, p, n);
      AnswersGrow(b.s, e, b.h, cfg, b.current, b.size, p, n + 1, k - 1);
      GrownFirst(size, cfg.additive, cfg.limit, k);
    }
  }

  lemma AnsweredRound(s: State, e: Env, h: Headers, cfg: Config, current: nat, size: nat, p: Provider, n: nat)
    requires p(n, current, Min(current + size, cfg.follow)).Answer? && size <= cfg.limit
    requires Round(s, e, h, cfg, current, size, p, n).Next?
    ensures var b := Round(s, e, h, cfg, current, size, p, n);
            b.size == Grown(size, cfg.additive, cfg.limit, 1) && b.current == Min(current + size, cfg.follow)
  {
  }

  /** None of the first k rounds starts at the follow height. */
  predicate Below(s: State, e: Env, h: Headers, cfg: Config, current: nat, size: nat, p: Provider, n: nat, k: nat)
    decreases k
  {
    k == 0 ||
    var b := Round(s, e, h, cfg, current, size, p, n);
    current < cfg.follow && (b.Next? ==> Below(b.s, e, b.h, cfg, b.current, b.size, p, n + 1, k - 1))
  }

  /** The loop is its rounds. */
  lemma {:induction false} AfterIs(s: State, e: Env, h: Headers, cfg: Config, current: nat, size: nat, p: Provider,
                                  n: nat, k: nat, calls: nat, r: Batch, all: Outcome)
    requires k <= calls && Below(s, e, h, cfg, current, size, p, n, k)
    requires r == After(s, e, h, cfg, current, size, p, n, k)
    requires all == CatchUpFrom(s, e, h, cfg, current, size, p, n, calls)
    ensures all == if r.Stopped? then Failure(r.s)
                   else CatchUpFrom(r.s, e, r.h, cfg, r.current, r.size, p, n + k, calls - k)
    decreases k
  {
    if k > 0 {
      var b := Round(s, e, h, cfg, current, size, p, n);
      if b.Next? {
        AfterIs(b.s, e, b.h, cfg, b.current, b.size, p, n + 1, k - 1, calls - 1, r, all);
      }
    }
  }

  // ----- What is asked of the client -----

  /** The clients answer alike for the windows from `lo` on that end no later than `hi`. */
  ghost predicate SameWithin(p: Provider, q: Provider, lo: nat, hi: nat) {
    forall n: nat, a: nat, b: nat :: lo <= a <= b <= hi ==> p(n, a, b) == q(n, a, b)
  }

  lemma {:induction false} LoopAsksWithin(s: State, e: Env, h: Headers, cfg: Config, current: nat, size: nat,
                                         p: Provider, q: Provider, n: nat, calls: nat, lo: nat)
    requires lo <= current && SameWithin(p, q, lo, cfg.follow)
    ensures CatchUpFrom(s, e, h, cfg, current, size, p, n, calls)
         == CatchUpFrom(s, e, h, cfg, current, size, q, n, calls)
    decreases calls
  {
    if current < cfg.follow && calls > 0 {
      var b := Round(s, e, h, cfg, current, size, p, n);
      assert b == Round(s, e, h, cfg, current, size, q, n);
      if b.Next? {
        LoopAsksWithin(b.s, e, b.h, cfg, b.current, b.size, p, q, n + 1, calls - 1, lo);
      }
    }
  }

  /** A catch-up asks for no block before the contract's deployment, before the last requested one, or after the follow
      height: what a client would say about those makes no difference. */
  lemma AsksWithin(s: State, e: Env, tape: seq<HeaderReply>, cfg: Config, deployment: nat, p: Provider, q: Provider,
                   calls: nat, lo: nat)
    requires lo <= deployment || lo <= s.lastRequested
    requires SameWithin(p, q, lo, cfg.follow)
    ensures CatchUp(s, e, tape, cfg, deployment, p, calls) == CatchUp(s, e, tape, cfg, deployment, q, calls)
  {
    LoopAsksWithin(s, e, Headers({}, tape), cfg, StartBlock(s, deployment), cfg.limit, p, q, 0, calls, lo);
  }

  // ----- The last requested block -----

  /** A window that is stopped by a log, all headers being at hand, leaves the last requested block as it was. */
  lemma {:induction false} FailedLogResets(s: State, e: Env, h: Headers, current: nat, lastReq: nat, logs: seq<Log>,
                                          end: nat)
    requires Covered(s, h, current, end) && !ScanLogs(s, e, h, current, lastReq, logs).ok
    requires forall k :: 0 <= k < |logs| ==> logs[k].block <= end
    ensures ScanLogs(s, e, h, current, lastReq, logs).s.lastRequested == lastReq
    decreases |logs|
  {
    var log := logs[0];
    CheckOk(s, e, h, current, log.block - 1);
    var r := ScanLog(s, e, h, current, lastReq, log);
    if r.ok {
      StaysCovered(s, e, h, current, lastReq, log, end);
      FailedLogResets(r.s, e, r.h, r.current, lastReq, logs[1..], end);
    }
  }

  lemma StaysCovered(s: State, e: Env, h: Headers, current: nat, lastReq: nat, log: Log, end: nat)
    requires Covered(s, h, current, end) && log.block <= end
    ensures var r := ScanLog(s, e, h, current, lastReq, log); r.h == h && Covered(r.s, h, r.current, end)
  {
    CheckOk(s, e, h, current, log.block - 1);
  }

  predicate HasBlock(logs: seq<Log>, b: nat) {
    exists k :: 0 <= k < |logs| && logs[k].block == b
  }

  /** The last block before `last` that has been scanned: `current`, or a log's. */
  predicate IsPrevious(b: nat, last: nat, current: nat, logs: seq<Log>) {
    && current <= b < last && (b == current || HasBlock(logs, b))
    && forall k :: 0 <= k < |logs| && logs[k].block < last ==> logs[k].block <= b
  }

  predicate BlocksRise(logs: seq<Log>, from: nat) {
    logs == [] || (from <= logs[0].block && BlocksRise(logs[1..], logs[0].block))
  }

  lemma {:induction false} RiseFrom(logs: seq<Log>, from: nat)
    requires BlocksRise(logs, from)
    ensures forall k :: 0 <= k < |logs| ==> from <= logs[k].block <= logs[|logs| - 1].block
  {
    if logs != [] {
      RiseFrom(logs[1..], logs[0].block);
      assert forall k :: 0 < k < |logs| ==> logs[k] == logs[1..][k - 1];
    }
  }

  function LastBlock(logs: seq<Log>, current: nat): nat {
    if logs == [] then current else Max(current, logs[|logs| - 1].block)
  }

  /** A scan that succeeds has moved to the last log's block and noted the block with logs before it, or the window's
      first; without a later block it has noted nothing. */
  lemma {:induction false} ScanNotes(s: State, e: Env, h: Headers, current: nat, lastReq: nat, logs: seq<Log>,
                                    from: nat, r: Scanned)
    requires Consistent(s) && r == ScanLogs(s, e, h, current, lastReq, logs) && r.ok && BlocksRise(logs, from)
    ensures r.current == LastBlock(logs, current)
    ensures r.current == current ==> r.s.lastRequested == s.lastRequested
    ensures r.current > current ==> IsPrevious(r.s.lastRequested, r.current, current, logs)
    decreases |logs|
  {
    if logs != [] {
      var one := ScanLog(s, e, h, current, lastReq, logs[0]);
      LogNotes(s, e, h, current, lastReq, logs[0]);
      ScanNotes(one.s, e, one.h, one.current, lastReq, logs[1..], logs[0].block, r);
      NotesFirst(current, logs, one.s.lastRequested, r.current, r.s.lastRequested);
    }
  }

  lemma LogNotes(s: State, e: Env, h: Headers, current: nat, lastReq: nat, log: Log)
    requires Consistent(s) && ScanLog(s, e, h, current, lastReq, log).ok
    ensures var r := ScanLog(s, e, h, current, lastReq, log);
            && Consistent(r.s) && r.current == Max(current, log.block)
            && r.s.lastRequested == if log.block > current then current else s.lastRequested
  {
    CheckKeeps(s, e, h, current, log.block - 1);
    ScanLogKeeps(s, e, h, current, lastReq, log, []);
  }

  lemma NotesFirst(current: nat, logs: seq<Log>, noted: nat, last: nat, previous: nat)
    requires logs != [] && BlocksRise(logs[1..], logs[0].block)
    requires logs[0].block > current ==> noted == current
    requires var now := Max(current, logs[0].block);
             && last == LastBlock(logs[1..], now) && (last == now ==> previous == noted)
             && (last > now ==> IsPrevious(previous, last, now, logs[1..]))
    ensures last == LastBlock(logs, current)
    ensures last > current ==> IsPrevious(previous, last, current, logs)
  {
    RiseFrom(logs[1..], logs[0].block);
    var rest, now := logs[1..], Max(current, logs[0].block);
    assert forall k :: 0 < k < |logs| ==> logs[k] == rest[k - 1];
    if last > now && HasBlock(rest, previous) {
      var k :| 0 <= k < |rest| && rest[k].block == previous;
      assert logs[k + 1].block == previous;
    }
  }
}

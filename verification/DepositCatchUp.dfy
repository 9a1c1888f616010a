/** What a catch-up achieves: deposits enter the trie exactly once and in order, and chain start is
    announced at the first block that deserves it, whatever the batch boundaries were. */
module DepositCatchUp {
  import opened DepositLogs

  // ----- The chain, as the deposit contract emitted it -----

  function Deposits(logs: seq<Log>): (r: seq<Data>)
    ensures |r| <= |logs|
  {
    if logs == [] then []
    else
      var last := logs[|logs| - 1];
      Deposits(logs[..|logs| - 1]) + if last.Deposit? then [last.data] else []
  }

  /** Blocks in order, deposit indices counting up from zero, everything decodable. */
  ghost predicate ValidChain(c: seq<Log>) {
    && (forall i, j :: 0 <= i <= j < |c| ==> c[i].block <= c[j].block)
    && (forall i {:trigger Deposits(c[..i])} :: 0 <= i < |c| ==>
          !c[i].Garbled? && (c[i].Deposit? ==> c[i].index == |Deposits(c[..i])|))
  }

  /** How many logs are in blocks before `b`. */
  function Before(c: seq<Log>, b: nat): (r: nat)
    ensures r <= |c|
  {
    if c == [] then 0
    else if c[|c| - 1].block < b then |c|
    else Before(c[..|c| - 1], b)
  }

  /** The deposits made in blocks up to and including `b`. */
  function Through(c: seq<Log>, b: nat): seq<Data> { Deposits(c[..Before(c, b + 1)]) }

  lemma {:induction false} BeforeSpec(c: seq<Log>, b: nat)
    requires forall i, j :: 0 <= i <= j < |c| ==> c[i].block <= c[j].block
    ensures forall i :: 0 <= i < |c| ==> (c[i].block < b <==> i < Before(c, b))
  {
    if c != [] && c[|c| - 1].block >= b {
      BeforeSpec(c[..|c| - 1], b);
    }
  }

  /** The count is `j` when exactly the first `j` logs are in blocks before `b`. */
  lemma BeforeIs(c: seq<Log>, b: nat, j: nat)
    requires ValidChain(c) && j <= |c|
    requires j > 0 ==> c[j - 1].block < b
    requires j < |c| ==> c[j].block >= b
    ensures Before(c, b) == j
  {
    BeforeSpec(c, b);
  }

  lemma BeforeMonotone(c: seq<Log>, a: nat, b: nat)
    requires ValidChain(c) && a <= b
    ensures Before(c, a) <= Before(c, b)
  {
    BeforeSpec(c, a);
    BeforeSpec(c, b);
    if Before(c, b) < |c| { assert c[Before(c, b)].block >= b; }
  }

  lemma {:induction false} DepositsPrefix(c: seq<Log>, i: nat, j: nat)
    requires i <= j <= |c|
    ensures Deposits(c[..i]) <= Deposits(c[..j])
    decreases j
  {
    if i < j {
      assert c[..j][..j - 1] == c[..j - 1];
      DepositsPrefix(c, i, j - 1);
    }
  }

  /** eth_getLogs for an inclusive range of blocks. */
  function Window(c: seq<Log>, a: nat, b: nat): seq<Log> {
    var lo, hi := Before(c, a), Before(c, b + 1);
    if lo <= hi then c[lo..hi] else []
  }

  /** The true logs, or a list that is true up to a log that arrived undecodable. */
  ghost predicate Faithful(logs: seq<Log>, w: seq<Log>) {
    || logs == w
    || exists j :: 0 <= j < |logs| && j < |w| && logs[..j] == w[..j] && logs[j] == Garbled(w[j].block)
  }

  /** A client may refuse or fail any query, but what it answers is faithful. */
  ghost predicate Honest(p: Provider, c: seq<Log>) {
    forall n, a, b :: p(n, a, b).Answer? ==> Faithful(p(n, a, b).logs, Window(c, a, b))
  }

  // ----- What every reply whatsoever keeps -----

  /** The index counter, the trie and the chain-start record agree. */
  ghost predicate Consistent(s: State) {
    && s.lastIndex + 1 == |s.trie|
    && (!s.started ==> s.startDeposits == s.trie && s.feed == [])
    && (s.started ==> s.startDeposits <= s.trie && s.feed == [s.genesisBlock])
  }

  /** Deposits only get appended, and an announced genesis is final. */
  ghost predicate Extends(s: State, s': State) {
    && s.trie <= s'.trie
    && (s.started ==> s'.started && s'.genesisBlock == s.genesisBlock && s'.startDeposits == s.startDeposits)
  }

  /** No deposit content is invented; logs may still be missing, repeated or out of order. */
  ghost predicate Genuine(logs: seq<Log>, D: seq<Data>) {
    forall i :: 0 <= i < |logs| ==> GenuineLog(logs[i], D)
  }

  ghost predicate GenuineLog(log: Log, D: seq<Data>) {
    log.Deposit? ==> 0 <= log.index < |D| && log.data == D[log.index]
  }

  lemma ProcessLogKeeps(s: State, e: Env, log: Log, D: seq<Data>)
    requires Consistent(s)
    ensures Consistent(ProcessLog(s, e, log).0) && Extends(s, ProcessLog(s, e, log).0)
    ensures s.trie <= D && GenuineLog(log, D) ==> ProcessLog(s, e, log).0.trie <= D
  {
  }

  /** The defensive check of the trie's size, in states that are not consistent: the deposit is refused with its index
      taken, and a service whose trie is short refuses every new deposit from then on. */
  lemma MismatchRefused(s: State, e: Env, log: Log)
    requires log.Deposit? && log.index > s.lastIndex && |s.trie| != s.lastIndex + 1
    ensures var (r, ok) := ProcessLog(s, e, log);
            && !ok && r.trie == s.trie && (|s.trie| <= s.lastIndex ==> |r.trie| <= r.lastIndex)
            && r.lastIndex == s.lastIndex + if log.index == s.lastIndex + 1 then 1 else 0
  {
  }

  lemma {:induction false} CheckKeeps(s: State, e: Env, h: Headers, i: nat, end: int)
    requires Consistent(s)
    ensures var r := CheckHeaderRange(s, e, h, i, end);
            Consistent(r.s) && Extends(s, r.s) && r.s.trie == s.trie && r.s.lastRequested == s.lastRequested
    decreases |h.tape|, end + 1 - i
  {
    if i > end {
    } else if s.started || i in h.have {
      CheckKeeps(CheckBlock(s, e, i), e, h, i + 1, end);
    } else if h.tape != [] && h.tape[0].GotHeaders? {
      CheckKeeps(s, e, Headers(h.have + h.tape[0].got, h.tape[1..]), i, end);
    }
  }

  lemma ScanLogKeeps(s: State, e: Env, h: Headers, current: nat, lastReq: nat, log: Log, D: seq<Data>)
    requires Consistent(s)
    ensures var r := ScanLog(s, e, h, current, lastReq, log);
            && Consistent(r.s) && Extends(s, r.s)
            && (s.trie <= D && GenuineLog(log, D) ==> r.s.trie <= D)
  {
    if log.block > current {
      CheckKeeps(s, e, h, current, log.block - 1);
      ProcessLogKeeps(CheckHeaderRange(s, e, h, current, log.block - 1).s.(lastRequested := current), e, log, D);
    } else {
      ProcessLogKeeps(s, e, log, D);
    }
  }

  lemma {:induction false} ScanKeeps(s: State, e: Env, h: Headers, current: nat, lastReq: nat,
                                     logs: seq<Log>, D: seq<Data>)
    requires Consistent(s)
    ensures var r := ScanLogs(s, e, h, current, lastReq, logs);
            && Consistent(r.s) && Extends(s, r.s)
            && (s.trie <= D && Genuine(logs, D) ==> r.s.trie <= D)
    decreases |logs|
  {
    if logs != [] {
      ScanLogKeeps(s, e, h, current, lastReq, logs[0], D);
      var r := ScanLog(s, e, h, current, lastReq, logs[0]);
      ScanKeeps(r.s, e, r.h, r.current, lastReq, logs[1..], D);
    }
  }

  lemma WindowKeeps(s: State, e: Env, h: Headers, current: nat, end: nat, logs: seq<Log>, D: seq<Data>)
    requires Consistent(s)
    ensures var w := ProcessWindow(s, e, h, current, end, logs);
            && Consistent(w.s) && Extends(s, w.s)
            && (s.trie <= D && Genuine(logs, D) ==> w.s.trie <= D)
  {
    ScanKeeps(s, e, h, current, s.lastRequested, logs, D);
    var r := ScanLogs(s, e, h, current, s.lastRequested, logs);
    CheckKeeps(r.s, e, r.h, r.current, end);
  }

  lemma BatchKeeps(s: State, e: Env, h: Headers, cfg: Config, current: nat, size: nat, reply: Reply, D: seq<Data>)
    requires Consistent(s)
    ensures var r := ProcessBatch(s, e, h, cfg, current, size, reply);
            && Consistent(r.s) && Extends(s, r.s)
            && (s.trie <= D && (reply.Answer? ==> Genuine(reply.logs, D)) ==> r.s.trie <= D)
  {
    if reply.Answer? && (s.started || (h.tape != [] && h.tape[0].GotHeaders?)) {
      var h1 := if s.started then h else Headers(h.have + h.tape[0].got, h.tape[1..]);
      WindowKeeps(s, e, h1, current, Min(current + size, cfg.follow), reply.logs, D);
    }
  }

  ghost predicate GenuineProvider(p: Provider, D: seq<Data>) {
    forall n, a, b :: p(n, a, b).Answer? ==> Genuine(p(n, a, b).logs, D)
  }

  /** Whatever the client answers, success or failure, the trie's size is the next expected index,
      no deposit is removed or reordered, and chain start is announced at most once. If the client invents nothing, the
      trie is a prefix of the contract's deposits. */
  lemma {:induction false} CatchUpKeeps(s: State, e: Env, h: Headers, cfg: Config, current: nat, size: nat,
                                        p: Provider, n: nat, calls: nat, D: seq<Data>)
    requires Consistent(s)
    ensures var r := CatchUpFrom(s, e, h, cfg, current, size, p, n, calls);
            && Consistent(r.s) && Extends(s, r.s)
            && (s.trie <= D && GenuineProvider(p, D) ==> r.s.trie <= D)
    decreases calls
  {
    if current < cfg.follow && calls > 0 {
      var reply := p(n, current, Min(current + size, cfg.follow));
      BatchKeeps(s, e, h, cfg, current, size, reply, D);
      var b := ProcessBatch(s, e, h, cfg, current, size, reply);
      if b.Next? {
        CatchUpKeeps(b.s, e, b.h, cfg, b.current, b.size, p, n + 1, calls - 1, D);
      }
    }
  }

  // ----- Success with a faithful client: the deposits -----

  /** The trie is a prefix of the contract's deposits and contains at least those of `c[..j]`. */
  ghost predicate HasUpTo(c: seq<Log>, s: State, j: nat)
    requires j <= |c|
  {
    Consistent(s) && s.trie <= Deposits(c) && |Deposits(c[..j])| <= |s.trie|
  }

  /** The state's trie after also taking in `c[..j]`. */
  ghost predicate Took(c: seq<Log>, s: State, s': State, j: nat)
    requires j <= |c|
  {
    Consistent(s') && s'.trie == Longer(s.trie, Deposits(c[..j]))
  }

  function Longer(x: seq<Data>, y: seq<Data>): seq<Data> { if |x| >= |y| then x else y }

  lemma TookHas(c: seq<Log>, s: State, s': State, i: nat, j: nat)
    requires i <= j <= |c| && s.trie <= Deposits(c) && Took(c, s, s', j)
    ensures HasUpTo(c, s', i)
  {
    DepositsPrefix(c, i, j);
    DepositsPrefix(c, j, |c|);
    assert c[..|c|] == c;
  }

  lemma {:induction false} GarbledFails(s: State, e: Env, h: Headers, current: nat, lastReq: nat, logs: seq<Log>,
                                        j: nat)
    requires j < |logs| && logs[j].Garbled?
    ensures !ScanLogs(s, e, h, current, lastReq, logs).ok
    decreases |logs|
  {
    var r := ScanLog(s, e, h, current, lastReq, logs[0]);
    if j > 0 && r.ok {
      GarbledFails(r.s, e, r.h, r.current, lastReq, logs[1..], j - 1);
    }
  }

  /** One chain log: appended if it is the next deposit, skipped if it is already in. */
  lemma TakeLog(c: seq<Log>, s: State, e: Env, j: nat)
    requires ValidChain(c) && j < |c| && HasUpTo(c, s, j)
    ensures Took(c, s, ProcessLog(s, e, c[j]).0, j + 1)
  {
    assert c[..j + 1][..j] == c[..j];
    DepositsPrefix(c, j, |c|);
    DepositsPrefix(c, j + 1, |c|);
    assert c[..|c|] == c;
    ProcessLogKeeps(s, e, c[j], Deposits(c));
  }

  lemma TookTwice(c: seq<Log>, s: State, s1: State, s2: State, i: nat, j: nat)
    requires i <= j <= |c| && Took(c, s, s1, i) && Took(c, s1, s2, j)
    ensures Took(c, s, s2, j)
  {
    DepositsPrefix(c, i, j);
  }

  lemma ScanLogTakes(c: seq<Log>, s: State, e: Env, h: Headers, current: nat, lastReq: nat, j: nat)
    requires ValidChain(c) && j < |c| && HasUpTo(c, s, j)
    ensures var r := ScanLog(s, e, h, current, lastReq, c[j]); r.ok ==> Took(c, s, r.s, j + 1)
  {
    if c[j].block > current {
      CheckKeeps(s, e, h, current, c[j].block - 1);
      TakeLog(c, CheckHeaderRange(s, e, h, current, c[j].block - 1).s.(lastRequested := current), e, j);
    } else {
      TakeLog(c, s, e, j);
    }
  }

  /** Scanning a stretch of the chain is scanning its first log and then the rest. */
  lemma ScanSplit(c: seq<Log>, s: State, e: Env, h: Headers, current: nat, lastReq: nat, j: nat, hi: nat)
    requires j < hi <= |c|
    ensures var r := ScanLog(s, e, h, current, lastReq, c[j]);
            ScanLogs(s, e, h, current, lastReq, c[j..hi]) ==
            if r.ok then ScanLogs(r.s, e, r.h, r.current, lastReq, c[j + 1..hi]) else r
  {
    assert c[j..hi][0] == c[j] && c[j..hi][1..] == c[j + 1..hi];
  }

  lemma {:induction false} ScanTakes(c: seq<Log>, s: State, e: Env, h: Headers, current: nat, lastReq: nat,
                                     j: nat, hi: nat)
    requires ValidChain(c) && j <= hi <= |c| && HasUpTo(c, s, j)
    ensures var r := ScanLogs(s, e, h, current, lastReq, c[j..hi]); r.ok ==> Took(c, s, r.s, hi)
    decreases hi - j
  {
    if j < hi {
      ScanSplit(c, s, e, h, current, lastReq, j, hi);
      ScanLogTakes(c, s, e, h, current, lastReq, j);
      var r := ScanLog(s, e, h, current, lastReq, c[j]);
      if r.ok {
        TookHas(c, s, r.s, j + 1, j + 1);
        ScanTakes(c, r.s, e, r.h, r.current, lastReq, j + 1, hi);
        var q := ScanLogs(r.s, e, r.h, r.current, lastReq, c[j + 1..hi]);
        if q.ok { TookTwice(c, s, r.s, q.s, j + 1, hi); }
      }
    }
  }

  /** A batch that advances has processed the window's true logs. */
  lemma BatchLogs(c: seq<Log>, s: State, e: Env, h: Headers, cfg: Config, current: nat, size: nat, reply: Reply)
    requires ValidChain(c) && current <= cfg.follow
    requires reply.Answer? ==> Faithful(reply.logs, Window(c, current, Min(current + size, cfg.follow)))
    requires reply.Answer? && ProcessBatch(s, e, h, cfg, current, size, reply).Next?
    ensures var end := Min(current + size, cfg.follow);
            && Before(c, current) <= Before(c, end + 1)
            && reply.logs == c[Before(c, current)..Before(c, end + 1)]
  {
    var end := Min(current + size, cfg.follow);
    BeforeMonotone(c, current, end + 1);
    var w := Window(c, current, end);
    if reply.logs != w {
      var j :| 0 <= j < |reply.logs| && j < |w| && reply.logs[..j] == w[..j] && reply.logs[j] == Garbled(w[j].block);
      var h1 := if s.started then h else Headers(h.have + h.tape[0].got, h.tape[1..]);
      GarbledFails(s, e, h1, current, s.lastRequested, reply.logs, j);
    }
  }

  lemma WindowTakes(c: seq<Log>, s: State, e: Env, h: Headers, current: nat, end: nat, logs: seq<Log>)
    requires ValidChain(c) && HasUpTo(c, s, Before(c, current)) && Before(c, current) <= Before(c, end + 1)
    requires logs == c[Before(c, current)..Before(c, end + 1)]
    ensures var w := ProcessWindow(s, e, h, current, end, logs); w.ok ==> Took(c, s, w.s, Before(c, end + 1))
  {
    ScanTakes(c, s, e, h, current, s.lastRequested, Before(c, current), Before(c, end + 1));
    var r := ScanLogs(s, e, h, current, s.lastRequested, logs);
    if r.ok { CheckKeeps(r.s, e, r.h, r.current, end); }
  }

  /** A batch that advances on an answer is its window, with the headers asked for first. */
  lemma BatchWindow(s: State, e: Env, h: Headers, cfg: Config, current: nat, size: nat, reply: Reply)
    returns (h1: Headers)
    requires reply.Answer? && ProcessBatch(s, e, h, cfg, current, size, reply).Next?
    ensures var b := ProcessBatch(s, e, h, cfg, current, size, reply);
            var w := ProcessWindow(s, e, h1, current, b.current, reply.logs);
            w.ok && b.s == w.s && b.current == Min(current + size, cfg.follow)
  {
    h1 := if s.started then h else Headers(h.have + h.tape[0].got, h.tape[1..]);
  }

  lemma BatchTakes(c: seq<Log>, s: State, e: Env, h: Headers, cfg: Config, current: nat, size: nat, reply: Reply)
    requires ValidChain(c) && current <= cfg.follow && HasUpTo(c, s, Before(c, current))
    requires reply.Answer? ==> Faithful(reply.logs, Window(c, current, Min(current + size, cfg.follow)))
    ensures var b := ProcessBatch(s, e, h, cfg, current, size, reply);
            b.Next? && reply.Answer? ==> Took(c, s, b.s, Before(c, b.current + 1))
  {
    var b := ProcessBatch(s, e, h, cfg, current, size, reply);
    if b.Next? && reply.Answer? {
      BatchLogs(c, s, e, h, cfg, current, size, reply);
      var h1 := BatchWindow(s, e, h, cfg, current, size, reply);
      WindowTakes(c, s, e, h1, current, b.current, reply.logs);
    }
  }

  lemma TookMore(c: seq<Log>, s: State, s1: State, s2: State, a: nat, b: nat)
    requires ValidChain(c) && a <= b && Took(c, s, s1, Before(c, a)) && Took(c, s1, s2, Before(c, b))
    ensures Took(c, s, s2, Before(c, b))
  {
    BeforeMonotone(c, a, b);
    TookTwice(c, s, s1, s2, Before(c, a), Before(c, b));
  }

  /** What every advancing round keeps holds, at some block past the follow height, when a catch-up
      is done; all that happens after that is the note of the last requested block. */
  lemma {:induction false} LoopRule(I: (State, nat) -> bool, s: State, e: Env, h: Headers, cfg: Config, current: nat,
                                    size: nat, p: Provider, n: nat, calls: nat)
    returns (last: State, block: nat)
    requires I(s, current) && CatchUpFrom(s, e, h, cfg, current, size, p, n, calls).Done?
    requires forall s: State, h: Headers, current: nat, size: nat, n: nat
               {:trigger Round(s, e, h, cfg, current, size, p, n)} ::
               I(s, current) && current < cfg.follow && Round(s, e, h, cfg, current, size, p, n).Next? ==>
                 I(Round(s, e, h, cfg, current, size, p, n).s, Round(s, e, h, cfg, current, size, p, n).current)
    ensures I(last, block) && cfg.follow <= block
    ensures CatchUpFrom(s, e, h, cfg, current, size, p, n, calls).s == last.(lastRequested := block)
    decreases calls
  {
    if current >= cfg.follow {
      return s, current;
    }
    var b := Round(s, e, h, cfg, current, size, p, n);
    last, block := LoopRule(I, b.s, e, b.h, cfg, b.current, b.size, p, n + 1, calls - 1);
  }

  /** Having started from `s0` at `start`: nothing has moved yet, or all logs up to `current` are in. */
  ghost predicate TookFrom(c: seq<Log>, s0: State, start: nat, follow: nat, s: State, current: nat) {
    && current <= follow && HasUpTo(c, s, Before(c, current))
    && (if current == start then s.trie == s0.trie || Took(c, s0, s, Before(c, current + 1))
        else Took(c, s0, s, Before(c, current + 1)))
  }

  lemma RoundTakes(c: seq<Log>, s0: State, start: nat, s: State, e: Env, h: Headers, cfg: Config,
                   current: nat, size: nat, reply: Reply)
    requires ValidChain(c) && start <= current < cfg.follow && TookFrom(c, s0, start, cfg.follow, s, current)
    requires reply.Answer? ==> Faithful(reply.logs, Window(c, current, Min(current + size, cfg.follow)))
    ensures var b := ProcessBatch(s, e, h, cfg, current, size, reply);
            b.Next? ==> current <= b.current && TookFrom(c, s0, start, cfg.follow, b.s, b.current)
  {
    var b := ProcessBatch(s, e, h, cfg, current, size, reply);
    if !b.Next? {
    } else if reply.Answer? {
      BatchTakes(c, s, e, h, cfg, current, size, reply);
      TookStep(c, s0, start, s, current, b.s, b.current, cfg.follow);
    } else {
      assert b.s == s && b.current == current;
    }
  }

  lemma TookStep(c: seq<Log>, s0: State, start: nat, s: State, current: nat, s': State, next: nat, follow: nat)
    requires ValidChain(c) && current <= next <= follow && TookFrom(c, s0, start, follow, s, current)
    requires Took(c, s, s', Before(c, next + 1))
    ensures TookFrom(c, s0, start, follow, s', next)
  {
    BeforeMonotone(c, next, next + 1);
    TookHas(c, s, s', Before(c, next), Before(c, next + 1));
    if Took(c, s0, s, Before(c, current + 1)) {
      TookMore(c, s0, s, s', current + 1, next + 1);
    }
  }

  lemma RoundsTake(c: seq<Log>, s: State, start: nat, e: Env, cfg: Config, p: Provider)
    requires ValidChain(c) && Honest(p, c)
    ensures forall x: State, h: Headers, b: nat, size: nat, n: nat {:trigger Round(x, e, h, cfg, b, size, p, n)} ::
              start <= b && TookFrom(c, s, start, cfg.follow, x, b) && b < cfg.follow &&
              Round(x, e, h, cfg, b, size, p, n).Next? ==>
                var y := Round(x, e, h, cfg, b, size, p, n);
                start <= y.current && TookFrom(c, s, start, cfg.follow, y.s, y.current)
  {
    forall x: State, h: Headers, b: nat, size: nat, n: nat
      | start <= b && TookFrom(c, s, start, cfg.follow, x, b) && b < cfg.follow &&
        Round(x, e, h, cfg, b, size, p, n).Next?
      ensures var y := Round(x, e, h, cfg, b, size, p, n);
              start <= y.current && TookFrom(c, s, start, cfg.follow, y.s, y.current)
    {
      RoundTakes(c, s, start, x, e, h, cfg, b, size, p(n, b, Min(b + size, cfg.follow)));
    }
  }

  lemma DoneAfterRounds(c: seq<Log>, s: State, e: Env, h: Headers, cfg: Config, start: nat, p: Provider, calls: nat)
    returns (last: State, block: nat)
    requires ValidChain(c) && Honest(p, c) && TookFrom(c, s, start, cfg.follow, s, start)
    requires CatchUpFrom(s, e, h, cfg, start, cfg.limit, p, 0, calls).Done?
    ensures TookFrom(c, s, start, cfg.follow, last, block) && cfg.follow <= block
    ensures CatchUpFrom(s, e, h, cfg, start, cfg.limit, p, 0, calls).s == last.(lastRequested := block)
  {
    RoundsTake(c, s, start, e, cfg, p);
    last, block := LoopRule((x: State, b: nat) => start <= b && TookFrom(c, s, start, cfg.follow, x, b),
                            s, e, h, cfg, start, cfg.limit, p, 0, calls);
  }

  /** A catch-up that returns without error has put every deposit up to the follow height into the
      trie once and in order, whatever was in it before, however the window was cut, and however
      often the block shared by two windows was scanned; or it has made no round at all, because its
      start block was not below the follow height, and only noted that block. */
  lemma CatchUpTakes(c: seq<Log>, s: State, e: Env, h: Headers, cfg: Config, start: nat, p: Provider, calls: nat,
                     s': State)
    requires ValidChain(c) && Honest(p, c) && HasUpTo(c, s, Before(c, start))
    requires CatchUpFrom(s, e, h, cfg, start, cfg.limit, p, 0, calls) == Done(s')
    ensures start < cfg.follow ==> Took(c, s, s', Before(c, cfg.follow + 1)) && s'.lastRequested == cfg.follow
    ensures start >= cfg.follow ==> s' == s.(lastRequested := start)
  {
    if start < cfg.follow {
      var last, block := DoneAfterRounds(c, s, e, h, cfg, start, p, calls);
      TookAtEnd(c, s, start, cfg.follow, last, block);
    }
  }

  lemma TookAtEnd(c: seq<Log>, s: State, start: nat, follow: nat, last: State, block: nat)
    requires start < follow <= block && TookFrom(c, s, start, follow, last, block)
    ensures block == follow && Took(c, s, last.(lastRequested := block), Before(c, follow + 1))
  {
  }

  // ----- Success with a faithful client: chain start -----

  /** Blocks lo..hi have been checked, each against exactly the deposits made up to it. */
  ghost predicate Tracks(c: seq<Log>, e: Env, s: State, lo: nat, hi: int) {
    if s.started then
      && lo <= s.genesisBlock <= hi && e.ready(Through(c, s.genesisBlock), s.genesisBlock)
      && s.startDeposits == Through(c, s.genesisBlock)
      && forall b: nat :: lo <= b < s.genesisBlock ==> !e.ready(Through(c, b), b)
    else forall b: nat :: lo <= b <= hi ==> !e.ready(Through(c, b), b)
  }

  /** The blocks before `current` have been checked, and possibly `current` itself. */
  ghost predicate TracksNear(c: seq<Log>, e: Env, s: State, lo: nat, current: nat) {
    Tracks(c, e, s, lo, current - 1) || Tracks(c, e, s, lo, current)
  }

  lemma {:induction false} CheckTracks(c: seq<Log>, e: Env, s: State, h: Headers, i: nat, end: int, lo: nat, hi: int)
    requires Consistent(s) && lo <= i && i - 1 <= hi <= end && Tracks(c, e, s, lo, hi)
    requires !s.started ==> forall b: nat :: i <= b <= end ==> s.trie == Through(c, b)
    ensures var r := CheckHeaderRange(s, e, h, i, end); r.ok ==> Tracks(c, e, r.s, lo, end)
    decreases |h.tape|, end + 1 - i
  {
    if i > end {
    } else if s.started || i in h.have {
      CheckTracks(c, e, CheckBlock(s, e, i), h, i + 1, end, lo, if hi < i then i else hi);
    } else if h.tape != [] && h.tape[0].GotHeaders? {
      CheckTracks(c, e, s, Headers(h.have + h.tape[0].got, h.tape[1..]), i, end, lo, hi);
    }
  }

  /** `c[..j]` are logs of blocks up to `current`, and the state has not run ahead of `current`. */
  ghost predicate At(c: seq<Log>, s: State, j: nat, current: nat) {
    && j <= |c| && (j > 0 ==> c[j - 1].block <= current)
    && HasUpTo(c, s, j) && (!s.started ==> |s.trie| <= |Through(c, current)|)
  }

  /** Between the last processed log and the next one the trie is exactly what it should be. */
  lemma QuietBlocks(c: seq<Log>, s: State, j: nat, current: nat, end: int)
    requires ValidChain(c) && At(c, s, j, current) && !s.started && (j < |c| ==> c[j].block > end)
    ensures forall b: nat :: current <= b <= end ==> s.trie == Through(c, b)
  {
    forall b: nat | current <= b <= end ensures s.trie == Through(c, b) {
      BeforeIs(c, b + 1, j);
      BeforeIs(c, current + 1, j);
      DepositsPrefix(c, j, |c|);
      assert c[..|c|] == c;
    }
  }

  /** The header check before a log in a later block. */
  lemma GapTracks(c: seq<Log>, e: Env, s: State, h: Headers, current: nat, j: nat, lo: nat)
    requires ValidChain(c) && j < |c| && lo <= current < c[j].block
    requires At(c, s, j, current) && TracksNear(c, e, s, lo, current)
    ensures var k := CheckHeaderRange(s, e, h, current, c[j].block - 1);
            k.ok ==> Tracks(c, e, k.s, lo, c[j].block - 1) && Consistent(k.s)
  {
    CheckKeeps(s, e, h, current, c[j].block - 1);
    if !s.started { QuietBlocks(c, s, j, current, c[j].block - 1); }
    CheckTracks(c, e, s, h, current, c[j].block - 1, lo,
                if Tracks(c, e, s, lo, current - 1) then current - 1 else current);
  }

  /** Processing a log checks no block. */
  lemma LogTracks(c: seq<Log>, e: Env, s: State, log: Log, lo: nat, hi: int)
    requires Consistent(s) && Tracks(c, e, s, lo, hi)
    ensures Tracks(c, e, ProcessLog(s, e, log).0, lo, hi)
  {
  }

  lemma ScanLogTracks(c: seq<Log>, e: Env, s: State, h: Headers, current: nat, lastReq: nat, j: nat, lo: nat)
    requires ValidChain(c) && j < |c| && lo <= current && At(c, s, j, current) && TracksNear(c, e, s, lo, current)
    ensures var r := ScanLog(s, e, h, current, lastReq, c[j]);
            r.ok ==> r.current == Max(current, c[j].block) && TracksNear(c, e, r.s, lo, r.current)
  {
    if c[j].block > current {
      GapTracks(c, e, s, h, current, j, lo);
      var k := CheckHeaderRange(s, e, h, current, c[j].block - 1);
      if k.ok { LogTracks(c, e, k.s.(lastRequested := current), c[j], lo, c[j].block - 1); }
    } else {
      LogTracks(c, e, s, c[j], lo, if Tracks(c, e, s, lo, current - 1) then current - 1 else current);
    }
  }

  lemma ScanLogAt(c: seq<Log>, e: Env, s: State, h: Headers, current: nat, lastReq: nat, j: nat)
    requires ValidChain(c) && j < |c| && At(c, s, j, current)
    ensures var r := ScanLog(s, e, h, current, lastReq, c[j]); r.ok ==> At(c, r.s, j + 1, r.current)
  {
    var r := ScanLog(s, e, h, current, lastReq, c[j]);
    if r.ok {
      ScanLogTakes(c, s, e, h, current, lastReq, j);
      TookHas(c, s, r.s, j + 1, j + 1);
      ThroughGrows(c, j, current, r.current);
      ScanLogKeeps(s, e, h, current, lastReq, c[j], []);
    }
  }

  lemma ThroughGrows(c: seq<Log>, j: nat, current: nat, next: nat)
    requires ValidChain(c) && j < |c| && current <= next && c[j].block <= next
    ensures |Through(c, current)| <= |Through(c, next)|
    ensures |Deposits(c[..j + 1])| <= |Through(c, next)|
  {
    BeforeMonotone(c, current + 1, next + 1);
    DepositsPrefix(c, Before(c, current + 1), Before(c, next + 1));
    BeforeSpec(c, next + 1);
    DepositsPrefix(c, j + 1, Before(c, next + 1));
  }

  lemma {:induction false} ScanTracks(c: seq<Log>, e: Env, s: State, h: Headers, current: nat, lastReq: nat,
                                      j: nat, hi: nat, lo: nat, end: nat)
    requires ValidChain(c) && j <= hi <= |c| && lo <= current <= end
    requires At(c, s, j, current) && TracksNear(c, e, s, lo, current)
    requires hi > 0 ==> c[hi - 1].block <= end
    ensures var r := ScanLogs(s, e, h, current, lastReq, c[j..hi]);
            r.ok ==> current <= r.current <= end && At(c, r.s, hi, r.current) && TracksNear(c, e, r.s, lo, r.current)
    decreases hi - j
  {
    if j < hi {
      ScanSplit(c, s, e, h, current, lastReq, j, hi);
      assert c[j].block <= c[hi - 1].block;
      ScanLogTracks(c, e, s, h, current, lastReq, j, lo);
      ScanLogAt(c, e, s, h, current, lastReq, j);
      var r := ScanLog(s, e, h, current, lastReq, c[j]);
      if r.ok {
        ScanTracks(c, e, r.s, r.h, r.current, lastReq, j + 1, hi, lo, end);
      }
    }
  }

  lemma WindowTracks(c: seq<Log>, e: Env, s: State, h: Headers, current: nat, end: nat, logs: seq<Log>, lo: nat)
    requires ValidChain(c) && lo <= current <= end && Before(c, current) <= Before(c, end + 1)
    requires logs == c[Before(c, current)..Before(c, end + 1)]
    requires At(c, s, Before(c, current), current) && TracksNear(c, e, s, lo, current)
    ensures var w := ProcessWindow(s, e, h, current, end, logs);
            w.ok ==> At(c, w.s, Before(c, end), end) && Tracks(c, e, w.s, lo, end)
  {
    var hi := Before(c, end + 1);
    BeforeSpec(c, end + 1);
    ScanTracks(c, e, s, h, current, s.lastRequested, Before(c, current), hi, lo, end);
    var r := ScanLogs(s, e, h, current, s.lastRequested, logs);
    if r.ok {
      HeadersTrack(c, e, r.s, r.h, hi, r.current, lo, end);
    }
  }

  lemma HeadersTrack(c: seq<Log>, e: Env, s: State, h: Headers, hi: nat, current: nat, lo: nat, end: nat)
    requires ValidChain(c) && lo <= current <= end && hi == Before(c, end + 1)
    requires At(c, s, hi, current) && TracksNear(c, e, s, lo, current)
    ensures var k := CheckHeaderRange(s, e, h, current, end);
            k.ok ==> At(c, k.s, Before(c, end), end) && Tracks(c, e, k.s, lo, end)
  {
    BeforeSpec(c, end + 1);
    if !s.started { QuietBlocks(c, s, hi, current, end); }
    CheckTracks(c, e, s, h, current, end, lo, if Tracks(c, e, s, lo, current - 1) then current - 1 else current);
    CheckKeeps(s, e, h, current, end);
    var k := CheckHeaderRange(s, e, h, current, end);
    if k.ok { BackToBlock(c, k.s, end); }
  }

  lemma BatchTracks(c: seq<Log>, e: Env, s: State, h: Headers, cfg: Config, current: nat, size: nat, reply: Reply,
                    lo: nat)
    requires ValidChain(c) && lo <= current < cfg.follow
    requires At(c, s, Before(c, current), current) && TracksNear(c, e, s, lo, current)
    requires reply.Answer? ==> Faithful(reply.logs, Window(c, current, Min(current + size, cfg.follow)))
    ensures var b := ProcessBatch(s, e, h, cfg, current, size, reply);
            b.Next? && reply.Answer? ==>
              At(c, b.s, Before(c, b.current), b.current) && Tracks(c, e, b.s, lo, b.current)
  {
    var b := ProcessBatch(s, e, h, cfg, current, size, reply);
    if b.Next? && reply.Answer? {
      BatchLogs(c, s, e, h, cfg, current, size, reply);
      var h1 := BatchWindow(s, e, h, cfg, current, size, reply);
      WindowTracks(c, e, s, h1, current, b.current, reply.logs, lo);
    }
  }

  /** Having the logs through `end` is having those before it, for the next, overlapping window. */
  lemma BackToBlock(c: seq<Log>, s: State, end: nat)
    requires ValidChain(c) && HasUpTo(c, s, Before(c, end + 1))
    requires !s.started ==> |s.trie| <= |Through(c, end)|
    ensures At(c, s, Before(c, end), end)
  {
    BeforeMonotone(c, end, end + 1);
    DepositsPrefix(c, Before(c, end), Before(c, end + 1));
    BeforeSpec(c, end);
  }

  ghost predicate TracksAt(c: seq<Log>, e: Env, start: nat, follow: nat, s: State, b: nat) {
    && start <= b <= follow && At(c, s, Before(c, b), b) && TracksNear(c, e, s, start, b)
    && (b == follow ==> Tracks(c, e, s, start, b))
  }

  lemma RoundsTrack(c: seq<Log>, e: Env, start: nat, cfg: Config, p: Provider)
    requires ValidChain(c) && Honest(p, c)
    ensures forall x: State, h: Headers, b: nat, size: nat, n: nat {:trigger Round(x, e, h, cfg, b, size, p, n)} ::
              TracksAt(c, e, start, cfg.follow, x, b) && b < cfg.follow && Round(x, e, h, cfg, b, size, p, n).Next? ==>
                var y := Round(x, e, h, cfg, b, size, p, n);
                TracksAt(c, e, start, cfg.follow, y.s, y.current)
  {
    forall x: State, h: Headers, b: nat, size: nat, n: nat
      | TracksAt(c, e, start, cfg.follow, x, b) && b < cfg.follow && Round(x, e, h, cfg, b, size, p, n).Next?
      ensures var y := Round(x, e, h, cfg, b, size, p, n);
              TracksAt(c, e, start, cfg.follow, y.s, y.current)
    {
      BatchTracks(c, e, x, h, cfg, b, size, p(n, b, Min(b + size, cfg.follow)), start);
    }
  }

  /** Genesis is announced at the first block, from the start block to the follow height, that is
      ready with exactly the deposits made up to it; with those deposits; or not at all. */
  lemma CatchUpTracks(c: seq<Log>, e: Env, s: State, h: Headers, cfg: Config, start: nat, p: Provider, calls: nat)
    requires ValidChain(c) && Honest(p, c) && start < cfg.follow && !s.started
    requires HasUpTo(c, s, Before(c, start)) && |s.trie| <= |Through(c, start)|
    requires CatchUpFrom(s, e, h, cfg, start, cfg.limit, p, 0, calls).Done?
    ensures Tracks(c, e, CatchUpFrom(s, e, h, cfg, start, cfg.limit, p, 0, calls).s, start, cfg.follow)
  {
    BeforeSpec(c, start);
    RoundsTrack(c, e, start, cfg, p);
    var last, block := LoopRule((x: State, b: nat) => TracksAt(c, e, start, cfg.follow, x, b),
                                s, e, h, cfg, start, cfg.limit, p, 0, calls);
  }

  // ----- The exact starting conditions -----

  /** Starting short of the deposits before the start block. */
  ghost predicate Short(c: seq<Log>, s: State, j: nat)
    requires j <= |c|
  {
    Consistent(s) && |s.trie| < |Deposits(c[..j])|
  }

  lemma ShortLogFails(c: seq<Log>, s: State, e: Env, h: Headers, current: nat, lastReq: nat, j: nat)
    requires ValidChain(c) && j < |c| && Short(c, s, j)
    ensures var r := ScanLog(s, e, h, current, lastReq, c[j]);
            r.ok ==> r.s.trie == s.trie && Short(c, r.s, j + 1) && !c[j].Deposit?
  {
    CheckKeeps(s, e, h, current, c[j].block - 1);
    ScanLogKeeps(s, e, h, current, lastReq, c[j], []);
    assert c[..j + 1][..j] == c[..j];
    assert |Deposits(c[..j])| <= |Deposits(c[..j + 1])|;
  }

  lemma {:induction false} ShortScan(c: seq<Log>, s: State, e: Env, h: Headers, current: nat, lastReq: nat, j: nat,
                                     hi: nat)
    requires ValidChain(c) && j <= hi <= |c| && Short(c, s, j)
    ensures var r := ScanLogs(s, e, h, current, lastReq, c[j..hi]); r.ok ==> r.s.trie == s.trie && Short(c, r.s, hi)
    decreases hi - j
  {
    if j < hi {
      ScanSplit(c, s, e, h, current, lastReq, j, hi);
      ShortLogFails(c, s, e, h, current, lastReq, j);
      var r := ScanLog(s, e, h, current, lastReq, c[j]);
      if r.ok { ShortScan(c, r.s, e, r.h, r.current, lastReq, j + 1, hi); }
    }
  }

  lemma ShortBatch(c: seq<Log>, s: State, e: Env, h: Headers, cfg: Config, current: nat, size: nat, reply: Reply)
    requires ValidChain(c) && current < cfg.follow && Short(c, s, Before(c, current))
    requires reply.Answer? ==> Faithful(reply.logs, Window(c, current, Min(current + size, cfg.follow)))
    ensures var b := ProcessBatch(s, e, h, cfg, current, size, reply);
            b.Next? ==> current <= b.current <= cfg.follow && b.s.trie == s.trie && Short(c, b.s, Before(c, b.current))
  {
    var b := ProcessBatch(s, e, h, cfg, current, size, reply);
    if b.Next? && reply.Answer? {
      BatchLogs(c, s, e, h, cfg, current, size, reply);
      var h1 := if s.started then h else Headers(h.have + h.tape[0].got, h.tape[1..]);
      ShortScan(c, s, e, h1, current, s.lastRequested, Before(c, current), Before(c, b.current + 1));
      var r := ScanLogs(s, e, h1, current, s.lastRequested, reply.logs);
      CheckKeeps(r.s, e, r.h, r.current, b.current);
      BeforeMonotone(c, current, b.current);
      DepositsPrefix(c, Before(c, current), Before(c, b.current));
    }
  }

  lemma ShortCatchUp(c: seq<Log>, s: State, e: Env, h: Headers, cfg: Config, start: nat, p: Provider, calls: nat)
    requires ValidChain(c) && Honest(p, c) && Short(c, s, Before(c, start))
    requires CatchUpFrom(s, e, h, cfg, start, cfg.limit, p, 0, calls).Done?
    ensures CatchUpFrom(s, e, h, cfg, start, cfg.limit, p, 0, calls).s.trie == s.trie
  {
    forall x: State, h: Headers, b: nat, size: nat, n: nat
      | x.trie == s.trie && Short(c, x, Before(c, b)) && b < cfg.follow && Round(x, e, h, cfg, b, size, p, n).Next?
      ensures var y := Round(x, e, h, cfg, b, size, p, n); y.s.trie == s.trie && Short(c, y.s, Before(c, y.current))
    {
      ShortBatch(c, x, e, h, cfg, b, size, p(n, b, Min(b + size, cfg.follow)));
    }
    var last, block := LoopRule((x: State, b: nat) => x.trie == s.trie && Short(c, x, Before(c, b)),
                                s, e, h, cfg, start, cfg.limit, p, 0, calls);
  }

  /** All deposits up to the follow height are in, with whatever was in beyond them. */
  ghost predicate Complete(c: seq<Log>, s: State, s': State, follow: nat)
    requires ValidChain(c)
  {
    s'.trie == Longer(s.trie, Through(c, follow))
  }

  lemma TookAll(c: seq<Log>, s: State, s': State, follow: nat)
    requires ValidChain(c) && Took(c, s, s', Before(c, follow + 1))
    ensures Complete(c, s, s', follow)
  {
  }

  lemma FullCompletes(c: seq<Log>, s: State, e: Env, h: Headers, cfg: Config, start: nat, p: Provider,
                      calls: nat, s': State)
    requires ValidChain(c) && Honest(p, c) && HasUpTo(c, s, Before(c, start)) && start < cfg.follow
    requires CatchUpFrom(s, e, h, cfg, start, cfg.limit, p, 0, calls) == Done(s')
    ensures Complete(c, s, s', cfg.follow)
  {
    CatchUpTakes(c, s, e, h, cfg, start, p, calls, s');
    TookAll(c, s, s', cfg.follow);
  }

  /** What a catch-up has to start with to be complete: below the follow height, all deposits of the
      blocks before its start block; otherwise, since it makes no round, those of the follow height's
      block too. */
  ghost predicate StartsComplete(c: seq<Log>, s: State, start: nat, follow: nat) {
    if start < follow then |Deposits(c[..Before(c, start)])| <= |s.trie| else |Through(c, follow)| <= |s.trie|
  }

  /** A catch-up that returns without error leaves the trie complete up to the follow height if and
      only if it started with those deposits. */
  lemma ExactlyOnceIff(c: seq<Log>, s: State, e: Env, tape: seq<HeaderReply>, cfg: Config, deployment: nat,
                       p: Provider, calls: nat, s': State)
    requires ValidChain(c) && Honest(p, c) && Consistent(s) && s.trie <= Deposits(c)
    requires CatchUp(s, e, tape, cfg, deployment, p, calls) == Done(s')
    ensures Complete(c, s, s', cfg.follow) <==> StartsComplete(c, s, StartBlock(s, deployment), cfg.follow)
  {
    var start := StartBlock(s, deployment);
    if start >= cfg.follow {
      assert s' == s.(lastRequested := start);
    } else if |Deposits(c[..Before(c, start)])| <= |s.trie| {
      FullCompletes(c, s, e, Headers({}, tape), cfg, start, p, calls, s');
    } else {
      ShortNeverCompletes(c, s, e, Headers({}, tape), cfg, start, p, calls, s');
    }
  }

  lemma ShortNeverCompletes(c: seq<Log>, s: State, e: Env, h: Headers, cfg: Config, start: nat, p: Provider,
                            calls: nat, s': State)
    requires ValidChain(c) && Honest(p, c) && start < cfg.follow && Short(c, s, Before(c, start))
    requires CatchUpFrom(s, e, h, cfg, start, cfg.limit, p, 0, calls) == Done(s')
    ensures !Complete(c, s, s', cfg.follow)
  {
    ShortCatchUp(c, s, e, h, cfg, start, p, calls);
    ShortIsIncomplete(c, s, start, cfg.follow);
  }

  lemma ShortIsIncomplete(c: seq<Log>, s: State, start: nat, follow: nat)
    requires ValidChain(c) && start <= follow && Short(c, s, Before(c, start))
    ensures s.trie != Longer(s.trie, Through(c, follow))
  {
    BeforeMonotone(c, start, follow + 1);
    DepositsPrefix(c, Before(c, start), Before(c, follow + 1));
  }

  /** A genesis condition that holds as soon as `k` deposits are in. */
  ghost predicate ReadyAt(e: Env, k: nat) {
    forall ds: seq<Data>, b: nat :: e.ready(ds, b) <==> |ds| >= k
  }

  /** Chain start has not been looked for yet, or was announced at `start`. */
  ghost predicate FiresAt(s: State, k: nat, start: nat, current: nat) {
    if s.started then s.genesisBlock == start
    else current == start && Consistent(s) && |s.trie| >= k
  }

  lemma {:induction false} CheckFires(s: State, e: Env, h: Headers, i: nat, end: int, k: nat, start: nat)
    requires ReadyAt(e, k) && FiresAt(s, k, start, i) && i <= end
    ensures var r := CheckHeaderRange(s, e, h, i, end); r.ok ==> r.s.started && r.s.genesisBlock == start
    decreases |h.tape|, end + 1 - i
  {
    if s.started || i in h.have {
      var s1 := CheckBlock(s, e, i);
      if i + 1 <= end {
        CheckFires(s1, e, h, i + 1, end, k, start);
      }
    } else if h.tape != [] && h.tape[0].GotHeaders? {
      CheckFires(s, e, Headers(h.have + h.tape[0].got, h.tape[1..]), i, end, k, start);
    }
  }

  lemma ScanLogFires(s: State, e: Env, h: Headers, current: nat, lastReq: nat, log: Log, k: nat, start: nat)
    requires ReadyAt(e, k) && FiresAt(s, k, start, current)
    ensures var r := ScanLog(s, e, h, current, lastReq, log); r.ok ==> FiresAt(r.s, k, start, r.current)
  {
    if log.block > current {
      CheckFires(s, e, h, current, log.block - 1, k, start);
    } else if !s.started {
      ProcessLogKeeps(s, e, log, []);
    }
  }

  lemma {:induction false} ScanFires(s: State, e: Env, h: Headers, current: nat, lastReq: nat, logs: seq<Log>,
                                     k: nat, start: nat)
    requires ReadyAt(e, k) && FiresAt(s, k, start, current)
    ensures var r := ScanLogs(s, e, h, current, lastReq, logs); r.ok ==> FiresAt(r.s, k, start, r.current)
    decreases |logs|
  {
    if logs != [] {
      ScanLogFires(s, e, h, current, lastReq, logs[0], k, start);
      var r := ScanLog(s, e, h, current, lastReq, logs[0]);
      if r.ok { ScanFires(r.s, e, r.h, r.current, lastReq, logs[1..], k, start); }
    }
  }

  lemma BatchFires(s: State, e: Env, h: Headers, cfg: Config, current: nat, size: nat, reply: Reply, k: nat, start: nat)
    requires ReadyAt(e, k) && FiresAt(s, k, start, current) && start <= current < cfg.follow
    ensures var b := ProcessBatch(s, e, h, cfg, current, size, reply);
            b.Next? ==> start <= b.current && FiresAt(b.s, k, start, b.current)
  {
    var b := ProcessBatch(s, e, h, cfg, current, size, reply);
    if b.Next? && reply.Answer? {
      var h1 := if s.started then h else Headers(h.have + h.tape[0].got, h.tape[1..]);
      ScanFires(s, e, h1, current, s.lastRequested, reply.logs, k, start);
      var r := ScanLogs(s, e, h1, current, s.lastRequested, reply.logs);
      if r.current <= b.current { CheckFires(r.s, e, r.h, r.current, b.current, k, start); }
    }
  }

  /** A service that already has `k` deposits announces genesis at its start block whenever `k`
      deposits are enough, no matter in which blocks those deposits were made. */
  lemma StartBlockFires(s: State, e: Env, h: Headers, cfg: Config, start: nat, p: Provider, calls: nat)
    requires Consistent(s) && !s.started && ReadyAt(e, |s.trie|) && start < cfg.follow
    requires CatchUpFrom(s, e, h, cfg, start, cfg.limit, p, 0, calls).Done?
    ensures var r := CatchUpFrom(s, e, h, cfg, start, cfg.limit, p, 0, calls).s; r.started && r.genesisBlock == start
  {
    var k := |s.trie|;
    forall x: State, h: Headers, b: nat, size: nat, n: nat
      | start <= b && FiresAt(x, k, start, b) && b < cfg.follow && Round(x, e, h, cfg, b, size, p, n).Next?
      ensures var y := Round(x, e, h, cfg, b, size, p, n); start <= y.current && FiresAt(y.s, k, start, y.current)
    {
      BatchFires(x, e, h, cfg, b, size, p(n, b, Min(b + size, cfg.follow)), k, start);
    }
    var last, block := LoopRule((x: State, b: nat) => start <= b && FiresAt(x, k, start, b),
                                s, e, h, cfg, start, cfg.limit, p, 0, calls);
  }

  /** Chain start is right for every genesis condition when the service has no deposit from beyond its
      start block, and only then: otherwise the condition "as many deposits as the service has" is
      announced too early by every catch-up that succeeds. A catch-up without a round looks at no block,
      which is wrong exactly if its one block is ready. */
  lemma ChainStartIff(c: seq<Log>, s: State, e: Env, tape: seq<HeaderReply>, cfg: Config, deployment: nat,
                      p: Provider, calls: nat, s': State)
    requires ValidChain(c) && Honest(p, c) && !s.started
    requires HasUpTo(c, s, Before(c, StartBlock(s, deployment)))
    requires CatchUp(s, e, tape, cfg, deployment, p, calls) == Done(s')
    ensures StartBlock(s, deployment) < cfg.follow && |s.trie| <= |Through(c, StartBlock(s, deployment))| ==>
              Tracks(c, e, s', StartBlock(s, deployment), cfg.follow)
    ensures StartBlock(s, deployment) < cfg.follow && ReadyAt(e, |s.trie|) ==>
              (Tracks(c, e, s', StartBlock(s, deployment), cfg.follow) <==>
               |s.trie| <= |Through(c, StartBlock(s, deployment))|)
    ensures StartBlock(s, deployment) >= cfg.follow ==>
              (Tracks(c, e, s', StartBlock(s, deployment), cfg.follow) <==>
               StartBlock(s, deployment) > cfg.follow || !e.ready(Through(c, cfg.follow), cfg.follow))
  {
    var start := StartBlock(s, deployment);
    if start >= cfg.follow {
      assert s' == s.(lastRequested := start);
    } else if |s.trie| <= |Through(c, start)| {
      CatchUpTracks(c, e, s, Headers({}, tape), cfg, start, p, calls);
    } else if ReadyAt(e, |s.trie|) {
      StartBlockFires(s, e, Headers({}, tape), cfg, start, p, calls);
    }
  }

  /** A success sets up the next catch-up: from the follow height, with exactly the deposits made up
      to it, which is what both conditions above ask for; without a round, from its own start block. */
  lemma SuccessRestoresConditions(c: seq<Log>, s: State, e: Env, tape: seq<HeaderReply>, cfg: Config,
                                  deployment: nat, p: Provider, calls: nat, s': State)
    requires ValidChain(c) && Honest(p, c)
    requires HasUpTo(c, s, Before(c, StartBlock(s, deployment)))
    requires |s.trie| <= |Through(c, StartBlock(s, deployment))|
    requires CatchUp(s, e, tape, cfg, deployment, p, calls) == Done(s')
    ensures StartBlock(s', deployment) == Max(StartBlock(s, deployment), cfg.follow)
    ensures StartBlock(s, deployment) < cfg.follow ==> s'.trie == Through(c, cfg.follow)
    ensures HasUpTo(c, s', Before(c, StartBlock(s', deployment)))
    ensures |s'.trie| <= |Through(c, StartBlock(s', deployment))|
  {
    var start := StartBlock(s, deployment);
    CatchUpTakes(c, s, e, Headers({}, tape), cfg, start, p, calls, s');
    if start < cfg.follow {
      TrieAfterSuccess(c, s, s', start, cfg.follow);
    }
  }

  lemma TrieAfterSuccess(c: seq<Log>, s: State, s': State, start: nat, follow: nat)
    requires ValidChain(c) && start < follow && Took(c, s, s', Before(c, follow + 1))
    requires s.trie <= Deposits(c) && |s.trie| <= |Through(c, start)|
    ensures s'.trie == Through(c, follow) && HasUpTo(c, s', Before(c, follow))
  {
    BeforeMonotone(c, start + 1, follow + 1);
    BeforeMonotone(c, follow, follow + 1);
    DepositsPrefix(c, Before(c, start + 1), Before(c, follow + 1));
    TookHas(c, s, s', Before(c, follow), Before(c, follow + 1));
    SamePrefix(c, s.trie, Before(c, follow + 1));
  }

  lemma SamePrefix(c: seq<Log>, x: seq<Data>, j: nat)
    requires j <= |c| && x <= Deposits(c) && |x| <= |Deposits(c[..j])|
    ensures |x| == |Deposits(c[..j])| ==> x == Deposits(c[..j])
  {
    DepositsPrefix(c, j, |c|);
    assert c[..|c|] == c;
  }

  // ----- A retry that announces the wrong genesis -----

  const EXAMPLE := [Deposit(1, 0, 7), Deposit(1, 1, 8)]
  const GARBLED := [Deposit(1, 0, 7), Garbled(1)]
  const FRESH := State(-1, [], false, [], 0, [], 0, 0)
  const HALFWAY := State(0, [7], false, [7], 0, [], 0, 1)
  const HEADERS := Headers({} + {0, 1, 2}, [GotHeaders({0, 1, 2})][1..])

  ghost function FirstCall(e: Env): Outcome {
    CatchUp(FRESH, e, [GotHeaders({0, 1, 2})], Config(2, 10, 1), 0, (n, a, b) => Answer(GARBLED), 1)
  }

  ghost function Retry(e: Env): Outcome {
    CatchUp(FirstCall(e).s, e, [GotHeaders({0, 1, 2})], Config(2, 10, 1), 0, (n, a, b) => Answer(EXAMPLE), 1)
  }

  lemma FirstCallFails(e: Env)
    requires ReadyAt(e, 1) && e.badSaves == {}
    ensures FirstCall(e) == Failure(HALFWAY)
  {
    var h := HEADERS;
    assert CheckHeaderRange(FRESH, e, h, 0, 0) == Checked(FRESH, h, true);
    assert ScanLog(FRESH, e, h, 0, 0, GARBLED[0]) == Scanned(HALFWAY, h, 1, true);
    assert GARBLED[1..] == [Garbled(1)];
    assert ScanLogs(FRESH, e, h, 0, 0, GARBLED) == Scanned(HALFWAY, h, 1, false);
    assert ProcessWindow(FRESH, e, h, 0, 2, GARBLED) == Checked(HALFWAY, h, false);
  }

  /** Block 1 makes two deposits and is the first block with any. A garbled second log fails the first
      catch-up after its first deposit is in; the retry starts over at block 0, finds it ready with a
      deposit of block 1, and announces block 0 with half of block 1's deposits. */
  lemma RetryAnnouncesTooEarly(e: Env)
    requires ReadyAt(e, 1) && e.badSaves == {}
    ensures ValidChain(EXAMPLE) && Through(EXAMPLE, 0) == [] && Through(EXAMPLE, 1) == [7, 8]
    ensures FirstCall(e) == Failure(HALFWAY) && Retry(e).Done?
    ensures Retry(e).s.genesisBlock == 0 && Retry(e).s.startDeposits == [7] && Retry(e).s.trie == [7, 8]
  {
    FirstCallFails(e);
    ExampleChain();
    var h := HEADERS;
    var s2 := HALFWAY.(started := true, feed := [0]);
    var again := s2.(saves := 2);
    var s3 := again.(lastIndex := 1, trie := [7, 8]);
    assert CheckHeaderRange(HALFWAY, e, h, 0, 0) == Checked(s2, h, true);
    assert ScanLog(HALFWAY, e, h, 0, 0, EXAMPLE[0]) == Scanned(again, h, 1, true);
    assert EXAMPLE[1..] == [Deposit(1, 1, 8)];
    assert ScanLog(again, e, h, 1, 0, EXAMPLE[1]) == Scanned(s3, h, 1, true);
    assert ScanLogs(again, e, h, 1, 0, EXAMPLE[1..]) == Scanned(s3, h, 1, true);
    assert ScanLogs(HALFWAY, e, h, 0, 0, EXAMPLE) == Scanned(s3, h, 1, true);
    assert CheckHeaderRange(s3, e, h, 3, 2) == Checked(s3, h, true);
    assert CheckHeaderRange(s3, e, h, 2, 2) == Checked(s3, h, true);
    assert CheckHeaderRange(s3, e, h, 1, 2) == Checked(s3, h, true);
    assert ProcessWindow(HALFWAY, e, h, 0, 2, EXAMPLE) == Checked(s3, h, true);
  }

  lemma ExampleChain()
    ensures ValidChain(EXAMPLE) && Through(EXAMPLE, 0) == [] && Through(EXAMPLE, 1) == [7, 8]
  {
    assert EXAMPLE[..1] == [Deposit(1, 0, 7)] && EXAMPLE[..0] == [];
    assert Deposits(EXAMPLE[..1]) == [7];
    assert EXAMPLE[..2] == EXAMPLE;
  }

  // ----- Batch sizes -----

  /** A window of size zero re-scans the current block. With an additive step of zero, which a request
      limit below ten gives, the size never recovers and the catch-up never returns without error. */
  lemma {:induction false} ZeroWindowNeverDone(s: State, e: Env, h: Headers, cfg: Config, current: nat,
                                               p: Provider, n: nat, calls: nat)
    requires cfg.additive == 0 && current < cfg.follow
    ensures CatchUpFrom(s, e, h, cfg, current, 0, p, n, calls).Failure?
    decreases calls
  {
    if calls > 0 {
      var b := Round(s, e, h, cfg, current, 0, p, n);
      if b.Next? {
        assert b.current == current && b.size == 0;
        ZeroWindowNeverDone(b.s, e, b.h, cfg, current, p, n + 1, calls - 1);
      }
    }
  }

  /** An answered batch moves on exactly when its window is not of size zero. */
  lemma AnswerAdvancesIff(s: State, e: Env, h: Headers, cfg: Config, current: nat, size: nat, logs: seq<Log>)
    requires current < cfg.follow && ProcessBatch(s, e, h, cfg, current, size, Answer(logs)).Next?
    ensures current < ProcessBatch(s, e, h, cfg, current, size, Answer(logs)).current <==> size > 0
  {
  }
}

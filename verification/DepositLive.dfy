/** The live pass of beacon-chain/execution/log_processing.go, requestBatchedHeadersAndLogs, mixed with catch-ups. A
    catch-up scans its start block again; a live pass begins one block later and relies on the block at
    LastRequestedBlock having been scanned. */
module DepositLive {
  import opened DepositLogs
  import opened DepositCatchUp
  import opened DepositRetries

  /** All deposits up to block b are in. */
  ghost predicate HasThrough(c: seq<Log>, s: State, b: nat) {
    HasUpTo(c, s, Before(c, b + 1))
  }

  /** The block at LastRequestedBlock has been scanned. */
  ghost predicate UpToDate(c: seq<Log>, s: State) {
    HasThrough(c, s, s.lastRequested)
  }

  lemma UpToDateIsResumable(c: seq<Log>, s: State, deployment: nat)
    requires ValidChain(c) && DeployedAt(c, deployment) && UpToDate(c, s)
    ensures Resumable(c, s, deployment)
  {
    if s.lastRequested >= deployment {
      BeforeMonotone(c, s.lastRequested, s.lastRequested + 1);
      HasLess(c, s, Before(c, s.lastRequested), Before(c, s.lastRequested + 1));
    } else {
      BeforeIs(c, deployment, 0);
      HasLess(c, s, 0, Before(c, s.lastRequested + 1));
    }
  }

  /** What is in stays in. */
  lemma Keeps(c: seq<Log>, s: State, s': State, b: nat)
    requires HasThrough(c, s, b) && Consistent(s') && s.trie <= s'.trie <= Deposits(c)
    ensures HasThrough(c, s', b)
  {
  }

  // ----- A catch-up that fails -----

  /** One log: the last requested block moves only to a block that has been scanned. */
  lemma ScanLogKeepsUpToDate(c: seq<Log>, s: State, e: Env, h: Headers, current: nat, lastReq: nat, log: Log, j: nat)
    requires ValidChain(c) && j < |c| && HasUpTo(c, s, j) && Before(c, current) <= j
    requires log == Garbled(c[j].block) || log == c[j]
    requires UpToDate(c, s) && HasThrough(c, s, lastReq)
    ensures var r := ScanLog(s, e, h, current, lastReq, log);
            && UpToDate(c, r.s) && HasThrough(c, r.s, lastReq) && HasUpTo(c, r.s, j)
            && (r.ok ==> log == c[j] && HasUpTo(c, r.s, j + 1) && r.current == Max(current, c[j].block))
  {
    var r := ScanLog(s, e, h, current, lastReq, log);
    LastRequestedIs(s, e, h, current, lastReq, log);
    ScanLogKeeps(s, e, h, current, lastReq, log, Deposits(c));
    GenuineChainLog(c, j);
    if log == c[j] {
      ChainLogKept(c, s, e, h, current, lastReq, j);
    }
    Keeps(c, s, r.s, lastReq);
    Keeps(c, s, r.s, s.lastRequested);
    if c[j].block > current {
      BlockDone(c, s, j, current);
      Keeps(c, s, r.s, current);
    }
  }

  /** The last requested block moves only when a later block's log comes. */
  lemma LastRequestedIs(s: State, e: Env, h: Headers, current: nat, lastReq: nat, log: Log)
    requires Consistent(s)
    ensures var r := ScanLog(s, e, h, current, lastReq, log);
            || r.s.lastRequested == s.lastRequested || r.s.lastRequested == lastReq
            || (log.block > current && r.s.lastRequested == current)
  {
    CheckKeeps(s, e, h, current, log.block - 1);
  }

  lemma BlockDone(c: seq<Log>, s: State, j: nat, current: nat)
    requires ValidChain(c) && j < |c| && HasUpTo(c, s, j) && c[j].block > current
    ensures HasThrough(c, s, current)
  {
    BeforeSpec(c, current + 1);
    HasLess(c, s, Before(c, current + 1), j);
  }

  lemma GenuineChainLog(c: seq<Log>, j: nat)
    requires ValidChain(c) && j < |c|
    ensures GenuineLog(c[j], Deposits(c))
  {
    assert c[..j + 1][..j] == c[..j];
    DepositsPrefix(c, j + 1, |c|);
    assert c[..|c|] == c;
  }

  lemma {:induction false} ScanKeepsUpToDate(c: seq<Log>, s: State, e: Env, h: Headers, current: nat, lastReq: nat,
                                            logs: seq<Log>, j: nat, hi: nat)
    requires ValidChain(c) && j <= hi <= |c| && HasUpTo(c, s, j) && Before(c, current) <= j && TrueUntil(logs, c, j, hi)
    requires UpToDate(c, s) && HasThrough(c, s, lastReq)
    ensures UpToDate(c, ScanLogs(s, e, h, current, lastReq, logs).s)
    decreases |logs|
  {
    if logs != [] {
      ScanLogKeepsUpToDate(c, s, e, h, current, lastReq, logs[0], j);
      var r := ScanLog(s, e, h, current, lastReq, logs[0]);
      if r.ok {
        NextCurrent(c, current, j);
        ScanKeepsUpToDate(c, r.s, e, r.h, r.current, lastReq, logs[1..], j + 1, hi);
      }
    }
  }

  lemma WindowKeepsUpToDate(c: seq<Log>, s: State, e: Env, h: Headers, current: nat, end: nat, logs: seq<Log>)
    requires ValidChain(c) && current <= end && HasUpTo(c, s, Before(c, current)) && UpToDate(c, s)
    requires Faithful(logs, Window(c, current, end))
    ensures UpToDate(c, ProcessWindow(s, e, h, current, end, logs).s)
  {
    FaithfulIsTrue(c, logs, current, end);
    BeforeMonotone(c, current, end + 1);
    ScanKeepsUpToDate(c, s, e, h, current, s.lastRequested, logs, Before(c, current), Before(c, end + 1));
    var r := ScanLogs(s, e, h, current, s.lastRequested, logs);
    CheckKeepsUpToDate(c, r.s, e, r.h, r.current, end);
  }

  lemma CheckKeepsUpToDate(c: seq<Log>, s: State, e: Env, h: Headers, i: nat, end: int)
    requires UpToDate(c, s)
    ensures UpToDate(c, CheckHeaderRange(s, e, h, i, end).s)
  {
    CheckKeeps(s, e, h, i, end);
  }

  lemma BatchKeepsUpToDate(c: seq<Log>, s: State, e: Env, h: Headers, cfg: Config, current: nat, size: nat,
                           reply: Reply)
    requires ValidChain(c) && current < cfg.follow && HasUpTo(c, s, Before(c, current)) && UpToDate(c, s)
    requires reply.Answer? ==> Faithful(reply.logs, Window(c, current, Min(current + size, cfg.follow)))
    ensures UpToDate(c, ProcessBatch(s, e, h, cfg, current, size, reply).s)
  {
    if reply.Answer? && (s.started || (h.tape != [] && h.tape[0].GotHeaders?)) {
      var h1 := if s.started then h else Headers(h.have + h.tape[0].got, h.tape[1..]);
      WindowKeepsUpToDate(c, s, e, h1, current, Min(current + size, cfg.follow), reply.logs);
    }
  }

  lemma {:induction false} FailureKeepsUpToDate(c: seq<Log>, s: State, e: Env, h: Headers, cfg: Config, current: nat,
                                               size: nat, p: Provider, n: nat, calls: nat, deployment: nat)
    requires ValidChain(c) && Honest(p, c) && Settled(c, s, deployment, current) && UpToDate(c, s)
    requires CatchUpFrom(s, e, h, cfg, current, size, p, n, calls).Failure?
    ensures UpToDate(c, CatchUpFrom(s, e, h, cfg, current, size, p, n, calls).s)
    decreases calls
  {
    if calls > 0 {
      var reply := p(n, current, Min(current + size, cfg.follow));
      BatchSettles(c, s, e, h, cfg, current, size, reply, deployment);
      BatchKeepsUpToDate(c, s, e, h, cfg, current, size, reply);
      var b := Round(s, e, h, cfg, current, size, p, n);
      if b.Next? {
        FailureKeepsUpToDate(c, b.s, e, b.h, cfg, b.current, b.size, p, n + 1, calls - 1, deployment);
      }
    }
  }

  /** A catch-up makes no round, at a block whose deposits are not all in. */
  ghost predicate IdleAtUnscanned(c: seq<Log>, s: State, cfg: Config, deployment: nat) {
    StartBlock(s, deployment) >= cfg.follow && |Through(c, StartBlock(s, deployment))| > |s.trie|
  }

  /** A catch-up that makes rounds and succeeds has scanned the block it notes, whatever came before; one that fails
      leaves a scanned block scanned; one without a round notes a scanned block exactly if it was one already. */
  lemma CatchUpScans(c: seq<Log>, s: State, call: Call, deployment: nat)
    requires ValidChain(c) && Honest(call.p, c) && Resumable(c, s, deployment)
    ensures var r := Make(s, call, deployment);
            && (r.Failure? && UpToDate(c, s) ==> UpToDate(c, r.s))
            && (r.Done? && StartBlock(s, deployment) < call.cfg.follow ==> UpToDate(c, r.s))
            && (StartBlock(s, deployment) >= call.cfg.follow ==>
                  r.Done? && (UpToDate(c, r.s) <==> !IdleAtUnscanned(c, s, call.cfg, deployment)))
  {
    var r, start, h := Make(s, call, deployment), StartBlock(s, deployment), Headers({}, call.tape);
    if r.Failure? {
      if UpToDate(c, s) {
        FailureKeepsUpToDate(c, s, call.e, h, call.cfg, start, call.cfg.limit, call.p, 0, call.calls, deployment);
      }
    } else if start < call.cfg.follow {
      RoundsScan(c, s, call.e, h, call.cfg, start, call.p, call.calls, r.s);
    } else {
      IdleScans(c, s, start);
    }
  }

  lemma RoundsScan(c: seq<Log>, s: State, e: Env, h: Headers, cfg: Config, start: nat, p: Provider, calls: nat,
                   s': State)
    requires ValidChain(c) && Honest(p, c) && HasUpTo(c, s, Before(c, start)) && start < cfg.follow
    requires CatchUpFrom(s, e, h, cfg, start, cfg.limit, p, 0, calls) == Done(s')
    ensures UpToDate(c, s')
  {
    CatchUpTakes(c, s, e, h, cfg, start, p, calls, s');
    TookHas(c, s, s', Before(c, cfg.follow + 1), Before(c, cfg.follow + 1));
  }

  lemma IdleScans(c: seq<Log>, s: State, start: nat)
    requires Consistent(s) && s.trie <= Deposits(c)
    ensures UpToDate(c, s.(lastRequested := start)) <==> |Through(c, start)| <= |s.trie|
  {
  }

  // ----- The live pass -----

  /** The logs from j to hi are those of block b. */
  ghost predicate OfBlock(c: seq<Log>, j: nat, hi: nat, b: nat) {
    hi <= |c| && forall k :: j <= k < hi ==> c[k].block == b
  }

  lemma BlockIs(c: seq<Log>, b: nat)
    requires ValidChain(c)
    ensures Before(c, b) <= Before(c, b + 1) && OfBlock(c, Before(c, b), Before(c, b + 1), b)
  {
    BeforeMonotone(c, b, b + 1);
    BeforeSpec(c, b);
    BeforeSpec(c, b + 1);
  }

  /** A log of the chain, processed or refused. */
  lemma LogKept(c: seq<Log>, s: State, e: Env, j: nat, s1: State, ok: bool)
    requires ValidChain(c) && j < |c| && HasUpTo(c, s, j) && ProcessLog(s, e, c[j]) == (s1, ok)
    ensures HasUpTo(c, s1, j) && HasUpTo(c, s1, j + 1) && s1.lastRequested == s.lastRequested
  {
    TakeLog(c, s, e, j);
    TookHas(c, s, s1, j + 1, j + 1);
    HasLess(c, s1, j, j + 1);
  }

  lemma {:induction false} BlockLogsKeep(c: seq<Log>, s: State, e: Env, b: nat, logs: seq<Log>, j: nat, hi: nat,
                                         r: State, ok: bool)
    requires ValidChain(c) && j <= hi && OfBlock(c, j, hi, b) && HasUpTo(c, s, j) && TrueUntil(logs, c, j, hi)
    requires ProcessBlockLogs(s, e, b, logs) == (r, ok)
    ensures HasUpTo(c, r, j) && r.lastRequested == s.lastRequested
    ensures ok ==> j + |logs| <= hi && HasUpTo(c, r, j + |logs|)
    decreases |logs|
  {
    if logs != [] {
      assert logs[0].block == c[j].block == b;
      var (s1, ok1) := ProcessLog(s, e, logs[0]);
      if logs[0] == c[j] {
        LogKept(c, s, e, j, s1, ok1);
        if ok1 {
          BlockLogsKeep(c, s1, e, b, logs[1..], j + 1, hi, r, ok);
          HasLess(c, r, j, j + 1);
        }
      }
    }
  }

  lemma {:induction false} GarbledBlockFails(s: State, e: Env, b: nat, logs: seq<Log>, k: nat)
    requires k < |logs| && logs[k] == Garbled(b)
    ensures !ProcessBlockLogs(s, e, b, logs).1
    decreases |logs|
  {
    if k > 0 {
      var s1 := if logs[0].block == b then ProcessLog(s, e, logs[0]).0 else s;
      GarbledBlockFails(s1, e, b, logs[1..], k - 1);
    }
  }

  /** A log of another block in a block's answer makes no difference. */
  lemma {:induction false} OthersIgnored(s: State, e: Env, b: nat, before: seq<Log>, other: Log, after: seq<Log>)
    requires other.block != b
    ensures ProcessBlockLogs(s, e, b, before + [other] + after) == ProcessBlockLogs(s, e, b, before + after)
    decreases |before|
  {
    var with, without := before + [other] + after, before + after;
    if before == [] {
      assert with[1..] == after && without == after;
    } else {
      assert with[0] == without[0] == before[0];
      assert with[1..] == before[1..] + [other] + after && without[1..] == before[1..] + after;
      OthersIgnored(if before[0].block == b then ProcessLog(s, e, before[0]).0 else s, e, b, before[1..], other, after);
    }
  }

  /** The logs that a client gives for one block are processed without error only if they are the block's. */
  lemma WholeBlock(c: seq<Log>, s: State, e: Env, b: nat, logs: seq<Log>)
    requires ValidChain(c) && Faithful(logs, Window(c, b, b)) && ProcessBlockLogs(s, e, b, logs).1
    ensures Before(c, b) + |logs| == Before(c, b + 1)
  {
    var lo, w := Before(c, b), Window(c, b, b);
    BlockIs(c, b);
    if logs != w {
      var k :| 0 <= k < |logs| && k < |w| && logs[..k] == w[..k] && logs[k] == Garbled(w[k].block);
      assert w[k] == c[lo + k];
      GarbledBlockFails(s, e, b, logs, k);
    }
  }

  lemma WholeBlockLogs(c: seq<Log>, s: State, e: Env, b: nat, logs: seq<Log>, r: State, ok: bool)
    requires ValidChain(c) && HasUpTo(c, s, Before(c, b)) && Faithful(logs, Window(c, b, b))
    requires ProcessBlockLogs(s, e, b, logs) == (r, ok)
    ensures HasUpTo(c, r, Before(c, b)) && r.lastRequested == s.lastRequested && (ok ==> HasThrough(c, r, b))
  {
    if ok {
      WholeBlock(c, s, e, b, logs);
    }
    BlockIs(c, b);
    FaithfulIsTrue(c, logs, b, b);
    KeptUpTo(c, s, e, b, logs, Before(c, b), Before(c, b + 1), r, ok);
  }

  lemma KeptUpTo(c: seq<Log>, s: State, e: Env, b: nat, logs: seq<Log>, j: nat, hi: nat, r: State, ok: bool)
    requires ValidChain(c) && j <= hi && OfBlock(c, j, hi, b) && HasUpTo(c, s, j) && TrueUntil(logs, c, j, hi)
    requires ProcessBlockLogs(s, e, b, logs) == (r, ok) && (ok ==> j + |logs| == hi)
    ensures HasUpTo(c, r, j) && r.lastRequested == s.lastRequested && (ok ==> HasUpTo(c, r, hi))
  {
    BlockLogsKeep(c, s, e, b, logs, j, hi, r, ok);
  }

  /** One block of a live pass: nothing is lost, and on success the block's deposits are in. */
  lemma BlockKeeps(c: seq<Log>, s: State, e: Env, b: nat, reply: Reply, timed: bool, r: State, ok: bool)
    requires ValidChain(c) && HasUpTo(c, s, Before(c, b))
    requires reply.Answer? ==> Faithful(reply.logs, Window(c, b, b))
    requires ProcessBlock(s, e, b, reply, timed) == (r, ok)
    ensures HasUpTo(c, r, Before(c, b)) && r.lastRequested == s.lastRequested && (ok ==> HasThrough(c, r, b))
  {
    if reply.Answer? {
      var (s1, ok1) := ProcessBlockLogs(s, e, b, reply.logs);
      WholeBlockLogs(c, s, e, b, reply.logs, s1, ok1);
      CheckedBlock(c, s1, e, b, Before(c, b));
      if ok1 {
        CheckedBlock(c, s1, e, b, Before(c, b + 1));
      }
    }
  }

  lemma CheckedBlock(c: seq<Log>, s: State, e: Env, b: nat, j: nat)
    requires j <= |c| && HasUpTo(c, s, j)
    ensures HasUpTo(c, CheckBlock(s, e, b), j) && CheckBlock(s, e, b).lastRequested == s.lastRequested
  {
  }

  lemma NotedBlock(c: seq<Log>, s: State, b: nat)
    requires HasThrough(c, s, b)
    ensures UpToDate(c, s.(lastRequested := b))
  {
  }

  lemma LiveStepKeeps(c: seq<Log>, s: State, e: Env, reply: Reply, timed: bool, s1: State, ok: bool)
    requires ValidChain(c) && UpToDate(c, s)
    requires var b := s.lastRequested + 1;
             && (reply.Answer? ==> Faithful(reply.logs, Window(c, b, b)))
             && ProcessBlock(s, e, b, reply, timed) == (s1, ok)
    ensures UpToDate(c, s1) && s1.lastRequested == s.lastRequested
    ensures ok ==> UpToDate(c, s1.(lastRequested := s.lastRequested + 1))
  {
    BlockKeeps(c, s, e, s.lastRequested + 1, reply, timed, s1, ok);
    if ok {
      NotedBlock(c, s1, s.lastRequested + 1);
    }
  }

  /** The next block of a live pass. */
  function NextBlock(s: State, e: Env, got: Retrieval, p: Provider, n: nat): (State, bool) {
    var b := s.lastRequested + 1;
    ProcessBlock(s, e, b, p(n, b, b), got.time(b))
  }

  lemma NextBlockKeeps(c: seq<Log>, s: State, e: Env, got: Retrieval, p: Provider, n: nat)
    requires ValidChain(c) && Honest(p, c) && UpToDate(c, s)
    ensures var (r, ok) := NextBlock(s, e, got, p, n);
            && UpToDate(c, r) && r.lastRequested == s.lastRequested
            && (ok ==> UpToDate(c, r.(lastRequested := s.lastRequested + 1)))
  {
    var (r, ok) := NextBlock(s, e, got, p, n);
    var b := s.lastRequested + 1;
    LiveStepKeeps(c, s, e, p(n, b, b), got.time(b), r, ok);
  }

  /** What every block keeps, noted if it succeeds, a live pass keeps. */
  lemma {:induction false} LiveRule(I: State -> bool, s: State, e: Env, b: nat, follow: nat, got: Retrieval,
                                    p: Provider,
                                    n: nat, r: Outcome)
    requires I(s) && b == s.lastRequested + 1 && LiveFrom(s, e, b, follow, got, p, n) == r
    requires forall x: State, m: nat {:trigger NextBlock(x, e, got, p, m)} :: I(x) ==>
               var (y, ok) := NextBlock(x, e, got, p, m);
               y.lastRequested == x.lastRequested && I(if ok then y.(lastRequested := x.lastRequested + 1) else y)
    ensures I(r.s) && r.s.lastRequested >= s.lastRequested
    ensures r.Done? ==> r.s.lastRequested == Max(s.lastRequested, follow)
    decreases follow + 1 - b
  {
    if b <= follow && got.hash(b) {
      var (s1, ok) := NextBlock(s, e, got, p, n);
      if ok {
        LiveRule(I, s1.(lastRequested := b), e, b + 1, follow, got, p, n + 1, r);
      }
    }
  }

  /** A live pass from a scanned block keeps the last requested block scanned wherever it stops, and on success has
      all deposits up to the follow height. */
  lemma LiveKeeps(c: seq<Log>, s: State, e: Env, follow: nat, got: Retrieval, p: Provider, r: Outcome)
    requires ValidChain(c) && Honest(p, c) && UpToDate(c, s)
    requires LiveFrom(s, e, s.lastRequested + 1, follow, got, p, 0) == r
    ensures UpToDate(c, r.s) && r.s.lastRequested >= s.lastRequested
    ensures r.Done? ==> r.s.lastRequested == Max(s.lastRequested, follow)
  {
    forall x: State, m: nat | UpToDate(c, x)
      ensures var (y, ok) := NextBlock(x, e, got, p, m);
              && UpToDate(c, y) && y.lastRequested == x.lastRequested
              && (ok ==> UpToDate(c, y.(lastRequested := x.lastRequested + 1)))
    {
      NextBlockKeeps(c, x, e, got, p, m);
    }
    LiveRule((x: State) => UpToDate(c, x), s, e, s.lastRequested + 1, follow, got, p, 0, r);
  }

  // ----- A live pass that starts short -----

  /** The block at LastRequestedBlock has not been scanned. */
  ghost predicate Behind(c: seq<Log>, s: State) {
    Short(c, s, Before(c, s.lastRequested + 1))
  }

  lemma ShortLog(c: seq<Log>, s: State, e: Env, j: nat)
    requires ValidChain(c) && j < |c| && Short(c, s, j)
    ensures var (r, ok) := ProcessLog(s, e, c[j]);
            r.trie == s.trie && r.lastRequested == s.lastRequested && Consistent(r) && (ok ==> Short(c, r, j + 1))
  {
    ProcessLogKeeps(s, e, c[j], []);
    assert c[..j + 1][..j] == c[..j];
  }

  lemma {:induction false} ShortBlockLogs(c: seq<Log>, s: State, e: Env, b: nat, logs: seq<Log>, j: nat, hi: nat,
                                          r: State)
    requires ValidChain(c) && j <= hi && OfBlock(c, j, hi, b) && Short(c, s, j) && TrueUntil(logs, c, j, hi)
    requires ProcessBlockLogs(s, e, b, logs).0 == r
    ensures r.trie == s.trie && r.lastRequested == s.lastRequested && Consistent(r)
    decreases |logs|
  {
    if logs != [] && logs[0] == c[j] {
      ShortLog(c, s, e, j);
      var (s1, ok) := ProcessLog(s, e, c[j]);
      if ok {
        ShortBlockLogs(c, s1, e, b, logs[1..], j + 1, hi, r);
      }
    }
  }

  lemma ShortBlock(c: seq<Log>, s: State, e: Env, b: nat, reply: Reply, timed: bool, r: State)
    requires ValidChain(c) && Short(c, s, Before(c, b))
    requires reply.Answer? ==> Faithful(reply.logs, Window(c, b, b))
    requires ProcessBlock(s, e, b, reply, timed).0 == r
    ensures r.trie == s.trie && r.lastRequested == s.lastRequested && Consistent(r)
  {
    if reply.Answer? {
      var s1 := ProcessBlockLogs(s, e, b, reply.logs).0;
      BlockIs(c, b);
      FaithfulIsTrue(c, reply.logs, b, b);
      ShortBlockLogs(c, s, e, b, reply.logs, Before(c, b), Before(c, b + 1), s1);
    }
  }

  lemma StaysBehind(c: seq<Log>, s: State, r: State)
    requires ValidChain(c) && Behind(c, s) && Consistent(r) && r.trie == s.trie && r.lastRequested == s.lastRequested
    ensures Behind(c, r) && Behind(c, r.(lastRequested := s.lastRequested + 1))
  {
    var b := s.lastRequested + 1;
    BlockIs(c, b);
    DepositsPrefix(c, Before(c, b), Before(c, b + 1));
  }

  lemma LiveStepShort(c: seq<Log>, s: State, e: Env, reply: Reply, timed: bool, r: State)
    requires ValidChain(c) && Behind(c, s)
    requires var b := s.lastRequested + 1;
             (reply.Answer? ==> Faithful(reply.logs, Window(c, b, b))) && ProcessBlock(s, e, b, reply, timed).0 == r
    ensures Behind(c, r) && r.trie == s.trie && r.lastRequested == s.lastRequested
    ensures Behind(c, r.(lastRequested := s.lastRequested + 1))
  {
    ShortBlock(c, s, e, s.lastRequested + 1, reply, timed, r);
    StaysBehind(c, s, r);
  }

  lemma NextBlockShort(c: seq<Log>, s: State, e: Env, got: Retrieval, p: Provider, n: nat)
    requires ValidChain(c) && Honest(p, c) && Behind(c, s)
    ensures var (r, ok) := NextBlock(s, e, got, p, n);
            && Behind(c, r) && r.trie == s.trie && r.lastRequested == s.lastRequested
            && Behind(c, r.(lastRequested := s.lastRequested + 1))
  {
    var (r, ok) := NextBlock(s, e, got, p, n);
    var b := s.lastRequested + 1;
    LiveStepShort(c, s, e, p(n, b, b), got.time(b), r);
  }

  /** A live pass from a block that was not scanned adds no deposit and leaves the last requested block unscanned. */
  lemma LiveShort(c: seq<Log>, s: State, e: Env, follow: nat, got: Retrieval, p: Provider, r: Outcome)
    requires ValidChain(c) && Honest(p, c) && Behind(c, s)
    requires LiveFrom(s, e, s.lastRequested + 1, follow, got, p, 0) == r
    ensures r.s.trie == s.trie && r.s.lastRequested >= s.lastRequested && Behind(c, r.s)
  {
    forall x: State, m: nat | Behind(c, x) && x.trie == s.trie
      ensures var (y, ok) := NextBlock(x, e, got, p, m);
              && Behind(c, y) && y.trie == s.trie && y.lastRequested == x.lastRequested
              && (ok ==> Behind(c, y.(lastRequested := x.lastRequested + 1)))
    {
      NextBlockShort(c, x, e, got, p, m);
    }
    LiveRule((x: State) => Behind(c, x) && x.trie == s.trie, s, e, s.lastRequested + 1, follow, got, p, 0, r);
  }

  // ----- Catch-ups, then polls -----

  datatype Live = Live(call: Call, got: Retrieval)

  function MakePoll(s: State, live: Live, deployment: nat): Outcome {
    Poll(s, live.call.e, live.call.tape, live.call.cfg, deployment, live.got, live.call.p, live.call.calls)
  }

  function PollAll(s: State, polls: seq<Live>, deployment: nat): State
    decreases |polls|
  {
    if polls == [] then s else PollAll(MakePoll(s, polls[0], deployment).s, polls[1..], deployment)
  }

  ghost predicate HonestPolls(polls: seq<Live>, c: seq<Log>) {
    forall k :: 0 <= k < |polls| ==> Honest(polls[k].call.p, c)
  }

  /** No poll of the sequence goes back to a catch-up. */
  ghost predicate NoFallback(s: State, polls: seq<Live>, deployment: nat)
    decreases |polls|
  {
    polls == [] || (!FallsBack(s, polls[0].call.cfg.follow)
                    && NoFallback(MakePoll(s, polls[0], deployment).s, polls[1..], deployment))
  }

  lemma {:induction false} ScanGrows(s: State, e: Env, h: Headers, current: nat, lastReq: nat, logs: seq<Log>,
                                     floor: nat)
    requires Consistent(s) && floor <= Min(s.lastRequested, Min(current, lastReq))
    ensures var r := ScanLogs(s, e, h, current, lastReq, logs); floor <= r.s.lastRequested && Consistent(r.s)
    decreases |logs|
  {
    if logs != [] {
      LastRequestedIs(s, e, h, current, lastReq, logs[0]);
      ScanLogKeeps(s, e, h, current, lastReq, logs[0], []);
      var r := ScanLog(s, e, h, current, lastReq, logs[0]);
      if r.ok {
        ScanGrows(r.s, e, r.h, r.current, lastReq, logs[1..], floor);
      }
    }
  }

  lemma BatchGrows(s: State, e: Env, h: Headers, cfg: Config, current: nat, size: nat, reply: Reply, floor: nat)
    requires Consistent(s) && floor <= Min(s.lastRequested, current) && current <= cfg.follow
    ensures var b := ProcessBatch(s, e, h, cfg, current, size, reply);
            floor <= b.s.lastRequested && Consistent(b.s) && (b.Next? ==> floor <= b.current <= cfg.follow)
  {
    if reply.Answer? && (s.started || (h.tape != [] && h.tape[0].GotHeaders?)) {
      var h1 := if s.started then h else Headers(h.have + h.tape[0].got, h.tape[1..]);
      ScanGrows(s, e, h1, current, s.lastRequested, reply.logs, floor);
      var r := ScanLogs(s, e, h1, current, s.lastRequested, reply.logs);
      CheckKeeps(r.s, e, r.h, r.current, Min(current + size, cfg.follow));
    }
  }

  /** A catch-up never takes the last requested block back below where it started. */
  lemma {:induction false} CatchUpGrows(s: State, e: Env, h: Headers, cfg: Config, current: nat, size: nat, p: Provider,
                                        n: nat, calls: nat, floor: nat)
    requires Consistent(s) && floor <= Min(s.lastRequested, current)
    ensures floor <= CatchUpFrom(s, e, h, cfg, current, size, p, n, calls).s.lastRequested
    decreases calls
  {
    if current < cfg.follow && calls > 0 {
      BatchGrows(s, e, h, cfg, current, size, p(n, current, Min(current + size, cfg.follow)), floor);
      var b := Round(s, e, h, cfg, current, size, p, n);
      if b.Next? {
        CatchUpGrows(b.s, e, b.h, cfg, b.current, b.size, p, n + 1, calls - 1, floor);
      }
    }
  }

  lemma HasEarlier(c: seq<Log>, s: State, b: nat)
    requires ValidChain(c) && UpToDate(c, s) && b <= s.lastRequested
    ensures HasThrough(c, s, b)
  {
    BeforeMonotone(c, b + 1, s.lastRequested + 1);
    HasLess(c, s, Before(c, b + 1), Before(c, s.lastRequested + 1));
  }

  /** One poll, by a live pass or by a catch-up. */
  lemma PollKeeps(c: seq<Log>, s: State, live: Live, deployment: nat, r: Outcome)
    requires ValidChain(c) && DeployedAt(c, deployment) && Honest(live.call.p, c)
    requires UpToDate(c, s) && deployment <= s.lastRequested && MakePoll(s, live, deployment) == r
    ensures UpToDate(c, r.s) && deployment <= r.s.lastRequested
    ensures r.Done? ==> HasThrough(c, r.s, live.call.cfg.follow)
  {
    var follow := live.call.cfg.follow;
    if FallsBack(s, follow) {
      FallbackKeeps(c, s, live.call, deployment, r);
    } else {
      LiveKeeps(c, s, live.call.e, follow, live.got, live.call.p, r);
    }
    if r.Done? {
      HasEarlier(c, r.s, follow);
    }
  }

  lemma FallbackKeeps(c: seq<Log>, s: State, call: Call, deployment: nat, r: Outcome)
    requires ValidChain(c) && DeployedAt(c, deployment) && Honest(call.p, c)
    requires UpToDate(c, s) && deployment <= s.lastRequested < call.cfg.follow && Make(s, call, deployment) == r
    ensures UpToDate(c, r.s) && s.lastRequested <= r.s.lastRequested
    ensures r.Done? ==> r.s.lastRequested == call.cfg.follow
  {
    var h := Headers({}, call.tape);
    UpToDateIsResumable(c, s, deployment);
    CatchUpScans(c, s, call, deployment);
    CatchUpGrows(s, call.e, h, call.cfg, s.lastRequested, call.cfg.limit, call.p, 0, call.calls, s.lastRequested);
    if r.Done? {
      CatchUpTakes(c, s, call.e, h, call.cfg, s.lastRequested, call.p, call.calls, r.s);
    }
  }

  lemma {:induction false} PollsKeep(c: seq<Log>, s: State, polls: seq<Live>, deployment: nat)
    requires ValidChain(c) && DeployedAt(c, deployment) && HonestPolls(polls, c)
    requires UpToDate(c, s) && deployment <= s.lastRequested
    ensures UpToDate(c, PollAll(s, polls, deployment))
    decreases |polls|
  {
    if polls != [] {
      var r := MakePoll(s, polls[0], deployment);
      PollKeeps(c, s, polls[0], deployment, r);
      PollsKeep(c, r.s, polls[1..], deployment);
    }
  }

  lemma PollShort(c: seq<Log>, s: State, live: Live, deployment: nat, r: Outcome)
    requires ValidChain(c) && Honest(live.call.p, c) && Behind(c, s) && !FallsBack(s, live.call.cfg.follow)
    requires MakePoll(s, live, deployment) == r
    ensures r.s.trie == s.trie && Behind(c, r.s)
  {
    LiveShort(c, s, live.call.e, live.call.cfg.follow, live.got, live.call.p, r);
  }

  lemma {:induction false} PollsStayShort(c: seq<Log>, s: State, polls: seq<Live>, deployment: nat)
    requires ValidChain(c) && HonestPolls(polls, c) && NoFallback(s, polls, deployment)
    requires Behind(c, s)
    ensures var r := PollAll(s, polls, deployment); r.trie == s.trie && Behind(c, r)
    decreases |polls|
  {
    if polls != [] {
      var live := polls[0];
      var r := MakePoll(s, live, deployment);
      PollShort(c, s, live, deployment, r);
      PollsStayShort(c, r.s, polls[1..], deployment);
    }
  }

  /** The service's life: catch-ups until one succeeds, then polls. The block at LastRequestedBlock has been scanned
      from then on, whatever fails, exactly if that catch-up did not return without a round at a block whose deposits
      were not in; otherwise live passes add no deposit. */
  lemma ScannedAfterIff(c: seq<Log>, calls: seq<Call>, last: Call, polls: seq<Live>, deployment: nat)
    requires ValidChain(c) && DeployedAt(c, deployment)
    requires AllHonest(calls, c) && Honest(last.p, c) && HonestPolls(polls, c)
    requires Make(MakeAll(FRESH, calls, deployment), last, deployment).Done?
    ensures var s := MakeAll(FRESH, calls, deployment);
            var now := PollAll(Make(s, last, deployment).s, polls, deployment);
            && (!IdleAtUnscanned(c, s, last.cfg, deployment) ==> UpToDate(c, now))
            && (IdleAtUnscanned(c, s, last.cfg, deployment)
                && NoFallback(Make(s, last, deployment).s, polls, deployment)
                ==> !UpToDate(c, now) && now.trie == s.trie)
  {
    var s := MakeAll(FRESH, calls, deployment);
    var first := Make(s, last, deployment).s;
    FreshIsResumable(c, deployment);
    CallsResume(c, FRESH, calls, deployment);
    CatchUpScans(c, s, last, deployment);
    CatchUpTakes(c, s, last.e, Headers({}, last.tape), last.cfg, StartBlock(s, deployment), last.p, last.calls, first);
    if !IdleAtUnscanned(c, s, last.cfg, deployment) {
      PollsKeep(c, first, polls, deployment);
    } else if NoFallback(first, polls, deployment) {
      PollsStayShort(c, first, polls, deployment);
    }
  }

  /** The deposit of StartAtFollowMisses: one live pass over the next, empty block takes the last requested block past
      it, and from then on no catch-up that succeeds takes it in. */
  lemma SkippedForGood(e: Env, got: Retrieval, p: Provider, later: Call)
    requires (forall ds: seq<Data>, b: nat :: !e.ready(ds, b)) && got.hash(2) && got.time(2) && p(0, 2, 2) == Answer([])
    requires Honest(later.p, [Deposit(1, 0, 7)])
    ensures var r := LiveFrom(FRESH.(lastRequested := 1), e, 2, 2, got, p, 0);
            && r == Done(FRESH.(lastRequested := 2))
            && (Make(r.s, later, 1).Done? ==> Make(r.s, later, 1).s.trie == [])
  {
    var c, s := [Deposit(1, 0, 7)], FRESH.(lastRequested := 2);
    assert ProcessBlock(FRESH.(lastRequested := 1), e, 2, Answer([]), true) == (FRESH.(lastRequested := 1), true);
    assert LiveFrom(s, e, 3, 2, got, p, 1) == Done(s);
    if Make(s, later, 1).Done? {
      assert c[..0] == [] && c[..1] == c;
      BeforeIs(c, 2, 1);
      ShortCatchUp(c, s, later.e, Headers({}, later.tape), later.cfg, 2, later.p, later.calls);
    }
  }
}

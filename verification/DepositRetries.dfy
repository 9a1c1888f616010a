/** Catch-ups that fail and are retried: beacon-chain/execution/log_processing.go over any sequence of calls of
    processPastLogs, against clients that are honest about the contract's logs but may fail at any point. */
module DepositRetries {
  import opened DepositLogs
  import opened DepositCatchUp

  /** A state from which a catch-up can go on: it has all deposits of the blocks before the one it will start at. */
  ghost predicate Resumable(c: seq<Log>, s: State, deployment: nat) {
    HasUpTo(c, s, Before(c, StartBlock(s, deployment)))
  }

  /** The state within a catch-up that has dealt with the blocks before `current`. */
  ghost predicate Settled(c: seq<Log>, s: State, deployment: nat, current: nat) {
    StartBlock(s, deployment) <= current && HasUpTo(c, s, Before(c, current))
  }

  lemma HasLess(c: seq<Log>, s: State, i: nat, j: nat)
    requires i <= j <= |c| && HasUpTo(c, s, j)
    ensures HasUpTo(c, s, i)
  {
    DepositsPrefix(c, i, j);
  }

  lemma SettledIsResumable(c: seq<Log>, s: State, deployment: nat, current: nat)
    requires ValidChain(c) && Settled(c, s, deployment, current)
    ensures Resumable(c, s, deployment)
  {
    BeforeMonotone(c, StartBlock(s, deployment), current);
    HasLess(c, s, Before(c, StartBlock(s, deployment)), Before(c, current));
  }

  // ----- One window, cut short anywhere -----

  /** The logs are those of the chain from position j on and before `hi`, up to one that is undecodable. */
  ghost predicate TrueUntil(logs: seq<Log>, c: seq<Log>, j: nat, hi: nat)
    requires hi <= |c|
    decreases |logs|
  {
    logs == []
    || (j < hi && (logs[0] == Garbled(c[j].block) || (logs[0] == c[j] && TrueUntil(logs[1..], c, j + 1, hi))))
  }

  lemma {:induction false} SameIsTrue(c: seq<Log>, j: nat, hi: nat)
    requires j <= hi <= |c|
    ensures TrueUntil(c[j..hi], c, j, hi)
    decreases hi - j
  {
    if j < hi {
      assert c[j..hi][1..] == c[j + 1..hi];
      SameIsTrue(c, j + 1, hi);
    }
  }

  lemma {:induction false} CutIsTrue(logs: seq<Log>, c: seq<Log>, j: nat, hi: nat, k: nat)
    requires j <= hi <= |c| && k < |logs| && k < hi - j
    requires logs[..k] == c[j..hi][..k] && logs[k] == Garbled(c[j + k].block)
    ensures TrueUntil(logs, c, j, hi)
    decreases k
  {
    if k > 0 {
      assert logs[0] == logs[..k][0] == c[j..hi][..k][0] == c[j];
      assert logs[1..][..k - 1] == logs[..k][1..] == c[j..hi][..k][1..] == c[j + 1..hi][..k - 1];
      CutIsTrue(logs[1..], c, j + 1, hi, k - 1);
    }
  }

  lemma FaithfulIsTrue(c: seq<Log>, logs: seq<Log>, current: nat, end: nat)
    requires ValidChain(c) && current <= end && Faithful(logs, Window(c, current, end))
    ensures TrueUntil(logs, c, Before(c, current), Before(c, end + 1))
  {
    BeforeMonotone(c, current, end + 1);
    var lo, hi := Before(c, current), Before(c, end + 1);
    if logs == c[lo..hi] {
      SameIsTrue(c, lo, hi);
    } else {
      var w := Window(c, current, end);
      var k :| 0 <= k < |logs| && k < |w| && logs[..k] == w[..k] && logs[k] == Garbled(w[k].block);
      CutIsTrue(logs, c, lo, hi, k);
    }
  }

  /** The last requested block never passes the block the scan was at, and no deposit is lost. */
  lemma ScanLogSettles(c: seq<Log>, s: State, e: Env, h: Headers, current: nat, lastReq: nat, log: Log, j: nat,
                       deployment: nat)
    requires ValidChain(c) && j <= |c| && HasUpTo(c, s, j) && Before(c, current) <= j
    requires log.Garbled? || (j < |c| && log == c[j])
    requires Max(s.lastRequested, lastReq) <= current && deployment <= current
    ensures var r := ScanLog(s, e, h, current, lastReq, log);
            && r.s.lastRequested <= current <= r.current && HasUpTo(c, r.s, j)
            && (r.ok && !log.Garbled? ==> HasUpTo(c, r.s, j + 1))
  {
    var r := ScanLog(s, e, h, current, lastReq, log);
    CheckKeeps(s, e, h, current, log.block - 1);
    if log.Garbled? {
      ScanLogKeeps(s, e, h, current, lastReq, log, Deposits(c));
    } else {
      ChainLogKept(c, s, e, h, current, lastReq, j);
    }
  }

  /** A log of the chain: what was in stays in, and the log is in once it has been processed. */
  lemma ChainLogKept(c: seq<Log>, s: State, e: Env, h: Headers, current: nat, lastReq: nat, j: nat)
    requires ValidChain(c) && j < |c| && HasUpTo(c, s, j)
    ensures var r := ScanLog(s, e, h, current, lastReq, c[j]);
            HasUpTo(c, r.s, j) && (r.ok ==> HasUpTo(c, r.s, j + 1))
  {
    var r := ScanLog(s, e, h, current, lastReq, c[j]);
    CheckKeeps(s, e, h, current, c[j].block - 1);
    var checked := if c[j].block > current then CheckHeaderRange(s, e, h, current, c[j].block - 1)
                   else Checked(s, h, true);
    if checked.ok {
      var s1 := if c[j].block > current then checked.s.(lastRequested := current) else s;
      TakeLog(c, s1, e, j);
      TookHas(c, s1, ProcessLog(s1, e, c[j]).0, j + 1, j + 1);
      HasLess(c, ProcessLog(s1, e, c[j]).0, j, j + 1);
    }
  }

  /** The first j logs include all those of blocks before the one being scanned. */
  lemma NextCurrent(c: seq<Log>, current: nat, j: nat)
    requires ValidChain(c) && j < |c| && Before(c, current) <= j
    ensures Before(c, Max(current, c[j].block)) <= j + 1
  {
    BeforeSpec(c, Max(current, c[j].block));
    BeforeSpec(c, current);
  }

  /** Wherever the scan of a window stops, the state can be resumed from. */
  lemma {:induction false} ScanSettles(c: seq<Log>, s: State, e: Env, h: Headers, current: nat, lastReq: nat,
                                       logs: seq<Log>, j: nat, hi: nat, deployment: nat)
    requires ValidChain(c) && j <= hi <= |c| && HasUpTo(c, s, j) && Before(c, current) <= j && TrueUntil(logs, c, j, hi)
    requires Max(s.lastRequested, lastReq) <= current && deployment <= current
    ensures var r := ScanLogs(s, e, h, current, lastReq, logs);
            r.s.lastRequested <= r.current && Resumable(c, r.s, deployment)
    decreases |logs|
  {
    if logs == [] {
      HasLess(c, s, Before(c, current), j);
      SettledIsResumable(c, s, deployment, current);
    } else {
      ScanLogSettles(c, s, e, h, current, lastReq, logs[0], j, deployment);
      var r := ScanLog(s, e, h, current, lastReq, logs[0]);
      if r.ok {
        NextCurrent(c, current, j);
        ScanSettles(c, r.s, e, r.h, r.current, lastReq, logs[1..], j + 1, hi, deployment);
      } else {
        HasLess(c, r.s, Before(c, current), j);
        SettledIsResumable(c, r.s, deployment, current);
      }
    }
  }

  lemma CheckResumes(c: seq<Log>, s: State, e: Env, h: Headers, i: nat, end: int, deployment: nat)
    requires Resumable(c, s, deployment)
    ensures Resumable(c, CheckHeaderRange(s, e, h, i, end).s, deployment)
  {
    CheckKeeps(s, e, h, i, end);
  }

  lemma WindowSettles(c: seq<Log>, s: State, e: Env, h: Headers, current: nat, end: nat, logs: seq<Log>,
                      deployment: nat)
    requires ValidChain(c) && Settled(c, s, deployment, current) && current <= end
    requires Faithful(logs, Window(c, current, end))
    ensures Resumable(c, ProcessWindow(s, e, h, current, end, logs).s, deployment)
  {
    FaithfulIsTrue(c, logs, current, end);
    BeforeMonotone(c, current, end + 1);
    ScanSettles(c, s, e, h, current, s.lastRequested, logs, Before(c, current), Before(c, end + 1), deployment);
    var r := ScanLogs(s, e, h, current, s.lastRequested, logs);
    CheckResumes(c, r.s, e, r.h, r.current, end, deployment);
  }

  /** The scan of a window stays within it. */
  lemma {:induction false} ScanWithin(s: State, e: Env, h: Headers, current: nat, lastReq: nat, logs: seq<Log>,
                                      end: nat)
    requires Consistent(s) && Max(s.lastRequested, lastReq) <= current <= end
    requires forall k :: 0 <= k < |logs| ==> logs[k].block <= end
    ensures var r := ScanLogs(s, e, h, current, lastReq, logs); r.s.lastRequested <= r.current <= end
    decreases |logs|
  {
    if logs != [] {
      var log := logs[0];
      CheckKeeps(s, e, h, current, log.block - 1);
      ScanLogKeeps(s, e, h, current, lastReq, log, []);
      var r := ScanLog(s, e, h, current, lastReq, log);
      if r.ok {
        ScanWithin(r.s, e, r.h, r.current, lastReq, logs[1..], end);
      }
    }
  }

  lemma WindowWithin(c: seq<Log>, s: State, e: Env, h: Headers, current: nat, end: nat, logs: seq<Log>)
    requires ValidChain(c) && Consistent(s) && s.lastRequested <= current <= end
    requires Before(c, current) <= Before(c, end + 1) && logs == c[Before(c, current)..Before(c, end + 1)]
    ensures ProcessWindow(s, e, h, current, end, logs).s.lastRequested <= end
  {
    BeforeSpec(c, end + 1);
    ScanWithin(s, e, h, current, s.lastRequested, logs, end);
    ScanKeeps(s, e, h, current, s.lastRequested, logs, []);
    var r := ScanLogs(s, e, h, current, s.lastRequested, logs);
    CheckKeeps(r.s, e, r.h, r.current, end);
  }

  /** A batch that moves on leaves everything before its new block dealt with; one that stops can be resumed. */
  lemma BatchSettles(c: seq<Log>, s: State, e: Env, h: Headers, cfg: Config, current: nat, size: nat, reply: Reply,
                     deployment: nat)
    requires ValidChain(c) && Settled(c, s, deployment, current) && current < cfg.follow
    requires reply.Answer? ==> Faithful(reply.logs, Window(c, current, Min(current + size, cfg.follow)))
    ensures var b := ProcessBatch(s, e, h, cfg, current, size, reply);
            if b.Next? then Settled(c, b.s, deployment, b.current) else Resumable(c, b.s, deployment)
  {
    SettledIsResumable(c, s, deployment, current);
    if reply.Answer? {
      if ProcessBatch(s, e, h, cfg, current, size, reply).Next? {
        AnswerSettles(c, s, e, h, cfg, current, size, reply, deployment);
      } else if s.started || (h.tape != [] && h.tape[0].GotHeaders?) {
        var h1 := if s.started then h else Headers(h.have + h.tape[0].got, h.tape[1..]);
        WindowSettles(c, s, e, h1, current, Min(current + size, cfg.follow), reply.logs, deployment);
      }
    }
  }

  lemma AnswerSettles(c: seq<Log>, s: State, e: Env, h: Headers, cfg: Config, current: nat, size: nat, reply: Reply,
                      deployment: nat)
    requires ValidChain(c) && Settled(c, s, deployment, current) && current < cfg.follow && reply.Answer?
    requires Faithful(reply.logs, Window(c, current, Min(current + size, cfg.follow)))
    requires ProcessBatch(s, e, h, cfg, current, size, reply).Next?
    ensures var b := ProcessBatch(s, e, h, cfg, current, size, reply); Settled(c, b.s, deployment, b.current)
  {
    BatchLogs(c, s, e, h, cfg, current, size, reply);
    var h1 := BatchWindow(s, e, h, cfg, current, size, reply);
    EndSettles(c, s, e, h1, current, Min(current + size, cfg.follow), reply.logs, deployment);
  }

  lemma EndSettles(c: seq<Log>, s: State, e: Env, h: Headers, current: nat, end: nat, logs: seq<Log>, deployment: nat)
    requires ValidChain(c) && Settled(c, s, deployment, current) && current <= end
    requires Before(c, current) <= Before(c, end + 1) && logs == c[Before(c, current)..Before(c, end + 1)]
    ensures var w := ProcessWindow(s, e, h, current, end, logs); w.ok ==> Settled(c, w.s, deployment, end)
  {
    var w := ProcessWindow(s, e, h, current, end, logs);
    WindowWithin(c, s, e, h, current, end, logs);
    WindowTakes(c, s, e, h, current, end, logs);
    BeforeMonotone(c, end, end + 1);
    if w.ok {
      TookHas(c, s, w.s, Before(c, end), Before(c, end + 1));
    }
  }

  lemma {:induction false} LoopResumes(c: seq<Log>, s: State, e: Env, h: Headers, cfg: Config, current: nat, size: nat,
                                       p: Provider, n: nat, calls: nat, deployment: nat)
    requires ValidChain(c) && Honest(p, c) && Settled(c, s, deployment, current)
    ensures Resumable(c, CatchUpFrom(s, e, h, cfg, current, size, p, n, calls).s, deployment)
    decreases calls
  {
    if current >= cfg.follow || calls == 0 {
      SettledIsResumable(c, s, deployment, current);
    } else {
      BatchSettles(c, s, e, h, cfg, current, size, p(n, current, Min(current + size, cfg.follow)), deployment);
      var b := Round(s, e, h, cfg, current, size, p, n);
      if b.Next? {
        LoopResumes(c, b.s, e, b.h, cfg, b.current, b.size, p, n + 1, calls - 1, deployment);
      }
    }
  }

  /** Success or failure, at whatever log, header, save or query: the next catch-up starts with all deposits of the
      blocks before its start block. */
  lemma CatchUpResumes(c: seq<Log>, s: State, e: Env, tape: seq<HeaderReply>, cfg: Config, deployment: nat, p: Provider,
                       calls: nat)
    requires ValidChain(c) && Honest(p, c) && Resumable(c, s, deployment)
    ensures Resumable(c, CatchUp(s, e, tape, cfg, deployment, p, calls).s, deployment)
  {
    LoopResumes(c, s, e, Headers({}, tape), cfg, StartBlock(s, deployment), cfg.limit, p, 0, calls, deployment);
  }

  // ----- Any sequence of catch-ups -----

  /** One call of processPastLogs, with what it meets. */
  datatype Call = Call(e: Env, tape: seq<HeaderReply>, cfg: Config, p: Provider, calls: nat)

  function Make(s: State, call: Call, deployment: nat): Outcome {
    CatchUp(s, call.e, call.tape, call.cfg, deployment, call.p, call.calls)
  }

  function MakeAll(s: State, calls: seq<Call>, deployment: nat): State
    decreases |calls|
  {
    if calls == [] then s else MakeAll(Make(s, calls[0], deployment).s, calls[1..], deployment)
  }

  ghost predicate AllHonest(calls: seq<Call>, c: seq<Log>) {
    forall k :: 0 <= k < |calls| ==> Honest(calls[k].p, c)
  }

  lemma {:induction false} CallsResume(c: seq<Log>, s: State, calls: seq<Call>, deployment: nat)
    requires ValidChain(c) && AllHonest(calls, c) && Resumable(c, s, deployment)
    ensures Resumable(c, MakeAll(s, calls, deployment), deployment)
    decreases |calls|
  {
    if calls != [] {
      var call := calls[0];
      CatchUpResumes(c, s, call.e, call.tape, call.cfg, deployment, call.p, call.calls);
      CallsResume(c, Make(s, call, deployment).s, calls[1..], deployment);
    }
  }

  /** The contract has no logs before the block it was deployed in. */
  ghost predicate DeployedAt(c: seq<Log>, deployment: nat) {
    forall i :: 0 <= i < |c| ==> c[i].block >= deployment
  }

  lemma FreshIsResumable(c: seq<Log>, deployment: nat)
    requires ValidChain(c) && DeployedAt(c, deployment)
    ensures Resumable(c, FRESH, deployment)
  {
    BeforeIs(c, deployment, 0);
    assert c[..0] == [];
  }

  /** From a fresh start and after any catch-ups, failed or not, a catch-up that returns without error leaves the
      contract's deposits in the trie, in order, and complete up to its follow height; except that one that starts at
      the follow height makes no round and has that block's deposits only if they were in before. */
  lemma CompleteAfterAnyFailures(c: seq<Log>, calls: seq<Call>, last: Call, deployment: nat, s': State)
    requires ValidChain(c) && DeployedAt(c, deployment) && AllHonest(calls, c) && Honest(last.p, c)
    requires Make(MakeAll(FRESH, calls, deployment), last, deployment) == Done(s')
    ensures s'.trie <= Deposits(c)
    ensures var s := MakeAll(FRESH, calls, deployment);
            Through(c, last.cfg.follow) <= s'.trie
            <==> StartBlock(s, deployment) != last.cfg.follow || Through(c, last.cfg.follow) <= s.trie
  {
    var s, follow := MakeAll(FRESH, calls, deployment), last.cfg.follow;
    FreshIsResumable(c, deployment);
    CallsResume(c, FRESH, calls, deployment);
    ExactlyOnceIff(c, s, last.e, last.tape, last.cfg, deployment, last.p, last.calls, s');
    if StartBlock(s, deployment) > follow {
      PastIsComplete(c, s, StartBlock(s, deployment), follow);
    }
    if Complete(c, s, s', follow) {
      CompletePrefix(c, s, s', follow);
    }
    PrefixOfDeposits(c, s.trie, follow);
  }

  /** Whoever has all deposits before a block has all those up to any earlier block. */
  lemma PastIsComplete(c: seq<Log>, s: State, start: nat, follow: nat)
    requires ValidChain(c) && follow < start && HasUpTo(c, s, Before(c, start))
    ensures |Through(c, follow)| <= |s.trie|
  {
    BeforeMonotone(c, follow + 1, start);
    DepositsPrefix(c, Before(c, follow + 1), Before(c, start));
  }

  lemma PrefixOfDeposits(c: seq<Log>, trie: seq<Data>, follow: nat)
    requires trie <= Deposits(c)
    ensures Through(c, follow) <= trie <==> |Through(c, follow)| <= |trie|
  {
    DepositsPrefix(c, Before(c, follow + 1), |c|);
    assert c[..|c|] == c;
  }

  /** A deposit in the block that a fresh service starts at, which is also the follow height: the first catch-up
      returns without error and without the deposit. */
  lemma StartAtFollowMisses(e: Env, tape: seq<HeaderReply>, p: Provider, calls: nat)
    ensures var c, r := [Deposit(1, 0, 7)], CatchUp(FRESH, e, tape, Config(1, 10, 1), 1, p, calls);
            && ValidChain(c) && DeployedAt(c, 1) && Resumable(c, FRESH, 1)
            && r == Done(FRESH.(lastRequested := 1)) && !Complete(c, FRESH, r.s, 1)
  {
    var c := [Deposit(1, 0, 7)];
    assert c[..0] == [] && c[..1] == c;
    FreshIsResumable(c, 1);
    BeforeIs(c, 2, 1);
    assert Deposits(c) == [7];
  }

  lemma CompletePrefix(c: seq<Log>, s: State, s': State, follow: nat)
    requires ValidChain(c) && s.trie <= Deposits(c) && Complete(c, s, s', follow)
    ensures s'.trie <= Deposits(c) && Through(c, follow) <= s'.trie
  {
    DepositsPrefix(c, Before(c, follow + 1), |c|);
    assert c[..|c|] == c;
  }

  // ----- A client that leaves logs out -----

  const SILENT: Provider := (n, a, b) => Answer([])

  /** A client that answers the first catch-up without block 1's logs, an answer that is not faithful, leaves the
      service short; no later catch-up with an honest client adds a deposit. */
  lemma OmittedLogsStayMissing(e: Env, later: Call)
    requires (forall ds: seq<Data>, b: nat :: !e.ready(ds, b)) && Honest(later.p, EXAMPLE)
    ensures ValidChain(EXAMPLE) && Through(EXAMPLE, 2) == [7, 8]
    ensures var s := CatchUp(FRESH, e, [GotHeaders({0, 1, 2})], Config(2, 10, 1), 0, SILENT, 1);
            && s == Done(FRESH.(lastRequested := 2))
            && (Make(s.s, later, 0).Done? ==> Make(s.s, later, 0).s.trie == [])
  {
    ExampleChain();
    var h := HEADERS;
    assert CheckHeaderRange(FRESH, e, h, 3, 2) == Checked(FRESH, h, true);
    assert CheckHeaderRange(FRESH, e, h, 2, 2) == Checked(FRESH, h, true);
    assert CheckHeaderRange(FRESH, e, h, 1, 2) == Checked(FRESH, h, true);
    assert ProcessWindow(FRESH, e, h, 0, 2, []) == Checked(FRESH, h, true);
    var s := FRESH.(lastRequested := 2);
    assert Before(EXAMPLE, 2) == 2 && Before(EXAMPLE, 3) == 2 && EXAMPLE[..2] == EXAMPLE;
    if Make(s, later, 0).Done? {
      ShortCatchUp(EXAMPLE, s, later.e, Headers({}, later.tape), later.cfg, 2, later.p, later.calls);
    }
  }
}

/** Chain start found by live passes, and which live passes succeed: requestBatchedHeadersAndLogs and ProcessETH1Block
    of beacon-chain/execution/log_processing.go. A live pass checks a block only after all of the block's logs, so it
    is right even after a pass that failed in the middle of a block. */
module DepositLiveStart {
  import opened DepositLogs
  import opened DepositCatchUp
  import opened DepositRetries
  import opened DepositLive
  import opened DepositProgress

  // ----- One block -----

  /** Logs change nothing about chain start, and take the trie no further than the block's deposits. */
  ghost predicate OnlyLogs(s: State, r: State, size: nat) {
    && s.trie <= r.trie && |r.trie| <= Max(|s.trie|, size)
    && r.started == s.started && r.genesisBlock == s.genesisBlock && r.feed == s.feed
    && (s.started ==> r.startDeposits == s.startDeposits)
  }

  lemma LogIsOnlyLog(c: seq<Log>, s: State, e: Env, j: nat, hi: nat)
    requires ValidChain(c) && j < hi <= |c| && HasUpTo(c, s, j)
    ensures OnlyLogs(s, ProcessLog(s, e, c[j]).0, |Deposits(c[..hi])|)
  {
    TakeLog(c, s, e, j);
    ProcessLogKeeps(s, e, c[j], []);
    DepositsPrefix(c, j + 1, hi);
  }

  lemma OnlyLogsTwice(s: State, s1: State, s2: State, size: nat)
    requires OnlyLogs(s, s1, size) && OnlyLogs(s1, s2, size)
    ensures OnlyLogs(s, s2, size)
  {
  }

  lemma {:induction false} BlockIsOnlyLogs(c: seq<Log>, s: State, e: Env, b: nat, logs: seq<Log>, j: nat, hi: nat,
                                          r: State)
    requires ValidChain(c) && j <= hi && OfBlock(c, j, hi, b) && HasUpTo(c, s, j) && TrueUntil(logs, c, j, hi)
    requires ProcessBlockLogs(s, e, b, logs).0 == r
    ensures OnlyLogs(s, r, |Deposits(c[..hi])|)
    decreases |logs|
  {
    if logs != [] && logs[0] == c[j] {
      var (s1, ok) := ProcessLog(s, e, c[j]);
      LogIsOnlyLog(c, s, e, j, hi);
      if ok {
        LogKept(c, s, e, j, s1, ok);
        BlockIsOnlyLogs(c, s1, e, b, logs[1..], j + 1, hi, r);
        OnlyLogsTwice(s, s1, r, |Deposits(c[..hi])|);
      }
    }
  }

  /** Before chain start the trie holds nothing from beyond block b. */
  ghost predicate NotBeyond(c: seq<Log>, s: State, b: nat) {
    !s.started ==> |s.trie| <= |Through(c, b)|
  }

  /** All deposits up to the last requested block are in, and none from beyond the next one. */
  ghost predicate InStep(c: seq<Log>, s: State) {
    UpToDate(c, s) && NotBeyond(c, s, s.lastRequested + 1)
  }

  lemma LogsTrack(c: seq<Log>, e: Env, s: State, r: State, size: nat, lo: nat, hi: int)
    requires OnlyLogs(s, r, size) && Tracks(c, e, s, lo, hi)
    ensures Tracks(c, e, r, lo, hi)
  {
  }

  /** A block whose logs are all in is checked against exactly the deposits up to it. */
  lemma CheckTracksBlock(c: seq<Log>, e: Env, s: State, b: nat, lo: nat)
    requires ValidChain(c) && HasThrough(c, s, b) && NotBeyond(c, s, b) && lo <= b && Tracks(c, e, s, lo, b - 1)
    ensures Tracks(c, e, CheckBlock(s, e, b), lo, b)
  {
    if !s.started {
      SamePrefix(c, s.trie, Before(c, b + 1));
    }
  }

  lemma BlockLogsInStep(c: seq<Log>, s: State, e: Env, b: nat, logs: seq<Log>, r: State)
    requires ValidChain(c) && HasUpTo(c, s, Before(c, b)) && NotBeyond(c, s, b) && Faithful(logs, Window(c, b, b))
    requires ProcessBlockLogs(s, e, b, logs).0 == r
    ensures OnlyLogs(s, r, |Through(c, b)|) && NotBeyond(c, r, b)
  {
    BlockIs(c, b);
    FaithfulIsTrue(c, logs, b, b);
    BlockIsOnlyLogs(c, s, e, b, logs, Before(c, b), Before(c, b + 1), r);
  }

  lemma BlockTracks(c: seq<Log>, e: Env, s: State, b: nat, reply: Reply, timed: bool, r: State, ok: bool, lo: nat)
    requires ValidChain(c) && HasUpTo(c, s, Before(c, b)) && NotBeyond(c, s, b)
    requires lo <= b && Tracks(c, e, s, lo, b - 1)
    requires reply.Answer? ==> Faithful(reply.logs, Window(c, b, b))
    requires ProcessBlock(s, e, b, reply, timed) == (r, ok)
    ensures NotBeyond(c, r, b) && Tracks(c, e, r, lo, if ok then b else b - 1)
  {
    if reply.Answer? {
      var (s1, ok1) := ProcessBlockLogs(s, e, b, reply.logs);
      BlockLogsInStep(c, s, e, b, reply.logs, s1);
      LogsTrack(c, e, s, s1, |Through(c, b)|, lo, b - 1);
      WholeBlockLogs(c, s, e, b, reply.logs, s1, ok1);
      if ok1 {
        CheckTracksBlock(c, e, s1, b, lo);
      }
    }
  }

  lemma NextThrough(c: seq<Log>, b: nat)
    requires ValidChain(c)
    ensures |Through(c, b)| <= |Through(c, b + 1)|
  {
    BeforeMonotone(c, b + 1, b + 2);
    DepositsPrefix(c, Before(c, b + 1), Before(c, b + 2));
  }

  // ----- A live pass -----

  /** In step, and with every block from `lo` to the last requested one checked. */
  ghost predicate TracksInStep(c: seq<Log>, e: Env, s: State, lo: nat) {
    InStep(c, s) && lo <= s.lastRequested + 1 && Tracks(c, e, s, lo, s.lastRequested)
  }

  lemma InStepAfter(c: seq<Log>, e: Env, s: State, lo: nat, b: nat)
    requires ValidChain(c) && HasThrough(c, s, b) && NotBeyond(c, s, b) && lo <= b + 1 && Tracks(c, e, s, lo, b)
    ensures TracksInStep(c, e, s.(lastRequested := b), lo)
  {
    NextThrough(c, b);
    assert Tracks(c, e, s.(lastRequested := b), lo, b);
  }

  lemma BlockInStep(c: seq<Log>, e: Env, s: State, reply: Reply, timed: bool, lo: nat, y: State, ok: bool)
    requires ValidChain(c) && TracksInStep(c, e, s, lo)
    requires var b := s.lastRequested + 1;
             && (reply.Answer? ==> Faithful(reply.logs, Window(c, b, b)))
             && ProcessBlock(s, e, b, reply, timed) == (y, ok)
    ensures y.lastRequested == s.lastRequested
    ensures TracksInStep(c, e, if ok then y.(lastRequested := s.lastRequested + 1) else y, lo)
  {
    var b := s.lastRequested + 1;
    BlockKeeps(c, s, e, b, reply, timed, y, ok);
    BlockTracks(c, e, s, b, reply, timed, y, ok, lo);
    if ok {
      InStepAfter(c, e, y, lo, b);
    }
  }

  lemma NextBlockTracks(c: seq<Log>, e: Env, s: State, got: Retrieval, p: Provider, n: nat, lo: nat, y: State, ok: bool)
    requires ValidChain(c) && Honest(p, c) && TracksInStep(c, e, s, lo) && NextBlock(s, e, got, p, n) == (y, ok)
    ensures y.lastRequested == s.lastRequested
    ensures TracksInStep(c, e, if ok then y.(lastRequested := s.lastRequested + 1) else y, lo)
  {
    var b := s.lastRequested + 1;
    BlockInStep(c, e, s, p(n, b, b), got.time(b), lo, y, ok);
  }

  /** Whether a live pass succeeds or stops: every block it has noted was checked against exactly the deposits up to it,
      and genesis is announced at the first that was ready, with those deposits, or not at all. */
  lemma LiveTracks(c: seq<Log>, e: Env, s: State, follow: nat, got: Retrieval, p: Provider, lo: nat, r: Outcome)
    requires ValidChain(c) && Honest(p, c) && TracksInStep(c, e, s, lo)
    requires LiveFrom(s, e, s.lastRequested + 1, follow, got, p, 0) == r
    ensures TracksInStep(c, e, r.s, lo)
    ensures r.Done? ==> r.s.lastRequested == Max(s.lastRequested, follow)
  {
    forall x: State, m: nat | TracksInStep(c, e, x, lo)
      ensures var (y, ok) := NextBlock(x, e, got, p, m);
              && y.lastRequested == x.lastRequested
              && TracksInStep(c, e, if ok then y.(lastRequested := x.lastRequested + 1) else y, lo)
    {
      var (y, ok) := NextBlock(x, e, got, p, m);
      NextBlockTracks(c, e, x, got, p, m, lo, y, ok);
    }
    LiveRule((x: State) => TracksInStep(c, e, x, lo), s, e, s.lastRequested + 1, follow, got, p, 0, r);
  }

  // ----- The exact starting condition -----

  lemma StartedStays(s: State, e: Env, b: nat, reply: Reply, timed: bool)
    requires s.started
    ensures var (r, ok) := ProcessBlock(s, e, b, reply, timed);
            r.started && r.genesisBlock == s.genesisBlock && r.lastRequested == s.lastRequested
  {
    if reply.Answer? {
      LogsKeepStarted(s, e, b, reply.logs);
    }
  }

  lemma {:induction false} LogsKeepStarted(s: State, e: Env, b: nat, logs: seq<Log>)
    requires s.started
    ensures var (r, ok) := ProcessBlockLogs(s, e, b, logs);
            r.started && r.genesisBlock == s.genesisBlock && r.lastRequested == s.lastRequested
    decreases |logs|
  {
    if logs != [] {
      LogsKeepStarted(if logs[0].block == b then ProcessLog(s, e, logs[0]).0 else s, e, b, logs[1..]);
    }
  }

  /** A block whose deposits are all in already changes the trie no more. */
  lemma NothingNew(c: seq<Log>, s: State, e: Env, b: nat, logs: seq<Log>, r: State, ok: bool)
    requires ValidChain(c) && HasThrough(c, s, b) && Faithful(logs, Window(c, b, b))
    requires ProcessBlockLogs(s, e, b, logs) == (r, ok)
    ensures Consistent(r) && r.trie == s.trie && r.started == s.started && r.lastRequested == s.lastRequested
  {
    BlockIs(c, b);
    HasLess(c, s, Before(c, b), Before(c, b + 1));
    FaithfulIsTrue(c, logs, b, b);
    BlockIsOnlyLogs(c, s, e, b, logs, Before(c, b), Before(c, b + 1), r);
    WholeBlockLogs(c, s, e, b, logs, r, ok);
  }

  /** A service that has the next block's deposits, and possibly more, announces that block if they are ready there. */
  lemma NextBlockFires(c: seq<Log>, e: Env, s: State, b: nat, reply: Reply, timed: bool, r: State)
    requires ValidChain(c) && HasThrough(c, s, b) && !s.started && e.ready(s.trie, b)
    requires reply.Answer? ==> Faithful(reply.logs, Window(c, b, b))
    requires ProcessBlock(s, e, b, reply, timed) == (r, true)
    ensures r.started && r.genesisBlock == b && r.lastRequested == s.lastRequested
  {
    var (s1, ok) := ProcessBlockLogs(s, e, b, reply.logs);
    NothingNew(c, s, e, b, reply.logs, s1, ok);
  }

  lemma LiveKeepsStarted(s: State, e: Env, follow: nat, got: Retrieval, p: Provider, n: nat, b: nat, r: Outcome)
    requires s.started && s.genesisBlock == b && LiveFrom(s, e, s.lastRequested + 1, follow, got, p, n) == r
    ensures r.s.started && r.s.genesisBlock == b
  {
    forall x: State, m: nat | x.started && x.genesisBlock == b
      ensures var (y, ok) := NextBlock(x, e, got, p, m);
              y.started && y.genesisBlock == b && y.lastRequested == x.lastRequested
    {
      var b' := x.lastRequested + 1;
      StartedStays(x, e, b', p(m, b', b'), got.time(b'));
    }
    LiveRule((x: State) => x.started && x.genesisBlock == b, s, e, s.lastRequested + 1, follow, got, p, n, r);
  }

  lemma LiveFirst(s: State, e: Env, b: nat, follow: nat, got: Retrieval, p: Provider, r: State) returns (s1: State)
    requires b <= follow && LiveFrom(s, e, b, follow, got, p, 0) == Done(r)
    ensures ProcessBlock(s, e, b, p(0, b, b), got.time(b)) == (s1, true)
    ensures LiveFrom(s1.(lastRequested := b), e, b + 1, follow, got, p, 1) == Done(r)
  {
    s1 := ProcessBlock(s, e, b, p(0, b, b), got.time(b)).0;
  }

  /** Then a live pass that succeeds announces it. */
  lemma LiveFires(c: seq<Log>, e: Env, s: State, follow: nat, got: Retrieval, p: Provider, b: nat, reply: Reply,
                  s1: State, r: State)
    requires ValidChain(c) && HasThrough(c, s, b) && !s.started && e.ready(s.trie, b)
    requires reply.Answer? ==> Faithful(reply.logs, Window(c, b, b))
    requires ProcessBlock(s, e, b, reply, got.time(b)) == (s1, true)
    requires LiveFrom(s1.(lastRequested := b), e, b + 1, follow, got, p, 1) == Done(r)
    ensures r.started && r.genesisBlock == b
  {
    NextBlockFires(c, e, s, b, reply, got.time(b), s1);
    LiveKeepsStarted(s1.(lastRequested := b), e, follow, got, p, 1, b, Done(r));
  }

  lemma InStepFromHere(c: seq<Log>, e: Env, s: State)
    requires UpToDate(c, s) && !s.started && |s.trie| <= |Through(c, s.lastRequested + 1)|
    ensures TracksInStep(c, e, s, s.lastRequested + 1)
  {
  }

  lemma TooEarly(c: seq<Log>, e: Env, s: State, b: nat)
    requires Consistent(s) && s.trie <= Deposits(c) && |s.trie| > |Through(c, b)| && ReadyAt(e, |s.trie|)
    ensures HasThrough(c, s, b) && e.ready(s.trie, b) && !e.ready(Through(c, b), b)
  {
  }

  lemma LiveStartsRight(c: seq<Log>, e: Env, s: State, follow: nat, got: Retrieval, p: Provider, b: nat, r: State)
    requires ValidChain(c) && Honest(p, c) && UpToDate(c, s) && !s.started && b == s.lastRequested + 1
    requires LiveFrom(s, e, b, follow, got, p, 0) == Done(r) && |s.trie| <= |Through(c, b)|
    ensures Tracks(c, e, r, b, Max(s.lastRequested, follow))
  {
    InStepFromHere(c, e, s);
    LiveTracks(c, e, s, follow, got, p, b, Done(r));
  }

  lemma LiveStartsWrong(c: seq<Log>, e: Env, s: State, follow: nat, got: Retrieval, p: Provider, b: nat, r: State)
    requires ValidChain(c) && Honest(p, c) && HasThrough(c, s, b) && !s.started && b <= follow
    requires e.ready(s.trie, b) && !e.ready(Through(c, b), b)
    requires LiveFrom(s, e, b, follow, got, p, 0) == Done(r)
    ensures !Tracks(c, e, r, b, follow)
  {
    var s1 := LiveFirst(s, e, b, follow, got, p, r);
    LiveFires(c, e, s, follow, got, p, b, p(0, b, b), s1, r);
  }

  /** Chain start is right for every genesis condition when the service has no deposit from beyond the block after its
      last requested one, and only then: otherwise "as many deposits as the service has" is announced too early. */
  lemma LiveStartIff(c: seq<Log>, e: Env, s: State, follow: nat, got: Retrieval, p: Provider, b: nat, r: State)
    requires ValidChain(c) && Honest(p, c) && UpToDate(c, s) && !s.started && b == s.lastRequested + 1 <= follow
    requires LiveFrom(s, e, b, follow, got, p, 0) == Done(r)
    ensures |s.trie| <= |Through(c, b)| ==> Tracks(c, e, r, b, follow)
    ensures ReadyAt(e, |s.trie|) ==> (Tracks(c, e, r, b, follow) <==> |s.trie| <= |Through(c, b)|)
  {
    if |s.trie| <= |Through(c, b)| {
      LiveStartsRight(c, e, s, follow, got, p, b, r);
    } else if ReadyAt(e, |s.trie|) {
      TooEarly(c, e, s, b);
      LiveStartsWrong(c, e, s, follow, got, p, b, r);
    }
  }

  /** From exactly the deposits up to the last requested block, a live pass that succeeds announces the first ready
      block it has seen. */
  lemma LiveFromExact(c: seq<Log>, e: Env, s: State, follow: nat, got: Retrieval, p: Provider, b: nat, r: State)
    requires ValidChain(c) && Honest(p, c) && UpToDate(c, s) && !s.started && b == s.lastRequested + 1
    requires s.trie == Through(c, s.lastRequested) && LiveFrom(s, e, b, follow, got, p, 0) == Done(r)
    ensures Tracks(c, e, r, b, Max(s.lastRequested, follow))
  {
    NextThrough(c, s.lastRequested);
    LiveStartsRight(c, e, s, follow, got, p, b, r);
  }

  // ----- Polls -----

  lemma TracksOn(c: seq<Log>, e: Env, s: State, lo: nat, m: nat, r: State, hi: nat)
    requires Tracks(c, e, s, lo, m) && lo <= m <= hi
    requires if s.started then r.started && r.genesisBlock == s.genesisBlock && r.startDeposits == s.startDeposits
             else Tracks(c, e, r, m, hi)
    ensures Tracks(c, e, r, lo, hi)
  {
  }

  /** What a successful catch-up from s leaves before chain start, or keeps after it. */
  lemma FallbackStart(c: seq<Log>, s: State, call: Call, deployment: nat, r: State)
    requires ValidChain(c) && Honest(call.p, c) && deployment <= s.lastRequested < call.cfg.follow
    requires Resumable(c, s, deployment) && NotBeyond(c, s, s.lastRequested) && Make(s, call, deployment) == Done(r)
    ensures if s.started then r.started && r.genesisBlock == s.genesisBlock && r.startDeposits == s.startDeposits
            else Tracks(c, call.e, r, s.lastRequested, call.cfg.follow) && r.trie == Through(c, call.cfg.follow)
  {
    var h := Headers({}, call.tape);
    if s.started {
      CatchUpKeeps(s, call.e, h, call.cfg, s.lastRequested, call.cfg.limit, call.p, 0, call.calls, []);
    } else {
      CatchUpTracks(c, call.e, s, h, call.cfg, s.lastRequested, call.p, call.calls);
      SuccessRestoresConditions(c, s, call.e, call.tape, call.cfg, deployment, call.p, call.calls, r);
    }
  }

  /** A poll that goes back to a catch-up and succeeds. */
  lemma FallbackTracks(c: seq<Log>, s: State, call: Call, deployment: nat, lo: nat, r: State)
    requires ValidChain(c) && DeployedAt(c, deployment) && Honest(call.p, c) && deployment <= s.lastRequested
    requires UpToDate(c, s) && NotBeyond(c, s, s.lastRequested) && s.lastRequested < call.cfg.follow
    requires lo <= s.lastRequested && Tracks(c, call.e, s, lo, s.lastRequested) && Make(s, call, deployment) == Done(r)
    ensures TracksInStep(c, call.e, r, lo) && r.lastRequested == call.cfg.follow
  {
    UpToDateIsResumable(c, s, deployment);
    FallbackKeeps(c, s, call, deployment, Done(r));
    FallbackStart(c, s, call, deployment, r);
    TracksOn(c, call.e, s, lo, s.lastRequested, r, call.cfg.follow);
    InStepAfter(c, call.e, r, lo, call.cfg.follow);
    assert r == r.(lastRequested := call.cfg.follow);
  }

  lemma PollTracks(c: seq<Log>, s: State, live: Live, deployment: nat, lo: nat, r: Outcome)
    requires ValidChain(c) && DeployedAt(c, deployment) && Honest(live.call.p, c) && deployment <= s.lastRequested
    requires lo <= s.lastRequested && TracksInStep(c, live.call.e, s, lo) && MakePoll(s, live, deployment) == r
    requires FallsBack(s, live.call.cfg.follow) ==> r.Done? && NotBeyond(c, s, s.lastRequested)
    ensures TracksInStep(c, live.call.e, r.s, lo) && s.lastRequested <= r.s.lastRequested
    ensures r.Done? ==> r.s.lastRequested == Max(s.lastRequested, live.call.cfg.follow)
  {
    if FallsBack(s, live.call.cfg.follow) {
      FallbackTracks(c, s, live.call, deployment, lo, r.s);
    } else {
      LiveTracks(c, live.call.e, s, live.call.cfg.follow, live.got, live.call.p, lo, r);
      LiveKeeps(c, s, live.call.e, live.call.cfg.follow, live.got, live.call.p, r);
    }
  }

  /** Whatever fails, a poll goes back to a catch-up only from exactly the deposits up to the last requested block, and
      that catch-up succeeds. */
  ghost predicate Orderly(c: seq<Log>, s: State, polls: seq<Live>, deployment: nat)
    decreases |polls|
  {
    polls == [] ||
    var r := MakePoll(s, polls[0], deployment);
    && (FallsBack(s, polls[0].call.cfg.follow) ==> r.Done? && NotBeyond(c, s, s.lastRequested))
    && Orderly(c, r.s, polls[1..], deployment)
  }

  ghost predicate SameGenesis(polls: seq<Live>, e: Env) {
    forall k :: 0 <= k < |polls| ==> polls[k].call.e.ready == e.ready
  }

  lemma SameReadyTracks(c: seq<Log>, e: Env, e': Env, s: State, lo: nat)
    requires e.ready == e'.ready && TracksInStep(c, e, s, lo)
    ensures TracksInStep(c, e', s, lo)
  {
  }

  lemma {:induction false} PollsTrack(c: seq<Log>, e: Env, s: State, polls: seq<Live>, deployment: nat, lo: nat)
    requires ValidChain(c) && DeployedAt(c, deployment) && HonestPolls(polls, c) && SameGenesis(polls, e)
    requires deployment <= s.lastRequested && lo <= s.lastRequested && TracksInStep(c, e, s, lo)
    requires Orderly(c, s, polls, deployment)
    ensures TracksInStep(c, e, PollAll(s, polls, deployment), lo)
    decreases |polls|
  {
    if polls != [] {
      var live, r := polls[0], MakePoll(s, polls[0], deployment);
      SameReadyTracks(c, e, live.call.e, s, lo);
      PollTracks(c, s, live, deployment, lo, r);
      SameReadyTracks(c, live.call.e, e, r.s, lo);
      PollsTrack(c, e, r.s, polls[1..], deployment, lo);
    }
  }

  lemma FirstCatchUp(c: seq<Log>, first: Call, deployment: nat, s: State)
    requires ValidChain(c) && DeployedAt(c, deployment) && Honest(first.p, c) && deployment < first.cfg.follow
    requires Make(FRESH, first, deployment) == Done(s)
    ensures TracksInStep(c, first.e, s, deployment) && deployment <= s.lastRequested
  {
    var follow := first.cfg.follow;
    FreshIsResumable(c, deployment);
    RoundsScan(c, FRESH, first.e, Headers({}, first.tape), first.cfg, deployment, first.p, first.calls, s);
    CatchUpTracks(c, first.e, FRESH, Headers({}, first.tape), first.cfg, deployment, first.p, first.calls);
    SuccessRestoresConditions(c, FRESH, first.e, first.tape, first.cfg, deployment, first.p, first.calls, s);
    CatchUpTakes(c, FRESH, first.e, Headers({}, first.tape), first.cfg, deployment, first.p, first.calls, s);
    InStepAfter(c, first.e, s, deployment, follow);
    assert s == s.(lastRequested := follow);
  }

  /** A fresh service whose first catch-up makes rounds and succeeds, then any orderly polls, which may fail: genesis is
      announced at the first block, from the contract's deployment to the last requested one, that is ready with
      exactly the deposits made up to it; with those deposits; or not at all. */
  lemma GenesisOverLife(c: seq<Log>, first: Call, polls: seq<Live>, deployment: nat, s: State, now: State)
    requires ValidChain(c) && DeployedAt(c, deployment) && Honest(first.p, c) && deployment < first.cfg.follow
    requires Make(FRESH, first, deployment) == Done(s) && HonestPolls(polls, c) && SameGenesis(polls, first.e)
    requires Orderly(c, s, polls, deployment) && PollAll(s, polls, deployment) == now
    ensures Tracks(c, first.e, now, deployment, now.lastRequested)
  {
    FirstCatchUp(c, first, deployment, s);
    PollsTrack(c, first.e, s, polls, deployment, deployment);
  }

  // ----- Which live passes succeed -----

  lemma {:induction false} BlockLogsOk(c: seq<Log>, s: State, e: Env, b: nat, j: nat, hi: nat)
    requires ValidChain(c) && j <= hi && OfBlock(c, j, hi, b) && Going(c, s, e, j)
    ensures var (r, ok) := ProcessBlockLogs(s, e, b, c[j..hi]);
            ok && Going(c, r, e, hi) && r.started == s.started && r.lastRequested == s.lastRequested
    decreases hi - j
  {
    if j < hi {
      assert c[j..hi][0] == c[j] && c[j..hi][1..] == c[j + 1..hi];
      LogAcceptedIff(c, s, e, j);
      var s1 := ProcessLog(s, e, c[j]).0;
      LogKept(c, s, e, j, s1, true);
      LogIsOnlyLog(c, s, e, j, hi);
      BlockLogsOk(c, s1, e, b, j + 1, hi);
    }
  }

  /** A block with a true answer succeeds exactly if chain start is over or the block's time can be retrieved. */
  lemma BlockOkIff(c: seq<Log>, s: State, e: Env, b: nat, timed: bool, r: State, ok: bool)
    requires ValidChain(c) && Going(c, s, e, Before(c, b))
    requires ProcessBlock(s, e, b, Answer(Window(c, b, b)), timed) == (r, ok)
    ensures ok <==> s.started || timed
    ensures ok ==> Going(c, r, e, Before(c, b + 1)) && (s.started ==> r.started)
  {
    BlockIs(c, b);
    BlockLogsOk(c, s, e, b, Before(c, b), Before(c, b + 1));
  }

  /** The blocks from b to the follow height of which the hash, and the time, can be retrieved. */
  ghost predicate Hashes(got: Retrieval, b: nat, follow: nat) {
    forall k: nat :: b <= k <= follow ==> got.hash(k)
  }

  ghost predicate Times(got: Retrieval, b: nat, follow: nat) {
    forall k: nat :: b <= k <= follow ==> got.time(k)
  }

  lemma {:induction false} LiveSucceeds(c: seq<Log>, s: State, e: Env, b: nat, follow: nat, got: Retrieval,
                                       p: Provider, n: nat, r: Outcome)
    requires ValidChain(c) && Serves(p, c, 0) && Going(c, s, e, Before(c, b))
    requires LiveFrom(s, e, b, follow, got, p, n) == r
    requires Hashes(got, b, follow) && (s.started || Times(got, b, follow))
    ensures r.Done?
    decreases follow + 1 - b
  {
    if b <= follow {
      var (s1, ok) := ProcessBlock(s, e, b, p(n, b, b), got.time(b));
      BlockOkIff(c, s, e, b, got.time(b), s1, ok);
      LiveSucceeds(c, s1.(lastRequested := b), e, b + 1, follow, got, p, n + 1, r);
    }
  }

  lemma {:induction false} LiveNeedsHashes(s: State, e: Env, b: nat, follow: nat, got: Retrieval, p: Provider, n: nat)
    requires LiveFrom(s, e, b, follow, got, p, n).Done?
    ensures Hashes(got, b, follow)
    decreases follow + 1 - b
  {
    if b <= follow {
      var s1 := ProcessBlock(s, e, b, p(n, b, b), got.time(b)).0;
      LiveNeedsHashes(s1.(lastRequested := b), e, b + 1, follow, got, p, n + 1);
    }
  }

  lemma {:induction false} LiveNeedsTimes(s: State, e: Env, b: nat, follow: nat, got: Retrieval, p: Provider, n: nat,
                                         r: State)
    requires LiveFrom(s, e, b, follow, got, p, n) == Done(r) && !r.started
    ensures Times(got, b, follow)
    decreases follow + 1 - b
  {
    if b <= follow {
      var s1 := ProcessBlock(s, e, b, p(n, b, b), got.time(b)).0;
      if s1.started {
        LiveStaysStarted(s1.(lastRequested := b), e, b + 1, follow, got, p, n + 1);
      }
      LiveNeedsTimes(s1.(lastRequested := b), e, b + 1, follow, got, p, n + 1, r);
    }
  }

  /** Against a client that answers for single blocks, with saves that succeed, a live pass needs every block's hash,
      and every block's time until chain start; and with those it succeeds. */
  lemma LiveSucceedsIff(c: seq<Log>, s: State, e: Env, follow: nat, got: Retrieval, p: Provider, r: Outcome)
    requires ValidChain(c) && Serves(p, c, 0) && UpToDate(c, s) && SavesSucceed(s, e)
    requires LiveFrom(s, e, s.lastRequested + 1, follow, got, p, 0) == r
    ensures Hashes(got, s.lastRequested + 1, follow) && (s.started || Times(got, s.lastRequested + 1, follow)) ==>
              r.Done?
    ensures r.Done? ==> Hashes(got, s.lastRequested + 1, follow)
    ensures r.Done? && !r.s.started ==> Times(got, s.lastRequested + 1, follow)
  {
    var b := s.lastRequested + 1;
    if Hashes(got, b, follow) && (s.started || Times(got, b, follow)) {
      LiveSucceeds(c, s, e, b, follow, got, p, 0, r);
    }
    if r.Done? {
      LiveNeedsHashes(s, e, b, follow, got, p, 0);
      if !r.s.started {
        LiveNeedsTimes(s, e, b, follow, got, p, 0, r.s);
      }
    }
  }

  lemma LiveStaysStarted(s: State, e: Env, b: nat, follow: nat, got: Retrieval, p: Provider, n: nat)
    requires s.started && b == s.lastRequested + 1
    ensures LiveFrom(s, e, b, follow, got, p, n).s.started
  {
    LiveKeepsStarted(s, e, follow, got, p, n, s.genesisBlock, LiveFrom(s, e, b, follow, got, p, n));
  }

  /** A poll within fifty blocks is a live pass, so neither headers, batch sizes nor a bound on calls matter to it; a
      longer gap is left to a catch-up, to which single blocks' hashes and times do not matter. */
  lemma PollNeeds(s: State, e: Env, live: Live, other: Live, deployment: nat)
    requires live.call.e == other.call.e && live.call.cfg.follow == other.call.cfg.follow && live.call.p == other.call.p
    ensures live.call.cfg.follow <= s.lastRequested + 50 && live.got == other.got ==>
              MakePoll(s, live, deployment) == MakePoll(s, other, deployment)
    ensures live.call.cfg.follow > s.lastRequested + 50 && live.call == other.call ==>
              MakePoll(s, live, deployment) == MakePoll(s, other, deployment)
  {
  }
}

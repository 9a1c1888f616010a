/** beacon-chain/execution/log_processing.go: catching up on deposit-contract logs in adaptive,
    overlapping batches while looking for the block that starts the beacon chain.

    This module states each operation as a function on the service's state; DepositService runs
    them in place, DepositCatchUp proves what a catch-up achieves. */
module DepositLogs {

  /** The decoded content of a deposit. */
  type Data = nat

  datatype Log =
    | Deposit(block: nat, index: int, data: Data)
    | Garbled(block: nat)
    | Foreign(block: nat)

  /** The service's fields. `trie` is the list of deposits inserted into the deposit trie, `feed`
      the genesis blocks announced on the state feed, `saves` the number of periodic saves so far. */
  datatype State = State(lastIndex: int, trie: seq<Data>, started: bool, startDeposits: seq<Data>,
                         genesisBlock: nat, feed: seq<nat>, lastRequested: nat, saves: nat)

  /** What the service cannot see inside: whether the pre-genesis state built from these deposits is
      a valid genesis at this block's time, and which periodic saves to disk fail, by ordinal. */
  datatype Env = Env(ready: (seq<Data>, nat) -> bool, badSaves: set<nat>)

  /** A batched header request: an error, or the block numbers whose headers came back. */
  datatype HeaderReply = NoHeaders | GotHeaders(got: set<nat>)

  /** headersMap, and the outcomes of the header requests still to come; when they run out the
      context has been cancelled. */
  datatype Headers = Headers(have: set<nat>, tape: seq<HeaderReply>)

  datatype Checked = Checked(s: State, h: Headers, ok: bool)

  const SAVING_INTERVAL := 1000

  // ----- One log -----

  /** ProcessDepositLog: an index already seen is skipped, a gap or an undecodable log is an error. */
  function ProcessDepositLog(s: State, log: Log): (State, bool)
    requires !log.Foreign?
  {
    if log.Garbled? then (s, false)
    else if log.index <= s.lastIndex then (s, true)
    else if log.index != s.lastIndex + 1 then (s, false)
    else
      var s1 := s.(lastIndex := log.index);
      if |s1.trie| != log.index then (s1, false)
      else
        var s2 := s1.(trie := s1.trie + [log.data]);
        (if s2.started then s2 else s2.(startDeposits := s2.startDeposits + [log.data]), true)
  }

  function ProcessLog(s: State, e: Env, log: Log): (State, bool) {
    if log.Foreign? then (s, true)
    else
      var (s1, ok) := ProcessDepositLog(s, log);
      if ok && s1.lastIndex % SAVING_INTERVAL == 0 then (s1.(saves := s1.saves + 1), s1.saves !in e.badSaves)
      else (s1, ok)
  }

  // ----- Looking for the genesis block -----

  /** processChainStartIfReady on one header, before chain start. */
  function CheckBlock(s: State, e: Env, b: nat): State {
    if !s.started && e.ready(s.startDeposits, b) then
      s.(started := true, genesisBlock := b, feed := s.feed + [b])
    else s
  }

  /** checkHeaderRange: missing headers are requested again until they arrive or a request fails. */
  function CheckHeaderRange(s: State, e: Env, h: Headers, i: nat, end: int): Checked
    decreases |h.tape|, end + 1 - i
  {
    if i > end then Checked(s, h, true)
    else if s.started || i in h.have then CheckHeaderRange(CheckBlock(s, e, i), e, h, i + 1, end)
    else if h.tape == [] then Checked(s, h, false)
    else if h.tape[0].NoHeaders? then Checked(s, h.(tape := h.tape[1..]), false)
    else CheckHeaderRange(s, e, Headers(h.have + h.tape[0].got, h.tape[1..]), i, end)
  }

  // ----- One batch -----

  datatype Reply = TooMuchData | Failed | Answer(logs: seq<Log>)

  datatype Scanned = Scanned(s: State, h: Headers, current: nat, ok: bool)

  /** One pass of the loop over an answer's logs. A log that fails resets the last requested block to
      `lastReq`; a failed header check does not. */
  function ScanLog(s: State, e: Env, h: Headers, current: nat, lastReq: nat, log: Log): Scanned {
    var c := if log.block > current then CheckHeaderRange(s, e, h, current, log.block - 1)
             else Checked(s, h, true);
    if !c.ok then Scanned(c.s, c.h, current, false)
    else
      var s1 := if log.block > current then c.s.(lastRequested := current) else c.s;
      var (s2, ok) := ProcessLog(s1, e, log);
      Scanned(if ok then s2 else s2.(lastRequested := lastReq), c.h, Max(current, log.block), ok)
  }

  function ScanLogs(s: State, e: Env, h: Headers, current: nat, lastReq: nat, logs: seq<Log>): Scanned
    decreases |logs|
  {
    if logs == [] then Scanned(s, h, current, true)
    else
      var r := ScanLog(s, e, h, current, lastReq, logs[0]);
      if !r.ok then r else ScanLogs(r.s, e, r.h, r.current, lastReq, logs[1..])
  }

  /** A window's logs, then the blocks from the last log's to the window's end. */
  function ProcessWindow(s: State, e: Env, h: Headers, current: nat, end: nat, logs: seq<Log>): Checked {
    var r := ScanLogs(s, e, h, current, s.lastRequested, logs);
    if !r.ok then Checked(r.s, r.h, false) else CheckHeaderRange(r.s, e, r.h, r.current, end)
  }

  datatype Config = Config(follow: nat, limit: nat, additive: nat)

  datatype Batch = Stopped(s: State, h: Headers) | Next(s: State, h: Headers, current: nat, size: nat)

  function Min(a: nat, b: nat): nat { if a <= b then a else b }
  function Max(a: nat, b: nat): nat { if a <= b then b else a }

  function Grow(cfg: Config, size: nat): nat {
    if size < cfg.limit then Min(size + cfg.additive, cfg.limit) else size
  }

  /** processBlockInBatch on the window [current, Min(current + size, follow)]. */
  function ProcessBatch(s: State, e: Env, h: Headers, cfg: Config, current: nat, size: nat, reply: Reply): Batch {
    var end := Min(current + size, cfg.follow);
    match reply
    case Failed => Stopped(s, h)
    case TooMuchData => if size == 0 then Stopped(s, h) else Next(s, h, current, size / 2)
    case Answer(logs) =>
      if !s.started && (h.tape == [] || h.tape[0].NoHeaders?) then
        Stopped(s, if h.tape == [] then h else h.(tape := h.tape[1..]))
      else
        var h1 := if s.started then h else Headers(h.have + h.tape[0].got, h.tape[1..]);
        var w := ProcessWindow(s, e, h1, current, end, logs);
        if w.ok then Next(w.s, w.h, end, Grow(cfg, size)) else Stopped(w.s, w.h)
  }

  // ----- The whole catch-up -----

  /** The execution client: its answer to the n-th log query, for a window of blocks. */
  type Provider = (nat, nat, nat) -> Reply

  datatype Outcome = Failure(s: State) | Done(s: State)

  /** One pass of processPastLogs' loop. */
  function Round(s: State, e: Env, h: Headers, cfg: Config, current: nat, size: nat, p: Provider, n: nat): Batch {
    ProcessBatch(s, e, h, cfg, current, size, p(n, current, Min(current + size, cfg.follow)))
  }

  /** processPastLogs' loop. `calls` bounds the log queries before the context is cancelled. */
  function CatchUpFrom(s: State, e: Env, h: Headers, cfg: Config, current: nat, size: nat,
                       p: Provider, n: nat, calls: nat): Outcome
    decreases calls
  {
    if current >= cfg.follow then Done(s.(lastRequested := current))
    else if calls == 0 then Failure(s)
    else
      var b := Round(s, e, h, cfg, current, size, p, n);
      if b.Stopped? then Failure(b.s)
      else CatchUpFrom(b.s, e, b.h, cfg, b.current, b.size, p, n + 1, calls - 1)
  }

  function StartBlock(s: State, deployment: nat): nat { Max(s.lastRequested, deployment) }

  function CatchUp(s: State, e: Env, tape: seq<HeaderReply>, cfg: Config, deployment: nat,
                   p: Provider, calls: nat): Outcome
  {
    CatchUpFrom(s, e, Headers({}, tape), cfg, StartBlock(s, deployment), cfg.limit, p, 0, calls)
  }

  // ----- The live pass, block by block -----

  /** A gap larger than this goes back to the batched catch-up. */
  const MAX_TOLERABLE_DIFFERENCE: nat := 50

  /** ProcessETH1Block's loop: logs of other blocks are ignored. */
  function ProcessBlockLogs(s: State, e: Env, b: nat, logs: seq<Log>): (State, bool)
    decreases |logs|
  {
    if logs == [] then (s, true)
    else if logs[0].block != b then ProcessBlockLogs(s, e, b, logs[1..])
    else
      var (s1, ok) := ProcessLog(s, e, logs[0]);
      if ok then ProcessBlockLogs(s1, e, b, logs[1..]) else (s1, false)
  }

  /** ProcessETH1Block; before chain start the block's time has to be retrieved, which may fail. */
  function ProcessBlock(s: State, e: Env, b: nat, reply: Reply, timed: bool): (State, bool) {
    if !reply.Answer? then (s, false)
    else
      var (s1, ok) := ProcessBlockLogs(s, e, b, reply.logs);
      if ok && !s1.started then (if timed then CheckBlock(s1, e, b) else s1, timed) else (s1, ok)
  }

  /** Which block hashes and which block times can be retrieved. */
  datatype Retrieval = Retrieval(hash: nat -> bool, time: nat -> bool)

  /** requestBatchedHeadersAndLogs' loop from block b on. */
  function LiveFrom(s: State, e: Env, b: nat, follow: nat, got: Retrieval, p: Provider, n: nat): Outcome
    decreases follow + 1 - b
  {
    if b > follow then Done(s)
    else if !got.hash(b) then Failure(s)
    else
      var (s1, ok) := ProcessBlock(s, e, b, p(n, b, b), got.time(b));
      if ok then LiveFrom(s1.(lastRequested := b), e, b + 1, follow, got, p, n + 1) else Failure(s1)
  }

  predicate FallsBack(s: State, follow: nat) {
    follow > s.lastRequested && follow - s.lastRequested > MAX_TOLERABLE_DIFFERENCE
  }

  /** requestBatchedHeadersAndLogs. */
  function Poll(s: State, e: Env, tape: seq<HeaderReply>, cfg: Config, deployment: nat, got: Retrieval, p: Provider,
                calls: nat): Outcome
  {
    if FallsBack(s, cfg.follow) then CatchUp(s, e, tape, cfg, deployment, p, calls)
    else LiveFrom(s, e, s.lastRequested + 1, cfg.follow, got, p, 0)
  }
}

/** The same operations as the service performs them, in place and with loops. */
module DepositService {
  import opened DepositLogs

  class Service {
    const env: Env
    var lastIndex: int
    var trie: seq<Data>
    var started: bool
    var startDeposits: seq<Data>
    var genesisBlock: nat
    var feed: seq<nat>
    var lastRequested: nat
    var saves: nat
    /** headersMap and the header replies to come. */
    var have: set<nat>
    var tape: seq<HeaderReply>

    ghost function Abs(): State
      reads this
    {
      State(lastIndex, trie, started, startDeposits, genesisBlock, feed, lastRequested, saves)
    }

    ghost function AbsHeaders(): Headers
      reads this
    {
      Headers(have, tape)
    }

    method ProcessDepositLogInPlace(log: Log) returns (ok: bool)
      requires !log.Foreign?
      modifies this`lastIndex, this`trie, this`startDeposits
      ensures (Abs(), ok) == ProcessDepositLog(old(Abs()), log)
    {
      if log.Garbled? {
        return false;
      }
      if log.index <= lastIndex {
        return true;
      }
      if log.index != lastIndex + 1 {
        return false;
      }
      lastIndex := log.index;
      if |trie| != log.index {
        return false;
      }
      trie := trie + [log.data];
      if !started {
        startDeposits := startDeposits + [log.data];
      }
      return true;
    }

    method ProcessLogInPlace(log: Log) returns (ok: bool)
      modifies this`lastIndex, this`trie, this`startDeposits, this`saves
      ensures (Abs(), ok) == ProcessLog(old(Abs()), env, log)
    {
      if log.Foreign? {
        return true;
      }
      ok := ProcessDepositLogInPlace(log);
      if ok && lastIndex % SAVING_INTERVAL == 0 {
        ok := saves !in env.badSaves;
        saves := saves + 1;
      }
    }

    method RequestHeaders() returns (ok: bool)
      modifies this`have, this`tape
      ensures ok <==> old(tape) != [] && old(tape)[0].GotHeaders?
      ensures AbsHeaders() == if old(tape) == [] then old(AbsHeaders())
                              else if ok then Headers(old(have) + old(tape)[0].got, old(tape)[1..])
                              else Headers(old(have), old(tape)[1..])
    {
      if tape == [] {
        return false;
      }
      ok := tape[0].GotHeaders?;
      if ok {
        have := have + tape[0].got;
      }
      tape := tape[1..];
    }

    method CheckHeaderRangeInPlace(start: nat, end: int) returns (ok: bool)
      modifies this`started, this`genesisBlock, this`feed, this`have, this`tape
      ensures Checked(Abs(), AbsHeaders(), ok) ==
              CheckHeaderRange(old(Abs()), env, old(AbsHeaders()), start, end)
    {
      var i: nat := start;
      while i <= end
        invariant CheckHeaderRange(Abs(), env, AbsHeaders(), i, end) ==
                  CheckHeaderRange(old(Abs()), env, old(AbsHeaders()), start, end)
        decreases |tape|, end + 1 - i
      {
        if !started {
          if i !in have {
            var got := RequestHeaders();
            if !got {
              return false;
            }
            continue;
          }
          if env.ready(startDeposits, i) {
            started, genesisBlock, feed := true, i, feed + [i];
          }
        }
        i := i + 1;
      }
      return true;
    }

    method ScanLogsInPlace(current: nat, logs: seq<Log>) returns (ok: bool, now: nat)
      modifies this
      ensures Scanned(Abs(), AbsHeaders(), now, ok) ==
              ScanLogs(old(Abs()), env, old(AbsHeaders()), current, old(lastRequested), logs)
    {
      var lastReq := lastRequested;
      now := current;
      for i := 0 to |logs|
        invariant ScanLogs(Abs(), env, AbsHeaders(), now, lastReq, logs[i..]) ==
                  ScanLogs(old(Abs()), env, old(AbsHeaders()), current, lastReq, logs)
      {
        var log := logs[i];
        assert logs[i..][1..] == logs[i + 1..];
        if log.block > now {
          ok := CheckHeaderRangeInPlace(now, log.block - 1);
          if !ok {
            return;
          }
          lastRequested := now;
          now := log.block;
        }
        ok := ProcessLogInPlace(log);
        if !ok {
          lastRequested := lastReq;
          return;
        }
      }
      ok := true;
    }

    /** processBlockInBatch; `next` and `newSize` matter only when `ok`. */
    method ProcessBlockInBatch(cfg: Config, current: nat, size: nat, logCount: nat, reply: Reply)
      returns (ok: bool, next: nat, newSize: nat)
      modifies this
      ensures var b := ProcessBatch(old(Abs()), env, old(AbsHeaders()), cfg, current, size, reply);
              && ok == b.Next? && Abs() == b.s && AbsHeaders() == b.h
              && (ok ==> next == b.current && newSize == b.size)
    {
      ok, next, newSize := false, 0, 0;
      var end := Min(current + size, cfg.follow);
      // The window is stretched to the follow height only where it already reaches it.
      var remaining := (logCount - (lastIndex + 1)) % 0x1_0000_0000_0000_0000;
      if remaining < 10000 && end >= cfg.follow {
        end := cfg.follow;
      }
      match reply
      case Failed =>
      case TooMuchData =>
        if size != 0 {
          return true, current, size / 2;
        }
      case Answer(logs) =>
        if !started {
          var got := RequestHeaders();
          if !got {
            return;
          }
        }
        var now;
        ok, now := ScanLogsInPlace(current, logs);
        if !ok {
          return;
        }
        ok := CheckHeaderRangeInPlace(now, end);
        if !ok {
          return;
        }
        next, newSize := end, size;
        if newSize < cfg.limit {
          newSize := newSize + cfg.additive;
          if newSize > cfg.limit {
            newSize := cfg.limit;
          }
        }
    }

    /** One log query and the batch it answers. */
    method NextBatch(cfg: Config, current: nat, size: nat, logCount: nat, p: Provider, n: nat, calls: nat)
      returns (ok: bool, next: nat, newSize: nat)
      requires current < cfg.follow && calls > 0
      modifies this
      ensures CatchUpFrom(old(Abs()), env, old(AbsHeaders()), cfg, current, size, p, n, calls) ==
              if ok then CatchUpFrom(Abs(), env, AbsHeaders(), cfg, next, newSize, p, n + 1, calls - 1)
              else Failure(Abs())
    {
      var reply := p(n, current, Min(current + size, cfg.follow));
      ok, next, newSize := ProcessBlockInBatch(cfg, current, size, logCount, reply);
    }

    method ProcessPastLogs(cfg: Config, deployment: nat, logCount: nat, p: Provider, calls: nat) returns (ok: bool)
      modifies this
      ensures (if ok then Done(Abs()) else Failure(Abs())) ==
              CatchUp(old(Abs()), env, old(tape), cfg, deployment, p, calls)
    {
      var current: nat := Max(lastRequested, deployment);
      have := {};
      var size: nat := cfg.limit;
      var n: nat := 0;
      while current < cfg.follow
        invariant n <= calls
        invariant CatchUpFrom(Abs(), env, AbsHeaders(), cfg, current, size, p, n, calls - n) ==
                  CatchUp(old(Abs()), env, old(tape), cfg, deployment, p, calls)
        decreases calls - n
      {
        if n == calls {
          return false;
        }
        ok, current, size := NextBatch(cfg, current, size, logCount, p, n, calls - n);
        if !ok {
          return;
        }
        n := n + 1;
      }
      lastRequested := current;
      return true;
    }

    method ProcessEth1Block(b: nat, reply: Reply, timed: bool) returns (ok: bool)
      modifies this
      ensures (Abs(), ok) == ProcessBlock(old(Abs()), env, b, reply, timed)
      ensures AbsHeaders() == old(AbsHeaders()) && lastRequested == old(lastRequested)
    {
      if !reply.Answer? {
        return false;
      }
      var logs := reply.logs;
      for i := 0 to |logs|
        invariant ProcessBlockLogs(Abs(), env, b, logs[i..]) == ProcessBlockLogs(old(Abs()), env, b, logs)
        invariant AbsHeaders() == old(AbsHeaders()) && lastRequested == old(lastRequested)
      {
        assert logs[i..][0] == logs[i] && logs[i..][1..] == logs[i + 1..];
        if logs[i].block != b {
          continue;
        }
        ok := ProcessLogInPlace(logs[i]);
        if !ok {
          return;
        }
      }
      ok := true;
      if !started {
        if !timed {
          return false;
        }
        if env.ready(startDeposits, b) {
          started, genesisBlock, feed := true, b, feed + [b];
        }
      }
    }

    method RequestBatchedHeadersAndLogs(cfg: Config, deployment: nat, logCount: nat, got: Retrieval, p: Provider,
                                        calls: nat)
      returns (ok: bool)
      modifies this
      ensures (if ok then Done(Abs()) else Failure(Abs())) ==
              Poll(old(Abs()), env, old(tape), cfg, deployment, got, p, calls)
    {
      if cfg.follow > lastRequested && cfg.follow - lastRequested > MAX_TOLERABLE_DIFFERENCE {
        ok := ProcessPastLogs(cfg, deployment, logCount, p, calls);
        return;
      }
      var b, n := lastRequested + 1, 0;
      while b <= cfg.follow
        invariant LiveFrom(Abs(), env, b, cfg.follow, got, p, n)
               == LiveFrom(old(Abs()), env, old(lastRequested) + 1, cfg.follow, got, p, 0)
      {
        if !got.hash(b) {
          return false;
        }
        ok := ProcessEth1Block(b, p(n, b, b), got.time(b));
        if !ok {
          return;
        }
        lastRequested := b;
        b, n := b + 1, n + 1;
      }
      ok := true;
    }
  }
}

/** async/multilock.go as a transition system over the global table, every channel ever made and
    every lock object. An action is one operation no other goroutine can interrupt: a channel send
    or receive, a close, or a critical section of the global mutex. Clean is several actions, so
    other goroutines receive, send and wait in the middle of it. */
module MultilockProtocol {
  import opened Wrappers
  import opened MultilockKeys

  type LockId = nat
  type ChanId = nat

  /** A channel of capacity one. */
  datatype Chan = Chan(key: string, full: bool, closed: bool)

  /** Where the goroutine inside Lock is: about to call getChan, or receiving from `ch`. */
  datatype LockPc = LockIdle | Fetching | Waiting(ch: ChanId)

  /** Where the goroutine inside Unlock is: sending to chans[next], about to call Clean, inside it,
      or about to drain lk.lock. */
  datatype UnlockPc = UnlockIdle | Releasing(next: nat) | BeforeClean | InClean | Draining

  /** `lockBuf` and `unlockBuf` are the one-slot channels lk.lock and lk.unlock. */
  datatype Lock = Lock(keys: seq<string>, chans: seq<ChanId>, lockBuf: bool, unlockBuf: bool,
                       lockPc: LockPc, unlockPc: UnlockPc)
  {
    /** The channels whose token this lock has. */
    function Held(): seq<ChanId> {
      if !unlockPc.Releasing? then chans
      else if unlockPc.next <= |chans| then chans[unlockPc.next..]
      else []
    }
  }

  /** The holder of the global mutex, if it is inside Clean; getChan's critical section is one action. */
  datatype Cleaner =
    | Off
    | Visiting(caller: Option<LockId>, pending: set<string>, dead: set<string>)
    | Closing(caller: Option<LockId>, pending: set<string>, dead: set<string>, key: string)
    | Deleting(caller: Option<LockId>, dead: set<string>)

  datatype State = State(chans: seq<Chan>, table: map<string, ChanId>, cleaner: Cleaner,
                         locks: map<LockId, Lock>)

  const INITIAL := State([], map[], Off, map[])

  datatype Action =
    | New(l: LockId, keys: seq<string>)
    | StartLock(l: LockId) | Fetch(l: LockId) | Receive(l: LockId) | FinishLock(l: LockId)
    | StartUnlock(l: LockId) | Release(l: LockId) | EndRelease(l: LockId) | EndUnlock(l: LockId)
    | StartClean(caller: Option<LockId>) | Visit(key: string) | Close | EndVisits | Delete(key: string)
    | EndClean

  ghost predicate WellIndexed(s: State) {
    && (forall k :: k in s.table ==> s.table[k] < |s.chans|)
    && (forall l :: l in s.locks ==> Referenced(s.chans, s.locks[l]))
  }

  ghost predicate Referenced(chans: seq<Chan>, lk: Lock) {
    && (forall i :: 0 <= i < |lk.chans| ==> lk.chans[i] < |chans|)
    && (lk.lockPc.Waiting? ==> lk.lockPc.ch < |chans|)
  }

  /** An action is enabled when the goroutine is there and the operation does not block. A send on a
      closed channel or a second close would panic, so those need an open channel as well. */
  ghost predicate Enabled(s: State, a: Action)
    requires WellIndexed(s)
  {
    match a
    case New(l, keys) => l !in s.locks && Increasing(keys) && keys != []
    case StartLock(l) => l in s.locks && !s.locks[l].lockBuf
    case Fetch(l) =>
      l in s.locks && s.locks[l].lockPc.Fetching? && |s.locks[l].chans| < |s.locks[l].keys| && s.cleaner.Off?
    case Receive(l) =>
      l in s.locks && s.locks[l].lockPc.Waiting? &&
      (s.chans[s.locks[l].lockPc.ch].full || s.chans[s.locks[l].lockPc.ch].closed)
    case FinishLock(l) =>
      l in s.locks && s.locks[l].lockPc.Fetching? && |s.locks[l].chans| == |s.locks[l].keys| && !s.locks[l].unlockBuf
    case StartUnlock(l) => l in s.locks && s.locks[l].unlockBuf
    case Release(l) =>
      AtRelease(s, l) && !s.chans[s.locks[l].chans[s.locks[l].unlockPc.next]].full
                      && !s.chans[s.locks[l].chans[s.locks[l].unlockPc.next]].closed
    case EndRelease(l) =>
      l in s.locks && s.locks[l].unlockPc.Releasing? && s.locks[l].unlockPc.next >= |s.locks[l].chans|
    case StartClean(caller) =>
      s.cleaner.Off? && (caller.Some? ==> caller.value in s.locks && s.locks[caller.value].unlockPc.BeforeClean?)
    case Visit(k) => s.cleaner.Visiting? && k in s.cleaner.pending && k in s.table
    case Close => AtClose(s) && !s.chans[s.table[s.cleaner.key]].closed
    case EndVisits => s.cleaner.Visiting? && s.cleaner.pending == {}
    case Delete(k) => s.cleaner.Deleting? && k in s.cleaner.dead
    case EndClean => s.cleaner.Deleting? && s.cleaner.dead == {}
    case EndUnlock(l) => l in s.locks && s.locks[l].unlockPc.Draining? && s.locks[l].lockBuf
  }

  /** Unlock is about to send a token back. */
  ghost predicate AtRelease(s: State, l: LockId) {
    l in s.locks && s.locks[l].unlockPc.Releasing? && s.locks[l].unlockPc.next < |s.locks[l].chans|
  }

  /** Clean has taken a token and is about to close the channel. */
  ghost predicate AtClose(s: State) {
    s.cleaner.Closing? && s.cleaner.key in s.table
  }

  ghost function WithLock(s: State, l: LockId, lk: Lock): State { s.(locks := s.locks[l := lk]) }

  ghost function WithChan(s: State, c: ChanId, ch: Chan): State
    requires c < |s.chans|
  {
    s.(chans := s.chans[c := ch])
  }

  ghost function Apply(s: State, a: Action): State
    requires WellIndexed(s) && Enabled(s, a)
  {
    match a
    case New(l, keys) => WithLock(s, l, Lock(keys, [], false, false, LockIdle, UnlockIdle))
    case StartLock(l) => WithLock(s, l, s.locks[l].(lockBuf := true, chans := [], lockPc := Fetching))
    case Fetch(l) => ApplyFetch(s, l)
    case Receive(l) => ApplyReceive(s, l)
    case FinishLock(l) => WithLock(s, l, s.locks[l].(unlockBuf := true, lockPc := LockIdle))
    case StartUnlock(l) => WithLock(s, l, s.locks[l].(unlockBuf := false, unlockPc := Releasing(0)))
    case Release(l) =>
      var lk := s.locks[l];
      var c := lk.chans[lk.unlockPc.next];
      WithLock(WithChan(s, c, s.chans[c].(full := true)), l, lk.(unlockPc := Releasing(lk.unlockPc.next + 1)))
    case EndRelease(l) => WithLock(s, l, s.locks[l].(chans := [], unlockPc := BeforeClean))
    case StartClean(caller) =>
      var s' := s.(cleaner := Visiting(caller, s.table.Keys, {}));
      if caller.None? then s' else WithLock(s', caller.value, s.locks[caller.value].(unlockPc := InClean))
    case Visit(k) => ApplyVisit(s, k)
    case Close =>
      var cl, c := s.cleaner, s.table[s.cleaner.key];
      WithChan(s, c, s.chans[c].(closed := true))
        .(cleaner := Visiting(cl.caller, cl.pending - {cl.key}, cl.dead + {cl.key}))
    case EndVisits => s.(cleaner := Deleting(s.cleaner.caller, s.cleaner.dead))
    case Delete(k) => s.(table := s.table - {k}, cleaner := Deleting(s.cleaner.caller, s.cleaner.dead - {k}))
    case EndClean =>
      var s' := s.(cleaner := Off);
      if s.cleaner.caller.None? || s.cleaner.caller.value !in s.locks then s'
      else WithLock(s', s.cleaner.caller.value, s.locks[s.cleaner.caller.value].(unlockPc := Draining))
    case EndUnlock(l) => WithLock(s, l, s.locks[l].(lockBuf := false, unlockPc := UnlockIdle))
  }

  /** getChan: a missing key gets a fresh channel with a token in it. */
  ghost function ApplyFetch(s: State, l: LockId): State
    requires WellIndexed(s) && Enabled(s, Fetch(l))
  {
    var lk := s.locks[l];
    var k := lk.keys[|lk.chans|];
    if k in s.table then WithLock(s, l, lk.(lockPc := Waiting(s.table[k])))
    else
      var s' := s.(chans := s.chans + [Chan(k, true, false)], table := s.table[k := |s.chans|]);
      WithLock(s', l, lk.(lockPc := Waiting(|s.chans|)))
  }

  /** A token means the key is acquired; a closed channel means getChan has to be called again. */
  ghost function ApplyReceive(s: State, l: LockId): State
    requires WellIndexed(s) && Enabled(s, Receive(l))
  {
    var lk := s.locks[l];
    var c := lk.lockPc.ch;
    if s.chans[c].full then
      WithLock(WithChan(s, c, s.chans[c].(full := false)), l, lk.(chans := lk.chans + [c], lockPc := Fetching))
    else WithLock(s, l, lk.(lockPc := Fetching))
  }

  /** The non-blocking receive of Clean's select; it succeeds on a closed channel too. */
  ghost function ApplyVisit(s: State, k: string): State
    requires WellIndexed(s) && Enabled(s, Visit(k))
  {
    var cl, c := s.cleaner, s.table[k];
    if s.chans[c].full || s.chans[c].closed then
      WithChan(s, c, s.chans[c].(full := false)).(cleaner := Closing(cl.caller, cl.pending, cl.dead, k))
    else s.(cleaner := Visiting(cl.caller, cl.pending - {k}, cl.dead))
  }

  // ----- The invariant -----

  ghost function Dead(cl: Cleaner): set<string> { if cl.Off? then {} else cl.dead }

  ghost function Caller(cl: Cleaner): Option<LockId> { if cl.Off? then None else cl.caller }

  /** Clean has received the token of `c` and not closed it yet. */
  ghost predicate Taken(table: map<string, ChanId>, cl: Cleaner, c: ChanId) {
    cl.Closing? && cl.key in table && table[cl.key] == c
  }

  /** Every open channel is the table's channel for its key; a closed one is empty, and is in the
      table only until the Clean that closed it deletes it. */
  ghost predicate TableInv(chans: seq<Chan>, table: map<string, ChanId>, cl: Cleaner) {
    && (forall k :: k in table ==> table[k] < |chans| && chans[table[k]].key == k)
    && (forall c :: 0 <= c < |chans| && !chans[c].closed ==>
          chans[c].key in table && table[chans[c].key] == c)
    && (forall c :: 0 <= c < |chans| && chans[c].closed ==> !chans[c].full)
    && (forall k :: k in table && chans[table[k]].closed ==> k in Dead(cl))
  }

  ghost predicate CleanerInv(chans: seq<Chan>, table: map<string, ChanId>, cl: Cleaner)
    requires TableInv(chans, table, cl)
  {
    && (forall k :: k in Dead(cl) ==> k in table && chans[table[k]].closed)
    && (cl.Visiting? || cl.Closing? ==>
          cl.pending <= table.Keys && cl.pending !! cl.dead)
    && (cl.Closing? ==>
          && cl.key in cl.pending
          && !chans[table[cl.key]].full
          && !chans[table[cl.key]].closed)
  }

  /** One lock: the channels received so far are those of the first keys, in order, and at most one
      goroutine is between filling lk.lock and draining it. */
  ghost predicate LockInv(chans: seq<Chan>, lk: Lock) {
    && Increasing(lk.keys) && |lk.chans| <= |lk.keys|
    && Referenced(chans, lk)
    && (forall i :: 0 <= i < |lk.chans| ==> chans[lk.chans[i]].key == lk.keys[i])
    && (lk.lockBuf <==> lk.lockPc != LockIdle || lk.unlockBuf || lk.unlockPc != UnlockIdle)
    && (lk.lockPc != LockIdle ==> !lk.unlockBuf && lk.unlockPc == UnlockIdle)
    && (lk.unlockBuf ==> lk.unlockPc == UnlockIdle && |lk.chans| == |lk.keys|)
    && (lk.lockPc.Waiting? ==>
          |lk.chans| < |lk.keys| && chans[lk.lockPc.ch].key == lk.keys[|lk.chans|])
    && (lk.unlockPc.Releasing? ==> lk.unlockPc.next <= |lk.chans| == |lk.keys|)
    && (!lk.lockBuf || lk.unlockPc.BeforeClean? || lk.unlockPc.InClean? || lk.unlockPc.Draining? ==>
          lk.chans == [])
  }

  ghost predicate LocksInv(chans: seq<Chan>, locks: map<LockId, Lock>) {
    forall l :: l in locks ==> LockInv(chans, locks[l])
  }

  ghost predicate CallerInv(s: State) {
    forall l :: Caller(s.cleaner) == Some(l) <==> l in s.locks && s.locks[l].unlockPc.InClean?
  }

  /** A held channel is open, empty and not in Clean's hands. */
  ghost predicate Locked(s: State, c: ChanId) {
    c < |s.chans| && !s.chans[c].full && !s.chans[c].closed && !Taken(s.table, s.cleaner, c)
  }

  ghost predicate HeldInv(s: State) {
    forall l: LockId, c: ChanId :: l in s.locks && c in s.locks[l].Held() ==> Locked(s, c)
  }

  ghost predicate OneHolder(s: State) {
    forall l: LockId, m: LockId, c: ChanId ::
      l in s.locks && m in s.locks && c in s.locks[l].Held() && c in s.locks[m].Held() ==> l == m
  }

  ghost predicate HasHolder(s: State, c: ChanId) {
    exists l :: l in s.locks && c in s.locks[l].Held()
  }

  /** No token is lost: an open channel is full, or its token is with Clean or with a lock. */
  ghost predicate TokensAccounted(s: State) {
    forall c: ChanId :: Locked(s, c) ==> HasHolder(s, c)
  }

  ghost predicate Inv(s: State) {
    && TableInv(s.chans, s.table, s.cleaner) && CleanerInv(s.chans, s.table, s.cleaner)
    && LocksInv(s.chans, s.locks) && CallerInv(s)
    && HeldInv(s) && OneHolder(s) && TokensAccounted(s)
  }

  lemma InvWellIndexed(s: State)
    requires Inv(s)
    ensures WellIndexed(s)
  {
  }

  /** Replacing one lock by another that holds the same channels. */
  lemma LockOnly(s: State, l: LockId, lk: Lock)
    requires Inv(s) && LockInv(s.chans, lk)
    requires lk.Held() == if l in s.locks then s.locks[l].Held() else []
    requires lk.unlockPc.InClean? <==> l in s.locks && s.locks[l].unlockPc.InClean?
    ensures Inv(WithLock(s, l, lk))
  {
    var s' := WithLock(s, l, lk);
    assert forall m :: m in s'.locks && m != l ==> m in s.locks && s'.locks[m] == s.locks[m];
    assert forall c: ChanId :: Locked(s', c) <==> Locked(s, c);
    forall c: ChanId | HasHolder(s, c) ensures HasHolder(s', c) {
      var m :| m in s.locks && c in s.locks[m].Held();
      assert m in s'.locks && c in s'.locks[m].Held();
    }
  }

  lemma LockActionsKeepInv(s: State, a: Action)
    requires Inv(s) && WellIndexed(s) && Enabled(s, a)
    requires a.New? || a.StartLock? || a.FinishLock? || a.StartUnlock? || a.EndRelease? || a.EndUnlock?
    ensures Inv(Apply(s, a))
  {
    LockOnly(s, a.l, Apply(s, a).locks[a.l]);
  }

  lemma FreshChannelKeepsTable(chans: seq<Chan>, table: map<string, ChanId>, cl: Cleaner, k: string)
    requires TableInv(chans, table, cl) && k !in table && cl.Off?
    ensures var chans', table' := chans + [Chan(k, true, false)], table[k := |chans|];
            TableInv(chans', table', cl) && CleanerInv(chans', table', cl)
  {
    var chans', table' := chans + [Chan(k, true, false)], table[k := |chans|];
    assert forall c :: 0 <= c < |chans| ==> chans'[c] == chans[c];
    assert chans'[|chans|] == Chan(k, true, false);
  }

  lemma FreshChannelKeepsLocks(chans: seq<Chan>, ch: Chan, locks: map<LockId, Lock>)
    requires LocksInv(chans, locks)
    ensures LocksInv(chans + [ch], locks)
  {
    forall l | l in locks ensures LockInv(chans + [ch], locks[l]) {
      assert LockInv(chans, locks[l]);
    }
  }

  /** getChan on a key without a channel: the new channel is open, full and unreferenced. */
  lemma FreshChannelKeepsInv(s: State, k: string)
    requires Inv(s) && k !in s.table && s.cleaner.Off?
    ensures Inv(s.(chans := s.chans + [Chan(k, true, false)], table := s.table[k := |s.chans|]))
  {
    var s' := s.(chans := s.chans + [Chan(k, true, false)], table := s.table[k := |s.chans|]);
    FreshChannelKeepsTable(s.chans, s.table, s.cleaner, k);
    FreshChannelKeepsLocks(s.chans, Chan(k, true, false), s.locks);
    SameHoldings(s, s') by {
      assert forall c :: 0 <= c < |s.chans| ==> s'.chans[c] == s.chans[c];
    }
  }

  /** Same locks, same locked channels: the accounting carries over. */
  lemma SameHoldings(s: State, s': State)
    requires HeldInv(s) && OneHolder(s) && TokensAccounted(s)
    requires s'.locks == s.locks && forall c: ChanId :: Locked(s', c) <==> Locked(s, c)
    ensures HeldInv(s') && OneHolder(s') && TokensAccounted(s')
  {
    assert forall c: ChanId :: HasHolder(s, c) <==> HasHolder(s', c);
  }

  lemma FetchKeepsInv(s: State, l: LockId)
    requires Inv(s) && WellIndexed(s) && Enabled(s, Fetch(l))
    ensures Inv(Apply(s, Fetch(l)))
  {
    var k := s.locks[l].keys[|s.locks[l].chans|];
    if k in s.table {
      LockOnly(s, l, s.locks[l].(lockPc := Waiting(s.table[k])));
    } else {
      FreshChannelKeepsInv(s, k);
      var s' := s.(chans := s.chans + [Chan(k, true, false)], table := s.table[k := |s.chans|]);
      LockOnly(s', l, s.locks[l].(lockPc := Waiting(|s.chans|)));
    }
  }

  /** Moving the token of an open channel outside Clean's hands keeps the table's shape. */
  lemma TokenMoveKeepsTable(chans: seq<Chan>, table: map<string, ChanId>, cl: Cleaner, c: ChanId, full: bool)
    requires TableInv(chans, table, cl) && CleanerInv(chans, table, cl)
    requires c < |chans| && !chans[c].closed && !Taken(table, cl, c)
    ensures var chans' := chans[c := chans[c].(full := full)];
            TableInv(chans', table, cl) && CleanerInv(chans', table, cl)
  {
  }

  lemma TokenMoveKeepsLocks(chans: seq<Chan>, c: ChanId, ch: Chan, locks: map<LockId, Lock>)
    requires LocksInv(chans, locks) && c < |chans| && ch.key == chans[c].key
    ensures LocksInv(chans[c := ch], locks)
  {
    forall m | m in locks ensures LockInv(chans[c := ch], locks[m]) {
      assert LockInv(chans, locks[m]);
    }
  }

  /** Everything but the holdings survives a token moving between channel `c` and lock `l`. */
  lemma TokenMove(s: State, c: ChanId, full: bool, l: LockId, lk: Lock)
    requires Inv(s) && c < |s.chans| && !s.chans[c].closed && !Taken(s.table, s.cleaner, c)
    requires l in s.locks && LockInv(s.chans, lk) && lk.unlockPc.InClean? == s.locks[l].unlockPc.InClean?
    ensures var s' := WithLock(WithChan(s, c, s.chans[c].(full := full)), l, lk);
            && TableInv(s'.chans, s'.table, s'.cleaner) && CleanerInv(s'.chans, s'.table, s'.cleaner)
            && LocksInv(s'.chans, s'.locks) && CallerInv(s')
            && forall d: ChanId :: Locked(s', d) <==> if d == c then !full else Locked(s, d)
  {
    var ch := s.chans[c].(full := full);
    TokenMoveKeepsTable(s.chans, s.table, s.cleaner, c, full);
    TokenMoveKeepsLocks(s.chans, c, ch, s.locks[l := lk]);
  }

  /** A lock that has received the token of the channel it waited on. */
  lemma WithToken(chans: seq<Chan>, lk: Lock)
    requires LockInv(chans, lk) && lk.lockPc.Waiting?
    ensures var lk' := lk.(chans := lk.chans + [lk.lockPc.ch], lockPc := Fetching);
            LockInv(chans, lk') && lk'.Held() == lk.Held() + [lk.lockPc.ch]
  {
  }

  lemma TakeKeepsInv(s: State, l: LockId, s': State)
    requires Inv(s) && WellIndexed(s) && Enabled(s, Receive(l)) && s.chans[s.locks[l].lockPc.ch].full
    requires s' == Apply(s, Receive(l))
    ensures Inv(s')
  {
    var lk := s.locks[l];
    var c := lk.lockPc.ch;
    assert LockInv(s.chans, lk);
    WithToken(s.chans, lk);
    TokenMove(s, c, false, l, s'.locks[l]);
    MoreHeld(s, s', l, c);
  }

  lemma ReceiveKeepsInv(s: State, l: LockId)
    requires Inv(s) && WellIndexed(s) && Enabled(s, Receive(l))
    ensures Inv(Apply(s, Receive(l)))
  {
    var lk := s.locks[l];
    if s.chans[lk.lockPc.ch].full {
      TakeKeepsInv(s, l, Apply(s, Receive(l)));
    } else {
      assert LockInv(s.chans, lk);
      LockOnly(s, l, lk.(lockPc := Fetching));
    }
  }

  /** Lock `l` has taken the token of `c`, which nobody held. */
  lemma MoreHeld(s: State, s': State, l: LockId, c: ChanId)
    requires HeldInv(s) && OneHolder(s) && TokensAccounted(s)
    requires s'.locks.Keys == s.locks.Keys && l in s.locks
    requires forall m :: m in s.locks && m != l ==> s'.locks[m] == s.locks[m]
    requires s'.locks[l].Held() == s.locks[l].Held() + [c]
    requires !Locked(s, c) && forall d: ChanId :: Locked(s', d) <==> Locked(s, d) || d == c
    ensures HeldInv(s') && OneHolder(s') && TokensAccounted(s')
  {
    assert c in s'.locks[l].Held();
    forall d: ChanId | Locked(s', d) ensures HasHolder(s', d) {
      if d != c {
        var m :| m in s.locks && d in s.locks[m].Held();
        assert m in s'.locks && d in s'.locks[m].Held();
      }
    }
  }

  lemma ReleaseKeepsInv(s: State, l: LockId)
    requires Inv(s) && WellIndexed(s) && Enabled(s, Release(l))
    ensures Inv(Apply(s, Release(l)))
  {
    GiveBackKeepsInv(s, l, Apply(s, Release(l)));
  }

  lemma GiveBackKeepsInv(s: State, l: LockId, s': State)
    requires Inv(s) && AtRelease(s, l)
    requires var lk := s.locks[l];
             var c := lk.chans[lk.unlockPc.next];
             && c < |s.chans|
             && s' == WithLock(WithChan(s, c, s.chans[c].(full := true)), l,
                               lk.(unlockPc := Releasing(lk.unlockPc.next + 1)))
    ensures Inv(s')
  {
    var lk := s.locks[l];
    var c := lk.chans[lk.unlockPc.next];
    assert LockInv(s.chans, lk);
    HeadHeld(s.chans, lk);
    assert Locked(s, c);
    TokenMove(s, c, true, l, s'.locks[l]);
    LessHeld(s, s', l, c);
  }

  /** Unlock gives channels back one by one, and never the same one twice. */
  lemma HeadHeld(chans: seq<Chan>, lk: Lock)
    requires LockInv(chans, lk) && lk.unlockPc.Releasing? && lk.unlockPc.next < |lk.chans|
    ensures var c, lk' := lk.chans[lk.unlockPc.next], lk.(unlockPc := Releasing(lk.unlockPc.next + 1));
            && LockInv(chans, lk') && c in lk.Held()
            && lk.Held() == [c] + lk'.Held() && c !in lk'.Held()
  {
    KeysDistinct(chans, lk);
    var lk' := lk.(unlockPc := Releasing(lk.unlockPc.next + 1));
    TailHeld(lk.chans, lk.unlockPc.next);
    assert lk.Held() == lk.chans[lk.unlockPc.next..] && lk'.Held() == lk.chans[lk.unlockPc.next + 1..];
  }

  lemma TailHeld(xs: seq<ChanId>, i: nat)
    requires i < |xs| && forall i, j :: 0 <= i < j < |xs| ==> xs[i] != xs[j]
    ensures xs[i..] == [xs[i]] + xs[i + 1..] && xs[i] !in xs[i + 1..]
  {
  }

  /** A lock's channels are pairwise different, since their keys are. */
  lemma KeysDistinct(chans: seq<Chan>, lk: Lock)
    requires LockInv(chans, lk)
    ensures forall i, j :: 0 <= i < j < |lk.chans| ==> lk.chans[i] != lk.chans[j]
  {
    forall i, j | 0 <= i < j < |lk.chans| ensures lk.chans[i] != lk.chans[j] {
      LessIrreflexive(lk.keys[i]);
      assert Less(lk.keys[i], lk.keys[j]);
    }
  }

  /** Lock `l` has given back the token of `c`. */
  lemma LessHeld(s: State, s': State, l: LockId, c: ChanId)
    requires HeldInv(s) && OneHolder(s) && TokensAccounted(s)
    requires s'.locks.Keys == s.locks.Keys && l in s.locks
    requires forall m :: m in s.locks && m != l ==> s'.locks[m] == s.locks[m]
    requires s.locks[l].Held() == [c] + s'.locks[l].Held() && c !in s'.locks[l].Held()
    requires forall d: ChanId :: Locked(s', d) <==> Locked(s, d) && d != c
    ensures HeldInv(s') && OneHolder(s') && TokensAccounted(s')
  {
    assert c in s.locks[l].Held();
    forall d: ChanId | Locked(s', d) ensures HasHolder(s', d) {
      var m :| m in s.locks && d in s.locks[m].Held();
      assert m in s'.locks && d in s'.locks[m].Held();
    }
  }

  /** The lock-side state of an action that only moves Clean along. */
  lemma CleanerMove(s: State, s': State)
    requires Inv(s) && s'.locks == s.locks && |s'.chans| == |s.chans|
    requires forall c :: 0 <= c < |s.chans| ==> s'.chans[c].key == s.chans[c].key
    requires TableInv(s'.chans, s'.table, s'.cleaner) && CleanerInv(s'.chans, s'.table, s'.cleaner)
    requires Caller(s'.cleaner) == Caller(s.cleaner)
    requires forall c: ChanId :: Locked(s', c) <==> Locked(s, c)
    ensures Inv(s')
  {
    forall l | l in s.locks ensures LockInv(s'.chans, s'.locks[l]) {
      assert LockInv(s.chans, s.locks[l]);
    }
    SameHoldings(s, s');
  }

  lemma VisitKeepsTable(chans: seq<Chan>, table: map<string, ChanId>, cl: Cleaner, k: string)
    requires TableInv(chans, table, cl) && CleanerInv(chans, table, cl)
    requires cl.Visiting? && k in cl.pending && k in table
    ensures var taken := chans[table[k]].full;
            var chans' := if taken then chans[table[k] := chans[table[k]].(full := false)] else chans;
            var cl' := if taken then Closing(cl.caller, cl.pending, cl.dead, k)
                       else Visiting(cl.caller, cl.pending - {k}, cl.dead);
            !chans[table[k]].closed && TableInv(chans', table, cl') && CleanerInv(chans', table, cl')
  {
  }

  lemma VisitKeepsInv(s: State, k: string)
    requires Inv(s) && WellIndexed(s) && Enabled(s, Visit(k))
    ensures Inv(Apply(s, Visit(k)))
  {
    var c := s.table[k];
    VisitKeepsTable(s.chans, s.table, s.cleaner, k);
    CleanerMove(s, Apply(s, Visit(k))) by {
      assert forall d: ChanId :: d != c ==> (Locked(Apply(s, Visit(k)), d) <==> Locked(s, d));
    }
  }

  lemma CloseKeepsInv(s: State)
    requires Inv(s) && WellIndexed(s) && Enabled(s, Close)
    ensures Inv(Apply(s, Close))
  {
    CleanerMove(s, Apply(s, Close));
  }

  lemma DeleteKeepsInv(s: State, k: string)
    requires Inv(s) && WellIndexed(s) && Enabled(s, Delete(k))
    ensures Inv(Apply(s, Delete(k)))
  {
    CleanerMove(s, Apply(s, Delete(k)));
  }

  lemma EndVisitsKeepsInv(s: State)
    requires Inv(s) && WellIndexed(s) && Enabled(s, EndVisits)
    ensures Inv(Apply(s, EndVisits))
  {
    CleanerMove(s, Apply(s, EndVisits));
  }

  /** Entering and leaving Clean: the mutex and the caller's program counter move together. */
  lemma CleanBoundary(s: State, cl: Cleaner, pc: UnlockPc)
    requires Inv(s) && !cl.Closing? && !s.cleaner.Closing?
    requires TableInv(s.chans, s.table, cl) && CleanerInv(s.chans, s.table, cl)
    requires s.cleaner.Off? != cl.Off? && (cl.Off? ==> pc.Draining?) && (!cl.Off? ==> pc.InClean?)
    requires var who := if cl.Off? then Caller(s.cleaner) else Caller(cl);
             who.None? || (who.value in s.locks &&
               (s.locks[who.value].unlockPc.InClean? || s.locks[who.value].unlockPc.BeforeClean?))
    ensures var who := if cl.Off? then Caller(s.cleaner) else Caller(cl);
            Inv(if who.None? then s.(cleaner := cl)
                else WithLock(s.(cleaner := cl), who.value, s.locks[who.value].(unlockPc := pc)))
  {
    var who := if cl.Off? then Caller(s.cleaner) else Caller(cl);
    var s' := if who.None? then s.(cleaner := cl)
              else WithLock(s.(cleaner := cl), who.value, s.locks[who.value].(unlockPc := pc));
    assert forall l :: l in s.locks ==> s'.locks[l].Held() == s.locks[l].Held();
    assert forall c: ChanId :: Locked(s', c) <==> Locked(s, c);
    forall c: ChanId | HasHolder(s, c) ensures HasHolder(s', c) {
      var m :| m in s.locks && c in s.locks[m].Held();
      assert m in s'.locks && c in s'.locks[m].Held();
    }
    assert forall l :: l in s.locks ==> LockInv(s.chans, s.locks[l]);
  }

  lemma CleanBoundariesKeepInv(s: State, a: Action)
    requires Inv(s) && WellIndexed(s) && Enabled(s, a) && (a.StartClean? || a.EndClean?)
    ensures Inv(Apply(s, a))
  {
    if a.StartClean? {
      CleanBoundary(s, Visiting(a.caller, s.table.Keys, {}), InClean);
    } else {
      CleanBoundary(s, Off, Draining);
    }
  }

  lemma StepKeepsInv(s: State, a: Action)
    requires Inv(s) && WellIndexed(s) && Enabled(s, a)
    ensures Inv(Apply(s, a))
  {
    match a
    case Fetch(l) => FetchKeepsInv(s, l);
    case Receive(l) => ReceiveKeepsInv(s, l);
    case Release(l) => ReleaseKeepsInv(s, l);
    case Visit(k) => VisitKeepsInv(s, k);
    case Close => CloseKeepsInv(s);
    case Delete(k) => DeleteKeepsInv(s, k);
    case EndVisits => EndVisitsKeepsInv(s);
    case StartClean(_) => CleanBoundariesKeepInv(s, a);
    case EndClean => CleanBoundariesKeepInv(s, a);
    case _ => LockActionsKeepInv(s, a);
  }

  // ----- Runs -----

  /** `acts` leads from `s0` to `s`, each action being enabled when its turn comes. */
  ghost predicate Leads(s0: State, acts: seq<Action>, s: State)
    decreases |acts|
  {
    if acts == [] then s == s0
    else WellIndexed(s0) && Enabled(s0, acts[0]) && Leads(Apply(s0, acts[0]), acts[1..], s)
  }

  lemma {:induction false} LeadsKeepsInv(s0: State, acts: seq<Action>, s: State)
    requires Inv(s0) && Leads(s0, acts, s)
    ensures Inv(s)
    decreases |acts|
  {
    if acts != [] {
      StepKeepsInv(s0, acts[0]);
      LeadsKeepsInv(Apply(s0, acts[0]), acts[1..], s);
    }
  }

  /** Every reachable state is well indexed, so an action is always defined on it. */
  ghost predicate Reaches(acts: seq<Action>, s: State)
    ensures Reaches(acts, s) ==> WellIndexed(s)
  {
    Leads(INITIAL, acts, s) && (LeadsKeepsInv(INITIAL, acts, s); InvWellIndexed(s); true)
  }

  lemma ReachableInv(acts: seq<Action>, s: State)
    requires Reaches(acts, s)
    ensures Inv(s)
  {
    LeadsKeepsInv(INITIAL, acts, s);
  }

  ghost predicate HoldsKey(s: State, l: LockId, k: string)
    requires WellIndexed(s)
  {
    l in s.locks && exists c: ChanId :: c in s.locks[l].Held() && c < |s.chans| && s.chans[c].key == k
  }

  /** At most one lock holds a key, in every state of every run, however often Clean has closed and
      dropped the key's channel and getChan has made a new one. */
  lemma MutualExclusion(acts: seq<Action>, s: State, l: LockId, m: LockId, k: string)
    requires Reaches(acts, s)
    requires HoldsKey(s, l, k) && HoldsKey(s, m, k)
    ensures l == m
  {
    ReachableInv(acts, s);
    var c: ChanId :| c in s.locks[l].Held() && c < |s.chans| && s.chans[c].key == k;
    var d: ChanId :| d in s.locks[m].Held() && d < |s.chans| && s.chans[d].key == k;
    assert Locked(s, c) && Locked(s, d);
    assert s.table[k] == c == d;
  }

  /** A lock whose Lock call has returned, and whose Unlock has not begun, holds all its keys. */
  lemma LockedHoldsAllKeys(acts: seq<Action>, s: State, l: LockId, k: string)
    requires Reaches(acts, s) && l in s.locks && s.locks[l].unlockBuf
    ensures HoldsKey(s, l, k) <==> k in s.locks[l].keys
  {
    ReachableInv(acts, s);
    var lk := s.locks[l];
    assert LockInv(s.chans, lk);
    assert lk.Held() == lk.chans;
    if k in lk.keys {
      var i :| 0 <= i < |lk.keys| && lk.keys[i] == k;
      assert lk.chans[i] in lk.Held() && s.chans[lk.chans[i]].key == k;
    }
  }

  /** Unlock's sends never block and never hit a closed channel, Clean never closes twice, and the
      lock's own two channels never block the goroutine that is past lk.lock. */
  lemma NoPanicNoBlock(acts: seq<Action>, s: State, l: LockId)
    requires Reaches(acts, s)
    ensures AtRelease(s, l) ==> Enabled(s, Release(l))
    ensures AtClose(s) ==> Enabled(s, Close)
    ensures l in s.locks && s.locks[l].lockPc.Fetching? && |s.locks[l].chans| == |s.locks[l].keys| ==>
              Enabled(s, FinishLock(l))
    ensures l in s.locks && s.locks[l].unlockPc.Draining? ==> Enabled(s, EndUnlock(l))
  {
    ReachableInv(acts, s);
    if AtRelease(s, l) {
      var lk := s.locks[l];
      HeadHeld(s.chans, lk);
      assert Locked(s, lk.chans[lk.unlockPc.next]);
    }
  }

  // ----- Deadlock freedom -----

  /** Lock `l` is stuck in a receive. */
  ghost predicate Blocked(s: State, l: LockId)
    requires WellIndexed(s)
  {
    l in s.locks && s.locks[l].lockPc.Waiting? && !Enabled(s, Receive(l))
  }

  ghost function WaitKey(s: State, l: LockId): string
    requires WellIndexed(s) && Blocked(s, l)
  {
    s.chans[s.locks[l].lockPc.ch].key
  }

  ghost predicate WaitsFor(s: State, l: LockId, m: LockId)
    requires WellIndexed(s)
  {
    Blocked(s, l) && HoldsKey(s, m, WaitKey(s, l))
  }

  /** A lock only ever waits for a key greater than every key it holds. */
  lemma WaitsUpwards(s: State, l: LockId, k: string)
    requires Inv(s) && WellIndexed(s) && Blocked(s, l) && HoldsKey(s, l, k)
    ensures Less(k, WaitKey(s, l))
  {
    var lk := s.locks[l];
    assert LockInv(s.chans, lk);
    var c: ChanId :| c in lk.Held() && c < |s.chans| && s.chans[c].key == k;
    var i :| 0 <= i < |lk.chans| && lk.chans[i] == c;
    assert Less(lk.keys[i], lk.keys[|lk.chans|]);
  }

  /** Whoever is stuck waits for another lock, or for a Clean that is about to close the channel. */
  lemma BlockedReason(s: State, l: LockId)
    requires Inv(s) && WellIndexed(s) && Blocked(s, l)
    ensures Enabled(s, Close) || exists m :: WaitsFor(s, l, m)
  {
    var c := s.locks[l].lockPc.ch;
    if Locked(s, c) {
      assert HasHolder(s, c);
      var m :| m in s.locks && c in s.locks[m].Held();
      assert HoldsKey(s, m, WaitKey(s, l));
      assert WaitsFor(s, l, m);
    }
  }

  ghost predicate WaitPath(s: State, path: seq<LockId>)
    requires WellIndexed(s)
  {
    forall i :: 0 <= i < |path| - 1 ==> WaitsFor(s, path[i], path[i + 1])
  }

  lemma {:induction false} WaitKeysGrow(s: State, path: seq<LockId>)
    requires Inv(s) && WellIndexed(s) && WaitPath(s, path) && |path| >= 2
    requires Blocked(s, path[0]) && Blocked(s, path[|path| - 1])
    ensures Less(WaitKey(s, path[0]), WaitKey(s, path[|path| - 1]))
    decreases |path|
  {
    var n := |path| - 1;
    assert WaitsFor(s, path[n - 1], path[n]);
    WaitsUpwards(s, path[n], WaitKey(s, path[n - 1]));
    if n >= 2 {
      WaitKeysGrow(s, path[..n]);
      LessTransitive(WaitKey(s, path[0]), WaitKey(s, path[n - 1]), WaitKey(s, path[n]));
    }
  }

  /** No set of locks of any size waits in a circle. */
  lemma NoWaitCycle(acts: seq<Action>, s: State, path: seq<LockId>)
    requires Reaches(acts, s) && WaitPath(s, path) && |path| >= 2
    ensures path[0] != path[|path| - 1]
  {
    ReachableInv(acts, s);
    if path[0] == path[|path| - 1] {
      assert WaitsFor(s, path[0], path[1]);
      WaitKeysGrow(s, path);
      LessIrreflexive(WaitKey(s, path[0]));
    }
  }

  ghost function BlockedAbove(s: State, k: string): set<LockId>
    requires WellIndexed(s)
  {
    set m | m in s.locks && Blocked(s, m) && Less(k, WaitKey(s, m))
  }

  /** Following holders from a stuck lock ends at a lock that is not stuck, unless Clean can move. */
  lemma {:induction false} FollowHolders(s: State, l: LockId) returns (path: seq<LockId>)
    requires Inv(s) && WellIndexed(s) && l in s.locks
    ensures path != [] && path[0] == l && WaitPath(s, path)
    ensures Enabled(s, Close) || !Blocked(s, path[|path| - 1])
    ensures path[|path| - 1] in s.locks
    ensures |path| >= 2 ==> s.locks[path[|path| - 1]].Held() != []
    decreases if Blocked(s, l) then 1 + |BlockedAbove(s, WaitKey(s, l))| else 0
  {
    path := [l];
    if Blocked(s, l) {
      BlockedReason(s, l);
      if !Enabled(s, Close) {
        var m :| WaitsFor(s, l, m);
        if Blocked(s, m) {
          FewerAbove(s, l, m);
        }
        var rest := FollowHolders(s, m);
        path := [l] + rest;
      }
    }
  }

  lemma FewerAbove(s: State, l: LockId, m: LockId)
    requires Inv(s) && WellIndexed(s) && WaitsFor(s, l, m) && Blocked(s, m)
    ensures |BlockedAbove(s, WaitKey(s, m))| < |BlockedAbove(s, WaitKey(s, l))|
  {
    WaitsUpwards(s, m, WaitKey(s, l));
    var A, B := BlockedAbove(s, WaitKey(s, m)), BlockedAbove(s, WaitKey(s, l));
    forall x | x in A ensures x in B {
      LessTransitive(WaitKey(s, l), WaitKey(s, m), WaitKey(s, x));
    }
    LessIrreflexive(WaitKey(s, m));
    assert m in B - A;
    ProperSubsetSmaller(A, B, m);
  }

  lemma ProperSubsetSmaller(A: set<LockId>, B: set<LockId>, m: LockId)
    requires A <= B && m in B && m !in A
    ensures |A| < |B|
  {
    assert |B| == |B - A| + |A|;
    assert m in B - A;
  }

  /** Actions of goroutines already inside Lock, Unlock or Clean, and the Unlock call of a lock that
      has been acquired; not new locks and new calls from outside. */
  ghost predicate Internal(a: Action) {
    !a.New? && !a.StartLock? && !(a.StartClean? && a.caller.None?)
  }

  ghost predicate CanMove(s: State)
    requires WellIndexed(s)
  {
    exists a :: Internal(a) && Enabled(s, a)
  }

  lemma CleanerCanMove(s: State)
    requires Inv(s) && WellIndexed(s) && !s.cleaner.Off?
    ensures CanMove(s)
  {
    var a := match s.cleaner
      case Visiting(_, pending, _) =>
        if pending == {} then EndVisits else (var k :| k in pending; Visit(k))
      case Closing(_, _, _, _) => Close
      case Deleting(_, dead) => if dead == {} then EndClean else (var k :| k in dead; Delete(k));
    assert Internal(a) && Enabled(s, a);
  }

  lemma UnblockedCanMove(s: State, l: LockId)
    requires Inv(s) && WellIndexed(s) && l in s.locks && s.locks[l].lockBuf && !Blocked(s, l)
    ensures CanMove(s)
  {
    var lk := s.locks[l];
    assert LockInv(s.chans, lk);
    if !s.cleaner.Off? {
      CleanerCanMove(s);
    } else {
      if lk.unlockPc.Releasing? && lk.unlockPc.next < |lk.chans| {
        HeadHeld(s.chans, lk);
        assert Locked(s, lk.chans[lk.unlockPc.next]);
      }
      var a :=
        if lk.lockPc.Waiting? then Receive(l)
        else if lk.lockPc.Fetching? then (if |lk.chans| < |lk.keys| then Fetch(l) else FinishLock(l))
        else if lk.unlockBuf then StartUnlock(l)
        else match lk.unlockPc
          case Releasing(j) => if j < |lk.chans| then Release(l) else EndRelease(l)
          case BeforeClean => StartClean(Some(l))
          case _ => EndUnlock(l);
      assert Enabled(s, a) && Internal(a);
    }
  }

  /** While any lock is in use, some goroutine already inside the package, or the owner of an
      acquired lock, can take its next step. */
  lemma DeadlockFree(acts: seq<Action>, s: State, l: LockId)
    requires Reaches(acts, s) && l in s.locks && s.locks[l].lockBuf
    ensures CanMove(s)
  {
    ReachableInv(acts, s);
    var path := FollowHolders(s, l);
    if Enabled(s, Close) {
      assert Internal(Close);
    } else {
      var m := path[|path| - 1];
      assert LockInv(s.chans, s.locks[m]);
      UnblockedCanMove(s, m);
    }
  }
}

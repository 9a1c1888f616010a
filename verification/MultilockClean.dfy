/** What Clean achieves, and what a lock alone can do: async/multilock.go over runs of the transition system. */
module MultilockClean {
  import opened Wrappers
  import opened MultilockKeys
  import opened MultilockProtocol

  lemma {:induction false} LeadsJoin(s0: State, a: seq<Action>, s1: State, b: seq<Action>, s2: State)
    requires Leads(s0, a, s1) && Leads(s1, b, s2)
    ensures Leads(s0, a + b, s2)
    decreases |a|
  {
    if a == [] {
      assert a + b == b;
    } else {
      LeadsJoin(Apply(s0, a[0]), a[1..], s1, b, s2);
      assert (a + b)[1..] == a[1..] + b;
    }
  }

  lemma LeadsJoinThree(s0: State, a: seq<Action>, s1: State, b: seq<Action>, s2: State, c: seq<Action>, s3: State)
    requires Leads(s0, a, s1) && Leads(s1, b, s2) && Leads(s2, c, s3)
    ensures Leads(s0, a + (b + c), s3)
  {
    LeadsJoin(s1, b, s2, c, s3);
    LeadsJoin(s0, a, s1, b + c, s3);
  }

  lemma LeadsOne(s: State, a: Action)
    requires WellIndexed(s) && Enabled(s, a)
    ensures Leads(s, [a], Apply(s, a))
  {
    assert Leads(Apply(s, a), [a][1..], Apply(s, a));
  }

  lemma {:induction false} LeadsSplit(s0: State, a: seq<Action>, b: seq<Action>, s2: State) returns (s1: State)
    requires Leads(s0, a + b, s2)
    ensures Leads(s0, a, s1) && Leads(s1, b, s2)
    decreases |a|
  {
    if a == [] {
      assert a + b == b;
      s1 := s0;
    } else {
      assert (a + b)[1..] == a[1..] + b;
      s1 := LeadsSplit(Apply(s0, a[0]), a[1..], b, s2);
    }
  }

  /** Some lock holds the key. */
  ghost predicate InUse(s: State, k: string)
    requires WellIndexed(s)
  {
    exists l :: HoldsKey(s, l, k)
  }

  // ----- Clean on its own -----

  /** The actions between StartClean and EndClean. */
  predicate Sweeping(a: Action) {
    a.Visit? || a.Close? || a.EndVisits? || a.Delete?
  }

  ghost function Pending(cl: Cleaner): set<string> {
    if cl.Visiting? || cl.Closing? then cl.pending else {}
  }

  /** A key that Clean has been past, and has not marked, is in use. */
  ghost predicate Swept(s: State)
    requires WellIndexed(s)
  {
    forall k :: k in s.table && k !in Pending(s.cleaner) && k !in Dead(s.cleaner) ==> InUse(s, k)
  }

  /** Both states have the same channels for the same keys, and the same locks hold them. */
  ghost predicate SameHolders(s: State, s': State) {
    && |s.chans| == |s'.chans| && (forall c :: 0 <= c < |s.chans| ==> s'.chans[c].key == s.chans[c].key)
    && s'.locks.Keys == s.locks.Keys && forall l :: l in s.locks ==> s'.locks[l].Held() == s.locks[l].Held()
  }

  lemma SameInUse(s: State, s': State, k: string)
    requires WellIndexed(s) && WellIndexed(s') && SameHolders(s, s')
    ensures InUse(s, k) <==> InUse(s', k)
  {
    forall l ensures HoldsKey(s, l, k) <==> HoldsKey(s', l, k) {
    }
  }

  lemma StepWellIndexed(s: State, a: Action)
    requires Inv(s) && WellIndexed(s) && Enabled(s, a)
    ensures Inv(Apply(s, a)) && WellIndexed(Apply(s, a))
  {
    StepKeepsInv(s, a);
    InvWellIndexed(Apply(s, a));
  }

  ghost predicate SubTable(t: map<string, ChanId>, t0: map<string, ChanId>) {
    forall k :: k in t ==> k in t0 && t[k] == t0[k]
  }

  lemma CleanKeepsHolders(s: State, a: Action)
    requires CallerInv(s) && WellIndexed(s) && Enabled(s, a) && (Sweeping(a) || a.StartClean? || a.EndClean?)
    ensures SameHolders(s, Apply(s, a)) && SubTable(Apply(s, a).table, s.table)
  {
  }

  /** A channel passed over by the select is held. */
  lemma SkippedIsInUse(s: State, k: string)
    requires Inv(s) && WellIndexed(s) && s.cleaner.Visiting? && k in s.cleaner.pending && k in s.table
    requires !s.chans[s.table[k]].full
    ensures InUse(s, k)
  {
    var c := s.table[k];
    assert Locked(s, c);
    var l :| l in s.locks && c in s.locks[l].Held();
    assert HoldsKey(s, l, k);
  }

  lemma CleanStepSweeps(s: State, a: Action)
    requires Inv(s) && WellIndexed(s) && Enabled(s, a) && Swept(s) && (Sweeping(a) || a.EndClean?)
    ensures WellIndexed(Apply(s, a)) && Swept(Apply(s, a))
  {
    var s' := Apply(s, a);
    CleanKeepsHolders(s, a);
    StepWellIndexed(s, a);
    forall k | k in s'.table && k !in Pending(s'.cleaner) && k !in Dead(s'.cleaner) ensures InUse(s', k) {
      if a.Visit? && k == a.key {
        SkippedIsInUse(s, k);
      }
      SameInUse(s, s', k);
    }
  }

  lemma SameHoldersTwice(s: State, s1: State, s2: State)
    requires SameHolders(s, s1) && SameHolders(s1, s2)
    ensures SameHolders(s, s2)
  {
  }

  lemma {:induction false} SweepRun(s: State, acts: seq<Action>, s': State)
    requires Inv(s) && WellIndexed(s) && Swept(s) && Leads(s, acts, s')
    requires forall a :: a in acts ==> Sweeping(a) || a.EndClean?
    ensures Inv(s') && WellIndexed(s') && Swept(s') && SameHolders(s, s') && SubTable(s'.table, s.table)
    decreases |acts|
  {
    if acts != [] {
      var s1 := Apply(s, acts[0]);
      StepWellIndexed(s, acts[0]);
      CleanStepSweeps(s, acts[0]);
      CleanKeepsHolders(s, acts[0]);
      SweepRun(s1, acts[1..], s');
      SameHoldersTwice(s, s1, s');
    }
  }

  lemma InUseIsOpen(s: State, k: string)
    requires Inv(s) && WellIndexed(s) && InUse(s, k)
    ensures k in s.table && !s.chans[s.table[k]].closed
  {
    var l :| HoldsKey(s, l, k);
    var c: ChanId :| c in s.locks[l].Held() && c < |s.chans| && s.chans[c].key == k;
    assert Locked(s, c);
  }

  lemma LastIsEndClean(s: State, acts: seq<Action>, s': State)
    requires Leads(s, acts + [EndClean], s')
    ensures s'.cleaner.Off?
  {
    var s1 := LeadsSplit(s, acts, [EndClean], s');
    assert [EndClean][1..] == [];
    assert s' == Apply(s1, EndClean);
  }

  lemma SweepFromStart(s: State, caller: Option<LockId>, sweep: seq<Action>, s': State)
    requires Inv(s) && WellIndexed(s) && forall a :: a in sweep ==> Sweeping(a)
    requires Leads(s, [StartClean(caller)] + (sweep + [EndClean]), s')
    ensures Inv(s') && WellIndexed(s') && Swept(s') && SameHolders(s, s') && SubTable(s'.table, s.table)
    ensures s'.cleaner.Off?
  {
    var acts := sweep + [EndClean];
    assert ([StartClean(caller)] + acts)[1..] == acts;
    var s1 := Apply(s, StartClean(caller));
    StepWellIndexed(s, StartClean(caller));
    CleanKeepsHolders(s, StartClean(caller));
    SweepRun(s1, acts, s');
    SameHoldersTwice(s, s1, s');
    LastIsEndClean(s1, sweep, s');
  }

  lemma OnlyInUseLeft(s: State, k: string)
    requires Inv(s) && WellIndexed(s) && Swept(s) && s.cleaner.Off?
    ensures k in s.table <==> InUse(s, k)
  {
    if InUse(s, k) {
      InUseIsOpen(s, k);
    }
  }

  lemma DroppedIsClosed(s: State, k: string, c: ChanId)
    requires Inv(s) && c < |s.chans| && s.chans[c].key == k && k !in s.table
    ensures s.chans[c].closed
  {
  }

  /** A Clean that runs undisturbed leaves in the table exactly the keys in use, with their channels; the channels of
      the others are closed. */
  lemma CleanAlone(before: seq<Action>, s: State, caller: Option<LockId>, sweep: seq<Action>, s': State)
    requires Reaches(before, s) && forall a :: a in sweep ==> Sweeping(a)
    requires Leads(s, [StartClean(caller)] + (sweep + [EndClean]), s')
    ensures s'.table.Keys == set k | k in s.table && InUse(s, k)
    ensures forall k :: k in s'.table ==> s'.table[k] == s.table[k]
    ensures forall k :: k in s.table && k !in s'.table ==> s.table[k] < |s'.chans| && s'.chans[s.table[k]].closed
    ensures s'.cleaner.Off? && SameHolders(s, s')
  {
    ReachableInv(before, s);
    SweepFromStart(s, caller, sweep, s');
    forall k ensures k in s'.table <==> k in s.table && InUse(s, k) {
      SameInUse(s, s', k);
      OnlyInUseLeft(s', k);
    }
    forall k | k in s.table && k !in s'.table ensures s'.chans[s.table[k]].closed {
      DroppedIsClosed(s', k, s.table[k]);
    }
  }

  // ----- Clean among other goroutines -----

  /** Clean has taken the token of channel c of key k: about to close it, to delete it, or done with it. */
  ghost predicate Doomed(s: State, k: string, c: ChanId) {
    && c < |s.chans| && !s.cleaner.Off?
    && if k in s.table then s.table[k] == c && ((s.cleaner.Closing? && s.cleaner.key == k) || k in s.cleaner.dead)
       else s.chans[c].closed
  }

  lemma StaysDoomed(s: State, a: Action, k: string, c: ChanId)
    requires Inv(s) && WellIndexed(s) && Enabled(s, a) && a != EndClean && Doomed(s, k, c)
    ensures Doomed(Apply(s, a), k, c)
  {
  }

  lemma {:induction false} RunStaysDoomed(s: State, acts: seq<Action>, s': State, k: string, c: ChanId)
    requires Inv(s) && Leads(s, acts, s') && EndClean !in acts && Doomed(s, k, c)
    ensures Inv(s') && Doomed(s', k, c)
    decreases |acts|
  {
    if acts != [] {
      StepKeepsInv(s, acts[0]);
      StaysDoomed(s, acts[0], k, c);
      RunStaysDoomed(Apply(s, acts[0]), acts[1..], s', k, c);
    }
  }

  lemma VisitDooms(s: State, k: string)
    requires WellIndexed(s) && Enabled(s, Visit(k)) && s.chans[s.table[k]].full
    ensures Doomed(Apply(s, Visit(k)), k, s.table[k])
  {
  }

  lemma DoomedAtEnd(s: State, k: string, c: ChanId)
    requires WellIndexed(s) && Enabled(s, EndClean) && Doomed(s, k, c)
    ensures var s' := Apply(s, EndClean); k !in s'.table && c < |s'.chans| && s'.chans[c].closed
  {
  }

  lemma DoomedIsDropped(s: State, between: seq<Action>, s': State, k: string, c: ChanId)
    requires Inv(s) && Doomed(s, k, c) && EndClean !in between && Leads(s, between + [EndClean], s')
    ensures k !in s'.table && c < |s'.chans| && s'.chans[c].closed
  {
    var last := LeadsSplit(s, between, [EndClean], s');
    RunStaysDoomed(s, between, last, k, c);
    assert [EndClean][1..] == [];
    DoomedAtEnd(last, k, c);
  }

  /** Whatever other goroutines do meanwhile: a key whose channel is full when Clean visits it is gone, and the channel
      closed, when that Clean ends. */
  lemma FullIsDropped(before: seq<Action>, s: State, k: string, between: seq<Action>, s': State)
    requires Reaches(before, s) && Enabled(s, Visit(k)) && s.chans[s.table[k]].full && EndClean !in between
    requires Leads(s, [Visit(k)] + (between + [EndClean]), s')
    ensures k !in s'.table && s.table[k] < |s'.chans| && s'.chans[s.table[k]].closed
  {
    ReachableInv(before, s);
    assert ([Visit(k)] + (between + [EndClean]))[1..] == between + [EndClean];
    StepKeepsInv(s, Visit(k));
    VisitDooms(s, k);
    DoomedIsDropped(Apply(s, Visit(k)), between, s', k, s.table[k]);
  }

  // ----- Clean comes to an end -----

  lemma {:induction false} FinishVisits(s: State) returns (acts: seq<Action>, s': State)
    requires Inv(s) && WellIndexed(s) && s.cleaner.Visiting?
    ensures Leads(s, acts, s') && (forall a :: a in acts ==> Sweeping(a)) && s'.cleaner.Deleting?
    decreases s.cleaner.pending
  {
    if s.cleaner.pending == {} {
      LeadsOne(s, EndVisits);
      acts, s' := [EndVisits], Apply(s, EndVisits);
    } else {
      var k :| k in s.cleaner.pending;
      var first, s1 := VisitOne(s, k);
      LeadsKeepsInv(s, first, s1);
      InvWellIndexed(s1);
      var rest;
      rest, s' := FinishVisits(s1);
      LeadsJoin(s, first, s1, rest, s');
      acts := first + rest;
    }
  }

  lemma VisitOne(s: State, k: string) returns (acts: seq<Action>, s': State)
    requires Inv(s) && WellIndexed(s) && s.cleaner.Visiting? && k in s.cleaner.pending
    ensures Leads(s, acts, s') && (forall a :: a in acts ==> Sweeping(a))
    ensures s'.cleaner.Visiting? && s'.cleaner.pending == s.cleaner.pending - {k}
  {
    var s1 := Apply(s, Visit(k));
    LeadsOne(s, Visit(k));
    acts, s' := [Visit(k)], s1;
    if s1.cleaner.Closing? {
      StepKeepsInv(s, Visit(k));
      InvWellIndexed(s1);
      LeadsOne(s1, Close);
      LeadsJoin(s, [Visit(k)], s1, [Close], Apply(s1, Close));
      acts, s' := [Visit(k)] + [Close], Apply(s1, Close);
    }
  }

  lemma {:induction false} FinishDeletes(s: State) returns (acts: seq<Action>, s': State)
    requires Inv(s) && WellIndexed(s) && s.cleaner.Deleting?
    ensures Leads(s, acts, s') && (forall a :: a in acts ==> Sweeping(a))
    ensures s'.cleaner.Deleting? && s'.cleaner.dead == {}
    decreases s.cleaner.dead
  {
    if s.cleaner.dead == {} {
      acts, s' := [], s;
    } else {
      var k :| k in s.cleaner.dead;
      var s1 := Apply(s, Delete(k));
      StepKeepsInv(s, Delete(k));
      InvWellIndexed(s1);
      LeadsOne(s, Delete(k));
      var rest;
      rest, s' := FinishDeletes(s1);
      LeadsJoin(s, [Delete(k)], s1, rest, s');
      acts := [Delete(k)] + rest;
    }
  }

  /** A Clean that has the mutex can run to its end by itself. */
  lemma CleanCompletes(s: State, caller: Option<LockId>) returns (sweep: seq<Action>, s': State)
    requires Inv(s) && WellIndexed(s) && Enabled(s, StartClean(caller))
    ensures forall a :: a in sweep ==> Sweeping(a)
    ensures Leads(s, [StartClean(caller)] + (sweep + [EndClean]), s')
  {
    var s1 := Apply(s, StartClean(caller));
    StepKeepsInv(s, StartClean(caller));
    InvWellIndexed(s1);
    var visits, s2 := FinishVisits(s1);
    LeadsKeepsInv(s1, visits, s2);
    InvWellIndexed(s2);
    var deletes, s3 := FinishDeletes(s2);
    LeadsKeepsInv(s2, deletes, s3);
    InvWellIndexed(s3);
    s' := Apply(s3, EndClean);
    LeadsOne(s3, EndClean);
    LeadsJoin(s1, visits, s2, deletes, s3);
    LeadsJoin(s1, visits + deletes, s3, [EndClean], s');
    LeadsOne(s, StartClean(caller));
    LeadsJoin(s, [StartClean(caller)], s1, visits + deletes + [EndClean], s');
    sweep := visits + deletes;
  }

  /** Clean can be called from outside whenever the mutex is free, and can then leave exactly the keys in use. */
  lemma OutsideClean(before: seq<Action>, s: State) returns (acts: seq<Action>, s': State)
    requires Reaches(before, s) && s.cleaner.Off?
    ensures Leads(s, acts, s') && s'.cleaner.Off? && s'.table.Keys == set k | k in s.table && InUse(s, k)
  {
    ReachableInv(before, s);
    var sweep;
    sweep, s' := CleanCompletes(s, None);
    CleanAlone(before, s, None, sweep, s');
    acts := [StartClean(None)] + (sweep + [EndClean]);
  }

  // ----- A lock on its own -----

  /** The actions of a goroutine inside Lock. */
  predicate Locking(a: Action, l: LockId) {
    (a.StartLock? || a.Fetch? || a.Receive? || a.FinishLock?) && a.l == l
  }

  ghost predicate HeldElsewhere(s: State, l: LockId, k: string)
    requires WellIndexed(s)
  {
    exists m :: m != l && HoldsKey(s, m, k)
  }

  /** No other lock holds a key of lock l. */
  ghost predicate Free(s: State, l: LockId)
    requires WellIndexed(s) && l in s.locks
  {
    forall k :: k in s.locks[l].keys ==> !HeldElsewhere(s, l, k)
  }

  /** Nothing has happened to the other locks, and old channels keep their keys. */
  ghost predicate OthersSame(s: State, s': State, l: LockId) {
    && l in s.locks && l in s'.locks && s'.locks[l].keys == s.locks[l].keys
    && s'.locks.Keys == s.locks.Keys && (forall m :: m in s.locks && m != l ==> s'.locks[m] == s.locks[m])
    && |s.chans| <= |s'.chans| && forall c :: 0 <= c < |s.chans| ==> s'.chans[c].key == s.chans[c].key
  }

  lemma LockingKeepsOthers(s: State, a: Action, l: LockId)
    requires WellIndexed(s) && Enabled(s, a) && Locking(a, l)
    ensures OthersSame(s, Apply(s, a), l) && (s.cleaner.Off? ==> Apply(s, a).cleaner.Off?)
  {
  }

  lemma SameElsewhere(s: State, s': State, l: LockId, k: string)
    requires WellIndexed(s) && WellIndexed(s') && OthersSame(s, s', l)
    ensures HeldElsewhere(s, l, k) <==> HeldElsewhere(s', l, k)
  {
    forall m | m != l ensures HoldsKey(s, m, k) <==> HoldsKey(s', m, k) {
    }
  }

  lemma StaysFree(s: State, s': State, l: LockId)
    requires WellIndexed(s) && WellIndexed(s') && OthersSame(s, s', l) && Free(s, l)
    ensures Free(s', l)
  {
    forall k | k in s'.locks[l].keys ensures !HeldElsewhere(s', l, k) {
      SameElsewhere(s, s', l, k);
    }
  }

  lemma OthersSameTwice(s: State, s1: State, s2: State, l: LockId)
    requires OthersSame(s, s1, l) && OthersSame(s1, s2, l)
    ensures OthersSame(s, s2, l)
  {
  }

  /** Lock l has its first n keys and goes for the next. */
  ghost predicate Has(s: State, l: LockId, n: nat) {
    l in s.locks && s.locks[l].lockPc.Fetching? && |s.locks[l].chans| == n && s.cleaner.Off?
  }

  lemma NotYetHeld(chans: seq<Chan>, lk: Lock)
    requires LockInv(chans, lk) && lk.lockPc.Waiting?
    ensures lk.lockPc.ch !in lk.Held()
  {
    forall i | 0 <= i < |lk.chans| ensures lk.chans[i] != lk.lockPc.ch {
      LessIrreflexive(lk.keys[i]);
      assert Less(lk.keys[i], lk.keys[|lk.chans|]);
    }
  }

  /** An open channel that a lock waits on without a token is held by another lock. */
  lemma EmptyIsHeldElsewhere(s: State, l: LockId)
    requires Inv(s) && WellIndexed(s) && l in s.locks && s.locks[l].lockPc.Waiting? && s.cleaner.Off?
    requires !s.chans[s.locks[l].lockPc.ch].closed && !s.chans[s.locks[l].lockPc.ch].full
    ensures HeldElsewhere(s, l, s.locks[l].keys[|s.locks[l].chans|])
  {
    var c := s.locks[l].lockPc.ch;
    assert LockInv(s.chans, s.locks[l]);
    NotYetHeld(s.chans, s.locks[l]);
    assert Locked(s, c);
    var m :| m in s.locks && c in s.locks[m].Held();
    assert HoldsKey(s, m, s.chans[c].key);
  }

  /** The channel of a free key that a lock goes for has a token in it. */
  lemma NextIsFull(s: State, l: LockId)
    requires Inv(s) && WellIndexed(s) && l in s.locks && s.locks[l].lockPc.Waiting? && s.cleaner.Off? && Free(s, l)
    requires !s.chans[s.locks[l].lockPc.ch].closed
    ensures s.chans[s.locks[l].lockPc.ch].full
  {
    assert LockInv(s.chans, s.locks[l]);
    if !s.chans[s.locks[l].lockPc.ch].full {
      EmptyIsHeldElsewhere(s, l);
    }
  }

  lemma FetchedIsOpen(s: State, l: LockId)
    requires Inv(s) && WellIndexed(s) && Enabled(s, Fetch(l))
    ensures var s' := Apply(s, Fetch(l));
            && s'.locks[l].lockPc.Waiting? && s'.locks[l].lockPc.ch < |s'.chans|
            && !s'.chans[s'.locks[l].lockPc.ch].closed && s'.locks[l].chans == s.locks[l].chans
  {
  }

  lemma FetchNext(s: State, l: LockId, n: nat) returns (acts: seq<Action>, s': State)
    requires Inv(s) && WellIndexed(s) && Has(s, l, n) && n < |s.locks[l].keys| && Free(s, l)
    ensures Leads(s, acts, s') && forall a :: a in acts ==> Locking(a, l)
    ensures Inv(s') && WellIndexed(s') && OthersSame(s, s', l) && s'.cleaner.Off?
    ensures Enabled(s', Receive(l)) && s'.chans[s'.locks[l].lockPc.ch].full && |s'.locks[l].chans| == n
  {
    acts, s' := [Fetch(l)], Apply(s, Fetch(l));
    FetchedIsOpen(s, l);
    StepWellIndexed(s, Fetch(l));
    LockingKeepsOthers(s, Fetch(l), l);
    StaysFree(s, s', l);
    NextIsFull(s', l);
    LeadsOne(s, Fetch(l));
  }

  lemma ReceiveNext(s: State, l: LockId) returns (acts: seq<Action>, s': State)
    requires Inv(s) && WellIndexed(s) && Enabled(s, Receive(l)) && s.chans[s.locks[l].lockPc.ch].full && s.cleaner.Off?
    ensures Leads(s, acts, s') && forall a :: a in acts ==> Locking(a, l)
    ensures Inv(s') && WellIndexed(s') && OthersSame(s, s', l)
    ensures Has(s', l, |s.locks[l].chans| + 1)
  {
    acts, s' := [Receive(l)], Apply(s, Receive(l));
    StepWellIndexed(s, Receive(l));
    LeadsOne(s, Receive(l));
  }

  lemma TakeNext(s: State, l: LockId, n: nat) returns (acts: seq<Action>, s': State)
    requires Inv(s) && WellIndexed(s) && Has(s, l, n) && n < |s.locks[l].keys| && Free(s, l)
    ensures Leads(s, acts, s') && forall a :: a in acts ==> Locking(a, l)
    ensures Inv(s') && WellIndexed(s') && Has(s', l, n + 1) && Free(s', l) && s'.locks[l].keys == s.locks[l].keys
  {
    var first, s1 := FetchNext(s, l, n);
    var rest;
    rest, s' := ReceiveNext(s1, l);
    OthersSameTwice(s, s1, s', l);
    StaysFree(s, s', l);
    LeadsJoin(s, first, s1, rest, s');
    acts := first + rest;
  }

  lemma {:induction false} TakeRest(s: State, l: LockId, n: nat) returns (acts: seq<Action>, s': State)
    requires Inv(s) && WellIndexed(s) && Has(s, l, n) && n <= |s.locks[l].keys| && Free(s, l)
    ensures Leads(s, acts, s') && forall a :: a in acts ==> Locking(a, l)
    ensures Inv(s') && WellIndexed(s') && Has(s', l, |s.locks[l].keys|) && s'.locks[l].keys == s.locks[l].keys
    decreases |s.locks[l].keys| - n
  {
    if n == |s.locks[l].keys| {
      acts, s' := [], s;
    } else {
      var first, s1 := TakeNext(s, l, n);
      var rest;
      rest, s' := TakeRest(s1, l, n + 1);
      LeadsJoin(s, first, s1, rest, s');
      acts := first + rest;
    }
  }

  lemma AcquiresFree(s: State, l: LockId) returns (acts: seq<Action>, s': State)
    requires Inv(s) && WellIndexed(s) && s.cleaner.Off? && Enabled(s, StartLock(l)) && Free(s, l)
    ensures Leads(s, acts, s') && (forall a :: a in acts ==> Locking(a, l))
    ensures l in s'.locks && s'.locks[l].unlockBuf
  {
    var s1 := Apply(s, StartLock(l));
    StepWellIndexed(s, StartLock(l));
    LockingKeepsOthers(s, StartLock(l), l);
    StaysFree(s, s1, l);
    var takes, s2 := TakeRest(s1, l, 0);
    assert LockInv(s2.chans, s2.locks[l]);
    s' := Apply(s2, FinishLock(l));
    LeadsOne(s, StartLock(l));
    LeadsOne(s2, FinishLock(l));
    LeadsJoinThree(s, [StartLock(l)], s1, takes, s2, [FinishLock(l)], s');
    acts := [StartLock(l)] + (takes + [FinishLock(l)]);
  }

  lemma {:induction false} LockingRun(s: State, acts: seq<Action>, s': State, l: LockId)
    requires Inv(s) && l in s.locks && Leads(s, acts, s') && forall a :: a in acts ==> Locking(a, l)
    ensures OthersSame(s, s', l)
    decreases |acts|
  {
    if acts != [] {
      StepWellIndexed(s, acts[0]);
      LockingKeepsOthers(s, acts[0], l);
      LockingRun(Apply(s, acts[0]), acts[1..], s', l);
      OthersSameTwice(s, Apply(s, acts[0]), s', l);
    }
  }

  /** Some run of l's Lock call alone ends with the lock acquired. */
  ghost predicate CanAcquire(s: State, l: LockId) {
    exists acts, s' :: Leads(s, acts, s') && (forall a :: a in acts ==> Locking(a, l))
                       && l in s'.locks && s'.locks[l].unlockBuf
  }

  lemma AcquiredWasFree(before: seq<Action>, s: State, acts: seq<Action>, s': State, l: LockId)
    requires Reaches(before, s) && l in s.locks && Leads(s, acts, s') && (forall a :: a in acts ==> Locking(a, l))
    requires l in s'.locks && s'.locks[l].unlockBuf
    ensures Free(s, l)
  {
    ReachableInv(before, s);
    LeadsJoin(INITIAL, before, s, acts, s');
    assert Reaches(before + acts, s');
    LockingRun(s, acts, s', l);
    forall k | k in s.locks[l].keys ensures !HeldElsewhere(s, l, k) {
      SameElsewhere(s, s', l, k);
      LockedHoldsAllKeys(before + acts, s', l, k);
      if HeldElsewhere(s', l, k) {
        var m :| m != l && HoldsKey(s', m, k);
        MutualExclusion(before + acts, s', l, m, k);
      }
    }
  }

  /** With no Clean under way, an idle lock's Lock call can go through by itself exactly if no other lock holds one of
      its keys, whatever channels were closed and dropped before. */
  lemma AcquiresIff(before: seq<Action>, s: State, l: LockId)
    requires Reaches(before, s) && s.cleaner.Off? && Enabled(s, StartLock(l))
    ensures CanAcquire(s, l) <==> Free(s, l)
  {
    ReachableInv(before, s);
    if Free(s, l) {
      var acts, s' := AcquiresFree(s, l);
    }
    if CanAcquire(s, l) {
      var acts, s' :| Leads(s, acts, s') && (forall a :: a in acts ==> Locking(a, l))
                      && l in s'.locks && s'.locks[l].unlockBuf;
      AcquiredWasFree(before, s, acts, s', l);
    }
  }

  // ----- Lock, then Unlock -----

  predicate Unlocking(a: Action, l: LockId) {
    || ((a.StartUnlock? || a.Release? || a.EndRelease? || a.EndUnlock?) && a.l == l)
    || a == StartClean(Some(l)) || Sweeping(a) || a.EndClean?
  }

  ghost predicate GivingBack(s: State, l: LockId, n: nat) {
    l in s.locks && s.locks[l].unlockPc == Releasing(n) && s.cleaner.Off?
  }

  lemma GiveBackOne(s: State, l: LockId, n: nat) returns (s': State)
    requires Inv(s) && WellIndexed(s) && GivingBack(s, l, n) && n < |s.locks[l].chans|
    ensures Leads(s, [Release(l)], s') && Inv(s') && WellIndexed(s') && GivingBack(s', l, n + 1)
    ensures OthersSame(s, s', l) && s'.locks[l].chans == s.locks[l].chans
  {
    HeadHeld(s.chans, s.locks[l]);
    assert Locked(s, s.locks[l].chans[n]);
    s' := Apply(s, Release(l));
    StepWellIndexed(s, Release(l));
    LeadsOne(s, Release(l));
  }

  lemma {:induction false} GiveBackRest(s: State, l: LockId, n: nat) returns (acts: seq<Action>, s': State)
    requires Inv(s) && WellIndexed(s) && GivingBack(s, l, n) && n <= |s.locks[l].chans|
    ensures Leads(s, acts, s') && forall a :: a in acts ==> Unlocking(a, l)
    ensures Inv(s') && WellIndexed(s') && GivingBack(s', l, |s.locks[l].chans|) && OthersSame(s, s', l)
    ensures s'.locks[l].chans == s.locks[l].chans
    decreases |s.locks[l].chans| - n
  {
    if n == |s.locks[l].chans| {
      acts, s' := [], s;
    } else {
      var s1 := GiveBackOne(s, l, n);
      var rest;
      rest, s' := GiveBackRest(s1, l, n + 1);
      LeadsJoin(s, [Release(l)], s1, rest, s');
      OthersSameTwice(s, s1, s', l);
      acts := [Release(l)] + rest;
    }
  }

  lemma StartGivingBack(s: State, l: LockId) returns (s': State)
    requires Inv(s) && WellIndexed(s) && s.cleaner.Off? && Enabled(s, StartUnlock(l))
    ensures Leads(s, [StartUnlock(l)], s') && Inv(s') && WellIndexed(s') && GivingBack(s', l, 0) && OthersSame(s, s', l)
  {
    s' := Apply(s, StartUnlock(l));
    StepWellIndexed(s, StartUnlock(l));
    LeadsOne(s, StartUnlock(l));
  }

  lemma EndGivingBack(s: State, l: LockId) returns (s': State)
    requires Inv(s) && WellIndexed(s) && l in s.locks && GivingBack(s, l, |s.locks[l].chans|)
    ensures Leads(s, [EndRelease(l)], s') && Inv(s') && WellIndexed(s') && OthersSame(s, s', l)
    ensures Enabled(s', StartClean(Some(l))) && s'.locks[l].Held() == []
  {
    s' := Apply(s, EndRelease(l));
    StepWellIndexed(s, EndRelease(l));
    LeadsOne(s, EndRelease(l));
  }

  lemma GiveBackAll(s: State, l: LockId) returns (acts: seq<Action>, s': State)
    requires Inv(s) && WellIndexed(s) && s.cleaner.Off? && Enabled(s, StartUnlock(l))
    ensures Leads(s, acts, s') && forall a :: a in acts ==> Unlocking(a, l)
    ensures Inv(s') && WellIndexed(s') && OthersSame(s, s', l) && GivingBack(s', l, |s'.locks[l].chans|)
  {
    var s1 := StartGivingBack(s, l);
    var gives;
    gives, s' := GiveBackRest(s1, l, 0);
    LeadsJoin(s, [StartUnlock(l)], s1, gives, s');
    OthersSameTwice(s, s1, s', l);
    acts := [StartUnlock(l)] + gives;
  }

  /** Up to Unlock's call of Clean. */
  lemma GivesBack(s: State, l: LockId) returns (acts: seq<Action>, s': State)
    requires Inv(s) && WellIndexed(s) && s.cleaner.Off? && Enabled(s, StartUnlock(l))
    ensures Leads(s, acts, s') && forall a :: a in acts ==> Unlocking(a, l)
    ensures Inv(s') && WellIndexed(s') && OthersSame(s, s', l) && Enabled(s', StartClean(Some(l)))
    ensures s'.locks[l].Held() == []
  {
    var gives, s1 := GiveBackAll(s, l);
    s' := EndGivingBack(s1, l);
    LeadsJoin(s, gives, s1, [EndRelease(l)], s');
    OthersSameTwice(s, s1, s', l);
    acts := gives + [EndRelease(l)];
  }

  lemma FinishUnlock(s: State, l: LockId) returns (s': State)
    requires WellIndexed(s) && Enabled(s, EndUnlock(l)) && s.cleaner.Off?
    ensures Leads(s, [EndUnlock(l)], s')
    ensures s'.cleaner.Off? && l in s'.locks && !s'.locks[l].lockBuf && s'.table == s.table
  {
    s' := Apply(s, EndUnlock(l));
    LeadsOne(s, EndUnlock(l));
  }

  /** From Unlock's call of Clean to its end. */
  lemma CleansUp(before: seq<Action>, s: State, l: LockId) returns (acts: seq<Action>, s': State)
    requires Reaches(before, s) && Enabled(s, StartClean(Some(l)))
    ensures Leads(s, acts, s') && forall a :: a in acts ==> Unlocking(a, l)
    ensures s'.cleaner.Off? && l in s'.locks && !s'.locks[l].lockBuf
    ensures forall k :: k in s'.table <==> k in s.table && InUse(s, k)
  {
    ReachableInv(before, s);
    var sweep, s1 := CleanCompletes(s, Some(l));
    CleanAlone(before, s, Some(l), sweep, s1);
    var clean := [StartClean(Some(l))] + (sweep + [EndClean]);
    DrainsAfter(s, l, sweep, s1);
    s' := FinishUnlock(s1, l);
    LeadsJoin(s, clean, s1, [EndUnlock(l)], s');
    acts := clean + [EndUnlock(l)];
  }

  /** An Unlock can run to its end by itself, with its lock idle, and the table then holds exactly the keys in use by
      other locks. */
  lemma UnlockAlone(before: seq<Action>, s: State, l: LockId) returns (acts: seq<Action>, s': State)
    requires Reaches(before, s) && s.cleaner.Off? && Enabled(s, StartUnlock(l))
    ensures Leads(s, acts, s') && forall a :: a in acts ==> Unlocking(a, l)
    ensures Reaches(before + acts, s') && s'.cleaner.Off? && Enabled(s', StartLock(l))
    ensures forall k :: k in s'.table <==> HeldElsewhere(s, l, k)
  {
    ReachableInv(before, s);
    var gives, s1 := GivesBack(s, l);
    LeadsJoin(INITIAL, before, s, gives, s1);
    assert Reaches(before + gives, s1);
    var cleans;
    cleans, s' := CleansUp(before + gives, s1, l);
    acts := gives + cleans;
    LeadsJoin(s, gives, s1, cleans, s');
    LeadsJoin(INITIAL, before, s, acts, s');
    assert Reaches(before + acts, s');
    forall k ensures k in s'.table <==> HeldElsewhere(s, l, k) {
      LeftIs(s, s1, l, k);
    }
  }

  lemma LeftIs(s: State, s1: State, l: LockId, k: string)
    requires WellIndexed(s) && Inv(s1) && WellIndexed(s1) && OthersSame(s, s1, l) && s1.locks[l].Held() == []
    ensures k in s1.table && InUse(s1, k) <==> HeldElsewhere(s, l, k)
  {
    SameElsewhere(s, s1, l, k);
    assert !HoldsKey(s1, l, k);
    if InUse(s1, k) {
      InUseIsOpen(s1, k);
    }
    if HeldElsewhere(s1, l, k) {
      var m :| m != l && HoldsKey(s1, m, k);
    }
  }

  lemma {:induction false} SweepKeepsCaller(s: State, acts: seq<Action>, s': State)
    requires Leads(s, acts, s') && (forall a :: a in acts ==> Sweeping(a)) && !s.cleaner.Off?
    ensures !s'.cleaner.Off? && s'.cleaner.caller == s.cleaner.caller && s'.locks == s.locks
    decreases |acts|
  {
    if acts != [] {
      assert Sweeping(acts[0]);
      SweepKeepsCaller(Apply(s, acts[0]), acts[1..], s');
    }
  }

  lemma DrainsAfter(s: State, l: LockId, sweep: seq<Action>, s': State)
    requires Inv(s) && WellIndexed(s) && Enabled(s, StartClean(Some(l))) && forall a :: a in sweep ==> Sweeping(a)
    requires Leads(s, [StartClean(Some(l))] + (sweep + [EndClean]), s')
    ensures WellIndexed(s') && Enabled(s', EndUnlock(l))
  {
    LeadsKeepsInv(s, [StartClean(Some(l))] + (sweep + [EndClean]), s');
    InvWellIndexed(s');
    var s1 := Apply(s, StartClean(Some(l)));
    assert ([StartClean(Some(l))] + (sweep + [EndClean]))[1..] == sweep + [EndClean];
    var s2 := LeadsSplit(s1, sweep, [EndClean], s');
    SweepKeepsCaller(s1, sweep, s2);
    assert [EndClean][1..] == [];
    assert s' == Apply(s2, EndClean);
    assert LockInv(s.chans, s.locks[l]);
  }

  /** From the start, a lock over any keys can be made, acquired and released by itself, and the table is empty
      again. */
  lemma LeavesNothing(l: LockId, keys: seq<string>) returns (acts: seq<Action>, s: State)
    requires Increasing(keys) && keys != []
    ensures Reaches(acts, s) && l in s.locks && s.locks[l].keys == keys && s.table == map[]
  {
    var s1 := Apply(INITIAL, New(l, keys));
    LeadsOne(INITIAL, New(l, keys));
    assert Reaches([New(l, keys)], s1);
    ReachableInv([New(l, keys)], s1);
    var takes, s2 := AcquiresFree(s1, l);
    LeadsJoin(INITIAL, [New(l, keys)], s1, takes, s2);
    LockingRun(s1, takes, s2, l);
    assert Reaches([New(l, keys)] + takes, s2);
    ReachableInv([New(l, keys)] + takes, s2);
    LockingKeepsOff(s1, takes, s2, l);
    var gives;
    gives, s := UnlockAlone([New(l, keys)] + takes, s2, l);
    acts := [New(l, keys)] + takes + gives;
    LeadsKeepsKeys(s2, gives, s, l);
    forall k ensures !HeldElsewhere(s2, l, k) {
    }
  }

  lemma {:induction false} LockingKeepsOff(s: State, acts: seq<Action>, s': State, l: LockId)
    requires Leads(s, acts, s') && s.cleaner.Off? && forall a :: a in acts ==> Locking(a, l)
    ensures s'.cleaner.Off?
    decreases |acts|
  {
    if acts != [] {
      LockingKeepsOthers(s, acts[0], l);
      LockingKeepsOff(Apply(s, acts[0]), acts[1..], s', l);
    }
  }

  /** A lock's keys never change. */
  lemma {:induction false} LeadsKeepsKeys(s: State, acts: seq<Action>, s': State, l: LockId)
    requires Leads(s, acts, s') && l in s.locks
    ensures l in s'.locks && s'.locks[l].keys == s.locks[l].keys
    decreases |acts|
  {
    if acts != [] {
      LeadsKeepsKeys(Apply(s, acts[0]), acts[1..], s', l);
    }
  }
}

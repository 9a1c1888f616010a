/** Waiting for blob sidecars: the notifier map of beacon-chain/blockchain/service.go, the writers of
    receive_blob.go and the waiting loop of areBlobsAvailable in process_block.go, as one transition
    system. An action is a storage access, one critical section of the notifier map's mutex, or one
    channel operation; the sends happen outside the mutex, as in the source.

    Both maps of the notifier are keyed by block root, and every operation touches the entries of one
    root only, so the whole state is one RootState per root (World) and a step is a step of one of
    them. */
module BlobNotifier {
  import opened Wrappers
  import opened SetFacts

  type Index = nat
  type ChanId = nat

  /** The goroutine in areBlobsAvailable. `kc` holds the lengths of the block's commitments. */
  datatype Waiter =
    | Idle
    | Summarized(kc: seq<nat>, missing: set<Index>)
    | Reading(kc: seq<nat>, missing: set<Index>, ch: ChanId)
    | Cleaning(kc: seq<nat>)
    | Available(kc: seq<nat>)
  {
    /** The indices it has yet to hear of. */
    function Awaited(): set<Index> { if Summarized? || Reading? then missing else {} }
  }

  /** `chans` are the buffers of all channels ever made for the root, `notifier` the one in the map.
      The goroutines in ReceiveBlob are counted by where they are: before the save, between the save
      and notifyIndex's lock, and before the send. One waiter at a time. */
  datatype RootState = RootState(stored: set<Index>, notifier: Option<ChanId>, seen: set<Index>,
                                 chans: seq<seq<Index>>, begun: multiset<Index>, saved: multiset<Index>,
                                 sending: multiset<(ChanId, Index)>, waiter: Waiter)

  const INITIAL := RootState({}, None, {}, [], multiset{}, multiset{}, multiset{}, Idle)

  datatype Action =
    | Receive(i: Index) | Save(i: Index) | SaveFails(i: Index) | Notify(i: Index) | Send(c: ChanId, i: Index)
    | Summarize(kc: seq<nat>) | ForRoot | Read | Delete | Cancel

  /** missingBlobIndices: the indices with a commitment that are not in storage. */
  function Missing(kc: seq<nat>, stored: set<Index>): set<Index> {
    set i: nat | i < |kc| && kc[i] > 0 && i !in stored
  }

  /** `max` is MaxBlobsPerBlock at the block's slot, the capacity of each channel. */
  predicate Enabled(s: RootState, max: nat, a: Action) {
    match a
    case Receive(_) => true
    case Save(i) => i in s.begun
    case SaveFails(i) => i in s.begun
    case Notify(i) => i in s.saved
    case Send(c, i) => (c, i) in s.sending && c < |s.chans| && |s.chans[c]| < max
    case Summarize(kc) => (s.waiter.Idle? || s.waiter.Available?) && 0 < |kc| <= max
    case ForRoot => s.waiter.Summarized?
    case Read => s.waiter.Reading? && s.waiter.ch < |s.chans| && s.chans[s.waiter.ch] != []
    case Delete => s.waiter.Cleaning?
    case Cancel => s.waiter.Reading?
  }

  function Apply(s: RootState, max: nat, a: Action): RootState
    requires Enabled(s, max, a)
  {
    match a
    case Receive(i) => s.(begun := s.begun + multiset{i})
    case Save(i) => s.(begun := s.begun - multiset{i}, saved := s.saved + multiset{i}, stored := s.stored + {i})
    case SaveFails(i) => s.(begun := s.begun - multiset{i})
    case Notify(i) => ApplyNotify(s, max, i)
    case Send(c, i) => s.(sending := s.sending - multiset{(c, i)}, chans := s.chans[c := s.chans[c] + [i]])
    case Summarize(kc) =>
      var missing := Missing(kc, s.stored);
      s.(waiter := if missing == {} then Available(kc) else Summarized(kc, missing))
    case ForRoot =>
      var s' := WithChannel(s);
      s'.(waiter := Reading(s.waiter.kc, s.waiter.missing, s'.notifier.value))
    case Read => ApplyRead(s)
    case Delete => s.(seen := {}, notifier := None, waiter := Available(s.waiter.kc))
    case Cancel => s.(waiter := Idle)
  }

  /** The root's channel, made on demand. */
  function WithChannel(s: RootState): (s': RootState)
    ensures s'.notifier.Some?
  {
    if s.notifier.Some? then s else s.(notifier := Some(|s.chans|), chans := s.chans + [[]])
  }

  /** notifyIndex up to its unlock: an index out of bounds or already seen is dropped. */
  function ApplyNotify(s: RootState, max: nat, i: Index): RootState {
    var s0 := s.(saved := s.saved - multiset{i});
    if i >= max || i in s.seen then s0
    else
      var s1 := WithChannel(s0);
      s1.(seen := s.seen + {i}, sending := s.sending + multiset{(s1.notifier.value, i)})
  }

  /** One receive of the waiting loop. */
  function ApplyRead(s: RootState): RootState
    requires s.waiter.Reading? && s.waiter.ch < |s.chans| && s.chans[s.waiter.ch] != []
  {
    var wt, buffer := s.waiter, s.chans[s.waiter.ch];
    var missing := wt.missing - {buffer[0]};
    s.(chans := s.chans[wt.ch := buffer[1..]],
       waiter := if missing == {} then Cleaning(wt.kc) else wt.(missing := missing))
  }

  // ----- The invariant -----

  /** Index `i` is in the channel or on its way into it. */
  predicate Coming(s: RootState, c: ChanId, i: Index) {
    c < |s.chans| && (i in s.chans[c] || (c, i) in s.sending)
  }

  ghost predicate ShapeInv(s: RootState) {
    && (s.notifier.Some? ==> s.notifier.value < |s.chans|)
    && (forall c: ChanId, i: Index :: (c, i) in s.sending ==> c < |s.chans|)
    && (s.waiter.Reading? ==> s.notifier == Some(s.waiter.ch))
  }

  /** Everything announced is stored. */
  ghost predicate StoredInv(s: RootState, max: nat) {
    && s.seen <= s.stored
    && (forall c: ChanId, i: Index :: Coming(s, c, i) ==> i in s.stored && i < max)
    && (forall i: Index :: i in s.saved ==> i in s.stored)
  }

  /** A channel never gets the same index twice. */
  ghost predicate OnceInv(s: RootState) {
    && (forall c :: 0 <= c < |s.chans| ==> Distinct(s.chans[c]))
    && (forall c: ChanId, i: Index :: (c, i) in s.sending ==>
          s.sending[(c, i)] == 1 && (c < |s.chans| ==> i !in s.chans[c]))
    && (forall i: Index :: s.notifier.Some? && Coming(s, s.notifier.value, i) ==> i in s.seen)
  }

  /** What the waiter still misses is not stored, or its writer has yet to announce it, or it is coming. */
  ghost predicate WakeInv(s: RootState, max: nat) {
    forall i: Index :: i in s.waiter.Awaited() ==>
      && i < max
      && (i in s.seen ==> s.notifier.Some? && Coming(s, s.notifier.value, i))
      && (i in s.stored ==> i in s.seen || i in s.saved)
  }

  /** What the waiter no longer misses is stored, and it waits only while it misses something the block commits to. */
  ghost predicate SoundInv(s: RootState) {
    && (!s.waiter.Idle? ==> Missing(s.waiter.kc, s.stored) <= s.waiter.Awaited())
    && (forall i :: i in s.waiter.Awaited() ==> i < |s.waiter.kc| && s.waiter.kc[i] > 0)
    && (s.waiter.Summarized? || s.waiter.Reading? ==> s.waiter.missing != {})
  }

  ghost predicate Inv(s: RootState, max: nat) {
    ShapeInv(s) && StoredInv(s, max) && OnceInv(s) && WakeInv(s, max) && SoundInv(s)
  }

  lemma WriterKeepsInv(s: RootState, max: nat, a: Action)
    requires Inv(s, max) && Enabled(s, max, a) && (a.Receive? || a.Save? || a.SaveFails?)
    ensures Inv(Apply(s, max, a), max)
  {
    var s' := Apply(s, max, a);
    assert forall c: ChanId, i: Index :: Coming(s', c, i) <==> Coming(s, c, i);
  }

  /** A send turns an index in flight into one in the buffer. */
  lemma SendKeepsInv(s: RootState, max: nat, c: ChanId, i: Index)
    requires Inv(s, max) && Enabled(s, max, Send(c, i))
    ensures Inv(Apply(s, max, Send(c, i)), max)
  {
    var s' := Apply(s, max, Send(c, i));
    assert forall d: ChanId, j: Index :: Coming(s', d, j) <==> Coming(s, d, j);
  }

  /** The waiter takes a summary, gives up, or removes the root's entries after its last receive. */
  lemma WaiterKeepsInv(s: RootState, max: nat, a: Action)
    requires Inv(s, max) && Enabled(s, max, a) && (a.Summarize? || a.Cancel? || a.Delete?)
    ensures Inv(Apply(s, max, a), max)
  {
    var s' := Apply(s, max, a);
    assert forall c: ChanId, i: Index :: Coming(s', c, i) <==> Coming(s, c, i);
  }

  lemma ReadKeepsInv(s: RootState, max: nat)
    requires Inv(s, max) && Enabled(s, max, Read)
    ensures Inv(Apply(s, max, Read), max)
  {
    var s' := Apply(s, max, Read);
    var c := s.waiter.ch;
    assert s.chans[c] == [s.chans[c][0]] + s'.chans[c];
    assert forall d: ChanId, j: Index :: Coming(s', d, j) ==> Coming(s, d, j);
    assert forall j: Index :: j != s.chans[c][0] && Coming(s, c, j) ==> Coming(s', c, j);
  }

  lemma WithChannelKeepsInv(s: RootState, max: nat)
    requires Inv(s, max)
    ensures Inv(WithChannel(s), max)
  {
    var s' := WithChannel(s);
    assert forall d: ChanId, j: Index :: Coming(s', d, j) <==> Coming(s, d, j);
  }

  lemma ForRootKeepsInv(s: RootState, max: nat)
    requires Inv(s, max) && Enabled(s, max, ForRoot)
    ensures Inv(Apply(s, max, ForRoot), max)
  {
    WithChannelKeepsInv(s, max);
    var s1, s' := WithChannel(s), Apply(s, max, ForRoot);
    assert forall d: ChanId, j: Index :: Coming(s', d, j) <==> Coming(s1, d, j);
  }

  lemma DroppedKeepsInv(s: RootState, max: nat, i: Index)
    requires Inv(s, max) && i in s.saved && (i >= max || i in s.seen)
    ensures Inv(s.(saved := s.saved - multiset{i}), max)
  {
    var s' := s.(saved := s.saved - multiset{i});
    assert forall d: ChanId, j: Index :: Coming(s', d, j) <==> Coming(s, d, j);
  }

  lemma AnnouncedKeepsInv(s: RootState, max: nat, i: Index)
    requires Inv(s, max) && i in s.saved && i < max && i !in s.seen && s.notifier.Some?
    ensures Inv(s.(saved := s.saved - multiset{i}, seen := s.seen + {i},
                   sending := s.sending + multiset{(s.notifier.value, i)}), max)
  {
    var c := s.notifier.value;
    var s' := s.(saved := s.saved - multiset{i}, seen := s.seen + {i}, sending := s.sending + multiset{(c, i)});
    assert !Coming(s, c, i);
    assert forall d: ChanId, j: Index :: Coming(s', d, j) <==> Coming(s, d, j) || (d == c && j == i);
  }

  lemma NotifyKeepsInv(s: RootState, max: nat, i: Index)
    requires Inv(s, max) && Enabled(s, max, Notify(i))
    ensures Inv(Apply(s, max, Notify(i)), max)
  {
    if i >= max || i in s.seen {
      DroppedKeepsInv(s, max, i);
    } else {
      WithChannelKeepsInv(s, max);
      AnnouncedKeepsInv(WithChannel(s), max, i);
    }
  }

  lemma StepKeepsInv(s: RootState, max: nat, a: Action)
    requires Inv(s, max) && Enabled(s, max, a)
    ensures Inv(Apply(s, max, a), max)
  {
    match a
    case Notify(i) => NotifyKeepsInv(s, max, i);
    case Send(c, i) => SendKeepsInv(s, max, c, i);
    case ForRoot => ForRootKeepsInv(s, max);
    case Read => ReadKeepsInv(s, max);
    case Summarize(_) => WaiterKeepsInv(s, max, a);
    case Cancel => WaiterKeepsInv(s, max, a);
    case Delete => WaiterKeepsInv(s, max, a);
    case _ => WriterKeepsInv(s, max, a);
  }

  // ----- All roots, and runs -----

  type Root = nat

  /** One RootState per root that has been touched. */
  type World = map<Root, RootState>

  function At(w: World, r: Root): RootState { if r in w then w[r] else INITIAL }

  datatype Step = Step(root: Root, act: Action)

  /** `steps` leads from `w0` to `w`, each step being enabled when its turn comes; `max` gives the
      limit of each root's slot. */
  ghost predicate Leads(w0: World, max: Root -> nat, steps: seq<Step>, w: World)
    decreases |steps|
  {
    if steps == [] then w == w0
    else
      var Step(r, a) := steps[0];
      Enabled(At(w0, r), max(r), a) && Leads(w0[r := Apply(At(w0, r), max(r), a)], max, steps[1..], w)
  }

  ghost predicate AllInv(w: World, max: Root -> nat) {
    forall q :: Inv(At(w, q), max(q))
  }

  lemma WorldKeepsInv(w: World, max: Root -> nat, r: Root, s: RootState)
    requires AllInv(w, max) && Inv(s, max(r))
    ensures AllInv(w[r := s], max)
  {
    forall q ensures Inv(At(w[r := s], q), max(q)) {
      assert At(w[r := s], q) == if q == r then s else At(w, q);
    }
  }

  lemma {:induction false} LeadsKeepsInv(w0: World, max: Root -> nat, steps: seq<Step>, w: World)
    requires Leads(w0, max, steps, w) && AllInv(w0, max)
    ensures AllInv(w, max)
    decreases |steps|
  {
    if steps != [] {
      var Step(q, a) := steps[0];
      var s := Apply(At(w0, q), max(q), a);
      StepKeepsInv(At(w0, q), max(q), a);
      WorldKeepsInv(w0, max, q, s);
      LeadsKeepsInv(w0[q := s], max, steps[1..], w);
    }
  }

  ghost predicate Reaches(max: Root -> nat, steps: seq<Step>, w: World) { Leads(map[], max, steps, w) }

  lemma InitialInv(max: Root -> nat)
    ensures AllInv(map[], max)
  {
    forall q ensures Inv(At(map[], q), max(q)) {
      assert At(map[], q) == INITIAL;
    }
  }

  lemma ReachableInv(max: Root -> nat, steps: seq<Step>, w: World, r: Root)
    requires Reaches(max, steps, w)
    ensures Inv(At(w, r), max(r))
  {
    InitialInv(max);
    LeadsKeepsInv(map[], max, steps, w);
    assert AllInv(w, max);
  }

  // ----- The theorems -----

  /** No send of notifyIndex ever blocks. */
  lemma SendNeverBlocks(max: Root -> nat, steps: seq<Step>, w: World, r: Root, c: ChanId, i: Index)
    requires Reaches(max, steps, w) && (c, i) in At(w, r).sending
    ensures Enabled(At(w, r), max(r), Send(c, i))
  {
    ReachableInv(max, steps, w, r);
    var s := At(w, r);
    assert Coming(s, c, i);
    assert forall x :: x in s.chans[c] ==> Coming(s, c, x);
    RoomLeft(s.chans[c], max(r), i);
  }

  /** A nil result is sound: every blob the block commits to is in storage. */
  lemma AvailableIsStored(max: Root -> nat, steps: seq<Step>, w: World, r: Root)
    requires Reaches(max, steps, w) && At(w, r).waiter.Available?
    ensures forall i :: 0 <= i < |At(w, r).waiter.kc| && At(w, r).waiter.kc[i] > 0 ==> i in At(w, r).stored
  {
    ReachableInv(max, steps, w, r);
    var s := At(w, r);
    assert forall i: Index :: i in Missing(s.waiter.kc, s.stored) <==>
                                i < |s.waiter.kc| && s.waiter.kc[i] > 0 && i !in s.stored;
  }

  /** No wake-up is lost: an index the waiter misses that is stored, and whose writers are through, is
      in the channel it reads; whatever happened between its summary and forRoot, and whatever an
      earlier waiter that timed out left behind. */
  lemma NoLostWakeup(max: Root -> nat, steps: seq<Step>, w: World, r: Root, i: Index)
    requires Reaches(max, steps, w) && At(w, r).waiter.Reading? && i in At(w, r).waiter.missing
    requires i in At(w, r).stored && i !in At(w, r).saved && (At(w, r).waiter.ch, i) !in At(w, r).sending
    ensures At(w, r).waiter.ch < |At(w, r).chans| && i in At(w, r).chans[At(w, r).waiter.ch]
  {
    ReachableInv(max, steps, w, r);
  }

  /** So a waiter that finds its channel empty is right to wait: one of its indices is not stored, or
      a writer for it is still on its way. */
  lemma EmptyChannelMeansUnfinished(max: Root -> nat, steps: seq<Step>, w: World, r: Root)
    requires Reaches(max, steps, w) && At(w, r).waiter.Reading? && !Enabled(At(w, r), max(r), Read)
    ensures exists i: Index :: i in At(w, r).waiter.missing &&
              (i !in At(w, r).stored || i in At(w, r).saved || (At(w, r).waiter.ch, i) in At(w, r).sending)
  {
    ReachableInv(max, steps, w, r);
    var s := At(w, r);
    var i :| i in s.waiter.missing;
    if i in s.stored && i !in s.saved && (s.waiter.ch, i) !in s.sending {
      NoLostWakeup(max, steps, w, r, i);
    }
  }

  /** A run of one root's actions. */
  ghost predicate Runs(s: RootState, max: nat, acts: seq<Action>, s': RootState)
    decreases |acts|
  {
    if acts == [] then s' == s else Enabled(s, max, acts[0]) && Runs(Apply(s, max, acts[0]), max, acts[1..], s')
  }

  function StepsOf(r: Root, acts: seq<Action>): (steps: seq<Step>)
    ensures |steps| == |acts| && forall k :: 0 <= k < |acts| ==> steps[k] == Step(r, acts[k])
  {
    if acts == [] then [] else [Step(r, acts[0])] + StepsOf(r, acts[1..])
  }

  lemma LeadsCons(w: World, max: Root -> nat, r: Root, a: Action, rest: seq<Step>, w': World)
    requires Enabled(At(w, r), max(r), a) && Leads(w[r := Apply(At(w, r), max(r), a)], max, rest, w')
    ensures Leads(w, max, [Step(r, a)] + rest, w')
  {
    assert ([Step(r, a)] + rest)[0] == Step(r, a) && ([Step(r, a)] + rest)[1..] == rest;
  }

  lemma UpdateTwice(w: World, r: Root, s1: RootState, s: RootState)
    ensures w[r := s1][r := s] == w[r := s] && At(w[r := s1], r) == s1
  {
  }

  lemma {:induction false} RunsLeads(w: World, max: Root -> nat, r: Root, s0: RootState, acts: seq<Action>,
                                    s: RootState, w': World)
    requires (r in w || acts != []) && s0 == At(w, r) && Runs(s0, max(r), acts, s) && w' == w[r := s]
    ensures Leads(w, max, StepsOf(r, acts), w')
    decreases |acts|
  {
    if acts == [] {
      assert w' == w;
    } else {
      var s1 := Apply(s0, max(r), acts[0]);
      UpdateTwice(w, r, s1, s);
      RunsLeads(w[r := s1], max, r, s1, acts[1..], s, w');
      LeadsCons(w, max, r, acts[0], StepsOf(r, acts[1..]), w');
    }
  }

  lemma {:induction false} RunsJoin(s0: RootState, max: nat, a: seq<Action>, s1: RootState, b: seq<Action>,
                                   s2: RootState)
    requires Runs(s0, max, a, s1) && Runs(s1, max, b, s2)
    ensures Runs(s0, max, a + b, s2)
    decreases |a|
  {
    if a == [] {
      assert a + b == b;
    } else {
      RunsJoin(Apply(s0, max, a[0]), max, a[1..], s1, b, s2);
      assert (a + b)[1..] == a[1..] + b;
    }
  }

  lemma OneRun(s: RootState, max: nat, a: Action)
    requires Enabled(s, max, a)
    ensures Runs(s, max, [a], Apply(s, max, a))
  {
    assert Runs(Apply(s, max, a), max, [a][1..], Apply(s, max, a));
  }

  lemma {:induction false} Drain(s: RootState, max: nat) returns (acts: seq<Action>, s': RootState)
    requires s.waiter.Reading? && s.waiter.ch < |s.chans| && s.waiter.missing != {}
    requires forall i :: i in s.waiter.missing ==> i in s.chans[s.waiter.ch]
    ensures Runs(s, max, acts, s') && s'.waiter == Cleaning(s.waiter.kc)
    ensures |acts| <= |s.chans[s.waiter.ch]| && forall k :: 0 <= k < |acts| ==> acts[k] == Read
    decreases |s.chans[s.waiter.ch]|
  {
    var i :| i in s.waiter.missing;
    var buffer := s.chans[s.waiter.ch];
    assert i in buffer && buffer == [buffer[0]] + buffer[1..];
    acts, s' := [Read], Apply(s, max, Read);
    OneRun(s, max, Read);
    if !s'.waiter.Cleaning? {
      var s1, rest := s', [];
      rest, s' := Drain(s1, max);
      RunsJoin(s, max, [Read], s1, rest, s');
      acts := [Read] + rest;
    }
  }

  /** Once the channel holds everything the waiter misses, draining it ends the wait. */
  lemma WaiterFinishes(max: Root -> nat, w: World, r: Root) returns (steps: seq<Step>, w': World)
    requires At(w, r).waiter.Reading? && At(w, r).waiter.ch < |At(w, r).chans|
    requires At(w, r).waiter.missing != {}
    requires forall i :: i in At(w, r).waiter.missing ==> i in At(w, r).chans[At(w, r).waiter.ch]
    ensures Leads(w, max, steps, w') && At(w', r).waiter.Cleaning?
    ensures |steps| <= |At(w, r).chans[At(w, r).waiter.ch]|
    ensures forall k :: 0 <= k < |steps| ==> steps[k] == Step(r, Read)
  {
    var acts, s := Drain(w[r], max(r));
    RunsLeads(w, max, r, w[r], acts, s, w[r := s]);
    steps, w' := StepsOf(r, acts), w[r := s];
  }

  // ----- A wait that ends -----

  /** A summary ends the wait at once exactly if every index with a commitment is stored. */
  lemma AvailableAtOnceIff(s: RootState, max: nat, kc: seq<nat>)
    requires Enabled(s, max, Summarize(kc))
    ensures Apply(s, max, Summarize(kc)).waiter.Available?
       <==> forall i :: 0 <= i < |kc| && kc[i] > 0 ==> i in s.stored
  {
    assert forall i: Index :: i in Missing(kc, s.stored) <==> i < |kc| && kc[i] > 0 && i !in s.stored;
  }

  /** What a writer's run leaves a reading waiter: the same wait, and nothing gone from its channel. */
  ghost predicate WaitsOn(s: RootState, s': RootState) {
    && s.waiter.Reading? && s'.waiter == s.waiter && s.waiter.ch < |s.chans| <= |s'.chans|
    && forall i :: i in s.chans[s.waiter.ch] ==> i in s'.chans[s.waiter.ch]
  }

  /** A writer for an index the waiter misses, up to notifyIndex's unlock: the index is coming. */
  lemma Announce(s: RootState, max: nat, i: Index) returns (acts: seq<Action>, s': RootState)
    requires Inv(s, max) && s.waiter.Reading? && i in s.waiter.missing
    ensures Runs(s, max, acts, s') && Inv(s', max) && WaitsOn(s, s') && Coming(s', s.waiter.ch, i)
  {
    var s1 := Apply(s, max, Receive(i));
    StepKeepsInv(s, max, Receive(i));
    var s2 := Apply(s1, max, Save(i));
    StepKeepsInv(s1, max, Save(i));
    s' := Apply(s2, max, Notify(i));
    StepKeepsInv(s2, max, Notify(i));
    OneRun(s, max, Receive(i));
    OneRun(s1, max, Save(i));
    OneRun(s2, max, Notify(i));
    RunsJoin(s1, max, [Save(i)], s2, [Notify(i)], s');
    RunsJoin(s, max, [Receive(i)], s1, [Save(i)] + [Notify(i)], s');
    acts := [Receive(i)] + ([Save(i)] + [Notify(i)]);
  }

  lemma SendIsEnabled(s: RootState, max: nat, c: ChanId, i: Index)
    requires Inv(s, max) && (c, i) in s.sending
    ensures Enabled(s, max, Send(c, i))
  {
    assert Coming(s, c, i);
    assert forall x :: x in s.chans[c] ==> Coming(s, c, x);
    RoomLeft(s.chans[c], max, i);
  }

  lemma Deliver(s: RootState, max: nat, i: Index) returns (acts: seq<Action>, s': RootState)
    requires Inv(s, max) && s.waiter.Reading? && i in s.waiter.missing
    ensures Runs(s, max, acts, s') && Inv(s', max) && WaitsOn(s, s') && i in s'.chans[s.waiter.ch]
  {
    var c := s.waiter.ch;
    acts, s' := Announce(s, max, i);
    if i !in s'.chans[c] {
      var s1, first := s', acts;
      SendIsEnabled(s1, max, c, i);
      s' := Apply(s1, max, Send(c, i));
      StepKeepsInv(s1, max, Send(c, i));
      OneRun(s1, max, Send(c, i));
      RunsJoin(s, max, first, s1, [Send(c, i)], s');
      acts := first + [Send(c, i)];
    }
  }

  lemma {:induction false} DeliverAll(s: RootState, max: nat, rest: set<Index>)
    returns (acts: seq<Action>, s': RootState)
    requires Inv(s, max) && s.waiter.Reading? && rest <= s.waiter.missing
    ensures Runs(s, max, acts, s') && Inv(s', max) && WaitsOn(s, s')
    ensures forall i :: i in rest ==> i in s'.chans[s.waiter.ch]
    decreases rest
  {
    acts, s' := [], s;
    if rest != {} {
      var i :| i in rest;
      var first, s1 := Deliver(s, max, i);
      var others;
      others, s' := DeliverAll(s1, max, rest - {i});
      RunsJoin(s, max, first, s1, others, s');
      acts := first + others;
    }
  }

  lemma DrainAndDelete(s: RootState, max: nat) returns (acts: seq<Action>, s': RootState)
    requires s.waiter.Reading? && s.waiter.ch < |s.chans| && s.waiter.missing != {}
    requires forall i :: i in s.waiter.missing ==> i in s.chans[s.waiter.ch]
    ensures Runs(s, max, acts, s') && s'.waiter == Available(s.waiter.kc) && s'.notifier.None? && s'.seen == {}
  {
    var drain, s1 := Drain(s, max);
    s' := Apply(s1, max, Delete);
    OneRun(s1, max, Delete);
    RunsJoin(s, max, drain, s1, [Delete], s');
    acts := drain + [Delete];
  }

  lemma DeliverAndDrain(s: RootState, max: nat) returns (acts: seq<Action>, s': RootState)
    requires Inv(s, max) && s.waiter.Reading?
    ensures Runs(s, max, acts, s') && s'.waiter == Available(s.waiter.kc) && s'.notifier.None? && s'.seen == {}
  {
    var first, s1 := DeliverAll(s, max, s.waiter.missing);
    var rest;
    rest, s' := DrainAndDelete(s1, max);
    RunsJoin(s, max, first, s1, rest, s');
    acts := first + rest;
  }

  /** From any reachable state in which a waiter reads, whatever writers are under way: if its blobs arrive, the wait
      can end, and leaves no channel and no seen index behind. */
  lemma WaitCanEnd(max: Root -> nat, before: seq<Step>, w: World, r: Root) returns (steps: seq<Step>, w': World)
    requires Reaches(max, before, w) && At(w, r).waiter.Reading?
    ensures Leads(w, max, steps, w') && forall k :: 0 <= k < |steps| ==> steps[k].root == r
    ensures At(w', r).waiter.Available? && At(w', r).notifier.None? && At(w', r).seen == {}
  {
    ReachableInv(max, before, w, r);
    var acts, s := DeliverAndDrain(w[r], max(r));
    RunsLeads(w, max, r, w[r], acts, s, w[r := s]);
    steps, w' := StepsOf(r, acts), w[r := s];
  }

  lemma SummarizeAndWait(s: RootState, max: nat, kc: seq<nat>) returns (acts: seq<Action>, s': RootState)
    requires Inv(s, max) && Enabled(s, max, Summarize(kc))
    ensures acts != [] && Runs(s, max, acts, s') && s'.waiter == Available(kc)
  {
    acts, s' := [Summarize(kc)], Apply(s, max, Summarize(kc));
    OneRun(s, max, Summarize(kc));
    if !s'.waiter.Available? {
      var s1 := s';
      StepKeepsInv(s, max, Summarize(kc));
      var s2 := Apply(s1, max, ForRoot);
      StepKeepsInv(s1, max, ForRoot);
      OneRun(s1, max, ForRoot);
      var rest;
      rest, s' := DeliverAndDrain(s2, max);
      RunsJoin(s1, max, [ForRoot], s2, rest, s');
      RunsJoin(s, max, [Summarize(kc)], s1, [ForRoot] + rest, s');
      acts := [Summarize(kc)] + ([ForRoot] + rest);
    }
  }

  lemma CancelAndWait(s: RootState, max: nat, kc: seq<nat>) returns (acts: seq<Action>, s': RootState)
    requires Inv(s, max) && s.waiter.Reading? && 0 < |kc| <= max
    ensures acts != [] && Runs(s, max, acts, s') && s'.waiter == Available(kc)
  {
    var s1 := Apply(s, max, Cancel);
    StepKeepsInv(s, max, Cancel);
    OneRun(s, max, Cancel);
    var rest;
    rest, s' := SummarizeAndWait(s1, max, kc);
    RunsJoin(s, max, [Cancel], s1, rest, s');
    acts := [Cancel] + rest;
  }

  /** A call for any commitments can be made and can succeed in every reachable state in which no earlier one is about
      to ask for its channel or to clean up: also after one that is given up while it reads. */
  lemma CallCanSucceed(max: Root -> nat, before: seq<Step>, w: World, r: Root, kc: seq<nat>)
    returns (steps: seq<Step>, w': World)
    requires Reaches(max, before, w) && 0 < |kc| <= max(r)
    requires !At(w, r).waiter.Summarized? && !At(w, r).waiter.Cleaning?
    ensures Leads(w, max, steps, w') && At(w', r).waiter == Available(kc)
  {
    ReachableInv(max, before, w, r);
    var s, acts, s' := At(w, r), [], At(w, r);
    if s.waiter.Reading? {
      acts, s' := CancelAndWait(s, max(r), kc);
    } else {
      acts, s' := SummarizeAndWait(s, max(r), kc);
    }
    RunsLeads(w, max, r, s, acts, s', w[r := s']);
    steps, w' := StepsOf(r, acts), w[r := s'];
  }

  /** Once every index the block commits to is stored and its writers are through, reading alone ends the wait. */
  lemma StoredEndsWait(max: Root -> nat, before: seq<Step>, w: World, r: Root) returns (steps: seq<Step>, w': World)
    requires Reaches(max, before, w) && At(w, r).waiter.Reading?
    requires var s := At(w, r);
             forall i :: 0 <= i < |s.waiter.kc| && s.waiter.kc[i] > 0 ==>
               i in s.stored && i !in s.saved && (s.waiter.ch, i) !in s.sending
    ensures Leads(w, max, steps, w') && At(w', r).waiter.Cleaning?
    ensures forall k :: 0 <= k < |steps| ==> steps[k] == Step(r, Read)
  {
    ReachableInv(max, before, w, r);
    forall i | i in At(w, r).waiter.missing ensures i in At(w, r).chans[At(w, r).waiter.ch] {
      NoLostWakeup(max, before, w, r, i);
    }
    steps, w' := WaiterFinishes(max, w, r);
  }

  /** Only a wait that ends takes a root's channel away; one that is given up leaves it, and what was seen. */
  lemma ChannelStays(s: RootState, max: nat, a: Action)
    requires Enabled(s, max, a) && a != Delete && s.notifier.Some?
    ensures var s' := Apply(s, max, a); s'.notifier == s.notifier && s.seen <= s'.seen && s.stored <= s'.stored
  {
  }

  // ----- Writers are accounted for -----

  function Times(steps: seq<Step>, step: Step): nat {
    if steps == [] then 0 else (if steps[0] == step then 1 else 0) + Times(steps[1..], step)
  }

  /** By how much one step changes the counts of an index. */
  function BegunBy(a: Action, i: Index): int {
    if a == Receive(i) then 1 else if a == Save(i) || a == SaveFails(i) then -1 else 0
  }

  function SavedBy(a: Action, i: Index): int {
    if a == Save(i) then 1 else if a == Notify(i) then -1 else 0
  }

  lemma PlusOne(m: multiset<Index>, j: Index, i: Index)
    ensures (m + multiset{j})[i] == m[i] + if i == j then 1 else 0
  {
  }

  lemma MinusOne(m: multiset<Index>, j: Index, i: Index)
    requires j in m
    ensures (m - multiset{j})[i] == m[i] - if i == j then 1 else 0
  {
  }

  function BegunNext(a: Action, m: multiset<Index>): multiset<Index> {
    if a.Receive? then m + multiset{a.i} else if a.Save? || a.SaveFails? then m - multiset{a.i} else m
  }

  function SavedNext(a: Action, m: multiset<Index>): multiset<Index> {
    if a.Save? then m + multiset{a.i} else if a.Notify? then m - multiset{a.i} else m
  }

  lemma BegunIs(s: RootState, max: nat, a: Action, begun: multiset<Index>)
    requires Enabled(s, max, a) && begun == Apply(s, max, a).begun
    ensures begun == BegunNext(a, s.begun)
  {
  }

  lemma SavedIs(s: RootState, max: nat, a: Action, saved: multiset<Index>)
    requires Enabled(s, max, a) && saved == Apply(s, max, a).saved
    ensures saved == SavedNext(a, s.saved)
  {
  }

  lemma AtUpdated(w: World, q: Root, s: RootState, r: Root)
    ensures At(w[q := s], r) == if q == r then s else At(w, r)
  {
  }

  lemma BegunNextBy(a: Action, m: multiset<Index>, i: Index)
    requires a.Save? || a.SaveFails? ==> a.i in m
    ensures BegunNext(a, m)[i] == m[i] + BegunBy(a, i)
  {
    if a.Receive? {
      PlusOne(m, a.i, i);
    } else if a.Save? || a.SaveFails? {
      MinusOne(m, a.i, i);
    }
  }

  lemma SavedNextBy(a: Action, m: multiset<Index>, i: Index)
    requires a.Notify? ==> a.i in m
    ensures SavedNext(a, m)[i] == m[i] + SavedBy(a, i)
  {
    if a.Save? {
      PlusOne(m, a.i, i);
    } else if a.Notify? {
      MinusOne(m, a.i, i);
    }
  }

  lemma Counted(s: RootState, max: nat, a: Action, i: Index, s': RootState)
    requires Enabled(s, max, a) && s' == Apply(s, max, a)
    ensures s'.begun[i] == s.begun[i] + BegunBy(a, i) && s'.saved[i] == s.saved[i] + SavedBy(a, i)
  {
    BegunIs(s, max, a, s'.begun);
    SavedIs(s, max, a, s'.saved);
    BegunNextBy(a, s.begun, i);
    SavedNextBy(a, s.saved, i);
  }

  /** The changes that a run makes to the counts of one root and index. */
  function BegunByAll(steps: seq<Step>, r: Root, i: Index): int {
    if steps == [] then 0
    else (if steps[0].root == r then BegunBy(steps[0].act, i) else 0) + BegunByAll(steps[1..], r, i)
  }

  function SavedByAll(steps: seq<Step>, r: Root, i: Index): int {
    if steps == [] then 0
    else (if steps[0].root == r then SavedBy(steps[0].act, i) else 0) + SavedByAll(steps[1..], r, i)
  }

  lemma {:induction false} RunCounted(w0: World, max: Root -> nat, steps: seq<Step>, w: World, r: Root, i: Index)
    requires Leads(w0, max, steps, w)
    ensures At(w, r).begun[i] == At(w0, r).begun[i] + BegunByAll(steps, r, i)
    ensures At(w, r).saved[i] == At(w0, r).saved[i] + SavedByAll(steps, r, i)
    decreases |steps|
  {
    if steps != [] {
      var Step(q, a) := steps[0];
      var s := Apply(At(w0, q), max(q), a);
      Counted(At(w0, q), max(q), a, i, s);
      AtUpdated(w0, q, s, r);
      RunCounted(w0[q := s], max, steps[1..], w, r, i);
    }
  }

  lemma {:induction false} ChangesAre(steps: seq<Step>, r: Root, i: Index)
    ensures BegunByAll(steps, r, i) == Times(steps, Step(r, Receive(i))) - Times(steps, Step(r, Save(i)))
                                       - Times(steps, Step(r, SaveFails(i)))
    ensures SavedByAll(steps, r, i) == Times(steps, Step(r, Save(i))) - Times(steps, Step(r, Notify(i)))
  {
    if steps != [] {
      ChangesAre(steps[1..], r, i);
    }
  }

  /** Over any run, every write that began was saved, or failed, or has yet to be, and each can still go either way; and
      every save was announced or has yet to be. */
  lemma WritersConserved(max: Root -> nat, steps: seq<Step>, w: World, r: Root, i: Index)
    requires Reaches(max, steps, w)
    ensures Times(steps, Step(r, Receive(i)))
         == Times(steps, Step(r, Save(i))) + Times(steps, Step(r, SaveFails(i))) + At(w, r).begun[i]
    ensures Times(steps, Step(r, Save(i))) == Times(steps, Step(r, Notify(i))) + At(w, r).saved[i]
    ensures At(w, r).begun[i] > 0 ==> Enabled(At(w, r), max(r), Save(i)) && Enabled(At(w, r), max(r), SaveFails(i))
  {
    RunCounted(map[], max, steps, w, r, i);
    ChangesAre(steps, r, i);
  }
}

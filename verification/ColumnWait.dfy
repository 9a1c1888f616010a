/** Waiting for data columns: areDataColumnsAvailable in beacon-chain/blockchain/process_block.go, one
    call for one block root inside the data-availability window, against writers that save columns and
    then announce them on the storage's feed. Saves may fall between any two actions of the reader. */
module ColumnWait {
  import opened SetFacts

  type Index = nat

  /** fieldparams.NumberOfColumns, and the count from which the rest can be reconstructed. */
  const COLUMNS: nat := 128
  const ENOUGH: nat := (COLUMNS + 1) / 2

  /** A feed event; `ours` says whether it is about the root the reader waits for. */
  datatype Ident = Ident(ours: bool, indices: seq<Index>)

  // ----- The loop over one event's indices -----

  datatype Progress = Progress(count: nat, missing: set<Index>, done: bool)

  function Hear(count: nat, missing: set<Index>, indices: seq<Index>): Progress
    decreases |indices|
  {
    if indices == [] then Progress(count, missing, false)
    else
      var count1 := if indices[0] in missing then count + 1 else count;
      if count1 >= ENOUGH then Progress(count1, missing, true)
      else
        var missing1 := missing - {indices[0]};
        if missing1 == {} then Progress(count1, missing1, true) else Hear(count1, missing1, indices[1..])
  }

  method HearInPlace(count: nat, missing: set<Index>, indices: seq<Index>)
    returns (newCount: nat, left: set<Index>, done: bool)
    ensures Progress(newCount, left, done) == Hear(count, missing, indices)
  {
    newCount, left := count, missing;
    for k := 0 to |indices|
      invariant Hear(newCount, left, indices[k..]) == Hear(count, missing, indices)
    {
      assert indices[k..][0] == indices[k] && indices[k..][1..] == indices[k + 1..];
      if indices[k] in left {
        newCount := newCount + 1;
      }
      if newCount >= ENOUGH {
        return newCount, left, true;
      }
      left := left - {indices[k]};
      if left == {} {
        return newCount, left, true;
      }
    }
    done := false;
  }

  /** Heard-of indices leave the missing set, and only they do. */
  lemma {:induction false} HearRemoves(count: nat, missing: set<Index>, indices: seq<Index>)
    ensures var p := Hear(count, missing, indices); p.missing <= missing && missing - p.missing <= Elements(indices)
    decreases |indices|
  {
    if indices != [] {
      assert indices == [indices[0]] + indices[1..];
      var count1 := if indices[0] in missing then count + 1 else count;
      HearRemoves(count1, missing - {indices[0]}, indices[1..]);
    }
  }

  /** An unfinished pass has heard every index. */
  lemma {:induction false} HearAll(count: nat, missing: set<Index>, indices: seq<Index>)
    requires !Hear(count, missing, indices).done
    ensures Hear(count, missing, indices).missing == missing - Elements(indices)
    decreases |indices|
  {
    if indices != [] {
      ElementsHead(indices);
      HearAll(if indices[0] in missing then count + 1 else count, missing - {indices[0]}, indices[1..]);
    }
  }

  /** Each missing index is counted once, when it is first heard of. An unfinished pass still misses
      something and is below the threshold. */
  lemma {:induction false} HearUnfinished(count: nat, missing: set<Index>, indices: seq<Index>)
    requires missing != {} && count < ENOUGH && !Hear(count, missing, indices).done
    ensures var p := Hear(count, missing, indices);
            p.count == count + |missing - p.missing| && p.count < ENOUGH && p.missing != {}
    decreases |indices|
  {
    if indices != [] {
      var x := indices[0];
      var count1, missing1 := if x in missing then count + 1 else count, missing - {x};
      HearUnfinished(count1, missing1, indices[1..]);
      HearRemoves(count1, missing1, indices[1..]);
      OneMore(missing, x, Hear(count, missing, indices).missing);
    } else {
      assert missing - missing == {};
    }
  }

  lemma OneMore(missing: set<Index>, x: Index, left: set<Index>)
    requires left <= missing - {x}
    ensures |missing - left| == |missing - {x} - left| + if x in missing then 1 else 0
  {
    DifferenceSize(missing, missing - {x}, left);
    assert missing - (missing - {x}) == missing * {x};
    assert missing * {x} == if x in missing then {x} else {};
  }

  /** A finished pass misses nothing, or has reached the threshold with an index it had not heard of. */
  lemma {:induction false} HearFinished(count: nat, missing: set<Index>, indices: seq<Index>) returns (last: Index)
    requires missing != {} && count < ENOUGH && Hear(count, missing, indices).done
    ensures var p := Hear(count, missing, indices);
            p.missing == {} ||
            (last in indices && last in p.missing && count + |missing - p.missing| + 1 == ENOUGH)
    decreases |indices|
  {
    var x := indices[0];
    assert indices == [x] + indices[1..];
    var count1, missing1 := if x in missing then count + 1 else count, missing - {x};
    last := x;
    if count1 >= ENOUGH {
      assert missing - missing == {};
    } else if missing1 != {} {
      last := HearFinished(count1, missing1, indices[1..]);
      var p := Hear(count, missing, indices);
      HearRemoves(count1, missing1, indices[1..]);
      OneMore(missing, x, p.missing);
    }
  }

  // ----- Reader and writers -----

  /** `first` and `second` are what the store held at the two summaries. */
  datatype Reader =
    | Start
    | Subscribed
    | Counted(first: set<Index>)
    | Waiting(count: nat, missing: set<Index>, first: set<Index>, second: set<Index>)
    | Returned(first: set<Index>, second: set<Index>)
    | Failed

  /** `pending` are the events of saves whose send is still to come, `chan` the reader's channel. */
  datatype State = State(stored: set<Index>, pending: multiset<Ident>, chan: seq<Ident>, reader: Reader)

  datatype Action = Save(id: Ident) | Send(id: Ident) | Subscribe | Count | Summarize | Read | Cancel

  predicate Listening(r: Reader) { r.Subscribed? || r.Counted? || r.Waiting? }

  /** The feed sends to the reader's one-slot channel while the reader is subscribed. */
  predicate Enabled(s: State, a: Action) {
    match a
    case Save(_) => true
    case Send(id) => id in s.pending && (Listening(s.reader) ==> |s.chan| < 1)
    case Subscribe => s.reader.Start?
    case Count => s.reader.Subscribed?
    case Summarize => s.reader.Counted?
    case Read => s.reader.Waiting? && s.chan != []
    case Cancel => s.reader.Waiting?
  }

  function Apply(s: State, custody: set<Index>, a: Action): State
    requires Enabled(s, a)
  {
    match a
    case Save(id) =>
      s.(stored := if id.ours then s.stored + Elements(id.indices) else s.stored, pending := s.pending + multiset{id})
    case Send(id) =>
      s.(pending := s.pending - multiset{id}, chan := if Listening(s.reader) then s.chan + [id] else s.chan)
    case Subscribe => s.(reader := Subscribed, chan := [])
    case Count =>
      s.(reader := if |s.stored| >= ENOUGH then Returned(s.stored, s.stored) else Counted(s.stored))
    case Summarize =>
      var missing := custody - s.stored;
      s.(reader := if |custody| > COLUMNS then Failed
                   else if missing == {} then Returned(s.reader.first, s.stored)
                   else Waiting(|s.reader.first|, missing, s.reader.first, s.stored))
    case Read => s.(chan := s.chan[1..], reader := AfterRead(s.reader, s.chan[0]))
    case Cancel => s.(reader := Failed)
  }

  function AfterRead(r: Reader, id: Ident): Reader
    requires r.Waiting?
  {
    if !id.ours then r
    else
      var p := Hear(r.count, r.missing, id.indices);
      if p.done then Returned(r.first, r.second) else Waiting(p.count, p.missing, r.first, r.second)
  }

  // ----- The invariant -----

  /** An event for `i` is waiting to be sent or to be read. */
  ghost predicate Announced(s: State, i: Index) {
    exists id: Ident :: (id in s.pending || id in s.chan) && id.ours && i in id.indices
  }

  /** The test the reader really applies: all custody columns, or half of all columns reached by those of the
      first summary and the custody columns that came after the second. */
  ghost predicate Enough(stored: set<Index>, custody: set<Index>, first: set<Index>, second: set<Index>) {
    custody <= stored || 2 * (|first| + |(custody - second) * stored|) >= COLUMNS
  }

  ghost predicate EventsInv(s: State) {
    forall id: Ident :: (id in s.pending || id in s.chan) && id.ours ==> Elements(id.indices) <= s.stored
  }

  ghost predicate WaitInv(stored: set<Index>, custody: set<Index>, r: Reader) {
    match r
    case Counted(first) => first <= stored && |first| < ENOUGH
    case Waiting(count, missing, first, second) =>
      && first <= second <= stored && missing != {} && missing <= custody - second
      && custody - second - missing <= stored
      && count == |first| + |custody - second - missing| && count < ENOUGH
    case Returned(first, second) => first <= second <= stored && Enough(stored, custody, first, second)
    case _ => true
  }

  /** A missing column that is stored has an event on its way. */
  ghost predicate WakeInv(s: State) {
    s.reader.Waiting? ==> forall i :: i in s.reader.missing && i in s.stored ==> Announced(s, i)
  }

  ghost predicate Inv(s: State, custody: set<Index>) {
    EventsInv(s) && WaitInv(s.stored, custody, s.reader) && WakeInv(s)
  }

  lemma EnoughGrows(stored: set<Index>, more: set<Index>, custody: set<Index>, first: set<Index>, second: set<Index>)
    requires stored <= more && Enough(stored, custody, first, second)
    ensures Enough(more, custody, first, second)
  {
    SubsetSize((custody - second) * stored, (custody - second) * more);
  }

  lemma SaveKeepsInv(s: State, custody: set<Index>, id: Ident)
    requires Inv(s, custody)
    ensures Inv(Apply(s, custody, Save(id)), custody)
  {
    var s' := Apply(s, custody, Save(id));
    if s.reader.Returned? { EnoughGrows(s.stored, s'.stored, custody, s.reader.first, s.reader.second); }
    forall i | s.reader.Waiting? && i in s'.reader.missing && i in s'.stored ensures Announced(s', i) {
      if i in s.stored {
        assert Announced(s, i);
        var d: Ident :| (d in s.pending || d in s.chan) && d.ours && i in d.indices;
        assert d in s'.pending || d in s'.chan;
      } else {
        assert id in s'.pending;
      }
    }
  }

  lemma SendKeepsInv(s: State, custody: set<Index>, id: Ident)
    requires Inv(s, custody) && Enabled(s, Send(id))
    ensures Inv(Apply(s, custody, Send(id)), custody)
  {
    var s' := Apply(s, custody, Send(id));
    forall i | s.reader.Waiting? && i in s'.reader.missing && i in s'.stored ensures Announced(s', i) {
      assert Announced(s, i);
      var d: Ident :| (d in s.pending || d in s.chan) && d.ours && i in d.indices;
      assert d == id ==> d in s'.chan;
      assert d in s'.pending || d in s'.chan;
    }
  }

  lemma ReadKeepsInv(s: State, custody: set<Index>)
    requires Inv(s, custody) && Enabled(s, Read)
    ensures Inv(Apply(s, custody, Read), custody)
  {
    var s', id := Apply(s, custody, Read), s.chan[0];
    assert s.chan == [id] + s'.chan;
    if id.ours { HearKeepsInv(s.stored, custody, s.reader, id); }
    forall i | s'.reader.Waiting? && i in s'.reader.missing && i in s'.stored ensures Announced(s', i) {
      if id.ours { HearAll(s.reader.count, s.reader.missing, id.indices); }
      assert Announced(s, i);
      var d: Ident :| (d in s.pending || d in s.chan) && d.ours && i in d.indices;
      assert d in s'.pending || d in s'.chan;
    }
  }

  lemma HearKeepsInv(stored: set<Index>, custody: set<Index>, r: Reader, id: Ident)
    requires r.Waiting? && WaitInv(stored, custody, r) && id.ours && Elements(id.indices) <= stored
    ensures WaitInv(stored, custody, AfterRead(r, id))
  {
    HearRemoves(r.count, r.missing, id.indices);
    var p := Hear(r.count, r.missing, id.indices);
    if !p.done { HearUnfinished(r.count, r.missing, id.indices); }
    var late := custody - r.second;
    DifferenceSize(late, r.missing, p.missing);
    if p.done {
      var last := HearFinished(r.count, r.missing, id.indices);
      if p.missing != {} { SubsetSize((late - p.missing) + {last}, late * stored); }
    }
  }

  lemma ReaderKeepsInv(s: State, custody: set<Index>, a: Action)
    requires Inv(s, custody) && Enabled(s, a) && (a.Subscribe? || a.Count? || a.Summarize? || a.Cancel?)
    ensures Inv(Apply(s, custody, a), custody)
  {
    if a.Summarize? {
      var missing := custody - s.stored;
      assert custody - s.stored - missing == {};
    }
  }

  lemma StepKeepsInv(s: State, custody: set<Index>, a: Action)
    requires Inv(s, custody) && Enabled(s, a)
    ensures Inv(Apply(s, custody, a), custody)
  {
    match a
    case Save(id) => SaveKeepsInv(s, custody, id);
    case Send(id) => SendKeepsInv(s, custody, id);
    case Read => ReadKeepsInv(s, custody);
    case _ => ReaderKeepsInv(s, custody, a);
  }

  // ----- Runs -----

  ghost predicate Leads(s0: State, custody: set<Index>, acts: seq<Action>, s: State)
    decreases |acts|
  {
    if acts == [] then s == s0
    else Enabled(s0, acts[0]) && Leads(Apply(s0, custody, acts[0]), custody, acts[1..], s)
  }

  /** A call starts with anything in the store, and with any saves in mid-air. */
  ghost predicate Fresh(s: State) {
    s.reader.Start? && s.chan == [] && EventsInv(s)
  }

  lemma {:induction false} LeadsKeepsInv(s0: State, custody: set<Index>, acts: seq<Action>, s: State)
    requires Inv(s0, custody) && Leads(s0, custody, acts, s)
    ensures Inv(s, custody)
    decreases |acts|
  {
    if acts != [] {
      StepKeepsInv(s0, custody, acts[0]);
      LeadsKeepsInv(Apply(s0, custody, acts[0]), custody, acts[1..], s);
    }
  }

  /** A nil result is sound: the store holds all custody columns, or enough columns to reconstruct. */
  lemma ReturnedIsAvailable(s0: State, custody: set<Index>, acts: seq<Action>, s: State)
    requires Fresh(s0) && Leads(s0, custody, acts, s) && s.reader.Returned?
    ensures custody <= s.stored || 2 * |s.stored| >= COLUMNS
  {
    LeadsKeepsInv(s0, custody, acts, s);
    var first, late := s.reader.first, (custody - s.reader.second) * s.stored;
    assert |first + late| == |first| + |late|;
    SubsetSize(first + late, s.stored);
  }

  /** No event about the root is on its way. */
  ghost predicate Drained(s: State) {
    forall id: Ident :: (id in s.pending || id in s.chan) ==> !id.ours
  }

  /** Once all events have been read, a call past its second summary has returned if and only if the
      store passes the reader's test. */
  lemma ReturnedIffEnough(s0: State, custody: set<Index>, acts: seq<Action>, s: State)
    requires Fresh(s0) && Leads(s0, custody, acts, s) && Drained(s) && (s.reader.Returned? || s.reader.Waiting?)
    ensures s.reader.Returned? <==> Enough(s.stored, custody, s.reader.first, s.reader.second)
    ensures custody <= s.stored ==> s.reader.Returned?
  {
    LeadsKeepsInv(s0, custody, acts, s);
    if s.reader.Waiting? {
      var r := s.reader;
      assert forall i :: !Announced(s, i);
      assert (custody - r.second) * s.stored == custody - r.second - r.missing;
      var i :| i in r.missing;
      assert i in custody && i !in s.stored;
    }
  }

  lemma {:induction false} HearNothing(count: nat, missing: set<Index>, indices: seq<Index>)
    requires missing != {} && count < ENOUGH && missing !! Elements(indices)
    ensures Hear(count, missing, indices) == Progress(count, missing, false)
    decreases |indices|
  {
    if indices != [] {
      ElementsHead(indices);
      assert missing - {indices[0]} == missing;
      HearNothing(count, missing, indices[1..]);
    }
  }

  lemma LeadsCons(s0: State, custody: set<Index>, a: Action, acts: seq<Action>, s: State)
    requires Enabled(s0, a) && Leads(Apply(s0, custody, a), custody, acts, s)
    ensures Leads(s0, custody, [a] + acts, s)
  {
    assert ([a] + acts)[1..] == acts;
  }

  lemma OthersRead(custody: set<Index>, id: Ident, stored: set<Index>)
    requires custody != {} && id.ours && Elements(id.indices) !! custody
    ensures var w := Waiting(0, custody, {}, {});
            Apply(State(stored, multiset{}, [id], w), custody, Read) == State(stored, multiset{}, [], w)
  {
    HearNothing(0, custody, id.indices);
  }

  lemma OthersSent(custody: set<Index>, id: Ident, stored: set<Index>)
    ensures var w := Waiting(0, custody, {}, {});
            Apply(State(stored, multiset{id}, [], w), custody, Send(id)) == State(stored, multiset{}, [id], w)
  {
    assert multiset{id} - multiset{id} == multiset{};
  }

  /** A reader that waits for all of custody hears an event about other columns only. */
  lemma OthersHeard(custody: set<Index>, id: Ident, s: State) returns (acts: seq<Action>)
    requires custody != {} && id.ours && Elements(id.indices) !! custody
    requires s == State(Elements(id.indices), multiset{}, [], Waiting(0, custody, {}, {}))
    ensures Leads(State({}, multiset{}, [], Waiting(0, custody, {}, {})), custody, acts, s)
  {
    var w, stored := Waiting(0, custody, {}, {}), Elements(id.indices);
    OthersRead(custody, id, stored);
    OthersSent(custody, id, stored);
    LeadsCons(State(stored, multiset{}, [id], w), custody, Read, [], s);
    acts := [Read] + [];
    LeadsCons(State(stored, multiset{id}, [], w), custody, Send(id), acts, s);
    acts := [Send(id)] + acts;
    assert Apply(State({}, multiset{}, [], w), custody, Save(id)) == State(stored, multiset{id}, [], w);
    LeadsCons(State({}, multiset{}, [], w), custody, Save(id), acts, s);
    acts := [Save(id)] + acts;
  }

  /** Enough columns in the store are not always enough for the wait: columns outside custody that come
      after the first summary are never counted, however many there are. */
  lemma OthersAreNotCounted(custody: set<Index>, others: seq<Index>) returns (acts: seq<Action>, s: State)
    requires custody != {} && |custody| <= COLUMNS && Distinct(others)
    requires Elements(others) !! custody && |others| >= ENOUGH
    ensures Leads(State({}, multiset{}, [], Start), custody, acts, s)
    ensures s.reader.Waiting? && Drained(s) && |s.stored| >= ENOUGH
  {
    var id := Ident(true, others);
    DistinctSize(others);
    s := State(Elements(others), multiset{}, [], Waiting(0, custody, {}, {}));
    acts := OthersHeard(custody, id, s);
    assert custody - {} == custody;
    LeadsCons(State({}, multiset{}, [], Counted({})), custody, Summarize, acts, s);
    acts := [Summarize] + acts;
    LeadsCons(State({}, multiset{}, [], Subscribed), custody, Count, acts, s);
    acts := [Count] + acts;
    LeadsCons(State({}, multiset{}, [], Start), custody, Subscribe, acts, s);
    acts := [Subscribe] + acts;
  }

  // ----- Custody larger than the number of columns -----

  /** A wait, and a return past the first count, need a custody that is not too large. */
  ghost predicate SizeInv(custody: set<Index>, r: Reader) {
    && (r.Waiting? ==> |custody| <= COLUMNS)
    && (r.Returned? ==> |r.first| >= ENOUGH || |custody| <= COLUMNS)
  }

  lemma {:induction false} LeadsKeepsSize(s0: State, custody: set<Index>, acts: seq<Action>, s: State)
    requires SizeInv(custody, s0.reader) && Leads(s0, custody, acts, s)
    ensures SizeInv(custody, s.reader)
    decreases |acts|
  {
    if acts != [] {
      LeadsKeepsSize(Apply(s0, custody, acts[0]), custody, acts[1..], s);
    }
  }

  /** With more custody columns than there are columns, a call never waits, and returns nil only if the first count
      finds enough. */
  lemma OversizedCustody(s0: State, custody: set<Index>, acts: seq<Action>, s: State)
    requires Fresh(s0) && Leads(s0, custody, acts, s) && |custody| > COLUMNS
    ensures !s.reader.Waiting? && (s.reader.Returned? ==> |s.stored| >= ENOUGH)
  {
    LeadsKeepsInv(s0, custody, acts, s);
    LeadsKeepsSize(s0, custody, acts, s);
    if s.reader.Returned? {
      SubsetSize(s.reader.first, s.stored);
    }
  }

  // ----- A wait that ends -----

  lemma {:induction false} ListOf(A: set<Index>) returns (xs: seq<Index>)
    ensures Elements(xs) == A
  {
    if A == {} {
      xs := [];
    } else {
      var x :| x in A;
      xs := ListOf(A - {x});
      xs := xs + [x];
    }
  }

  /** An event for everything that is missing ends the wait. */
  lemma HearsAll(count: nat, missing: set<Index>, indices: seq<Index>)
    requires missing != {} && count < ENOUGH && missing <= Elements(indices)
    ensures Hear(count, missing, indices).done
  {
    if !Hear(count, missing, indices).done {
      HearAll(count, missing, indices);
      HearUnfinished(count, missing, indices);
    }
  }

  /** With an empty channel: the missing columns are saved, announced and heard of. */
  lemma ArrivalEnds(s: State, custody: set<Index>) returns (acts: seq<Action>, s': State)
    requires Inv(s, custody) && s.reader.Waiting? && s.chan == []
    ensures Leads(s, custody, acts, s') && s'.reader.Returned?
  {
    var indices := ListOf(s.reader.missing);
    var id := Ident(true, indices);
    HearsAll(s.reader.count, s.reader.missing, indices);
    var s1 := Apply(s, custody, Save(id));
    var s2 := Apply(s1, custody, Send(id));
    s' := Apply(s2, custody, Read);
    LeadsCons(s2, custody, Read, [], s');
    LeadsCons(s1, custody, Send(id), [Read] + [], s');
    LeadsCons(s, custody, Save(id), [Send(id)] + ([Read] + []), s');
    acts := [Save(id)] + ([Send(id)] + ([Read] + []));
  }

  lemma {:induction false} EndsFrom(s: State, custody: set<Index>) returns (acts: seq<Action>, s': State)
    requires Inv(s, custody) && s.reader.Waiting?
    ensures Leads(s, custody, acts, s') && s'.reader.Returned?
    decreases |s.chan|
  {
    if s.chan == [] {
      acts, s' := ArrivalEnds(s, custody);
    } else {
      var s1 := Apply(s, custody, Read);
      StepKeepsInv(s, custody, Read);
      acts, s' := [], s1;
      if s1.reader.Waiting? {
        acts, s' := EndsFrom(s1, custody);
      }
      LeadsCons(s, custody, Read, acts, s');
      acts := [Read] + acts;
    }
  }

  /** Whatever has happened since the call began: if the missing columns arrive, the wait can end. */
  lemma WaitCanEnd(s0: State, custody: set<Index>, before: seq<Action>, s: State) returns (acts: seq<Action>, s': State)
    requires Fresh(s0) && Leads(s0, custody, before, s) && s.reader.Waiting?
    ensures Leads(s, custody, acts, s') && s'.reader.Returned?
  {
    LeadsKeepsInv(s0, custody, before, s);
    acts, s' := EndsFrom(s, custody);
  }

  lemma {:induction false} FailedStays(s: State, custody: set<Index>, acts: seq<Action>, s': State)
    requires s.reader.Failed? && Leads(s, custody, acts, s')
    ensures s'.reader.Failed?
    decreases |acts|
  {
    if acts != [] {
      FailedStays(Apply(s, custody, acts[0]), custody, acts[1..], s');
    }
  }

  /** A wait can be cancelled at any time, and then returns an error, whatever arrives afterwards. */
  lemma CancelledNeverReturns(s: State, custody: set<Index>, after: seq<Action>, s': State)
    requires s.reader.Waiting?
    ensures Enabled(s, Cancel) && (Leads(s, custody, [Cancel] + after, s') ==> s'.reader.Failed?)
  {
    assert ([Cancel] + after)[1..] == after;
    if Leads(s, custody, [Cancel] + after, s') {
      FailedStays(Apply(s, custody, Cancel), custody, after, s');
    }
  }

  lemma {:induction false} LeadsKeepsSlot(s0: State, custody: set<Index>, acts: seq<Action>, s: State)
    requires |s0.chan| <= 1 && Leads(s0, custody, acts, s)
    ensures |s.chan| <= 1
    decreases |acts|
  {
    if acts != [] {
      LeadsKeepsSlot(Apply(s0, custody, acts[0]), custody, acts[1..], s);
    }
  }

  /** The reader's channel never holds more than one event, so a writer's send can have to wait for a read. */
  lemma OneSlot(s0: State, custody: set<Index>, acts: seq<Action>, s: State)
    requires Fresh(s0) && Leads(s0, custody, acts, s)
    ensures |s.chan| <= 1
  {
    LeadsKeepsSlot(s0, custody, acts, s);
  }
}

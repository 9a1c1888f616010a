/** The sync-committee position cache of beacon-chain/cache/sync_committee.go: the inverse index of two committees,
    the FIFO that holds it by boundary root, and updates that run beside Clear. */
module SyncCommitteeIndex {
  import opened Wrappers

  type Pubkey = nat
  type Validator = nat
  type Root = nat

  const MAX_SIZE: nat := 3

  /** What an update reads: the two committees, and the validators the state knows by public key. */
  datatype Source = Source(current: seq<Pubkey>, next: seq<Pubkey>, registry: map<Pubkey, Validator>)

  datatype Positions = Positions(current: seq<nat>, next: seq<nat>)
  type Index = map<Validator, Positions>

  function Lookup(m: Index, v: Validator): Positions {
    if v in m then m[v] else Positions([], [])
  }

  // ----- The linear scan -----

  /** The places below k at which the validator sits in the committee, ascending. */
  function Scan(registry: map<Pubkey, Validator>, committee: seq<Pubkey>, v: Validator, k: nat): seq<nat>
    requires k <= |committee|
  {
    if k == 0 then []
    else
      var rest := Scan(registry, committee, v, k - 1);
      if Seats(registry, committee[k - 1], v) then rest + [k - 1] else rest
  }

  predicate Seats(registry: map<Pubkey, Validator>, key: Pubkey, v: Validator) {
    key in registry && registry[key] == v
  }

  lemma {:induction false} ScanIs(registry: map<Pubkey, Validator>, committee: seq<Pubkey>, v: Validator, k: nat)
    requires k <= |committee|
    ensures var r := Scan(registry, committee, v, k);
            && (forall i: nat :: i in r <==> i < k && Seats(registry, committee[i], v))
            && (forall a, b :: 0 <= a < b < |r| ==> r[a] < r[b])
  {
    if k > 0 {
      ScanIs(registry, committee, v, k - 1);
      var rest := Scan(registry, committee, v, k - 1);
      assert forall a :: 0 <= a < |rest| ==> rest[a] in rest;
    }
  }

  // ----- The index, built by two loops over a map -----

  method IndexCurrent(st: Source) returns (m: Index)
    ensures forall v :: Lookup(m, v) == Positions(Scan(st.registry, st.current, v, |st.current|), [])
  {
    m := map[];
    for i := 0 to |st.current|
      invariant forall v :: Lookup(m, v) == Positions(Scan(st.registry, st.current, v, i), [])
    {
      var key := st.current[i];
      if key in st.registry {
        var v := st.registry[key];
        if v !in m {
          assert Lookup(m, v).current == [];
          m := m[v := Positions([i], [])];
        } else {
          m := m[v := m[v].(current := m[v].current + [i])];
        }
      }
    }
  }

  /** Whoever is looked up, the cached places are those a linear scan of the two committees gives. */
  method BuildIndex(st: Source) returns (m: Index)
    ensures Inverts(m, st)
  {
    m := IndexCurrent(st);
    for i := 0 to |st.next|
      invariant forall v :: Lookup(m, v) == Positions(Scan(st.registry, st.current, v, |st.current|),
                                                      Scan(st.registry, st.next, v, i))
    {
      var key := st.next[i];
      if key in st.registry {
        var v := st.registry[key];
        if v !in m {
          assert Lookup(m, v) == Positions([], []);
          m := m[v := Positions([], [i])];
        } else {
          m := m[v := m[v].(next := m[v].next + [i])];
        }
      }
    }
  }

  ghost predicate Inverts(m: Index, st: Source) {
    forall v :: Lookup(m, v) == Positions(Scan(st.registry, st.current, v, |st.current|),
                                          Scan(st.registry, st.next, v, |st.next|))
  }

  // ----- The FIFO -----

  datatype Item = Item(root: Root, index: Index, start: nat, source: Source)

  function Roots(queue: seq<Item>): seq<Root> {
    seq(|queue|, i requires 0 <= i < |queue| => queue[i].root)
  }

  /** Adding under a root already queued replaces the item where it is. */
  function Add(queue: seq<Item>, item: Item): seq<Item> {
    if queue == [] then [item]
    else if queue[0].root == item.root then [item] + queue[1..]
    else [queue[0]] + Add(queue[1..], item)
  }

  function Trim(queue: seq<Item>): seq<Item> {
    if |queue| <= MAX_SIZE then queue else queue[|queue| - MAX_SIZE..]
  }

  predicate DistinctRoots(queue: seq<Item>) {
    forall i, j :: 0 <= i < j < |queue| ==> queue[i].root != queue[j].root
  }

  lemma {:induction false} AddHas(queue: seq<Item>, item: Item)
    requires DistinctRoots(queue)
    ensures var q := Add(queue, item);
            && DistinctRoots(q) && item in q
            && (forall x :: x in q <==> x == item || (x in queue && x.root != item.root))
            && |q| == |queue| + if item.root in Roots(queue) then 0 else 1
  {
    if queue != [] {
      assert queue == [queue[0]] + queue[1..];
      assert Roots(queue) == [queue[0].root] + Roots(queue[1..]);
      if queue[0].root == item.root {
        assert forall k :: 0 < k < |queue| ==> queue[k].root != item.root;
      } else {
        AddHas(queue[1..], item);
        var rest := Add(queue[1..], item);
        assert forall k :: 0 <= k < |rest| ==> rest[k] in rest;
      }
    }
  }

  /** After an update's item is added and the queue trimmed, it is there; at most the oldest root has gone. */
  lemma AddAndTrim(queue: seq<Item>, item: Item)
    requires DistinctRoots(queue) && |queue| <= 3
    ensures var q := Trim(Add(queue, item));
            && DistinctRoots(q) && |q| <= 3 && item in q
            && (forall x :: x in q ==> x == item || (x in queue && x.root != item.root))
            && (forall k :: 0 < k < |queue| && queue[k].root != item.root ==> queue[k] in q)
  {
    AddHas(queue, item);
    if |Add(queue, item)| > MAX_SIZE {
      AddLast(queue, item);
      PushOut(queue, item);
    } else {
      assert forall k :: 0 <= k < |queue| ==> queue[k] in queue;
    }
  }

  /** A full queue gives up its head for a new root. */
  lemma PushOut(queue: seq<Item>, item: Item)
    requires DistinctRoots(queue) && |queue| == MAX_SIZE && item.root !in Roots(queue)
    ensures var q := Trim(queue + [item]);
            && q == queue[1..] + [item] && DistinctRoots(q)
            && (forall x :: x in q ==> x == item || (x in queue && x.root != item.root))
            && (forall k :: 0 < k < |queue| ==> queue[k] in q)
  {
    assert forall k :: 0 <= k < |queue| ==> Roots(queue)[k] == queue[k].root;
    var rest := queue[1..];
    assert forall k :: 0 < k < |queue| ==> queue[k] == rest[k - 1];
  }

  lemma {:induction false} AddLast(queue: seq<Item>, item: Item)
    requires item.root !in Roots(queue)
    ensures Add(queue, item) == queue + [item]
  {
    if queue != [] {
      assert Roots(queue) == [queue[0].root] + Roots(queue[1..]);
      AddLast(queue[1..], item);
      assert queue == [queue[0]] + queue[1..];
    }
  }

  /** A root already queued keeps its place in the order of eviction; a new one comes last. */
  lemma {:induction false} AddKeepsOrder(queue: seq<Item>, item: Item)
    ensures Roots(Add(queue, item)) == if item.root in Roots(queue) then Roots(queue) else Roots(queue) + [item.root]
  {
    if queue != [] {
      assert Roots(queue) == [queue[0].root] + Roots(queue[1..]);
      assert Roots(Add(queue, item))[0] == queue[0].root;
      if queue[0].root != item.root {
        AddKeepsOrder(queue[1..], item);
        assert Roots(Add(queue, item)) == [queue[0].root] + Roots(Add(queue[1..], item));
      }
    }
  }

  datatype Result<T> = Ok(value: T) | NonExistingKey

  function Find(queue: seq<Item>, root: Root): Option<Item> {
    if queue == [] then None else if queue[0].root == root then Some(queue[0]) else Find(queue[1..], root)
  }

  lemma {:induction false} FindIs(queue: seq<Item>, item: Item)
    requires DistinctRoots(queue) && item in queue
    ensures Find(queue, item.root) == Some(item)
  {
    assert queue == [queue[0]] + queue[1..];
    if queue[0] != item {
      var k :| 0 <= k < |queue| && queue[k] == item;
      assert queue[0].root != queue[k].root;
      FindIs(queue[1..], item);
    }
  }

  /** Nothing is found exactly if no item has the root. */
  lemma {:induction false} FindNoneIff(queue: seq<Item>, root: Root)
    ensures Find(queue, root).None? <==> forall x :: x in queue ==> x.root != root
    ensures Find(queue, root).Some? ==> Find(queue, root).value in queue && Find(queue, root).value.root == root
  {
    if queue != [] {
      assert queue == [queue[0]] + queue[1..];
      FindNoneIff(queue[1..], root);
    }
  }

  class Cache {
    var queue: seq<Item>
    var cleared: nat

    constructor ()
      ensures queue == [] && cleared == 1
    {
      queue, cleared := [], 0;
      new;
      Clear();
    }

    method Clear()
      modifies this
      ensures queue == [] && cleared == old(cleared) + 1
    {
      cleared := cleared + 1;
      queue := [];
    }

    /** The end of an update, under the lock; `clearCount` is what it read when it began. */
    method Commit(clearCount: nat, item: Item)
      modifies this`queue
      ensures queue == if clearCount == cleared then Trim(Add(old(queue), item)) else old(queue)
    {
      if clearCount != cleared {
        return;
      }
      var q := Add(queue, item);
      ghost var added := q;
      while |q| > MAX_SIZE
        invariant |q| <= |added| && q == added[|added| - |q|..] && Trim(q) == Trim(added)
        decreases |q|
      {
        q := q[1..];
      }
      queue := q;
    }

    method PositionsInCommittee(root: Root, indices: seq<Validator>) returns (r: Result<seq<Option<Positions>>>)
      ensures r.NonExistingKey? <==> Find(queue, root).None?
      ensures r.Ok? ==> |r.value| == |indices| && forall k :: 0 <= k < |indices| ==>
                var m := Find(queue, root).value.index;
                && (r.value[k].Some? <==> indices[k] in m)
                && (r.value[k].Some? ==> r.value[k].value == Lookup(m, indices[k]))
    {
      var item := Find(queue, root);
      if item.None? {
        return NonExistingKey;
      }
      var m := item.value.index;
      var found: seq<Option<Positions>> := [];
      for i := 0 to |indices|
        invariant |found| == i
        invariant forall k :: 0 <= k < i ==> found[k] == if indices[k] in m then Some(m[indices[k]]) else None
      {
        if indices[i] in m {
          found := found + [Some(m[indices[i]])];
        } else {
          found := found + [None];
        }
      }
      r := Ok(found);
    }
  }
}

/** Updates run asynchronously: any number of them beside Clear, which counts up and swaps the FIFO under the lock
    while an update reads the count outside it. Times are those of a clock that every action advances. */
module SyncCommitteeProtocol {
  import opened SyncCommitteeIndex
  import opened Wrappers

  type Id = nat

  /** An update in flight: the count it read and the time it began. */
  datatype Update = Update(root: Root, source: Source, seen: nat, start: nat)

  /** `clearing` is the time between a Clear's count and its swap; `lastClear` the time of the last count. */
  datatype State = State(queue: seq<Item>, cleared: nat, clearing: bool, lastClear: nat, clock: nat,
                         running: map<Id, Update>)

  datatype Action =
    | Begin(id: Id, root: Root, source: Source) | Count | Swap | Commit(id: Id, index: Index) | Fail(id: Id)

  ghost predicate Enabled(s: State, a: Action) {
    match a
    case Begin(id, _, _) => id !in s.running
    case Count => !s.clearing
    case Swap => s.clearing
    case Commit(id, index) => !s.clearing && id in s.running && Inverts(index, s.running[id].source)
    case Fail(id) => id in s.running
  }

  function Apply(s: State, a: Action): State
    requires a.Commit? ==> a.id in s.running
  {
    var t := s.(clock := s.clock + 1);
    match a
    case Begin(id, root, source) => t.(running := s.running[id := Update(root, source, s.cleared, s.clock)])
    case Count => t.(clearing := true, cleared := s.cleared + 1, lastClear := s.clock)
    case Swap => t.(clearing := false, queue := [])
    case Commit(id, index) =>
      var u := s.running[id];
      t.(running := s.running - {id},
         queue := if u.seen == s.cleared then Trim(Add(s.queue, Item(u.root, index, u.start, u.source))) else s.queue)
    case Fail(id) => t.(running := s.running - {id})
  }

  /** The state the constructor leaves: one Clear done. */
  const INITIAL: State := State([], 1, false, 0, 1, map[])

  ghost predicate Leads(s0: State, acts: seq<Action>, s: State)
    decreases |acts|
  {
    if acts == [] then s0 == s else Enabled(s0, acts[0]) && Leads(Apply(s0, acts[0]), acts[1..], s)
  }

  ghost predicate Inv(s: State) {
    && s.lastClear < s.clock && DistinctRoots(s.queue) && |s.queue| <= MAX_SIZE
    && (forall id :: id in s.running ==> UpdateInv(s, s.running[id]))
    && (forall x :: x in s.queue ==> Inverts(x.index, x.source) && x.start < s.clock)
    && (!s.clearing ==> forall x :: x in s.queue ==> x.start > s.lastClear)
    && (s.clearing ==> forall x :: x in s.queue ==> x.start < s.lastClear)
  }

  /** The count an update read is current exactly if no Clear has counted since it began. */
  predicate UpdateInv(s: State, u: Update) {
    u.seen <= s.cleared && u.start < s.clock && (u.seen == s.cleared <==> u.start > s.lastClear)
  }

  lemma CommitKeepsInv(s: State, id: Id, index: Index)
    requires Inv(s) && Enabled(s, Action.Commit(id, index))
    ensures Inv(Apply(s, Action.Commit(id, index)))
  {
    var u := s.running[id];
    assert UpdateInv(s, u);
    if u.seen == s.cleared {
      AddAndTrim(s.queue, Item(u.root, index, u.start, u.source));
    }
  }

  lemma StepKeepsInv(s: State, a: Action)
    requires Inv(s) && Enabled(s, a)
    ensures Inv(Apply(s, a))
  {
    if a.Commit? {
      CommitKeepsInv(s, a.id, a.index);
    }
  }

  lemma {:induction false} RunKeepsInv(s0: State, acts: seq<Action>, s: State)
    requires Inv(s0) && Leads(s0, acts, s)
    ensures Inv(s)
    decreases |acts|
  {
    if acts != [] {
      StepKeepsInv(s0, acts[0]);
      RunKeepsInv(Apply(s0, acts[0]), acts[1..], s);
    }
  }

  /** In every reachable state with no Clear under way, every cached index was begun after the last Clear, gives
      each validator the places a linear scan gives, and at most three roots are cached. */
  lemma NothingOlderThanClear(acts: seq<Action>, s: State)
    requires Leads(INITIAL, acts, s) && !s.clearing
    ensures |s.queue| <= 3 && DistinctRoots(s.queue)
    ensures forall x :: x in s.queue ==> x.start > s.lastClear && Inverts(x.index, x.source)
  {
    RunKeepsInv(INITIAL, acts, s);
  }

  /** An update is kept exactly if it began after the last Clear; lookups by its root then find it. */
  lemma CommittedIff(acts: seq<Action>, s: State, id: Id, index: Index)
    requires Leads(INITIAL, acts, s) && Enabled(s, Action.Commit(id, index))
    ensures var u := s.running[id];
            var after := Apply(s, Action.Commit(id, index));
            if u.start > s.lastClear then Find(after.queue, u.root) == Some(Item(u.root, index, u.start, u.source))
            else after.queue == s.queue
  {
    RunKeepsInv(INITIAL, acts, s);
    var u := s.running[id];
    assert UpdateInv(s, u);
    if u.start > s.lastClear {
      var item := Item(u.root, index, u.start, u.source);
      AddAndTrim(s.queue, item);
      FindIs(Trim(Add(s.queue, item)), item);
    }
  }

  lemma {:induction false} LeadsJoin(s0: State, a: seq<Action>, s1: State, b: seq<Action>, s2: State)
    requires Leads(s0, a, s1) && Leads(s1, b, s2)
    ensures Leads(s0, a + b, s2)
    decreases |a|
  {
    if a == [] {
      assert a + b == b;
    } else {
      LeadsJoin(Apply(s0, a[0]), a[1..], s1, b, s2);
      assert (a + b)[1..] == a[1..] + b;
    }
  }

  lemma LeadsOne(s: State, a: Action)
    requires Enabled(s, a)
    ensures Leads(s, [a], Apply(s, a))
  {
    assert [a][1..] == [];
  }

  /** From any reachable state: an update that begins and ends with no Clear in between is found by its root. */
  lemma UndisturbedIsFound(acts: seq<Action>, s: State, id: Id, root: Root, source: Source, index: Index)
    returns (s': State)
    requires Leads(INITIAL, acts, s) && !s.clearing && id !in s.running && Inverts(index, source)
    ensures Leads(s, [Begin(id, root, source)] + [Action.Commit(id, index)], s')
    ensures Find(s'.queue, root) == Some(Item(root, index, s.clock, source))
  {
    RunKeepsInv(INITIAL, acts, s);
    var s1 := Apply(s, Begin(id, root, source));
    LeadsOne(s, Begin(id, root, source));
    LeadsJoin(INITIAL, acts, s, [Begin(id, root, source)], s1);
    CommittedIff(acts + [Begin(id, root, source)], s1, id, index);
    s' := Apply(s1, Action.Commit(id, index));
    LeadsOne(s1, Action.Commit(id, index));
    LeadsJoin(s, [Begin(id, root, source)], s1, [Action.Commit(id, index)], s');
  }

  /** And one that a whole Clear falls into leaves nothing in the cache. */
  lemma ClearedIsDropped(acts: seq<Action>, s: State, id: Id, root: Root, source: Source, index: Index)
    returns (s': State)
    requires Leads(INITIAL, acts, s) && !s.clearing && id !in s.running && Inverts(index, source)
    ensures Leads(s, [Begin(id, root, source)] + ([Count] + ([Swap] + [Action.Commit(id, index)])), s')
    ensures s'.queue == []
  {
    RunKeepsInv(INITIAL, acts, s);
    var s1 := Apply(s, Begin(id, root, source));
    var s2 := Apply(s1, Count);
    var s3 := Apply(s2, Swap);
    s' := Apply(s3, Action.Commit(id, index));
    LeadsOne(s, Begin(id, root, source));
    LeadsOne(s1, Count);
    LeadsOne(s2, Swap);
    LeadsOne(s3, Action.Commit(id, index));
    LeadsJoin(s2, [Swap], s3, [Action.Commit(id, index)], s');
    LeadsJoin(s1, [Count], s2, [Swap] + [Action.Commit(id, index)], s');
    LeadsJoin(s, [Begin(id, root, source)], s1, [Count] + ([Swap] + [Action.Commit(id, index)]), s');
  }

  lemma {:induction false} StaysOver(s: State, acts: seq<Action>, s': State, id: Id)
    requires id !in s.running && Leads(s, acts, s') && forall a :: a in acts && a.Begin? ==> a.id != id
    ensures id !in s'.running
    decreases |acts|
  {
    if acts != [] {
      StaysOver(Apply(s, acts[0]), acts[1..], s', id);
    }
  }

  /** What began after the last Clear's count stays cached until the next one, except for its own replacement and for
      the oldest item, which may have to make room. */
  lemma StaysUntilClear(acts: seq<Action>, s: State, x: Item, a: Action)
    requires Leads(INITIAL, acts, s) && x in s.queue && x.start > s.lastClear && Enabled(s, a) && !a.Count?
    ensures x in Apply(s, a).queue || (a.Commit? && (x.root == s.running[a.id].root || x == s.queue[0]))
  {
    RunKeepsInv(INITIAL, acts, s);
    if a.Commit? {
      var u := s.running[a.id];
      AddAndTrim(s.queue, Item(u.root, a.index, u.start, u.source));
      var k :| 0 <= k < |s.queue| && s.queue[k] == x;
    }
  }

  /** An update can fail at any time; one that has failed, or has committed, does not commit any more. */
  lemma OverForGood(s: State, a: Action, after: seq<Action>, s': State, index: Index)
    requires (a.Fail? || a.Commit?) && Enabled(s, a) && Leads(Apply(s, a), after, s')
    requires forall x :: x in after && x.Begin? ==> x.id != a.id
    ensures Enabled(s, Fail(a.id)) && !Enabled(s', Action.Commit(a.id, index))
  {
    StaysOver(Apply(s, a), after, s', a.id);
  }
}

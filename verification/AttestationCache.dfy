/** The attestation cache of beacon-chain/cache/attestation.go. A signature is the multiset of the validators
    aggregated in it, each named by its position in the committee. */
module AttestationCache {
  import opened Wrappers

  /** What attestations must share to be grouped: their data, the slot being part of it. */
  datatype Id = Id(slot: nat, data: nat)

  /** `bits` is a bitlist of the given length. */
  datatype Att = Att(id: Id, length: nat, bits: set<nat>, signers: multiset<nat>) {
    predicate IsAggregated() {
      |bits| > 1
    }
  }

  datatype Group = Group(slot: nat, atts: seq<Att>)
  datatype Result<T> = Ok(value: T) | Err

  type Groups = map<Id, Group>

  // ----- The operations on values -----

  function Within(bits: set<nat>, length: nat): set<nat> {
    set b | b in bits && b < length
  }

  /** A single-bit attestation goes into the running aggregate; setting a bit past the list's end does nothing. */
  function Absorb(a: Att, att: Att): Att {
    if att.bits <= a.bits then a
    else a.(bits := a.bits + Within(att.bits, a.length), signers := a.signers + att.signers)
  }

  function AddTo(groups: Groups, att: Att): Groups {
    if att.bits == {} then groups
    else if att.id !in groups then groups[att.id := Group(att.id.slot, [att])]
    else
      var g := groups[att.id];
      if att.IsAggregated() then groups[att.id := g.(atts := g.atts + [att])]
      else if g.atts == [] then groups
      else groups[att.id := g.(atts := g.atts[0 := Absorb(g.atts[0], att)])]
  }

  predicate Covers(att: Att, a: Att) {
    a.bits <= att.bits
  }

  /** The attestations that `att` does not cover, in order. */
  function Keep(att: Att, atts: seq<Att>): (kept: seq<Att>)
    ensures |kept| <= |atts|
  {
    if atts == [] then []
    else
      var rest, last := Keep(att, atts[..|atts| - 1]), atts[|atts| - 1];
      if Covers(att, last) then rest else rest + [last]
  }

  /** The group's slice after the compaction loop has done k attestations. */
  function Shifted(att: Att, atts: seq<Att>, k: nat): seq<Att>
    requires k <= |atts|
  {
    var kept := Keep(att, atts[..k]);
    kept + atts[|kept|..]
  }

  /** The first attestation whose bitlist has another length. */
  function FirstOdd(length: nat, atts: seq<Att>): (k: nat)
    ensures k <= |atts|
  {
    if atts == [] || atts[0].length != length then 0 else 1 + FirstOdd(length, atts[1..])
  }

  lemma {:induction false} FirstOddAt(length: nat, atts: seq<Att>, k: nat)
    requires k <= FirstOdd(length, atts) && k < |atts|
    ensures atts[k].length == length <==> k < FirstOdd(length, atts)
  {
    if k > 0 {
      FirstOddAt(length, atts[1..], k - 1);
    }
  }

  lemma FirstOddIff(length: nat, atts: seq<Att>)
    ensures FirstOdd(length, atts) < |atts| <==> exists a :: a in atts && a.length != length
  {
    var k := FirstOdd(length, atts);
    if k < |atts| {
      FirstOddAt(length, atts, k);
      assert atts[k] in atts;
    } else {
      forall a | a in atts ensures a.length == length {
        var j :| 0 <= j < |atts| && atts[j] == a;
        FirstOddAt(length, atts, j);
      }
    }
  }

  function DeleteFrom(groups: Groups, att: Att): Groups {
    if att.id !in groups then groups
    else
      var g := groups[att.id];
      var k := FirstOdd(att.length, g.atts);
      if k < |g.atts| then groups[att.id := g.(atts := Shifted(att, g.atts, k))]
      else if Keep(att, g.atts) == [] then groups - {att.id}
      else groups[att.id := g.(atts := Keep(att, g.atts))]
  }

  function PruneFrom(groups: Groups, slot: nat): Groups {
    map id | id in groups && groups[id].slot >= slot :: groups[id]
  }

  /** The scan's answer over one group: an error counts as redundant. */
  function Redundant(att: Att, atts: seq<Att>): Result<bool> {
    if atts == [] then Ok(false)
    else if atts[0].length != att.length then Err
    else if att.bits <= atts[0].bits then Ok(true)
    else Redundant(att, atts[1..])
  }

  // ----- The number of attestations -----

  ghost function Total(groups: Groups): nat
    decreases |groups|
  {
    if groups == map[] then 0
    else
      var id :| id in groups;
      |groups[id].atts| + Total(groups - {id})
  }

  lemma {:induction false} TotalSplit(groups: Groups, id: Id)
    requires id in groups
    ensures Total(groups) == |groups[id].atts| + Total(groups - {id})
    decreases |groups|
  {
    var other :| other in groups && Total(groups) == |groups[other].atts| + Total(groups - {other});
    if other != id {
      TotalSplit(groups - {other}, id);
      TotalSplit(groups - {id}, other);
      assert groups - {other} - {id} == groups - {id} - {other};
    }
  }

  // ----- The cache -----

  lemma ShiftStep(att: Att, given: seq<Att>, k: nat)
    requires k < |given|
    ensures var n := |Keep(att, given[..k])|;
            && n <= k && |Shifted(att, given, k)| == |given| && Shifted(att, given, k)[k] == given[k]
    ensures Covers(att, given[k]) ==>
              Keep(att, given[..k + 1]) == Keep(att, given[..k]) && Shifted(att, given, k + 1) == Shifted(att, given, k)
    ensures !Covers(att, given[k]) ==>
              && |Keep(att, given[..k + 1])| == |Keep(att, given[..k])| + 1
              && Shifted(att, given, k + 1) == Shifted(att, given, k)[|Keep(att, given[..k])| := given[k]]
  {
    assert given[..k + 1][..k] == given[..k];
    var kept := Keep(att, given[..k]);
    assert given[|kept|..][k - |kept|] == given[k];
    if !Covers(att, given[k]) {
      assert Keep(att, given[..k + 1]) == kept + [given[k]];
    }
  }

  lemma ShiftDone(att: Att, given: seq<Att>)
    ensures given[..|given|] == given && Shifted(att, given, |given|)[..|Keep(att, given)|] == Keep(att, given)
  {
    assert given[..|given|] == given;
  }

  /** The compaction loop, in place: an error leaves the part already done shifted. */
  method Compact(att: Att, given: seq<Att>) returns (atts: seq<Att>, ok: bool)
    ensures ok <==> FirstOdd(att.length, given) == |given|
    ensures atts == if ok then Keep(att, given) else Shifted(att, given, FirstOdd(att.length, given))
  {
    ghost var odd := FirstOdd(att.length, given);
    atts := given;
    var idx := 0;
    for k := 0 to |given|
      invariant idx == |Keep(att, given[..k])| && atts == Shifted(att, given, k) && k <= odd
    {
      ShiftStep(att, given, k);
      FirstOddAt(att.length, given, k);
      var a := atts[k];
      assert a == given[k];
      if a.length != att.length {
        return atts, false;
      }
      if !Covers(att, a) {
        atts := atts[idx := a];
        idx := idx + 1;
      }
    }
    ShiftDone(att, given);
    atts, ok := atts[..idx], true;
  }

  class Cache {
    var groups: Groups

    constructor ()
      ensures groups == map[]
    {
      groups := map[];
    }

    method Add(att: Option<Att>)
      modifies this
      ensures groups == if att.None? then old(groups) else AddTo(old(groups), att.value)
    {
      if att.None? {
        return;
      }
      var a := att.value;
      if a.bits == {} {
        return;
      }
      if a.id !in groups {
        groups := groups[a.id := Group(a.id.slot, [a])];
        return;
      }
      var g := groups[a.id];
      if a.IsAggregated() {
        groups := groups[a.id := g.(atts := g.atts + [a])];
        return;
      }
      if |g.atts| == 0 {
        return;
      }
      var first := g.atts[0];
      var bit :| bit in a.bits;
      OneBit(a.bits, bit);
      if bit in first.bits {
        assert g.atts[0 := Absorb(first, a)] == g.atts;
        return;
      }
      if bit < first.length {
        first := first.(bits := first.bits + {bit});
      }
      first := first.(signers := first.signers + a.signers);
      assert Within(a.bits, first.length) == if bit < first.length then {bit} else {};
      groups := groups[a.id := g.(atts := g.atts[0 := first])];
    }

    method DeleteCovered(att: Option<Att>) returns (r: Result<()>)
      modifies this
      ensures groups == if att.None? then old(groups) else DeleteFrom(old(groups), att.value)
      ensures r.Err? <==> att.Some? && att.value.id in old(groups)
                          && exists a :: a in old(groups)[att.value.id].atts && a.length != att.value.length
    {
      if att.None? || att.value.id !in groups {
        return Ok(());
      }
      var a := att.value;
      var g := groups[a.id];
      var atts, ok := Compact(a, g.atts);
      FirstOddIff(a.length, g.atts);
      if !ok {
        groups := groups[a.id := g.(atts := atts)];
        return Err;
      }
      if |atts| == 0 {
        groups := groups - {a.id};
      } else {
        groups := groups[a.id := g.(atts := atts)];
      }
      r := Ok(());
    }

    /** What is pruned and what is left add up. */
    method PruneBefore(slot: nat) returns (pruned: nat)
      modifies this
      ensures groups == PruneFrom(old(groups), slot)
      ensures pruned + Total(groups) == old(Total(groups))
    {
      pruned := 0;
      var ids := groups.Keys;
      while ids != {}
        invariant ids <= groups.Keys <= old(groups).Keys
        invariant forall id :: id in groups ==> groups[id] == old(groups)[id]
        invariant forall id :: id in old(groups) && id !in ids ==> (id in groups <==> old(groups)[id].slot >= slot)
        invariant pruned + Total(groups) == old(Total(groups))
        decreases ids
      {
        var id :| id in ids;
        if groups[id].slot < slot {
          TotalSplit(groups, id);
          pruned := pruned + |groups[id].atts|;
          groups := groups - {id};
        }
        ids := ids - {id};
      }
    }

    method Count() returns (count: nat)
      ensures count == Total(groups)
    {
      count := 0;
      var rest := groups;
      while rest != map[]
        invariant count + Total(rest) == Total(groups)
        decreases |rest|
      {
        var id :| id in rest;
        TotalSplit(rest, id);
        count := count + |rest[id].atts|;
        rest := rest - {id};
      }
    }

    method AggregateIsRedundant(att: Option<Att>) returns (r: Result<bool>)
      ensures r == if att.None? then Ok(true)
                   else if att.value.id !in groups then Ok(false)
                   else Redundant(att.value, groups[att.value.id].atts)
    {
      if att.None? {
        return Ok(true);
      }
      var a := att.value;
      if a.id !in groups {
        return Ok(false);
      }
      var atts := groups[a.id].atts;
      for k := 0 to |atts|
        invariant Redundant(a, atts[k..]) == Redundant(a, atts)
      {
        assert atts[k..][0] == atts[k] && atts[k..][1..] == atts[k + 1..];
        if atts[k].length != a.length {
          return Err;
        }
        if a.bits <= atts[k].bits {
          return Ok(true);
        }
      }
      r := Ok(false);
    }
  }

  lemma OneBit(bits: set<nat>, bit: nat)
    requires bit in bits && |bits| <= 1
    ensures bits == {bit}
  {
    assert |bits - {bit}| == 0;
  }

  // ----- What every operation keeps -----

  /** The signature aggregates every set bit's signer once and no one else. */
  predicate Sound(a: Att) {
    a.bits != {} && a.signers == multiset(a.bits) && forall b :: b in a.bits ==> b < a.length
  }

  predicate Inv(groups: Groups) {
    forall id :: id in groups ==> GroupInv(id, groups[id])
  }

  predicate GroupInv(id: Id, g: Group) {
    g.atts != [] && g.slot == id.slot && forall a :: a in g.atts ==> a.id == id && Sound(a)
  }

  /** All the cache's bitlists for one id have its committee's length. */
  ghost predicate Uniform(size: Id -> nat, groups: Groups) {
    forall id, a :: id in groups && a in groups[id].atts ==> a.length == size(id)
  }

  /** The single bit has no room in the running aggregate. */
  predicate Overflows(groups: Groups, att: Att) {
    && att.id in groups && !att.IsAggregated() && groups[att.id].atts != []
    && !(att.bits <= groups[att.id].atts[0].bits)
    && exists b :: b in att.bits && b >= groups[att.id].atts[0].length
  }

  lemma AbsorbSoundIff(a: Att, att: Att)
    requires Sound(a) && Sound(att) && !att.IsAggregated()
    ensures Sound(Absorb(a, att)) <==> (att.bits <= a.bits || forall b :: b in att.bits ==> b < a.length)
  {
    var bit :| bit in att.bits;
    OneBit(att.bits, bit);
    assert att.signers == multiset{bit};
    var r := Absorb(a, att);
    if !(att.bits <= a.bits) {
      if bit < a.length {
        assert Within(att.bits, a.length) == {bit};
        assert r.signers == multiset(r.bits);
      } else {
        assert Within(att.bits, a.length) == {};
        assert r.signers[bit] == 1 && multiset(r.bits)[bit] == 0;
      }
    }
  }

  /** Adding keeps the signature accounting exactly when the single bit has room. */
  lemma AddKeepsInvIff(groups: Groups, att: Att)
    requires Inv(groups) && Sound(att)
    ensures Inv(AddTo(groups, att)) <==> !Overflows(groups, att)
  {
    var after := AddTo(groups, att);
    if att.id in groups && !att.IsAggregated() {
      var g := groups[att.id];
      assert GroupInv(att.id, g);
      var first := g.atts[0];
      AbsorbSoundIff(first, att);
      assert first in g.atts && after[att.id].atts[0] == Absorb(first, att);
      assert after[att.id].atts[0] in after[att.id].atts;
      if Overflows(groups, att) {
        assert !GroupInv(att.id, after[att.id]);
      }
    }
  }

  lemma {:induction false} KeepIs(att: Att, atts: seq<Att>, a: Att)
    ensures a in Keep(att, atts) <==> a in atts && !(a.bits <= att.bits)
    ensures multiset(Keep(att, atts))[a] == if a.bits <= att.bits then 0 else multiset(atts)[a]
  {
    if atts != [] {
      KeepIs(att, atts[..|atts| - 1], a);
      assert atts == atts[..|atts| - 1] + [atts[|atts| - 1]];
    }
  }

  /** The kept attestations are in the order they had. */
  lemma {:induction false} KeepInOrder(att: Att, atts: seq<Att>) returns (at: seq<nat>)
    ensures |at| == |Keep(att, atts)| && forall i, j :: 0 <= i < j < |at| ==> at[i] < at[j]
    ensures forall k :: 0 <= k < |at| ==> at[k] < |atts| && Keep(att, atts)[k] == atts[at[k]]
  {
    at := [];
    if atts != [] {
      var n := |atts| - 1;
      at := KeepInOrder(att, atts[..n]);
      if !(atts[n].bits <= att.bits) {
        at := at + [n];
      }
    }
  }

  /** Stopped half way, the compaction has lost covered attestations only. */
  lemma ShiftedKeeps(att: Att, atts: seq<Att>, k: nat, a: Att)
    requires k <= |atts|
    ensures a in Shifted(att, atts, k) ==> a in atts
    ensures a in atts && !(a.bits <= att.bits) ==> a in Shifted(att, atts, k)
  {
    var kept := Keep(att, atts[..k]);
    KeepIs(att, atts[..k], a);
    assert atts == atts[..k] + atts[k..];
    if a in atts[k..] {
      assert atts[|kept|..][k - |kept|..] == atts[k..];
    }
  }

  lemma DeleteKeepsInv(groups: Groups, att: Att)
    requires Inv(groups)
    ensures Inv(DeleteFrom(groups, att))
  {
    if att.id in groups {
      var g := groups[att.id];
      assert GroupInv(att.id, g);
      var k := FirstOdd(att.length, g.atts);
      forall a ensures a in Shifted(att, g.atts, k) ==> a in g.atts {
        ShiftedKeeps(att, g.atts, k, a);
      }
      forall a ensures a in Keep(att, g.atts) ==> a in g.atts {
        KeepIs(att, g.atts, a);
      }
    }
  }

  // ----- Bitlists of one length per id -----

  function AttsOf(groups: Groups, id: Id): seq<Att> {
    if id in groups then groups[id].atts else []
  }

  ghost predicate Sized(size: Id -> nat, att: Att) {
    att.length == size(att.id)
  }

  lemma {:induction false} RedundantIff(att: Att, atts: seq<Att>)
    requires forall a :: a in atts ==> a.length == att.length
    ensures Redundant(att, atts).Ok?
    ensures Redundant(att, atts).value <==> exists a :: a in atts && Covers(a, att)
  {
    if atts != [] {
      assert atts == [atts[0]] + atts[1..];
      if Covers(atts[0], att) {
        assert atts[0] in atts;
      } else {
        RedundantIff(att, atts[1..]);
      }
    }
  }

  /** In general the first attestation that covers it, or has another length, decides. */
  lemma {:induction false} RedundantIs(att: Att, atts: seq<Att>) returns (k: nat)
    ensures k <= |atts| && forall j :: 0 <= j < k ==> atts[j].length == att.length && !(att.bits <= atts[j].bits)
    ensures k < |atts| ==> atts[k].length != att.length || att.bits <= atts[k].bits
    ensures Redundant(att, atts) == if k == |atts| then Ok(false) else if atts[k].length != att.length then Err
                                    else Ok(true)
  {
    k := 0;
    if atts != [] && atts[0].length == att.length && !(att.bits <= atts[0].bits) {
      var j := RedundantIs(att, atts[1..]);
      k := j + 1;
    }
  }

  lemma FirstOddNone(length: nat, atts: seq<Att>)
    requires forall a :: a in atts ==> a.length == length
    ensures FirstOdd(length, atts) == |atts|
  {
    FirstOddIff(length, atts);
  }

  /** The aggregate that holds all of a just added attestation. */
  lemma AddCovers(size: Id -> nat, groups: Groups, att: Att) returns (a: Att)
    requires Inv(groups) && Uniform(size, groups) && Sound(att) && Sized(size, att)
    ensures a in AttsOf(AddTo(groups, att), att.id) && Covers(a, att)
  {
    a := att;
    if att.id in groups && !att.IsAggregated() {
      var first := groups[att.id].atts[0];
      assert first in groups[att.id].atts;
      a := Absorb(first, att);
      assert AttsOf(AddTo(groups, att), att.id)[0] == a;
      assert Within(att.bits, first.length) == att.bits;
    }
  }

  lemma AddKeepsUniform(size: Id -> nat, groups: Groups, att: Att)
    requires Inv(groups) && Uniform(size, groups) && (att.bits != {} ==> Sound(att)) && Sized(size, att)
    ensures Inv(AddTo(groups, att)) && Uniform(size, AddTo(groups, att))
  {
    if att.bits != {} {
      AddKeepsInvIff(groups, att);
      if att.id in groups {
        assert groups[att.id].atts[0] in groups[att.id].atts;
      }
    }
  }

  /** An added attestation is reported redundant from then on, except one without bits that found no group. */
  lemma RedundantAfterAddIff(size: Id -> nat, groups: Groups, att: Att)
    requires Inv(groups) && Uniform(size, groups) && (att.bits != {} ==> Sound(att)) && Sized(size, att)
    ensures var after := AddTo(groups, att);
            att.id in after && Redundant(att, after[att.id].atts) == Ok(true) <==> att.bits != {} || att.id in groups
  {
    var after := AddTo(groups, att);
    AddKeepsUniform(size, groups, att);
    if att.id in after {
      RedundantIff(att, after[att.id].atts);
      if att.bits != {} {
        var a := AddCovers(size, groups, att);
      } else {
        assert Covers(after[att.id].atts[0], att);
      }
    }
  }

  /** Deleting removes exactly the covered attestations, of that id only. */
  lemma DeleteExact(size: Id -> nat, groups: Groups, att: Att, id: Id, a: Att)
    requires Uniform(size, groups) && Sized(size, att)
    ensures a in AttsOf(DeleteFrom(groups, att), id)
       <==> a in AttsOf(groups, id) && !(id == att.id && Covers(att, a))
  {
    if att.id in groups {
      FirstOddNone(att.length, groups[att.id].atts);
      KeepIs(att, groups[att.id].atts, a);
    }
  }

  lemma DeleteKeepsUniform(size: Id -> nat, groups: Groups, att: Att)
    requires Inv(groups) && Uniform(size, groups) && Sized(size, att)
    ensures Inv(DeleteFrom(groups, att)) && Uniform(size, DeleteFrom(groups, att))
  {
    DeleteKeepsInv(groups, att);
    var after := DeleteFrom(groups, att);
    forall id, a | id in after && a in after[id].atts ensures a.length == size(id) {
      DeleteExact(size, groups, att, id, a);
      assert id in groups;
    }
  }

  // ----- Runs -----

  datatype Op = AddOp(att: Att) | DeleteOp(att: Att) | PruneOp(slot: nat)

  function Step(groups: Groups, op: Op): Groups {
    match op
    case AddOp(att) => AddTo(groups, att)
    case DeleteOp(att) => DeleteFrom(groups, att)
    case PruneOp(slot) => PruneFrom(groups, slot)
  }

  function Run(groups: Groups, ops: seq<Op>): Groups
    decreases |ops|
  {
    if ops == [] then groups else Run(Step(groups, ops[0]), ops[1..])
  }

  ghost predicate Admissible(size: Id -> nat, op: Op) {
    match op
    case AddOp(att) => Sized(size, att) && (att.bits != {} ==> Sound(att))
    case DeleteOp(att) => Sized(size, att)
    case PruneOp(_) => true
  }

  /** Two attestations of one id, the second with a longer bitlist and a bit past the first one's end: from the empty
      cache, the running aggregate ends up with a signer that has no bit. */
  lemma OverflowingRun(id: Id)
    ensures var a, b := Att(id, 1, {0}, multiset{0}), Att(id, 2, {1}, multiset{1});
            var after := Run(map[], [AddOp(a), AddOp(b)]);
            && Sound(a) && Sound(b) && after == map[id := Group(id.slot, [Att(id, 1, {0}, multiset{0, 1})])]
            && !Inv(after)
  {
    var a, b := Att(id, 1, {0}, multiset{0}), Att(id, 2, {1}, multiset{1});
    var first: Groups := map[id := Group(id.slot, [a])];
    assert AddTo(map[], a) == first;
    assert Within(b.bits, a.length) == {};
    assert Absorb(a, b) == Att(id, 1, {0}, multiset{0, 1}) by {
      assert 1 in b.bits && 1 !in a.bits && a.bits + {} == a.bits;
    }
    assert first[id].atts[0 := Absorb(a, b)] == [Absorb(a, b)];
    var after := AddTo(first, b);
    assert after == map[id := Group(id.slot, [Absorb(a, b)])];
    assert [AddOp(a), AddOp(b)][1..] == [AddOp(b)] && [AddOp(b)][1..] == [];
    assert Run(first, [AddOp(b)]) == Run(after, []) == after;
    assert Absorb(a, b) in after[id].atts && Absorb(a, b).signers[1] == 1 && multiset(Absorb(a, b).bits)[1] == 0;
    assert !GroupInv(id, after[id]);
  }

  /** A vote the cache still owes: one that was added and that nothing since was asked to remove. */
  datatype Vote = Vote(id: Id, bit: nat)

  function Owe(owed: set<Vote>, op: Op): set<Vote> {
    match op
    case AddOp(att) => owed + set b | b in att.bits :: Vote(att.id, b)
    case DeleteOp(att) => set v | v in owed && !(v.id == att.id && v.bit in att.bits)
    case PruneOp(slot) => set v | v in owed && v.id.slot >= slot
  }

  function OweAll(owed: set<Vote>, ops: seq<Op>): set<Vote>
    decreases |ops|
  {
    if ops == [] then owed else OweAll(Owe(owed, ops[0]), ops[1..])
  }

  predicate Held(groups: Groups, v: Vote) {
    exists a :: a in AttsOf(groups, v.id) && v.bit in a.bits
  }

  predicate AllHeld(groups: Groups, owed: set<Vote>) {
    forall v :: v in owed ==> Held(groups, v)
  }

  lemma AddHolds(size: Id -> nat, groups: Groups, att: Att, v: Vote)
    requires Inv(groups) && Uniform(size, groups) && Admissible(size, AddOp(att))
    requires Held(groups, v) || (v.id == att.id && v.bit in att.bits)
    ensures Held(AddTo(groups, att), v)
  {
    if v.id == att.id && v.bit in att.bits {
      var a := AddCovers(size, groups, att);
    } else {
      var a :| a in AttsOf(groups, v.id) && v.bit in a.bits;
      AddKeepsAtt(groups, att, v.id, a);
    }
  }

  /** Attestations keep their places: only the first can gain bits, none loses any, and what is new comes last. */
  lemma AddInPlace(groups: Groups, att: Att, id: Id)
    ensures var before, after := AttsOf(groups, id), AttsOf(AddTo(groups, att), id);
            && |before| <= |after| <= |before| + 1 && (|after| > |before| ==> after == before + [att])
            && (forall k :: 0 < k < |before| ==> after[k] == before[k])
            && (before != [] ==> before[0].bits <= after[0].bits && after[0].length == before[0].length)
  {
  }

  /** Adding drops no bits: what an attestation held, it or its successor holds. */
  lemma AddKeepsAtt(groups: Groups, att: Att, id: Id, a: Att)
    requires a in AttsOf(groups, id)
    ensures exists a' :: a' in AttsOf(AddTo(groups, att), id) && a.bits <= a'.bits
  {
    var before, after := AttsOf(groups, id), AttsOf(AddTo(groups, att), id);
    AddInPlace(groups, att, id);
    var k :| 0 <= k < |before| && before[k] == a;
    assert after[k] in after && a.bits <= after[k].bits;
  }

  lemma StepHolds(size: Id -> nat, groups: Groups, op: Op, owed: set<Vote>)
    requires Inv(groups) && Uniform(size, groups) && Admissible(size, op) && AllHeld(groups, owed)
    ensures AllHeld(Step(groups, op), Owe(owed, op))
  {
    forall v | v in Owe(owed, op) ensures Held(Step(groups, op), v) {
      match op
      case AddOp(att) => AddHolds(size, groups, att, v);
      case DeleteOp(att) =>
        var a :| a in AttsOf(groups, v.id) && v.bit in a.bits;
        DeleteExact(size, groups, att, v.id, a);
      case PruneOp(slot) =>
        var a :| a in AttsOf(groups, v.id) && v.bit in a.bits;
        assert GroupInv(v.id, groups[v.id]);
    }
  }

  /** The votes the cache may hold: those added since their slot was last pruned. */
  function Allow(allowed: set<Vote>, op: Op): set<Vote> {
    match op
    case AddOp(att) => allowed + set b | b in att.bits :: Vote(att.id, b)
    case DeleteOp(_) => allowed
    case PruneOp(slot) => set v | v in allowed && v.id.slot >= slot
  }

  function AllowAll(allowed: set<Vote>, ops: seq<Op>): set<Vote>
    decreases |ops|
  {
    if ops == [] then allowed else AllowAll(Allow(allowed, ops[0]), ops[1..])
  }

  predicate HoldsOnly(groups: Groups, allowed: set<Vote>) {
    forall id, a, b :: id in groups && a in groups[id].atts && b in a.bits ==> Vote(id, b) in allowed
  }

  lemma AddHoldsOnly(groups: Groups, att: Att, allowed: set<Vote>)
    requires HoldsOnly(groups, allowed)
    ensures HoldsOnly(AddTo(groups, att), Allow(allowed, AddOp(att)))
  {
    var after := AddTo(groups, att);
    forall id, a, b | id in after && a in after[id].atts && b in a.bits
      ensures Vote(id, b) in Allow(allowed, AddOp(att))
    {
      if id == att.id && id in groups && a !in groups[id].atts && a != att {
        var first := groups[id].atts[0];
        assert first in groups[id].atts && a == Absorb(first, att);
      }
    }
  }

  lemma DeleteHoldsOnly(groups: Groups, att: Att, allowed: set<Vote>)
    requires HoldsOnly(groups, allowed)
    ensures HoldsOnly(DeleteFrom(groups, att), allowed)
  {
    if att.id in groups {
      var atts := groups[att.id].atts;
      forall a ensures a in Shifted(att, atts, FirstOdd(att.length, atts)) || a in Keep(att, atts) ==> a in atts {
        ShiftedKeeps(att, atts, FirstOdd(att.length, atts), a);
        KeepIs(att, atts, a);
      }
    }
  }

  lemma StepHoldsOnly(groups: Groups, op: Op, allowed: set<Vote>)
    requires Inv(groups) && HoldsOnly(groups, allowed)
    ensures HoldsOnly(Step(groups, op), Allow(allowed, op))
  {
    match op
    case AddOp(att) => AddHoldsOnly(groups, att, allowed);
    case DeleteOp(att) => DeleteHoldsOnly(groups, att, allowed);
    case PruneOp(slot) =>
      assert forall id :: id in groups ==> GroupInv(id, groups[id]);
  }

  /** Over any run of operations, with one bitlist length per id: no group is empty, every signature aggregates each set
      bit's signer once, every vote added and not asked to be removed is still covered, and no vote is held that was
      not added since its slot was last pruned. */
  lemma {:induction false} RunKeeps(size: Id -> nat, groups: Groups, ops: seq<Op>, owed: set<Vote>, allowed: set<Vote>)
    requires Inv(groups) && Uniform(size, groups) && AllHeld(groups, owed) && HoldsOnly(groups, allowed)
    requires forall op :: op in ops ==> Admissible(size, op)
    ensures Inv(Run(groups, ops)) && Uniform(size, Run(groups, ops)) && AllHeld(Run(groups, ops), OweAll(owed, ops))
    ensures HoldsOnly(Run(groups, ops), AllowAll(allowed, ops))
    decreases |ops|
  {
    if ops != [] {
      var op := ops[0];
      StepHolds(size, groups, op, owed);
      StepHoldsOnly(groups, op, allowed);
      match op {
        case AddOp(att) => AddKeepsUniform(size, groups, att);
        case DeleteOp(att) => DeleteKeepsUniform(size, groups, att);
        case PruneOp(slot) =>
      }
      RunKeeps(size, Step(groups, op), ops[1..], Owe(owed, op), Allow(allowed, op));
    }
  }

  // ----- Pruning by a block's attestation over several committees -----

  /** One committee's part of the combined bits. */
  function Part(bits: set<nat>, offset: nat, length: nat): (part: set<nat>)
    ensures forall j: nat :: j in part <==> j < length && j + offset in bits
  {
    if length == 0 then {}
    else Part(bits, offset, length - 1) + if length - 1 + offset in bits then {length - 1} else {}
  }

  /** The stand-in aggregates, one for each committee, that pruneCoveredElectraAttsFromPool deletes by. */
  function Dummies(bits: set<nat>, ids: seq<Id>, lengths: seq<nat>, offset: nat): (ds: seq<Att>)
    requires |ids| == |lengths|
    ensures |ds| == |ids|
    decreases |ids|
  {
    if ids == [] then []
    else [Att(ids[0], lengths[0], Part(bits, offset, lengths[0]), multiset{})]
         + Dummies(bits, ids[1..], lengths[1..], offset + lengths[0])
  }

  /** Deleting fails exactly if a bitlist of the group has another length. */
  predicate Fails(groups: Groups, att: Att) {
    att.id in groups && exists a :: a in groups[att.id].atts && a.length != att.length
  }

  /** Deleting by each in turn, up to the first failure. */
  function DeleteEach(groups: Groups, ds: seq<Att>): Groups
    decreases |ds|
  {
    if ds == [] then groups
    else if Fails(groups, ds[0]) then DeleteFrom(groups, ds[0])
    else DeleteEach(DeleteFrom(groups, ds[0]), ds[1..])
  }

  predicate EachFails(groups: Groups, ds: seq<Att>)
    decreases |ds|
  {
    ds != [] && (Fails(groups, ds[0]) || EachFails(DeleteFrom(groups, ds[0]), ds[1..]))
  }

  lemma DeleteFirst(groups: Groups, d: Att, ds: seq<Att>)
    ensures DeleteEach(groups, [d] + ds)
         == if Fails(groups, d) then DeleteFrom(groups, d) else DeleteEach(DeleteFrom(groups, d), ds)
    ensures EachFails(groups, [d] + ds) <==> Fails(groups, d) || EachFails(DeleteFrom(groups, d), ds)
  {
    assert ([d] + ds)[1..] == ds;
  }

  method PartOf(bits: set<nat>, offset: nat, length: nat) returns (part: set<nat>)
    ensures part == Part(bits, offset, length)
  {
    part := {};
    for j := 0 to length
      invariant part == Part(bits, offset, j)
    {
      if j + offset in bits {
        part := part + {j};
      }
    }
  }

  method PruneCovered(cache: Cache, bits: set<nat>, ids: seq<Id>, lengths: seq<nat>) returns (r: Result<()>)
    modifies cache
    ensures |ids| != |lengths| ==> r == Err && cache.groups == old(cache.groups)
    ensures |ids| == |lengths| ==>
              && cache.groups == DeleteEach(old(cache.groups), Dummies(bits, ids, lengths, 0))
              && (r.Err? <==> EachFails(old(cache.groups), Dummies(bits, ids, lengths, 0)))
  {
    if |ids| != |lengths| {
      return Err;
    }
    var offset: nat := 0;
    for i := 0 to |lengths|
      invariant DeleteEach(cache.groups, Dummies(bits, ids[i..], lengths[i..], offset))
             == DeleteEach(old(cache.groups), Dummies(bits, ids, lengths, 0))
      invariant EachFails(cache.groups, Dummies(bits, ids[i..], lengths[i..], offset))
           <==> EachFails(old(cache.groups), Dummies(bits, ids, lengths, 0))
    {
      assert ids[i..][0] == ids[i] && ids[i..][1..] == ids[i + 1..];
      assert lengths[i..][0] == lengths[i] && lengths[i..][1..] == lengths[i + 1..];
      var part := PartOf(bits, offset, lengths[i]);
      var dummy := Att(ids[i], lengths[i], part, multiset{});
      DeleteFirst(cache.groups, dummy, Dummies(bits, ids[i + 1..], lengths[i + 1..], offset + lengths[i]));
      var deleted := cache.DeleteCovered(Some(dummy));
      if deleted.Err? {
        return Err;
      }
      offset := offset + lengths[i];
    }
    r := Ok(());
  }

  function Sum(lengths: seq<nat>): nat {
    if lengths == [] then 0 else lengths[0] + Sum(lengths[1..])
  }

  /** Bit b of the parts put side by side from `offset` on. */
  predicate BitAt(ds: seq<Att>, lengths: seq<nat>, offset: nat, b: nat)
    requires |ds| == |lengths| && offset <= b
    decreases |ds|
  {
    ds != [] && if b < offset + lengths[0] then (b - offset) as nat in ds[0].bits
                else BitAt(ds[1..], lengths[1..], offset + lengths[0], b)
  }

  /** Splitting the combined bits by committee loses and invents none of them. */
  lemma {:induction false} PartsJoin(bits: set<nat>, ids: seq<Id>, lengths: seq<nat>, offset: nat, b: nat)
    requires |ids| == |lengths| && offset <= b
    ensures BitAt(Dummies(bits, ids, lengths, offset), lengths, offset, b) <==> b in bits && b < offset + Sum(lengths)
    decreases |ids|
  {
    if ids != [] && b >= offset + lengths[0] {
      PartsJoin(bits, ids[1..], lengths[1..], offset + lengths[0], b);
      var ds := Dummies(bits, ids, lengths, offset);
      assert ds[1..] == Dummies(bits, ids[1..], lengths[1..], offset + lengths[0]);
    }
  }

  /** After pruning by a block's attestation, exactly the aggregates that some committee's part covers are gone. */
  lemma {:induction false} DeleteEachExact(size: Id -> nat, groups: Groups, ds: seq<Att>, id: Id, a: Att)
    requires Inv(groups) && Uniform(size, groups) && forall d :: d in ds ==> Sized(size, d)
    ensures a in AttsOf(DeleteEach(groups, ds), id)
       <==> a in AttsOf(groups, id) && forall d :: d in ds ==> !(d.id == id && Covers(d, a))
    decreases |ds|
  {
    if ds != [] {
      assert ds[0] in ds;
      DeleteKeepsUniform(size, groups, ds[0]);
      DeleteExact(size, groups, ds[0], id, a);
      DeleteEachExact(size, DeleteFrom(groups, ds[0]), ds[1..], id, a);
      assert ds == [ds[0]] + ds[1..];
    }
  }
}

/** The lazily persistent blob store: beacon-chain/das/availability_blobs.go and blob_cache.go, with the storage
    summary of beacon-chain/db/filesystem/cache.go. Verification and the file system are oracles. */
module BlobStore {
  import opened Wrappers

  type Root = nat
  type Commitment = nat

  datatype Blob = Blob(root: Root, index: nat, commitment: Commitment)
  datatype Place = Place(root: Root, index: nat)
  type Disk = map<Place, Commitment>

  datatype Key = Key(slot: nat, root: Root)

  /** A nil commitment in a block is None; reading the commitments may fail altogether. */
  datatype Block = Block(root: Root, slot: nat, deneb: bool, retained: bool,
                         commitments: Option<seq<Option<Commitment>>>)

  datatype Error = IndexOutOfBounds | DuplicateSidecar | MixedRoots | CommitmentsUnknown
                 | MissingSidecar | CommitmentMismatch | Unverified | SaveFailed
  datatype Result<T> = Ok(value: T) | Err(error: Error)

  /** One cache entry's sidecars, by index; the nil slice is empty. */
  type Slots = seq<Option<Blob>>

  function At(scs: Slots, i: nat): Option<Blob> {
    if i < |scs| then scs[i] else None
  }

  // ----- Filtering a cache entry against a block -----

  predicate HasIndex(mask: seq<bool>, i: nat) {
    i < |mask| && mask[i]
  }

  predicate AllAvailable(mask: seq<bool>, count: nat) {
    count <= |mask| && forall i :: 0 <= i < count ==> mask[i]
  }

  /** The cache agrees with the block at index i. */
  predicate Agrees(scs: Slots, kc: seq<Option<Commitment>>, i: nat)
    requires i < |kc|
  {
    if kc[i].None? then At(scs, i).None? else At(scs, i).Some? && At(scs, i).value.commitment == kc[i].value
  }

  /** Nothing stands in the way at index i: it is on disk, or the cache agrees with the block there. */
  predicate Consistent(mask: seq<bool>, scs: Slots, kc: seq<Option<Commitment>>, i: nat)
    requires i < |kc|
  {
    HasIndex(mask, i) || Agrees(scs, kc, i)
  }

  /** The committed indices below k that are not on disk, ascending. */
  function NotStored(mask: seq<bool>, kc: seq<Option<Commitment>>, k: nat): seq<nat>
    requires k <= |kc|
  {
    if k == 0 then []
    else if kc[k - 1].Some? && !HasIndex(mask, k - 1) then NotStored(mask, kc, k - 1) + [k - 1]
    else NotStored(mask, kc, k - 1)
  }

  lemma {:induction false} NotStoredIs(mask: seq<bool>, kc: seq<Option<Commitment>>, k: nat)
    requires k <= |kc|
    ensures forall i: nat :: i in NotStored(mask, kc, k) <==> i < k && kc[i].Some? && !HasIndex(mask, i)
    ensures forall a, b :: 0 <= a < b < |NotStored(mask, kc, k)| ==>
              NotStored(mask, kc, k)[a] < NotStored(mask, kc, k)[b]
  {
    if k > 0 {
      NotStoredIs(mask, kc, k - 1);
      var rest := NotStored(mask, kc, k - 1);
      assert forall a :: 0 <= a < |rest| ==> rest[a] in rest;
    }
  }

  /** The sidecars found are the cached ones for these indices, and the block commits to them. */
  predicate Picked(found: seq<Blob>, scs: Slots, kc: seq<Option<Commitment>>, indices: seq<nat>) {
    && |found| == |indices|
    && forall j :: 0 <= j < |indices| ==>
         && indices[j] < |kc| && kc[indices[j]] == Some(found[j].commitment)
         && At(scs, indices[j]) == Some(found[j])
  }

  /** Succeeds exactly when the cache is consistent with the block wherever the disk has a gap, and then returns the
      cached sidecars of exactly the committed indices not on disk, in order. */
  method Filter(mask: seq<bool>, scs: Slots, kc: seq<Option<Commitment>>) returns (r: Result<seq<Blob>>)
    ensures r.Ok? <==> forall i :: 0 <= i < |kc| ==> Consistent(mask, scs, kc, i)
    ensures r.Ok? ==> Picked(r.value, scs, kc, NotStored(mask, kc, |kc|))
    ensures r.Err? ==> r.error in {MissingSidecar, CommitmentMismatch}
  {
    var count := |kc|;
    if AllAvailable(mask, count) {
      NothingMissing(mask, kc, |kc|);
      return Ok([]);
    }
    var found: seq<Blob> := [];
    for i := 0 to count
      invariant forall k :: 0 <= k < i ==> Consistent(mask, scs, kc, k)
      invariant Picked(found, scs, kc, NotStored(mask, kc, i))
    {
      if HasIndex(mask, i) {
        continue;
      }
      var sidecar := None;
      if i < |scs| {
        sidecar := scs[i];
      }
      if kc[i].None? {
        if sidecar.Some? {
          assert !Consistent(mask, scs, kc, i);
          return Err(CommitmentMismatch);
        }
        continue;
      }
      if sidecar.None? {
        assert !Consistent(mask, scs, kc, i);
        return Err(MissingSidecar);
      }
      if kc[i].value != sidecar.value.commitment {
        assert !Consistent(mask, scs, kc, i);
        return Err(CommitmentMismatch);
      }
      found := found + [sidecar.value];
    }
    r := Ok(found);
  }

  lemma {:induction false} NothingMissing(mask: seq<bool>, kc: seq<Option<Commitment>>, k: nat)
    requires k <= |kc| && AllAvailable(mask, |kc|)
    ensures NotStored(mask, kc, k) == []
  {
    if k > 0 {
      NothingMissing(mask, kc, k - 1);
    }
  }

  // ----- Stashing -----

  /** Only the first sidecar of an index is kept. */
  function StashIn(scs: Slots, max: nat, sc: Blob): (r: Result<Slots>)
    requires scs == [] || |scs| == max
    ensures r.Ok? ==> |r.value| == max
  {
    if sc.index >= max then Err(IndexOutOfBounds)
    else
      var full := if scs == [] then seq(max, _ => None) else scs;
      if full[sc.index].Some? then Err(DuplicateSidecar) else Ok(full[sc.index := Some(sc)])
  }

  /** Stashing a list stops at the first error. */
  function StashAll(scs: Slots, max: nat, list: seq<Blob>): (r: (Slots, Result<()>))
    requires scs == [] || |scs| == max
    ensures r.0 == [] || |r.0| == max
    decreases |list|
  {
    if list == [] then (scs, Ok(()))
    else
      var r := StashIn(scs, max, list[0]);
      if r.Err? then (scs, Err(r.error)) else StashAll(r.value, max, list[1..])
  }

  predicate Fits(scs: Slots, max: nat, list: seq<Blob>) {
    && (forall i :: 0 <= i < |list| ==> list[i].index < max && At(scs, list[i].index).None?)
    && (forall i, j :: 0 <= i < j < |list| ==> list[i].index != list[j].index)
  }

  /** All of a list is cached exactly if it is within bounds, distinct and new to the cache; what was cached before
      stays. */
  lemma {:induction false} StashAllIff(scs: Slots, max: nat, list: seq<Blob>)
    requires scs == [] || |scs| == max
    ensures var (after, r) := StashAll(scs, max, list);
            && (r.Ok? <==> Fits(scs, max, list))
            && (r.Ok? ==> forall i :: 0 <= i < |list| ==> At(after, list[i].index) == Some(list[i]))
            && forall i :: At(scs, i).Some? ==> At(after, i) == At(scs, i)
    decreases |list|
  {
    if list != [] {
      var r := StashIn(scs, max, list[0]);
      if r.Ok? {
        StashAllIff(r.value, max, list[1..]);
        FitsTail(scs, max, list, r.value);
        assert At(r.value, list[0].index) == Some(list[0]);
        assert forall i :: At(scs, i).Some? ==> At(r.value, i) == At(scs, i);
      }
    }
  }

  lemma FitsTail(scs: Slots, max: nat, list: seq<Blob>, next: Slots)
    requires (scs == [] || |scs| == max) && list != [] && StashIn(scs, max, list[0]) == Ok(next)
    ensures Fits(scs, max, list) <==> Fits(next, max, list[1..])
  {
    var rest := list[1..];
    assert forall i :: 0 <= i < |rest| ==> rest[i] == list[i + 1];
    assert forall i: nat :: At(next, i) == if i == list[0].index then Some(list[0]) else At(scs, i);
    if Fits(next, max, rest) {
      forall i, j | 0 <= i < j < |list| ensures list[i].index != list[j].index {
        assert list[j] == rest[j - 1];
        if i > 0 {
          assert list[i] == rest[i - 1];
        }
      }
      forall i | 0 <= i < |list| ensures list[i].index < max && At(scs, list[i].index).None? {
        if i > 0 {
          assert list[i] == rest[i - 1];
        }
      }
    }
  }

  /** A list that does not fit is cached up to its first sidecar that does not: one out of bounds, or of an index that
      is taken. */
  lemma {:induction false} StashAllStops(scs: Slots, max: nat, list: seq<Blob>) returns (k: nat)
    requires (scs == [] || |scs| == max) && StashAll(scs, max, list).1.Err?
    ensures k < |list| && Fits(scs, max, list[..k]) && !Fits(scs, max, list[..k + 1])
    ensures StashAll(scs, max, list).0 == StashAll(scs, max, list[..k]).0
    ensures StashAll(scs, max, list).1 == Err(if list[k].index >= max then IndexOutOfBounds else DuplicateSidecar)
    decreases |list|
  {
    var r := StashIn(scs, max, list[0]);
    k := 0;
    if r.Ok? {
      var j := StashAllStops(r.value, max, list[1..]);
      k := j + 1;
      assert list[..k][1..] == list[1..][..j] && list[..k + 1][1..] == list[1..][..j + 1];
      FitsTail(scs, max, list[..k], r.value);
      FitsTail(scs, max, list[..k + 1], r.value);
    } else {
      assert list[..1][0] == list[0];
    }
  }

  function SlotsIn(entries: map<Key, Slots>, key: Key): Slots {
    if key in entries then entries[key] else []
  }

  // ----- The store -----

  class Store {
    var entries: map<Key, Slots>
    var disk: Disk
    /** Verifications and saves asked for so far, and how each goes. */
    var verifications: nat
    var saves: nat
    const verifies: nat -> bool
    const writes: nat -> bool
    const maxBlobs: nat -> nat
    /** A root commits to its block's slot. */
    const slotOf: Root -> nat

    constructor (verifies: nat -> bool, writes: nat -> bool, maxBlobs: nat -> nat, slotOf: Root -> nat)
      ensures Valid() && entries == map[] && disk == map[]
    {
      this.verifies, this.writes, this.maxBlobs, this.slotOf := verifies, writes, maxBlobs, slotOf;
      entries, disk, verifications, saves := map[], map[], 0, 0;
    }

    ghost predicate EntryFor(key: Key, scs: Slots) {
      && (scs == [] || |scs| == maxBlobs(key.slot))
      && forall i :: 0 <= i < |scs| && scs[i].Some? ==> scs[i].value.index == i && scs[i].value.root == key.root
    }

    ghost predicate Valid()
      reads this
    {
      forall key :: key in entries ==> EntryFor(key, entries[key])
    }

    function SlotsOf(key: Key): Slots
      reads this
    {
      SlotsIn(entries, key)
    }

    /** Persist's own cases; StashAllIff says what the stashing itself does. */
    method Persist(sidecars: seq<Blob>) returns (r: Result<()>)
      requires Valid()
      modifies this`entries
      ensures Valid()
      ensures (exists i :: 0 <= i < |sidecars| && sidecars[i].root != sidecars[0].root) ==>
                r == Err(MixedRoots) && entries == old(entries)
      ensures sidecars == [] ==> r == Ok(()) && entries == old(entries)
      ensures sidecars != [] && (forall i :: 0 <= i < |sidecars| ==> sidecars[i].root == sidecars[0].root) ==>
                var key := Key(slotOf(sidecars[0].root), sidecars[0].root);
                var after := StashAll(old(SlotsOf(key)), maxBlobs(key.slot), sidecars);
                r == after.1 && entries == old(entries)[key := after.0]
    {
      if |sidecars| == 0 {
        return Ok(());
      }
      for k := 1 to |sidecars|
        invariant forall i :: 0 <= i < k ==> sidecars[i].root == sidecars[0].root
      {
        if sidecars[k].root != sidecars[0].root {
          return Err(MixedRoots);
        }
      }
      var key := Key(slotOf(sidecars[0].root), sidecars[0].root);
      if key !in entries {
        entries := entries[key := []];
      }
      r := StashEach(key, sidecars);
    }

    method StashEach(key: Key, sidecars: seq<Blob>) returns (r: Result<()>)
      requires Valid() && key in entries && forall sc :: sc in sidecars ==> sc.root == key.root
      modifies this`entries
      ensures Valid()
      ensures var after := StashAll(old(entries[key]), maxBlobs(key.slot), sidecars);
              r == after.1 && entries == old(entries)[key := after.0]
    {
      var max := maxBlobs(key.slot);
      assert entries == entries[key := entries[key]];
      for k := 0 to |sidecars|
        invariant Valid() && key in entries && entries == old(entries)[key := entries[key]]
        invariant StashAll(entries[key], max, sidecars[k..]) == StashAll(old(entries[key]), max, sidecars)
      {
        assert sidecars[k..][0] == sidecars[k] && sidecars[k..][1..] == sidecars[k + 1..];
        var scs := entries[key];
        var stashed := StashIn(scs, max, sidecars[k]);
        if stashed.Err? {
          return Err(stashed.error);
        }
        StashInFor(key, scs, sidecars[k]);
        entries := entries[key := stashed.value];
      }
      r := Ok(());
    }

    lemma StashInFor(key: Key, scs: Slots, sc: Blob)
      requires EntryFor(key, scs) && sc.root == key.root && StashIn(scs, maxBlobs(key.slot), sc).Ok?
      ensures EntryFor(key, StashIn(scs, maxBlobs(key.slot), sc).value)
    {
    }

    function Summary(root: Root, slot: nat): (mask: seq<bool>)
      reads this
      ensures forall i :: 0 <= i < maxBlobs(slot) ==> (HasIndex(mask, i) <==> Place(root, i) in disk)
    {
      var stored := disk.Keys;
      seq(maxBlobs(slot), i requires 0 <= i => Place(root, i) in stored)
    }

    function CommitmentsToCheck(b: Block): Result<seq<Option<Commitment>>> {
      if !b.deneb || !b.retained then Ok([])
      else if b.commitments.None? then Err(CommitmentsUnknown)
      else if |b.commitments.value| > maxBlobs(b.slot) then Err(IndexOutOfBounds)
      else Ok(b.commitments.value)
    }

    method Save(sc: Blob) returns (ok: bool)
      modifies this`disk, this`saves
      ensures ok <==> writes(old(saves))
      ensures saves == old(saves) + 1
      ensures disk == if ok then old(disk)[Place(sc.root, sc.index) := sc.commitment] else old(disk)
    {
      ok := writes(saves);
      saves := saves + 1;
      if ok {
        disk := disk[Place(sc.root, sc.index) := sc.commitment];
      }
    }

    method SaveAll(scs: seq<Blob>) returns (ok: bool)
      requires forall i, j :: 0 <= i < j < |scs| ==> scs[i].index != scs[j].index
      modifies this`disk, this`saves
      ensures ok ==> forall sc :: sc in scs ==>
                Place(sc.root, sc.index) in disk && disk[Place(sc.root, sc.index)] == sc.commitment
      ensures forall p :: p in old(disk) ==> p in disk
      ensures forall p :: p in disk && (forall sc :: sc in scs ==> p != Place(sc.root, sc.index)) ==>
                p in old(disk) && disk[p] == old(disk)[p]
      ensures (forall k :: old(saves) <= k < old(saves) + |scs| ==> writes(k)) ==> ok
    {
      for i := 0 to |scs|
        invariant saves == old(saves) + i
        invariant forall j :: 0 <= j < i ==>
                    && Place(scs[j].root, scs[j].index) in disk
                    && disk[Place(scs[j].root, scs[j].index)] == scs[j].commitment
        invariant forall p :: p in old(disk) ==> p in disk
        invariant forall p :: p in disk && (forall sc :: sc in scs ==> p != Place(sc.root, sc.index)) ==>
                    p in old(disk) && disk[p] == old(disk)[p]
      {
        assert scs[i] in scs;
        var saved := Save(scs[i]);
        if !saved {
          return false;
        }
      }
      ok := true;
    }

    /** A retained block from Deneb on has to have readable commitments, no more than a block may have; others make no
        demand. */
    predicate Checkable(b: Block) {
      b.deneb && b.retained ==> b.commitments.Some? && |b.commitments.value| <= maxBlobs(b.slot)
    }

    /** Every commitment of such a block is on disk, and matched there unless it was there already. */
    ghost predicate Persisted(b: Block, before: Disk, after: Disk) {
      && Checkable(b)
      && (b.deneb && b.retained ==>
            forall i :: 0 <= i < |b.commitments.value| && b.commitments.value[i].Some? ==>
              && Place(b.root, i) in after
              && (Place(b.root, i) in before || after[Place(b.root, i)] == b.commitments.value[i].value))
    }

    /** The cache can fill every gap the disk has for this block. */
    ghost predicate Supplied(b: Block, entries: map<Key, Slots>, disk: Disk) {
      && Checkable(b)
      && (b.deneb && b.retained ==>
            forall i :: 0 <= i < |b.commitments.value| ==>
              Place(b.root, i) in disk || Agrees(SlotsIn(entries, Key(b.slot, b.root)), b.commitments.value, i))
    }

    /** What a check leaves of the cache: an entry is dropped whenever it was consulted. */
    ghost function EntriesAfter(b: Block, entries: map<Key, Slots>): map<Key, Slots> {
      if b.deneb && b.retained && Checkable(b) && b.commitments.value != [] then entries - {Key(b.slot, b.root)}
      else entries
    }

    lemma ConsistentIs(root: Root, mask: seq<bool>, scs: Slots, kc: seq<Option<Commitment>>, disk: Disk)
      requires forall i :: 0 <= i < |kc| ==> (HasIndex(mask, i) <==> Place(root, i) in disk)
      ensures (forall i :: 0 <= i < |kc| ==> Consistent(mask, scs, kc, i))
         <==> (forall i :: 0 <= i < |kc| ==> Place(root, i) in disk || Agrees(scs, kc, i))
    {
      forall i | 0 <= i < |kc| ensures Consistent(mask, scs, kc, i) <==> Place(root, i) in disk || Agrees(scs, kc, i) {
      }
    }

    /** A nil result means that the block's blobs are on disk; the entry is dropped whenever it was consulted. What
        was on disk stays as it was, and nothing is written before all of the batch is verified. */
    method CheckOne(b: Block) returns (r: Result<()>)
      requires Valid()
      modifies this
      ensures Valid() && (forall p :: p in old(disk) ==> p in disk && disk[p] == old(disk)[p])
      ensures forall p :: p in disk && p !in old(disk) ==> p.root == b.root
      ensures r.Ok? ==> Persisted(b, old(disk), disk) && Supplied(b, old(entries), old(disk))
      ensures Supplied(b, old(entries), old(disk)) && verifies(old(verifications)) && (forall k :: writes(k)) ==> r.Ok?
      ensures r.Err? && r.error != SaveFailed ==> disk == old(disk)
      ensures entries == EntriesAfter(b, old(entries))
    {
      var commitments := CommitmentsToCheck(b);
      if commitments.Err? {
        return Err(commitments.error);
      }
      var kc := commitments.value;
      if |kc| == 0 {
        return Ok(());
      }
      var key := Key(b.slot, b.root);
      var mask, scs := Summary(b.root, b.slot), SlotsOf(key);
      ConsistentIs(b.root, mask, scs, kc, disk);
      entries := entries - {key};
      var filtered := Filter(mask, scs, kc);
      if filtered.Err? {
        return Err(filtered.error);
      }
      verifications := verifications + 1;
      if !verifies(verifications - 1) {
        return Err(Unverified);
      }
      PickedPlaces(key, mask, scs, kc, filtered.value);
      var ok := SaveAll(filtered.value);
      if !ok {
        return Err(SaveFailed);
      }
      NotStoredIs(mask, kc, |kc|);
      forall i | 0 <= i < |kc| && kc[i].Some? && Place(b.root, i) !in old(disk)
        ensures Place(b.root, i) in disk && disk[Place(b.root, i)] == kc[i].value
      {
        assert !HasIndex(mask, i) && i in NotStored(mask, kc, |kc|);
        var j :| 0 <= j < |NotStored(mask, kc, |kc|)| && NotStored(mask, kc, |kc|)[j] == i;
        assert filtered.value[j] in filtered.value;
      }
      r := Ok(());
    }

    /** The sidecars picked from an entry belong to the entry's block, one for each index not on disk. */
    lemma PickedPlaces(key: Key, mask: seq<bool>, scs: Slots, kc: seq<Option<Commitment>>, found: seq<Blob>)
      requires EntryFor(key, scs) && Picked(found, scs, kc, NotStored(mask, kc, |kc|))
      ensures forall j :: 0 <= j < |found| ==>
                && found[j].root == key.root && found[j].index == NotStored(mask, kc, |kc|)[j] < |kc|
                && !HasIndex(mask, found[j].index)
      ensures forall i, j :: 0 <= i < j < |found| ==> found[i].index != found[j].index
    {
      NotStoredIs(mask, kc, |kc|);
      forall j | 0 <= j < |found|
        ensures found[j].root == key.root && found[j].index == NotStored(mask, kc, |kc|)[j] < |kc|
             && !HasIndex(mask, found[j].index)
      {
        assert NotStored(mask, kc, |kc|)[j] in NotStored(mask, kc, |kc|);
      }
    }

    /** A block that can be checked successfully still can after another, or itself, has been. */
    lemma StillSupplied(b: Block, done: Block, entries: map<Key, Slots>, before: Disk, after: Disk)
      requires Supplied(b, entries, before) && (b.root == done.root ==> b == done) && Persisted(done, before, after)
      requires forall p :: p in before ==> p in after
      ensures Supplied(b, EntriesAfter(done, entries), after)
    {
    }

    /** The blocks are checked in turn, up to the first error; a root names one block. With the cache able to fill every
        gap, and verification and saves that succeed, all pass. */
    method IsDataAvailable(blks: seq<Block>) returns (r: Result<()>)
      requires Valid() && forall a, b :: a in blks && b in blks && a.root == b.root ==> a == b
      modifies this
      ensures Valid() && (forall p :: p in old(disk) ==> p in disk && disk[p] == old(disk)[p])
      ensures r.Ok? ==> forall b :: b in blks ==> Persisted(b, old(disk), disk)
      ensures (forall b :: b in blks ==> Supplied(b, old(entries), old(disk))) && (forall k :: verifies(k) && writes(k))
              ==> r.Ok?
    {
      ghost var smooth := (forall b :: b in blks ==> Supplied(b, entries, disk))
                          && forall k :: verifies(k) && writes(k);
      for k := 0 to |blks|
        invariant smooth ==> forall b :: b in blks ==> Supplied(b, entries, disk)
        invariant Valid() && (forall p :: p in old(disk) ==> p in disk && disk[p] == old(disk)[p])
        invariant forall p :: p in disk && p !in old(disk) ==> exists b :: b in blks[..k] && b.root == p.root
        invariant forall b :: b in blks[..k] ==> Persisted(b, old(disk), disk)
      {
        assert blks[..k + 1] == blks[..k] + [blks[k]];
        ghost var entries', disk' := entries, disk;
        var checked := CheckOne(blks[k]);
        if checked.Err? {
          return checked;
        }
        if smooth {
          forall b | b in blks ensures Supplied(b, entries, disk) {
            StillSupplied(b, blks[k], entries', disk', disk);
          }
        }
      }
      assert blks[..|blks|] == blks;
      r := Ok(());
    }
  }
}

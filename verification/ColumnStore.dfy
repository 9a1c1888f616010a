/** The lazily persistent column store: beacon-chain/das/availability_columns.go and data_column_cache.go.
    Verification, the file system and the bisector are oracles with the contracts the source gives them. */
module ColumnStore {
  import opened Wrappers

  type Root = nat
  type Index = nat

  const ZERO_ROOT: Root := 0
  const NUMBER_OF_COLUMNS: nat := 128

  datatype Column = Column(root: Root, slot: nat, index: Index, data: nat)
  datatype Place = Place(root: Root, index: Index)
  datatype Key = Key(slot: nat, root: Root)

  /** A block's slot may be outside the retention window; reading its commitments may fail. */
  datatype Block = Block(root: Root, slot: nat, retained: bool, commitments: Option<nat>)

  datatype Error = IndexTooHigh | RequirementUnknown | MissingSidecar | NoBisector | BisectFailed | Unverified
  datatype Result<T> = Ok(value: T) | Err(error: Error)

  function PlaceOf(c: Column): Place {
    Place(c.root, c.index)
  }

  function Places(cs: seq<Column>): (ps: set<Place>)
    ensures forall p :: p in ps <==> exists c :: c in cs && p == PlaceOf(c)
  {
    set c | c in cs :: PlaceOf(c)
  }

  // ----- Columns not stored -----

  /** A run of columns with the zero root at the front is compared with an empty summary. */
  predicate LeadingZero(cs: seq<Column>, i: nat)
    requires i < |cs|
  {
    forall j :: 0 <= j <= i ==> cs[j].root == ZERO_ROOT
  }

  predicate Seen(disk: set<Place>, cs: seq<Column>, i: nat)
    requires i < |cs|
  {
    PlaceOf(cs[i]) in disk && !LeadingZero(cs, i)
  }

  /** Those of the first k columns that are not seen on disk, in order. */
  function Unseen(disk: set<Place>, cs: seq<Column>, k: nat): (r: seq<Column>)
    requires k <= |cs|
    ensures |r| <= k
  {
    if k == 0 then []
    else Unseen(disk, cs, k - 1) + if Seen(disk, cs, k - 1) then [] else [cs[k - 1]]
  }

  /** The plain filter. */
  function NotOnDisk(disk: set<Place>, cs: seq<Column>): (r: seq<Column>)
    ensures |r| <= |cs|
  {
    if cs == [] then []
    else
      var rest, last := NotOnDisk(disk, cs[..|cs| - 1]), cs[|cs| - 1];
      if PlaceOf(last) in disk then rest else rest + [last]
  }

  lemma {:induction false} UnseenAtLeast(disk: set<Place>, cs: seq<Column>, k: nat)
    requires k <= |cs|
    ensures |NotOnDisk(disk, cs[..k])| <= |Unseen(disk, cs, k)|
    ensures Unseen(disk, cs, k) == NotOnDisk(disk, cs[..k])
       <==> forall i :: 0 <= i < k && LeadingZero(cs, i) ==> PlaceOf(cs[i]) !in disk
  {
    if k > 0 {
      UnseenAtLeast(disk, cs, k - 1);
      assert cs[..k][..k - 1] == cs[..k - 1];
      var u, n := Unseen(disk, cs, k - 1), NotOnDisk(disk, cs[..k - 1]);
      if Unseen(disk, cs, k) == NotOnDisk(disk, cs[..k]) && PlaceOf(cs[k - 1]) !in disk {
        assert u == Unseen(disk, cs, k)[..|u|] == NotOnDisk(disk, cs[..k])[..|u|] == n;
      }
    }
  }

  /** The columns to verify are the order-preserving filter of those not on disk, unless a column at the front has
      the zero root and is on disk. */
  lemma FilterIff(disk: set<Place>, cs: seq<Column>)
    ensures Unseen(disk, cs, |cs|) == NotOnDisk(disk, cs)
       <==> forall i :: 0 <= i < |cs| && LeadingZero(cs, i) ==> PlaceOf(cs[i]) !in disk
  {
    UnseenAtLeast(disk, cs, |cs|);
    assert cs[..|cs|] == cs;
  }

  /** A stored column with the zero root at the front is to be verified again, though it is on disk. */
  lemma LeadingZeroKept(c: Column)
    requires c.root == ZERO_ROOT
    ensures var disk := {PlaceOf(c)}; Unseen(disk, [c], 1) == [c] && NotOnDisk(disk, [c]) == []
  {
    assert LeadingZero([c], 0) && [c][..0] == [];
    assert Unseen({PlaceOf(c)}, [c], 0) == [];
  }

  /** Either way no column is lost: each is on disk already or among those to verify. */
  lemma {:induction false} UnseenOrStored(disk: set<Place>, cs: seq<Column>, k: nat, i: nat)
    requires i < k <= |cs|
    ensures cs[i] in Unseen(disk, cs, k) || PlaceOf(cs[i]) in disk
  {
    if i < k - 1 {
      UnseenOrStored(disk, cs, k - 1, i);
    }
  }

  lemma {:induction false} UnseenGiven(disk: set<Place>, cs: seq<Column>, k: nat)
    requires k <= |cs|
    ensures forall c :: c in Unseen(disk, cs, k) ==> c in cs
  {
    if k > 0 {
      UnseenGiven(disk, cs, k - 1);
    }
  }

  function Summary(disk: set<Place>, root: Root): set<Index> {
    set p | p in disk && p.root == root :: p.index
  }

  lemma SummaryHas(disk: set<Place>, root: Root, i: Index)
    ensures i in Summary(disk, root) <==> Place(root, i) in disk
  {
    if Place(root, i) in disk {
      assert Place(root, i).index in Summary(disk, root);
    }
  }

  method FindStored(disk: set<Place>, cs: seq<Column>) returns (stored: set<nat>)
    ensures forall i: nat :: i in stored <==> i < |cs| && Seen(disk, cs, i)
  {
    stored := {};
    var lastRoot, sum := ZERO_ROOT, {};
    for k := 0 to |cs|
      invariant k == 0 || LeadingZero(cs, k - 1) ==> lastRoot == ZERO_ROOT && sum == {}
      invariant k > 0 && !LeadingZero(cs, k - 1) ==> lastRoot == cs[k - 1].root && sum == Summary(disk, lastRoot)
      invariant forall i: nat :: i in stored <==> i < k && Seen(disk, cs, i)
    {
      var c := cs[k];
      if c.root != lastRoot {
        sum := Summary(disk, c.root);
        lastRoot := c.root;
      }
      SummaryHas(disk, c.root, c.index);
      if c.index in sum {
        stored := stored + {k};
      }
    }
  }

  method ColumnsNotStored(disk: set<Place>, sidecars: array<Column>) returns (n: nat)
    modifies sidecars
    ensures n <= sidecars.Length
    ensures sidecars[..n] == Unseen(disk, old(sidecars[..]), sidecars.Length)
  {
    ghost var given := sidecars[..];
    var stored := FindStored(disk, sidecars[..]);
    if stored == {} {
      AllUnseen(disk, given, |given|);
      return sidecars.Length;
    }
    var shift := 0;
    for i := 0 to sidecars.Length
      invariant 0 <= shift <= i && i - shift == |Unseen(disk, given, i)|
      invariant sidecars[..i - shift] == Unseen(disk, given, i)
      invariant sidecars[i..] == given[i..]
    {
      assert sidecars[i..][0] == given[i..][0];
      assert i in stored <==> Seen(disk, given, i);
      if i in stored {
        shift := shift + 1;
      } else if shift > 0 {
        sidecars[i - shift] := sidecars[i];
      }
    }
    n := sidecars.Length - shift;
  }

  lemma {:induction false} AllUnseen(disk: set<Place>, cs: seq<Column>, k: nat)
    requires k <= |cs| && forall i :: 0 <= i < |cs| ==> !Seen(disk, cs, i)
    ensures Unseen(disk, cs, k) == cs[..k]
  {
    if k > 0 {
      AllUnseen(disk, cs, k - 1);
    }
  }

  // ----- Oracles -----

  /** How one attempt to verify and save goes; a failed save may have written the first few columns. */
  datatype Outcome = Saved | Rejected | SaveFailed(written: nat)

  /** What a bisection iterator yields: a batch, nil, or a batch with an error, which may be end-of-file. */
  datatype Next = Batch(columns: seq<Column>) | End | Failed(eof: bool)

  /** `clean` is the iterator's final verdict, given which batches verified. */
  datatype Bisection = Bisection(steps: seq<Next>, clean: seq<bool> -> bool)

  /** The iterator's contract: it hands out the given columns only, and reports no error only if every one of them
      was in a batch that verified. */
  ghost predicate Honest(b: Bisection, columns: seq<Column>) {
    && (forall k, c :: 0 <= k < |b.steps| && b.steps[k].Batch? && c in b.steps[k].columns ==> c in columns)
    && (forall oks: seq<bool> :: |oks| <= |b.steps| && b.clean(oks) ==>
          forall c :: c in columns ==> InVerified(b.steps, oks, c))
  }

  /** The iterator hands out n batches without an error and reports none if all of them verify. */
  ghost predicate EndsAt(b: Bisection, n: nat) {
    && n <= |b.steps| && (forall k :: 0 <= k < n ==> b.steps[k].Batch?)
    && (n < |b.steps| ==> b.steps[n] == End || b.steps[n] == Failed(true)) && b.clean(AllTrue(n))
  }

  function AllTrue(n: nat): seq<bool> {
    seq(n, _ => true)
  }

  predicate InVerified(steps: seq<Next>, oks: seq<bool>, c: Column)
    requires |oks| <= |steps|
  {
    exists k :: 0 <= k < |oks| && oks[k] && steps[k].Batch? && c in steps[k].columns
  }

  // ----- The cache -----

  type Entry = map<Index, Column>

  ghost predicate EntryFor(key: Key, e: Entry) {
    forall i :: i in e ==> i < NUMBER_OF_COLUMNS && e[i].index == i && e[i].root == key.root && e[i].slot == key.slot
  }

  /** The entry's sidecars for the needed indices, after those already gathered, or an error if one is missing. */
  method AppendColumns(e: Entry, gathered: seq<Column>, needed: set<Index>) returns (r: Result<seq<Column>>)
    ensures r.Ok? <==> needed <= e.Keys
    ensures r.Ok? ==> gathered <= r.value && |r.value| == |gathered| + |needed|
    ensures r.Ok? ==> forall c :: c in r.value[|gathered|..] <==> exists i :: i in needed && c == e[i]
    ensures r.Err? ==> r.error == MissingSidecar
  {
    var rest := needed;
    while rest != {}
      invariant rest <= needed && needed - rest <= e.Keys
      decreases |rest|
    {
      var col :| col in rest;
      if col !in e {
        return Err(MissingSidecar);
      }
      rest := rest - {col};
    }
    rest := needed;
    var added: seq<Column> := [];
    while rest != {}
      invariant rest <= needed <= e.Keys && |added| + |rest| == |needed|
      invariant forall c :: c in added <==> exists i :: i in needed - rest && c == e[i]
      decreases |rest|
    {
      var col :| col in rest;
      added := added + [e[col]];
      rest := rest - {col};
    }
    r := Ok(gathered + added);
  }

  function IndicesNotStored(disk: set<Place>, root: Root, indices: set<Index>): (r: set<Index>)
    ensures forall i :: i in r <==> i in indices && Place(root, i) !in disk
  {
    set i | i in indices && Place(root, i) !in disk
  }

  class Store {
    var entries: map<Key, Entry>
    var disk: set<Place>
    /** Attempts to verify and save so far, and how each goes. */
    var attempts: nat
    const outcomes: nat -> Outcome
    /** The node's custody columns, unless they cannot be computed. */
    const custody: Option<set<Index>>
    const bisector: Option<seq<Column> -> Option<Bisection>>

    ghost predicate Valid()
      reads this
    {
      && (forall key :: key in entries ==> EntryFor(key, entries[key]))
      && (bisector.Some? ==>
            forall cs :: bisector.value(cs).Some? ==> Honest(bisector.value(cs).value, cs))
    }

    constructor (outcomes: nat -> Outcome, custody: Option<set<Index>>,
                 bisector: Option<seq<Column> -> Option<Bisection>>)
      requires bisector.Some? ==> forall cs :: bisector.value(cs).Some? ==> Honest(bisector.value(cs).value, cs)
      ensures Valid() && entries == map[] && disk == {}
    {
      this.outcomes, this.custody, this.bisector := outcomes, custody, bisector;
      entries, disk, attempts := map[], {}, 0;
    }

    function EntryOf(key: Key): Entry
      reads this
    {
      if key in entries then entries[key] else map[]
    }

    method Stash(sc: Column) returns (r: Result<()>)
      requires Valid()
      modifies this`entries
      ensures Valid()
      ensures r.Ok? <==> sc.index < NUMBER_OF_COLUMNS
      ensures var key := Key(sc.slot, sc.root);
              && (forall k :: k != key ==> EntryOf(k) == old(EntryOf(k)))
              && EntryOf(key) == if r.Ok? then old(EntryOf(key))[sc.index := sc] else old(EntryOf(key))
    {
      var key := Key(sc.slot, sc.root);
      if key !in entries {
        entries := entries[key := map[]];
      }
      if sc.index >= NUMBER_OF_COLUMNS {
        return Err(IndexTooHigh);
      }
      var entry: Entry := entries[key];
      entry := entry[sc.index := sc];
      entries := entries[key := entry];
      r := Ok(());
    }

    /** Success means that all the columns are on disk; nothing else is written either way. */
    method VerifyAndSave(columns: seq<Column>) returns (r: Result<()>)
      modifies this`disk, this`attempts
      ensures attempts == old(attempts) + if columns == [] then 0 else 1
      ensures old(disk) <= disk <= old(disk) + Places(columns)
      ensures r.Ok? ==> Places(columns) <= disk
      ensures columns == [] || outcomes(old(attempts)) == Saved ==> r.Ok?
    {
      if columns == [] {
        return Ok(());
      }
      var outcome := outcomes(attempts);
      attempts := attempts + 1;
      match outcome {
        case Saved =>
          disk := disk + Places(columns);
          r := Ok(());
        case Rejected =>
          r := Err(Unverified);
        case SaveFailed(written) =>
          disk := disk + Places(columns[..if written < |columns| then written else |columns|]);
          r := Err(Unverified);
      }
    }

    method VerifyBatch(columns: seq<Column>) returns (ok: bool)
      modifies this`disk, this`attempts
      ensures old(disk) <= disk <= old(disk) + Places(columns) && old(attempts) <= attempts
      ensures ok ==> Places(columns) <= disk
      ensures outcomes(old(attempts)) == Saved ==> ok
    {
      var batch := new Column[|columns|](i requires 0 <= i < |columns| => columns[i]);
      assert batch[..] == columns;
      var n := ColumnsNotStored(disk, batch);
      UnseenGiven(disk, columns, |columns|);
      forall c | c in columns ensures c in batch[..n] || PlaceOf(c) in disk {
        var i :| 0 <= i < |columns| && columns[i] == c;
        UnseenOrStored(disk, columns, |columns|, i);
      }
      var r := VerifyAndSave(batch[..n]);
      ok := r.Ok?;
    }

    /** There is a bisector, and its iterations come to an end without an error of their own. */
    ghost predicate Cooperative() {
      bisector.Some? && forall cs :: cs != [] ==> Bisects(bisector.value(cs))
    }

    ghost predicate Bisects(b: Option<Bisection>) {
      b.Some? && exists n :: EndsAt(b.value, n)
    }

    /** One bisection, batch by batch: which batches verified, and whether the iterator itself failed. */
    method BisectEach(iter: Bisection, columns: seq<Column>) returns (oks: seq<bool>, failed: bool)
      requires Honest(iter, columns)
      modifies this`disk, this`attempts
      ensures old(disk) <= disk <= old(disk) + Places(columns) && |oks| <= |iter.steps|
      ensures forall j :: 0 <= j < |oks| && oks[j] && iter.steps[j].Batch? ==> Places(iter.steps[j].columns) <= disk
      ensures forall n :: EndsAt(iter, n) ==> |oks| <= n && (!failed ==> |oks| == n)
      ensures failed ==> forall n :: !EndsAt(iter, n)
      ensures (forall k :: k >= old(attempts) ==> outcomes(k) == Saved) ==> oks == AllTrue(|oks|)
    {
      ghost var saved := forall k :: k >= attempts ==> outcomes(k) == Saved;
      var k: nat := 0;
      oks, failed := [], false;
      while k < |iter.steps| && iter.steps[k] != End
        invariant k <= |iter.steps| && |oks| == k && old(disk) <= disk <= old(disk) + Places(columns)
        invariant forall j :: 0 <= j < k ==> iter.steps[j].Batch?
        invariant forall j :: 0 <= j < k && oks[j] ==> Places(iter.steps[j].columns) <= disk
        invariant old(attempts) <= attempts && (saved ==> oks == AllTrue(k))
      {
        if iter.steps[k].Failed? {
          return oks, !iter.steps[k].eof;
        }
        var ok := VerifyBatch(iter.steps[k].columns);
        oks := oks + [ok];
        k := k + 1;
      }
    }

    method BisectVerification(columns: seq<Column>) returns (r: Result<()>)
      requires Valid()
      modifies this`disk, this`attempts
      ensures old(disk) <= disk <= old(disk) + Places(columns)
      ensures r.Ok? ==> Places(columns) <= disk
      ensures Cooperative() && (forall k :: k >= old(attempts) ==> outcomes(k) == Saved) ==> r.Ok?
    {
      if columns == [] {
        return Ok(());
      }
      if bisector.None? {
        return Err(NoBisector);
      }
      var bisection := bisector.value(columns);
      assert Cooperative() ==> Bisects(bisection);
      if bisection.None? {
        return Err(BisectFailed);
      }
      var iter := bisection.value;
      var oks, failed := BisectEach(iter, columns);
      if failed {
        return Err(BisectFailed);
      }
      if !iter.clean(oks) {
        return Err(Unverified);
      }
      forall c | c in columns ensures PlaceOf(c) in disk {
        assert InVerified(iter.steps, oks, c);
      }
      r := Ok(());
    }

    function Required(b: Block): Result<set<Index>> {
      if !b.retained then Ok({})
      else if b.commitments.None? then Err(RequirementUnknown)
      else if b.commitments.value == 0 then Ok({})
      else if custody.None? then Err(RequirementUnknown)
      else Ok(custody.value)
    }

    /** A retained block with commitments asks for the custody columns, here on disk; no other block asks for any. */
    ghost predicate Persisted(b: Block, stored: set<Place>) {
      b.retained ==>
        && b.commitments.Some?
        && (b.commitments.value > 0 ==>
              custody.Some? && forall i :: i in custody.value ==> Place(b.root, i) in stored)
    }

    /** The same, with every column on disk or waiting in the cache. */
    ghost predicate Supplied(b: Block)
      reads this
    {
      b.retained ==>
        && b.commitments.Some?
        && (b.commitments.value > 0 ==>
              && custody.Some?
              && forall i :: i in custody.value ==> Place(b.root, i) in disk || i in EntryOf(Key(b.slot, b.root)))
    }

    ghost predicate Cached(c: Column)
      reads this
    {
      var e := EntryOf(Key(c.slot, c.root));
      c.index in e && e[c.index] == c
    }

    /** The first loop: what has to be verified so that the blocks' columns are complete. */
    method Gather(blks: seq<Block>) returns (r: Result<seq<Column>>)
      requires Valid()
      modifies this`entries
      ensures Valid() && forall key :: EntryOf(key) == old(EntryOf(key))
      ensures r.Ok? <==> forall b :: b in blks ==> old(Supplied(b))
      ensures r.Ok? ==> forall b :: b in blks ==> Persisted(b, disk + Places(r.value))
      ensures r.Ok? ==> forall c :: c in r.value ==> old(Cached(c))
    {
      var toVerify: seq<Column> := [];
      for k := 0 to |blks|
        invariant Valid() && forall key :: EntryOf(key) == old(EntryOf(key))
        invariant forall j :: 0 <= j < k ==> old(Supplied(blks[j]))
        invariant forall j :: 0 <= j < k ==> Persisted(blks[j], disk + Places(toVerify))
        invariant forall c :: c in toVerify ==> old(Cached(c))
      {
        var b := blks[k];
        var indices := Required(b);
        if indices.Err? {
          assert b in blks && !old(Supplied(b));
          return Err(indices.error);
        }
        if indices.value == {} {
          continue;
        }
        var key := Key(b.slot, b.root);
        if key !in entries {
          entries := entries[key := map[]];
        }
        assert entries[key] == old(EntryOf(key));
        var needed := IndicesNotStored(disk, b.root, indices.value);
        var appended := AppendColumns(entries[key], toVerify, needed);
        if appended.Err? {
          assert b in blks && !old(Supplied(b));
          return Err(appended.error);
        }
        GatherOne(toVerify, appended.value, key, entries[key], needed);
        toVerify := appended.value;
        assert Persisted(b, disk + Places(toVerify));
      }
      r := Ok(toVerify);
    }

    /** If this returns nil, every required column of every block is on disk, by the batch or by the bisection; with
        every column at hand it does return nil if the batch verifies, or if a bisection of it does. Only cached columns
        are written. */
    method IsDataAvailable(blks: seq<Block>) returns (r: Result<()>)
      requires Valid()
      modifies this
      ensures Valid() && old(disk) <= disk
      ensures r.Ok? ==> forall b :: b in blks ==> Persisted(b, disk)
      ensures r.Ok? ==> forall b :: b in blks ==> old(Supplied(b))
      ensures (forall b :: b in blks ==> old(Supplied(b))) && outcomes(old(attempts)) == Saved ==> r.Ok?
      ensures (forall b :: b in blks ==> old(Supplied(b))) && Cooperative() &&
              (forall k :: k > old(attempts) ==> outcomes(k) == Saved) ==>
                r.Ok?
      ensures forall p :: p in disk - old(disk) ==> exists c :: old(Cached(c)) && p == PlaceOf(c)
      ensures forall key :: EntryOf(key) ==
                if r.Ok? && (exists b :: b in blks && key == Key(b.slot, b.root)) then map[] else old(EntryOf(key))
    {
      var toVerify := Gather(blks);
      if toVerify.Err? {
        return Err(toVerify.error);
      }
      var saved := VerifyAndSave(toVerify.value);
      if saved.Err? {
        saved := BisectVerification(toVerify.value);
        if saved.Err? {
          return saved;
        }
      }
      Cleanup(blks);
      r := Ok(());
    }

    method Cleanup(blks: seq<Block>)
      requires Valid()
      modifies this`entries
      ensures Valid()
      ensures forall key :: EntryOf(key) ==
                if exists b :: b in blks && key == Key(b.slot, b.root) then map[] else old(EntryOf(key))
    {
      for k := 0 to |blks|
        invariant Valid()
        invariant forall key :: EntryOf(key) ==
                    if exists b :: b in blks[..k] && key == Key(b.slot, b.root) then map[] else old(EntryOf(key))
      {
        assert blks[..k + 1] == blks[..k] + [blks[k]];
        entries := entries - {Key(blks[k].slot, blks[k].root)};
      }
      assert blks[..|blks|] == blks;
    }
  }

  lemma GatherOne(before: seq<Column>, after: seq<Column>, key: Key, e: Entry, needed: set<Index>)
    requires before <= after && needed <= e.Keys && EntryFor(key, e)
    requires forall c :: c in after[|before|..] <==> exists i :: i in needed && c == e[i]
    ensures Places(before) <= Places(after)
    ensures forall i :: i in needed ==> Place(key.root, i) in Places(after)
    ensures forall c :: c in after && c !in before ==>
              c.root == key.root && c.slot == key.slot && c.index in e && e[c.index] == c
  {
    assert after == before + after[|before|..];
    forall i | i in needed ensures Place(key.root, i) in Places(after) {
      assert e[i] in after[|before|..];
      assert e[i] in after && PlaceOf(e[i]) == Place(key.root, i);
    }
  }
}

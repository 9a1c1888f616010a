/** Bringing stored blocks into fork choice: fillInForkChoiceMissingBlocks and ancestorByDB of
    beacon-chain/blockchain/process_block_helpers.go, and the startup form of the same work in
    beacon-chain/blockchain/setup_forkchoice.go. */
module ForkChoiceFill {
  import opened Wrappers

  type Root = nat
  type Hash = nat

  const ZERO_ROOT: Root := 0
  const SLOTS_PER_EPOCH: nat := 32

  /** A payload bid: the payload it builds on and the payload it promises. */
  datatype Bid = Bid(parentHash: Hash, blockHash: Hash)

  /** From the Gloas fork on a block body carries a bid, which may still be nil. */
  datatype Block = Block(slot: nat, parent: Root, gloas: bool, bid: Option<Bid>)

  datatype Node = Node(root: Root, block: Block, hasPayload: bool)

  datatype Error = InvalidCheckpointArgs | BidUnsupported(slot: nat) | BidMissing(slot: nat)
                 | NotDescendantOfFinalized | NilBlock
  datatype Result<T> = Ok(value: T) | Err(error: Error)

  type Database = map<Root, Block>

  /** Stored blocks have been through the state transition, so each is later than its parent. */
  predicate Rising(db: Database) {
    forall r :: r in db && db[r].parent in db ==> db[db[r].parent].slot < db[r].slot
  }

  function EnsureRootNotZeros(root: Root, origin: Root): Root {
    if root == ZERO_ROOT then origin else root
  }

  // ----- Payload status of one block, seen from its child -----

  function BidOf(b: Block): Result<Bid> {
    if !b.gloas then Err(BidUnsupported(b.slot))
    else if b.bid.None? then Err(BidMissing(b.slot))
    else Ok(b.bid.value)
  }

  function Delivered(child: Block, b: Block): Result<bool> {
    if !b.gloas then Ok(false)
    else
      var c := BidOf(child);
      if c.Err? then Err(c.error)
      else
        var p := BidOf(b);
        if p.Err? then Err(p.error) else Ok(c.value.parentHash == p.value.blockHash)
  }

  // ----- The backward walk, as a function -----

  /** The chain found, oldest first, and the root at which the walk stopped. */
  datatype Found = Found(chain: seq<Node>, stop: Root)

  predicate Wanted(db: Database, known: set<Root>, fSlot: nat, root: Root) {
    root !in known && root in db && db[root].slot > fSlot
  }

  function Walk(db: Database, known: set<Root>, fSlot: nat, child: Block, root: Root): Result<Found>
    requires Rising(db)
    decreases if root in db then db[root].slot + 1 else 0
  {
    if !Wanted(db, known, fSlot, root) then Ok(Found([], root))
    else
      var b := db[root];
      var status := Delivered(child, b);
      if status.Err? then Err(status.error)
      else Append(Walk(db, known, fSlot, b, b.parent), [Node(root, b, status.value)])
  }

  function Append(r: Result<Found>, nodes: seq<Node>): Result<Found> {
    if r.Err? then r else Ok(Found(r.value.chain + nodes, r.value.stop))
  }

  /** The nodes handed to fork choice; none when the parent needs no filling in. */
  function Fill(db: Database, known: set<Root>, finalized: Root, fSlot: nat, fEpoch: nat, jEpoch: nat,
                signed: Block): Result<seq<Node>>
    requires Rising(db)
  {
    if fEpoch > jEpoch then Err(InvalidCheckpointArgs)
    else
      var w := Walk(db, known, fSlot, signed, signed.parent);
      if w.Err? then Err(w.error)
      else if w.value.chain == [] then Ok([])
      else if w.value.stop != finalized && w.value.stop !in known then Err(NotDescendantOfFinalized)
      else Ok(w.value.chain)
  }

  // ----- The code's loops -----

  function Reversed<T>(s: seq<T>): seq<T> {
    seq(|s|, i requires 0 <= i < |s| => s[|s| - 1 - i])
  }

  method Reverse<T>(s: seq<T>) returns (r: seq<T>)
    ensures r == Reversed(s)
  {
    r := s;
    var i, j := 0, |s| - 1;
    while i < j
      invariant i + j == |s| - 1 && i <= j + 1 && |r| == |s|
      invariant forall k :: 0 <= k < i || j < k < |s| ==> r[k] == s[|s| - 1 - k]
      invariant forall k :: i <= k <= j ==> r[k] == s[k]
    {
      r := r[i := r[j]][j := r[i]];
      i, j := i + 1, j - 1;
    }
  }

  method FillInForkChoiceMissingBlocks(db: Database, known: set<Root>, finalizedRoot: Root, origin: Root, fSlot: nat,
                                       fEpoch: nat, jEpoch: nat, signed: Block)
    returns (r: Result<seq<Node>>)
    requires Rising(db)
    ensures var finalized := if finalizedRoot == ZERO_ROOT then origin else finalizedRoot;
            r == Fill(db, known, finalized, fSlot, fEpoch, jEpoch, signed)
  {
    if fEpoch > jEpoch {
      return Err(InvalidCheckpointArgs);
    }
    var pending: seq<Node> := [];
    var root, child := signed.parent, signed;
    assert Reversed(pending) == [];
    AppendNothing(Walk(db, known, fSlot, child, root));
    while root !in known && root in db
      invariant Walk(db, known, fSlot, signed, signed.parent)
             == Append(Walk(db, known, fSlot, child, root), Reversed(pending))
      decreases if root in db then db[root].slot + 1 else 0
    {
      var b := db[root];
      if b.slot <= fSlot {
        break;
      }
      var hasPayload := false;
      if b.gloas {
        var bid := BidOf(child);
        if bid.Err? {
          return Err(bid.error);
        }
        var parentBid := BidOf(b);
        if parentBid.Err? {
          return Err(parentBid.error);
        }
        if bid.value.parentHash == parentBid.value.blockHash {
          hasPayload := true;
        }
      }
      var node := Node(root, b, hasPayload);
      assert Reversed(pending + [node]) == [node] + Reversed(pending);
      AppendTwice(Walk(db, known, fSlot, b, b.parent), [node], Reversed(pending));
      root, child := b.parent, b;
      pending := pending + [node];
    }
    assert Walk(db, known, fSlot, child, root) == Ok(Found([], root));
    assert [] + Reversed(pending) == Reversed(pending);
    if |pending| == 0 {
      return Ok([]);
    }
    if root != EnsureRootNotZeros(finalizedRoot, origin) && root !in known {
      return Err(NotDescendantOfFinalized);
    }
    var chain := Reverse(pending);
    r := Ok(chain);
  }

  lemma AppendTwice(r: Result<Found>, a: seq<Node>, b: seq<Node>)
    ensures Append(Append(r, a), b) == Append(r, a + b)
  {
    if r.Ok? {
      assert r.value.chain + a + b == r.value.chain + (a + b);
    }
  }

  lemma AppendNothing(r: Result<Found>)
    ensures Append(r, []) == r
  {
    if r.Ok? {
      assert r.value.chain + [] == r.value.chain;
    }
  }

  // ----- What is inserted -----

  predicate Linked(chain: seq<Node>) {
    forall i :: 0 <= i < |chain| - 1 ==> chain[i + 1].block.parent == chain[i].root
  }

  predicate Stored(db: Database, known: set<Root>, fSlot: nat, chain: seq<Node>) {
    forall i :: 0 <= i < |chain| ==> Wanted(db, known, fSlot, chain[i].root) && chain[i].block == db[chain[i].root]
  }

  lemma {:induction false} WalkIsChain(db: Database, known: set<Root>, fSlot: nat, child: Block, root: Root, f: Found)
    requires Rising(db) && Walk(db, known, fSlot, child, root) == Ok(f)
    ensures Linked(f.chain) && Stored(db, known, fSlot, f.chain) && !Wanted(db, known, fSlot, f.stop)
    ensures f.chain == [] ==> f.stop == root
    ensures f.chain != [] ==> f.chain[|f.chain| - 1].root == root && f.chain[0].block.parent == f.stop
    decreases if root in db then db[root].slot + 1 else 0
  {
    if Wanted(db, known, fSlot, root) {
      var b := db[root];
      var rest := Walk(db, known, fSlot, b, b.parent).value;
      WalkIsChain(db, known, fSlot, b, b.parent, rest);
      assert f.chain[..|rest.chain|] == rest.chain;
    }
  }

  /** What is inserted is a parent-linked chain of stored blocks after the finalized slot, none of them in fork
      choice, from a child of the finalized root or of a known node up to the incoming block's parent. */
  lemma FillIsChain(db: Database, known: set<Root>, finalized: Root, fSlot: nat, fEpoch: nat, jEpoch: nat,
                    signed: Block, chain: seq<Node>)
    requires Rising(db) && Fill(db, known, finalized, fSlot, fEpoch, jEpoch, signed) == Ok(chain)
    ensures Linked(chain) && Stored(db, known, fSlot, chain)
    ensures chain == [] <==> !Wanted(db, known, fSlot, signed.parent)
    ensures chain != [] ==>
              && chain[|chain| - 1].root == signed.parent
              && (chain[0].block.parent == finalized || chain[0].block.parent in known)
  {
    var w := Walk(db, known, fSlot, signed, signed.parent);
    WalkIsChain(db, known, fSlot, signed, signed.parent, w.value);
  }

  /** Slots rise along the chain, so no block is inserted twice. */
  lemma {:induction false} ChainRises(db: Database, known: set<Root>, fSlot: nat, chain: seq<Node>, i: nat, j: nat)
    requires Rising(db) && Linked(chain) && Stored(db, known, fSlot, chain) && i < j < |chain|
    ensures chain[i].block.slot < chain[j].block.slot && chain[i].root != chain[j].root
    decreases j
  {
    assert chain[(j - 1) + 1].block.parent == chain[j - 1].root;
    if i < j - 1 {
      ChainRises(db, known, fSlot, chain, i, j - 1);
    }
  }

  // ----- Payload status at startup -----

  /** Whether the payload of `b` was delivered, as resolveChainPayloadStatus decides: any doubt means no. */
  predicate Resolves(b: Block, next: Block) {
    b.gloas && next.gloas && b.bid.Some? && next.bid.Some? && next.bid.value.parentHash == b.bid.value.blockHash
  }

  /** What the next block of the chain says about the i-th one. */
  predicate NextResolves(chain: seq<Node>, i: nat)
    requires i < |chain|
  {
    i + 1 < |chain| && Resolves(chain[i].block, chain[i + 1].block)
  }

  /** The chain with every flag resolved. */
  function ResolveAll(chain: seq<Node>): seq<Node> {
    seq(|chain|, i requires 0 <= i < |chain| =>
      chain[i].(hasPayload := chain[i].hasPayload || NextResolves(chain, i)))
  }

  method ResolveChainPayloadStatus(chain: seq<Node>) returns (r: seq<Node>)
    ensures |r| == |chain|
    ensures forall i :: 0 <= i < |r| ==> r[i].root == chain[i].root && r[i].block == chain[i].block
    ensures forall i :: 0 <= i < |r| ==>
              (r[i].hasPayload <==> chain[i].hasPayload || NextResolves(chain, i))
    ensures r == ResolveAll(chain)
  {
    r := chain;
    var i := 0;
    while i < |chain| - 1
      invariant |r| == |chain| && 0 <= i && (chain != [] ==> i < |chain|) && (chain == [] ==> i == 0)
      invariant forall k :: 0 <= k < |r| ==> r[k].root == chain[k].root && r[k].block == chain[k].block
      invariant forall k :: i <= k < |r| ==> r[k].hasPayload == chain[k].hasPayload
      invariant forall k :: 0 <= k < i ==>
                  (r[k].hasPayload <==> chain[k].hasPayload || NextResolves(chain, k))
    {
      var curr, next := r[i].block, r[i + 1].block;
      if curr.gloas && next.gloas {
        var currBid := BidOf(curr);
        if currBid.Ok? {
          var nextBid := BidOf(next);
          if nextBid.Ok? && nextBid.value.parentHash == currBid.value.blockHash {
            r := r[i := r[i].(hasPayload := true)];
          }
        }
      }
      i := i + 1;
    }
  }

  /** Every node's flag is what the block after it says, `top` being the block after the last. */
  predicate Resolved(chain: seq<Node>, top: Block) {
    forall i :: 0 <= i < |chain| ==>
      (chain[i].hasPayload <==> if i == |chain| - 1 then Resolves(chain[i].block, top) else NextResolves(chain, i))
  }

  lemma ResolvedSnoc(chain: seq<Node>, node: Node, top: Block)
    requires Resolved(chain, node.block) && (node.hasPayload <==> Resolves(node.block, top))
    ensures Resolved(chain + [node], top)
  {
    var all := chain + [node];
    forall i | 0 <= i < |all|
      ensures all[i].hasPayload <==> if i == |all| - 1 then Resolves(all[i].block, top) else NextResolves(all, i)
    {
      if i < |chain| {
        assert all[i] == chain[i];
      }
    }
  }

  /** On success the walk's own status agrees with the startup one for every block and its successor in the chain,
      and for the last block and the incoming one. */
  lemma {:induction false} WalkFlags(db: Database, known: set<Root>, fSlot: nat, child: Block, root: Root, f: Found)
    requires Rising(db) && Walk(db, known, fSlot, child, root) == Ok(f)
    ensures Resolved(f.chain, child)
    decreases if root in db then db[root].slot + 1 else 0
  {
    if Wanted(db, known, fSlot, root) {
      var b := db[root];
      var rest := Walk(db, known, fSlot, b, b.parent).value;
      WalkFlags(db, known, fSlot, b, b.parent, rest);
      ResolvedSnoc(rest.chain, Node(root, b, Delivered(child, b).value), child);
    }
  }

  /** The flags of the inserted nodes are those the startup code gives the same chain with the incoming block on
      top. */
  lemma FillFlags(db: Database, known: set<Root>, finalized: Root, fSlot: nat, fEpoch: nat, jEpoch: nat,
                  signed: Block, chain: seq<Node>)
    requires Rising(db) && Fill(db, known, finalized, fSlot, fEpoch, jEpoch, signed) == Ok(chain)
    ensures Resolved(chain, signed)
  {
    var w := Walk(db, known, fSlot, signed, signed.parent);
    WalkFlags(db, known, fSlot, signed, signed.parent, w.value);
  }

  // ----- The chain built at startup -----

  function Build(db: Database, fRoot: Root, fEpoch: nat, root: Root, head: Block): Result<seq<Node>>
    requires Rising(db)
    decreases if head.parent in db then db[head.parent].slot + 1 else 0
  {
    if head.parent == fRoot then Ok([Node(root, head, false)])
    else if head.parent !in db then Err(NilBlock)
    else
      var b := db[head.parent];
      if b.slot / SLOTS_PER_EPOCH < fEpoch then Err(NotDescendantOfFinalized)
      else AppendNodes(Build(db, fRoot, fEpoch, head.parent, b), [Node(root, head, false)])
  }

  function AppendNodes(r: Result<seq<Node>>, nodes: seq<Node>): Result<seq<Node>> {
    if r.Err? then r else Ok(r.value + nodes)
  }

  lemma AppendNodesTwice(r: Result<seq<Node>>, a: seq<Node>, b: seq<Node>)
    ensures AppendNodes(AppendNodes(r, a), b) == AppendNodes(r, a + b)
  {
    if r.Ok? {
      assert r.value + a + b == r.value + (a + b);
    }
  }

  lemma AppendNoNodes(r: Result<seq<Node>>)
    ensures AppendNodes(r, []) == r
  {
    if r.Ok? {
      assert r.value + [] == r.value;
    }
  }

  /** A parent missing from the database is a nil block, which the code dereferences: the error NilBlock. */
  method BuildForkchoiceChain(db: Database, fRoot: Root, fEpoch: nat, headRoot: Root, headBlock: Block)
    returns (r: Result<seq<Node>>)
    requires Rising(db)
    ensures r == Build(db, fRoot, fEpoch, headRoot, headBlock)
  {
    var chain: seq<Node> := [];
    var root, head := headRoot, headBlock;
    assert Reversed(chain) == [];
    AppendNoNodes(Build(db, fRoot, fEpoch, root, head));
    while true
      invariant Build(db, fRoot, fEpoch, headRoot, headBlock)
             == AppendNodes(Build(db, fRoot, fEpoch, root, head), Reversed(chain))
      decreases if head.parent in db then db[head.parent].slot + 1 else 0
    {
      var node := Node(root, head, false);
      assert Reversed(chain + [node]) == [node] + Reversed(chain);
      chain := chain + [node];
      root := head.parent;
      if root == fRoot {
        break;
      }
      if root !in db {
        return Err(NilBlock);
      }
      AppendNodesTwice(Build(db, fRoot, fEpoch, root, db[root]), [node], Reversed(chain[..|chain| - 1]));
      assert chain[..|chain| - 1] + [node] == chain;
      head := db[root];
      if head.slot / SLOTS_PER_EPOCH < fEpoch {
        return Err(NotDescendantOfFinalized);
      }
    }
    chain := Reverse(chain);
    r := Ok(chain);
  }

  function Bare(chain: seq<Node>): seq<Node> {
    seq(|chain|, i requires 0 <= i < |chain| => chain[i].(hasPayload := false))
  }

  lemma {:induction false} WalkIsBuilt(db: Database, fRoot: Root, fEpoch: nat, childRoot: Root, child: Block, f: Found)
    requires Rising(db)
    requires Walk(db, {fRoot}, fEpoch * SLOTS_PER_EPOCH, child, child.parent) == Ok(f) && f.stop == fRoot
    ensures Build(db, fRoot, fEpoch, childRoot, child) == Ok(Bare(f.chain) + [Node(childRoot, child, false)])
    decreases if child.parent in db then db[child.parent].slot + 1 else 0
  {
    var root := child.parent;
    if Wanted(db, {fRoot}, fEpoch * SLOTS_PER_EPOCH, root) {
      var b := db[root];
      var rest := Walk(db, {fRoot}, fEpoch * SLOTS_PER_EPOCH, b, b.parent).value;
      WalkIsBuilt(db, fRoot, fEpoch, root, b, rest);
      EpochOfLater(b.slot, fEpoch);
      assert Bare(f.chain) == Bare(rest.chain) + [Node(root, b, false)];
    } else {
      assert Bare(f.chain) + [Node(childRoot, child, false)] == [Node(childRoot, child, false)];
    }
  }

  lemma EpochOfLater(slot: nat, epoch: nat)
    requires slot > epoch * SLOTS_PER_EPOCH
    ensures slot / SLOTS_PER_EPOCH >= epoch
  {
  }

  /** Resolving the bare chain, with its top block, gives back the flags it was stripped of. */
  lemma ResolveBare(chain: seq<Node>, top: Node)
    requires Resolved(chain, top.block) && !top.hasPayload
    ensures ResolveAll(Bare(chain) + [top]) == chain + [top]
  {
    var bare := Bare(chain) + [top];
    forall i | 0 <= i < |bare| ensures ResolveAll(bare)[i] == (chain + [top])[i] {
      if i < |chain| {
        assert bare[i] == chain[i].(hasPayload := false);
        assert bare[i + 1].block == if i + 1 < |chain| then chain[i + 1].block else top.block;
      }
    }
  }

  /** The two forms agree: where fork choice holds the finalized root only and the incoming block descends from it,
      startup from that block builds and resolves exactly the nodes that are filled in, flags included, and the block
      itself. */
  lemma FillMatchesStartup(db: Database, fRoot: Root, fEpoch: nat, jEpoch: nat, headRoot: Root, head: Block,
                           chain: seq<Node>)
    requires Rising(db) && (chain != [] || head.parent == fRoot)
    requires Fill(db, {fRoot}, fRoot, fEpoch * SLOTS_PER_EPOCH, fEpoch, jEpoch, head) == Ok(chain)
    ensures var b := Build(db, fRoot, fEpoch, headRoot, head);
            b.Ok? && ResolveAll(b.value) == chain + [Node(headRoot, head, false)]
  {
    WalkIsBuilt(db, fRoot, fEpoch, headRoot, head,
                Walk(db, {fRoot}, fEpoch * SLOTS_PER_EPOCH, head, head.parent).value);
    FillFlags(db, {fRoot}, fRoot, fEpoch * SLOTS_PER_EPOCH, fEpoch, jEpoch, head, chain);
    ResolveBare(chain, Node(headRoot, head, false));
  }

  /** Every block below the top is after the finalized slot, and its payload status can be told from the block above. */
  predicate Fillable(b: seq<Node>, fSlot: nat) {
    forall i :: 0 <= i < |b| - 1 ==> b[i].block.slot > fSlot && Above(b, i).Ok?
  }

  function Above(b: seq<Node>, i: nat): Result<bool>
    requires i + 1 < |b|
  {
    Delivered(b[i + 1].block, b[i].block)
  }

  lemma FillableSnoc(rest: seq<Node>, top: Node, fSlot: nat)
    requires rest != []
    ensures var last := rest[|rest| - 1].block;
            Fillable(rest + [top], fSlot)
            <==> Fillable(rest, fSlot) && last.slot > fSlot && Delivered(top.block, last).Ok?
  {
    var b := rest + [top];
    assert forall i :: 0 <= i < |rest| - 1 ==> b[i] == rest[i] && Above(b, i) == Above(rest, i);
    assert b[|rest| - 1] == rest[|rest| - 1] && Above(b, |rest| - 1) == Delivered(top.block, rest[|rest| - 1].block);
    if Fillable(b, fSlot) {
      forall i | 0 <= i < |rest| - 1 ensures rest[i].block.slot > fSlot && Above(rest, i).Ok? {
        assert b[i].block.slot > fSlot && Above(b, i).Ok?;
      }
    }
  }

  lemma BareSnoc(chain: seq<Node>, node: Node)
    ensures Bare(chain + [node]) == Bare(chain) + [node.(hasPayload := false)]
  {
  }

  lemma {:induction false} BuiltIsWalked(db: Database, fRoot: Root, fEpoch: nat, childRoot: Root, child: Block,
                                         b: seq<Node>)
    requires Rising(db) && Build(db, fRoot, fEpoch, childRoot, child) == Ok(b)
    ensures b != [] && b[|b| - 1] == Node(childRoot, child, false)
    ensures var w := Walk(db, {fRoot}, fEpoch * SLOTS_PER_EPOCH, child, child.parent);
            if Fillable(b, fEpoch * SLOTS_PER_EPOCH)
            then w.Ok? && w.value.stop == fRoot && Bare(w.value.chain) == b[..|b| - 1]
            else |b| > 1 && (w.Err? || w.value.stop != fRoot)
    decreases if child.parent in db then db[child.parent].slot + 1 else 0
  {
    var root, fSlot := child.parent, fEpoch * SLOTS_PER_EPOCH;
    if root != fRoot {
      var block := db[root];
      var rest := Build(db, fRoot, fEpoch, root, block).value;
      BuiltIsWalked(db, fRoot, fEpoch, root, block, rest);
      FillableSnoc(rest, Node(childRoot, child, false), fSlot);
      assert b[..|b| - 1] == rest && rest == rest[..|rest| - 1] + [Node(root, block, false)];
      if Wanted(db, {fRoot}, fSlot, root) && Delivered(child, block).Ok? {
        var w := Walk(db, {fRoot}, fSlot, block, block.parent);
        if w.Ok? {
          BareSnoc(w.value.chain, Node(root, block, Delivered(child, block).value));
        }
      }
    } else {
      assert Bare([]) == b[..|b| - 1];
    }
  }

  /** Where startup succeeds, filling in gives the same blocks exactly if every block below the head is after the
      finalized epoch's first slot and every bid that is asked for is there. */
  lemma StartupIsFilledIff(db: Database, fRoot: Root, fEpoch: nat, jEpoch: nat, headRoot: Root, head: Block,
                           b: seq<Node>)
    requires Rising(db) && fEpoch <= jEpoch && Build(db, fRoot, fEpoch, headRoot, head) == Ok(b)
    ensures b != []
    ensures var f := Fill(db, {fRoot}, fRoot, fEpoch * SLOTS_PER_EPOCH, fEpoch, jEpoch, head);
            (f.Ok? && Bare(f.value) == b[..|b| - 1]) <==> Fillable(b, fEpoch * SLOTS_PER_EPOCH)
  {
    BuiltIsWalked(db, fRoot, fEpoch, headRoot, head, b);
    assert |Bare([])| == 0;
  }

  // ----- Ancestors by database -----

  function AncestorByDB(db: Database, r: Root, slot: nat): (a: Option<Root>)
    requires Rising(db)
    ensures a.Some? ==> a.value in db
    decreases if r in db then db[r].slot + 1 else 0
  {
    if r !in db then None
    else if db[r].slot <= slot then Some(r)
    else AncestorByDB(db, db[r].parent, slot)
  }

  /** The n-th block up the parent links. */
  function Nth(db: Database, r: Root, n: nat): (a: Option<Root>)
    ensures a.Some? ==> a.value in db
    decreases n
  {
    if r !in db then None else if n == 0 then Some(r) else Nth(db, db[r].parent, n - 1)
  }

  /** The ancestor is the first block on the way up that is not after the slot. */
  lemma {:induction false} AncestorIsFirst(db: Database, r: Root, slot: nat) returns (n: nat)
    requires Rising(db)
    ensures Nth(db, r, n) == AncestorByDB(db, r, slot)
    ensures AncestorByDB(db, r, slot).Some? ==> db[AncestorByDB(db, r, slot).value].slot <= slot
    ensures forall k: nat :: k < n ==> Nth(db, r, k).Some? && db[Nth(db, r, k).value].slot > slot
    decreases if r in db then db[r].slot + 1 else 0
  {
    n := 0;
    if r in db && db[r].slot > slot {
      var m := AncestorIsFirst(db, db[r].parent, slot);
      n := m + 1;
      forall k: nat | k < n ensures Nth(db, r, k).Some? && db[Nth(db, r, k).value].slot > slot {
        if k > 0 {
          assert Nth(db, r, k) == Nth(db, db[r].parent, k - 1);
        }
      }
    }
  }

  /** Going up in two steps is going up in one. */
  lemma {:induction false} AncestorOfAncestor(db: Database, r: Root, near: nat, far: nat)
    requires Rising(db) && far <= near && AncestorByDB(db, r, near).Some?
    ensures AncestorByDB(db, AncestorByDB(db, r, near).value, far) == AncestorByDB(db, r, far)
    decreases if r in db then db[r].slot + 1 else 0
  {
    if db[r].slot > near {
      AncestorOfAncestor(db, db[r].parent, near, far);
    }
  }

  // ----- When filling in and building succeed -----

  /** The root reached by n parent links, which need not be stored itself. */
  function Link(db: Database, r: Root, n: nat): Root
    requires n > 0 ==> Nth(db, r, n - 1).Some?
  {
    if n == 0 then r else db[Nth(db, r, n - 1).value].parent
  }

  lemma LinkUp(db: Database, r: Root, n: nat)
    requires r in db && (n > 0 ==> Nth(db, db[r].parent, n - 1).Some?)
    ensures Nth(db, r, n).Some? && Link(db, r, n + 1) == Link(db, db[r].parent, n)
  {
  }

  /** The first n blocks up from r are stored, absent from fork choice and after the finalized slot. */
  ghost predicate MissingUp(db: Database, known: set<Root>, fSlot: nat, r: Root, n: nat) {
    forall k: nat :: k < n ==>
      Nth(db, r, k).Some? && Nth(db, r, k).value !in known && db[Nth(db, r, k).value].slot > fSlot
  }

  /** The block that has the k-th block up from r as its parent. */
  function ChildAt(db: Database, child: Block, r: Root, k: nat): Block {
    if k > 0 && Nth(db, r, k - 1).Some? then db[Nth(db, r, k - 1).value] else child
  }

  /** A Gloas block has its bid, and its child has one as well. */
  predicate BidsThere(child: Block, b: Block) {
    b.gloas ==> b.bid.Some? && child.gloas && child.bid.Some?
  }

  ghost predicate BidsUp(db: Database, child: Block, r: Root, n: nat) {
    forall k: nat :: k < n && Nth(db, r, k).Some? ==>
      BidsThere(ChildAt(db, child, r, k), db[Nth(db, r, k).value])
  }

  lemma MissingUpMore(db: Database, known: set<Root>, fSlot: nat, r: Root, n: nat)
    requires r in db && r !in known && db[r].slot > fSlot && MissingUp(db, known, fSlot, db[r].parent, n)
    ensures MissingUp(db, known, fSlot, r, n + 1)
  {
    forall k: nat | k < n + 1
      ensures Nth(db, r, k).Some? && Nth(db, r, k).value !in known && db[Nth(db, r, k).value].slot > fSlot
    {
      if k > 0 {
        assert Nth(db, r, k) == Nth(db, db[r].parent, k - 1);
      }
    }
  }

  lemma BidsUpMore(db: Database, child: Block, r: Root, n: nat)
    requires r in db
    ensures BidsUp(db, child, r, n + 1) <==> BidsThere(child, db[r]) && BidsUp(db, db[r], db[r].parent, n)
  {
    assert Nth(db, r, 0) == Some(r) && ChildAt(db, child, r, 0) == child;
    forall k: nat | k < n
      ensures Nth(db, r, k + 1) == Nth(db, db[r].parent, k)
           && (Nth(db, r, k + 1).Some? ==> ChildAt(db, child, r, k + 1) == ChildAt(db, db[r], db[r].parent, k))
    {
      if k > 0 && Nth(db, r, k + 1).Some? {
        AllBelow(db, db[r].parent, k);
      }
    }
    if BidsUp(db, child, r, n + 1) {
      forall k: nat | k < n && Nth(db, db[r].parent, k).Some?
        ensures BidsThere(ChildAt(db, db[r], db[r].parent, k), db[Nth(db, db[r].parent, k).value])
      {
        assert Nth(db, r, k + 1).Some?;
      }
    }
    if BidsThere(child, db[r]) && BidsUp(db, db[r], db[r].parent, n) {
      forall k: nat | k < n + 1 && Nth(db, r, k).Some?
        ensures BidsThere(ChildAt(db, child, r, k), db[Nth(db, r, k).value])
      {
        if k > 0 {
          assert Nth(db, r, k - 1 + 1) == Nth(db, db[r].parent, k - 1);
        }
      }
    }
  }

  /** Where the k-th block up is stored, so is the one before it. */
  lemma {:induction false} AllBelow(db: Database, r: Root, k: nat)
    requires k > 0 && Nth(db, r, k).Some?
    ensures Nth(db, r, k - 1).Some?
    decreases k
  {
    if k > 1 {
      AllBelow(db, db[r].parent, k - 1);
    }
  }

  lemma {:induction false} WalkSucceedsIff(db: Database, known: set<Root>, fSlot: nat, child: Block, root: Root)
    returns (n: nat)
    requires Rising(db)
    ensures MissingUp(db, known, fSlot, root, n) && (n > 0 ==> Nth(db, root, n - 1).Some?)
    ensures var stop := Link(db, root, n); stop in known || stop !in db || db[stop].slot <= fSlot
    ensures var w := Walk(db, known, fSlot, child, root);
            && (w.Ok? <==> BidsUp(db, child, root, n))
            && (w.Ok? ==> |w.value.chain| == n && w.value.stop == Link(db, root, n))
            && (w.Err? ==> w.error.BidUnsupported? || w.error.BidMissing?)
    decreases if root in db then db[root].slot + 1 else 0
  {
    n := 0;
    if root !in known && root in db && db[root].slot > fSlot {
      var b := db[root];
      var m := WalkSucceedsIff(db, known, fSlot, b, b.parent);
      n := m + 1;
      LinkUp(db, root, m);
      MissingUpMore(db, known, fSlot, root, m);
      BidsUpMore(db, child, root, m);
    }
  }

  /** What is reported for a Gloas block and its child: the child's bid is asked for first. */
  function BidError(child: Block, b: Block): Error {
    if !child.gloas then BidUnsupported(child.slot)
    else if child.bid.None? then BidMissing(child.slot)
    else BidMissing(b.slot)
  }

  /** A walk that fails has met the first block on the way up whose bid, or whose child's bid, is not there. */
  lemma {:induction false} WalkFailsAt(db: Database, known: set<Root>, fSlot: nat, child: Block, root: Root)
    returns (k: nat)
    requires Rising(db) && Walk(db, known, fSlot, child, root).Err?
    ensures MissingUp(db, known, fSlot, root, k + 1) && BidsUp(db, child, root, k)
    ensures var c, b := ChildAt(db, child, root, k), db[Nth(db, root, k).value];
            !BidsThere(c, b) && Walk(db, known, fSlot, child, root) == Err(BidError(c, b))
    decreases if root in db then db[root].slot + 1 else 0
  {
    k := 0;
    var b := db[root];
    MissingUpMore(db, known, fSlot, root, 0);
    if BidsThere(child, b) {
      var j := WalkFailsAt(db, known, fSlot, b, b.parent);
      k := j + 1;
      MissingUpMore(db, known, fSlot, root, k);
      BidsUpMore(db, child, root, j);
      ChildUp(db, child, root, j);
    }
  }

  lemma ChildUp(db: Database, child: Block, r: Root, k: nat)
    requires r in db && Nth(db, db[r].parent, k).Some?
    ensures Nth(db, r, k + 1) == Nth(db, db[r].parent, k)
    ensures ChildAt(db, child, r, k + 1) == ChildAt(db, db[r], db[r].parent, k)
  {
    if k > 0 {
      AllBelow(db, db[r].parent, k);
    }
  }

  /** With checkpoints in order, filling in succeeds exactly if every bid asked for on the way up is there and, where
      there is anything to fill in, the first root up the links that needs no filling in is the finalized root or a
      known node. Each block up to that root is inserted. */
  lemma FillSucceedsIff(db: Database, known: set<Root>, finalized: Root, fSlot: nat, fEpoch: nat, jEpoch: nat,
                        signed: Block) returns (n: nat)
    requires Rising(db) && fEpoch <= jEpoch
    ensures MissingUp(db, known, fSlot, signed.parent, n) && (n > 0 ==> Nth(db, signed.parent, n - 1).Some?)
    ensures var stop := Link(db, signed.parent, n); stop in known || stop !in db || db[stop].slot <= fSlot
    ensures var f, stop := Fill(db, known, finalized, fSlot, fEpoch, jEpoch, signed), Link(db, signed.parent, n);
            && (f.Ok? <==> BidsUp(db, signed, signed.parent, n) && (n == 0 || stop == finalized || stop in known))
            && (f.Ok? ==> |f.value| == n)
            && (f == Err(NotDescendantOfFinalized) <==>
                  BidsUp(db, signed, signed.parent, n) && n > 0 && stop != finalized && stop !in known)
  {
    n := WalkSucceedsIff(db, known, fSlot, signed, signed.parent);
  }

  /** The first n blocks up from r are stored, none is the finalized root, and all are of its epoch or later. */
  ghost predicate LaterUp(db: Database, fRoot: Root, fEpoch: nat, r: Root, n: nat) {
    forall k: nat :: k < n ==>
      && Nth(db, r, k).Some? && Nth(db, r, k).value != fRoot
      && db[Nth(db, r, k).value].slot / SLOTS_PER_EPOCH >= fEpoch
  }

  lemma LaterUpMore(db: Database, fRoot: Root, fEpoch: nat, r: Root, n: nat)
    requires r in db && r != fRoot && db[r].slot / SLOTS_PER_EPOCH >= fEpoch
    requires LaterUp(db, fRoot, fEpoch, db[r].parent, n)
    ensures LaterUp(db, fRoot, fEpoch, r, n + 1)
  {
    forall k: nat | k < n + 1
      ensures Nth(db, r, k).Some? && Nth(db, r, k).value != fRoot
           && db[Nth(db, r, k).value].slot / SLOTS_PER_EPOCH >= fEpoch
    {
      if k > 0 {
        assert Nth(db, r, k) == Nth(db, db[r].parent, k - 1);
      }
    }
  }

  /** Startup succeeds exactly if the links lead to the finalized root through stored blocks of its epoch or later, and
      then gives all of them and the head; a missing block and an earlier one are told apart. */
  lemma {:induction false} BuildSucceedsIff(db: Database, fRoot: Root, fEpoch: nat, headRoot: Root, head: Block)
    returns (n: nat)
    requires Rising(db)
    ensures LaterUp(db, fRoot, fEpoch, head.parent, n) && (n > 0 ==> Nth(db, head.parent, n - 1).Some?)
    ensures var b, stop := Build(db, fRoot, fEpoch, headRoot, head), Link(db, head.parent, n);
            && (stop == fRoot || stop !in db || db[stop].slot / SLOTS_PER_EPOCH < fEpoch)
            && (b.Ok? <==> stop == fRoot) && (b.Ok? ==> |b.value| == n + 1)
            && (b.Err? ==> b.error == if stop !in db then NilBlock else NotDescendantOfFinalized)
    decreases if head.parent in db then db[head.parent].slot + 1 else 0
  {
    n := 0;
    var root := head.parent;
    if root != fRoot && root in db && db[root].slot / SLOTS_PER_EPOCH >= fEpoch {
      var m := BuildSucceedsIff(db, fRoot, fEpoch, root, db[root]);
      n := m + 1;
      LinkUp(db, root, m);
      LaterUpMore(db, fRoot, fEpoch, root, m);
    }
  }
}

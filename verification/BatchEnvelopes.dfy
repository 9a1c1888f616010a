/** Matching payload envelopes to the blocks of an import batch, in beacon-chain/blockchain/process_block.go:
    onBlockBatch joins signatures along a two-pointer walk, notifyEngineAndSaveData looks envelopes up in a map. */
module BatchEnvelopes {
  import opened Wrappers

  type Root = nat
  type Hash = nat

  const ZERO_ROOT: Root := 0

  datatype Block = Block(root: Root, gloas: bool, parentHash: Hash)
  datatype Envelope = Envelope(root: Root, blockHash: Hash)

  /** A block and an envelope of the batch, by position. */
  datatype Pair = Pair(block: nat, envelope: nat)

  /** The first envelope belongs to the batch's parent when the first block builds on its payload. */
  predicate Applied(blocks: seq<Block>, envs: seq<Envelope>)
    requires blocks != []
  {
    envs != [] && blocks[0].gloas && envs[0].blockHash == blocks[0].parentHash
  }

  function First(blocks: seq<Block>, envs: seq<Envelope>): (e: nat)
    requires blocks != []
    ensures e <= |envs|
  {
    if Applied(blocks, envs) then 1 else 0
  }

  // ----- The walk -----

  function Walk(blocks: seq<Block>, envs: seq<Envelope>, i: nat, e: nat): seq<Pair>
    requires i <= |blocks| && e <= |envs|
    decreases |blocks| - i
  {
    if i == |blocks| then []
    else if e < |envs| && blocks[i].root == envs[e].root then [Pair(i, e)] + Walk(blocks, envs, i + 1, e + 1)
    else Walk(blocks, envs, i + 1, e)
  }

  function Envelopes(pairs: seq<Pair>): seq<nat> {
    seq(|pairs|, k requires 0 <= k < |pairs| => pairs[k].envelope)
  }

  function Upto(from: nat, to: nat): seq<nat>
    requires from <= to
  {
    seq(to - from, k => from + k)
  }

  /** The envelopes whose signature sets are joined. */
  function Joined(blocks: seq<Block>, envs: seq<Envelope>): seq<nat>
    requires blocks != []
  {
    Upto(0, First(blocks, envs)) + Envelopes(Walk(blocks, envs, 0, First(blocks, envs)))
  }

  function BlocksOf(pairs: seq<Pair>): seq<nat> {
    seq(|pairs|, k requires 0 <= k < |pairs| => pairs[k].block)
  }

  /** `joined` lists the envelopes whose signature sets go into the batch, in order. */
  method JoinEnvelopes(blocks: seq<Block>, envs: seq<Envelope>) returns (pairs: seq<Pair>, joined: seq<nat>)
    requires blocks != []
    ensures pairs == Walk(blocks, envs, 0, First(blocks, envs))
    ensures joined == Upto(0, First(blocks, envs)) + Envelopes(pairs) == Joined(blocks, envs)
  {
    pairs, joined := [], [];
    var eidx, br := 0, ZERO_ROOT;
    if Applied(blocks, envs) {
      eidx := 1;
      joined := joined + [0];
    }
    ghost var first := eidx;
    if eidx < |envs| {
      br := envs[eidx].root;
    }
    for i := 0 to |blocks|
      invariant eidx <= |envs| && (eidx < |envs| ==> br == envs[eidx].root)
      invariant Walk(blocks, envs, 0, first) == pairs + Walk(blocks, envs, i, eidx)
      invariant joined == Upto(0, first) + Envelopes(pairs)
    {
      if blocks[i].root == br && eidx < |envs| {
        pairs := pairs + [Pair(i, eidx)];
        joined := joined + [eidx];
        eidx := eidx + 1;
        if eidx < |envs| {
          br := envs[eidx].root;
        } else {
          br := ZERO_ROOT;
        }
      }
    }
  }

  /** Block positions rise, envelope positions are consecutive, and paired roots agree. */
  predicate Shape(blocks: seq<Block>, envs: seq<Envelope>, i: nat, e: nat, ps: seq<Pair>) {
    && e + |ps| <= |envs|
    && (forall k :: 0 <= k < |ps| ==>
          && i <= ps[k].block < |blocks| && ps[k].envelope == e + k
          && blocks[ps[k].block].root == envs[ps[k].envelope].root)
    && (forall k, l :: 0 <= k < l < |ps| ==> ps[k].block < ps[l].block)
  }

  lemma {:induction false} WalkShape(blocks: seq<Block>, envs: seq<Envelope>, i: nat, e: nat)
    requires i <= |blocks| && e <= |envs|
    ensures Shape(blocks, envs, i, e, Walk(blocks, envs, i, e))
    decreases |blocks| - i
  {
    if i < |blocks| {
      if e < |envs| && blocks[i].root == envs[e].root {
        WalkShape(blocks, envs, i + 1, e + 1);
        ShapeCons(blocks, envs, i, e, Walk(blocks, envs, i + 1, e + 1));
      } else {
        WalkShape(blocks, envs, i + 1, e);
      }
    }
  }

  lemma ShapeCons(blocks: seq<Block>, envs: seq<Envelope>, i: nat, e: nat, ps: seq<Pair>)
    requires i < |blocks| && e < |envs| && blocks[i].root == envs[e].root && Shape(blocks, envs, i + 1, e + 1, ps)
    ensures Shape(blocks, envs, i, e, [Pair(i, e)] + ps)
  {
  }

  // ----- Envelopes in block order -----

  /** The envelopes from `e` up to `cut` name blocks from `i` on, in block order, `at` giving the positions. */
  predicate InOrder(blocks: seq<Block>, envs: seq<Envelope>, i: nat, e: nat, cut: nat, at: seq<nat>) {
    && e <= cut <= |envs| && |at| == cut - e
    && (forall k :: 0 <= k < |at| ==> i <= at[k] < |blocks| && blocks[at[k]].root == envs[e + k].root)
    && (forall k, l :: 0 <= k < l < |at| ==> at[k] < at[l])
  }

  lemma InOrderTail(blocks: seq<Block>, envs: seq<Envelope>, i: nat, e: nat, cut: nat, at: seq<nat>)
    requires InOrder(blocks, envs, i, e, cut, at) && at != []
    ensures InOrder(blocks, envs, i + 1, e + 1, cut, at[1..])
  {
    var rest := at[1..];
    forall k | 0 <= k < |rest|
      ensures i + 1 <= rest[k] < |blocks| && blocks[rest[k]].root == envs[e + 1 + k].root
    {
      assert rest[k] == at[k + 1] && at[0] < at[k + 1];
      assert envs[e + (k + 1)] == envs[e + 1 + k];
    }
  }

  /** The greedy walk misses no envelope that some increasing placement reaches. */
  lemma {:induction false} WalkReaches(blocks: seq<Block>, envs: seq<Envelope>, i: nat, e: nat, cut: nat, at: seq<nat>)
    requires i <= |blocks| && InOrder(blocks, envs, i, e, cut, at)
    ensures e + |Walk(blocks, envs, i, e)| >= cut
    decreases |blocks| - i
  {
    if at != [] {
      assert i <= at[0] < |blocks|;
      if blocks[i].root == envs[e].root {
        InOrderTail(blocks, envs, i, e, cut, at);
        WalkReaches(blocks, envs, i + 1, e + 1, cut, at[1..]);
      } else {
        assert at[0] != i;
        WalkReaches(blocks, envs, i + 1, e, cut, at);
      }
    }
  }

  /** Every envelope's signature set is joined, once, exactly when the envelopes after the parent's come in block
      order: one half. */
  lemma AllJoinedIf(blocks: seq<Block>, envs: seq<Envelope>, at: seq<nat>)
    requires blocks != [] && InOrder(blocks, envs, 0, First(blocks, envs), |envs|, at)
    ensures Joined(blocks, envs) == Upto(0, |envs|)
  {
    var first := First(blocks, envs);
    WalkReaches(blocks, envs, 0, first, |envs|, at);
    WalkShape(blocks, envs, 0, first);
  }

  /** The other half, with the placement. */
  lemma AllJoinedOnlyIf(blocks: seq<Block>, envs: seq<Envelope>) returns (at: seq<nat>)
    requires blocks != [] && Joined(blocks, envs) == Upto(0, |envs|)
    ensures InOrder(blocks, envs, 0, First(blocks, envs), |envs|, at)
  {
    var first := First(blocks, envs);
    var ps := Walk(blocks, envs, 0, first);
    WalkShape(blocks, envs, 0, first);
    assert |Upto(0, first) + Envelopes(ps)| == first + |ps|;
    at := BlocksOf(ps);
  }

  lemma {:induction false} WalkNone(blocks: seq<Block>, envs: seq<Envelope>, i: nat, e: nat)
    requires i <= |blocks| && e < |envs| && forall k :: i <= k < |blocks| ==> blocks[k].root != envs[e].root
    ensures Walk(blocks, envs, i, e) == []
    decreases |blocks| - i
  {
    if i < |blocks| {
      WalkNone(blocks, envs, i + 1, e);
    }
  }

  /** The first envelope is joined exactly if the first block is a Gloas block that builds on its payload, so that it is
      the parent's, or some block of the batch has its root; otherwise no envelope at all is joined. */
  lemma FirstJoinedIff(blocks: seq<Block>, envs: seq<Envelope>)
    requires blocks != [] && envs != []
    ensures 0 in Joined(blocks, envs)
       <==> (blocks[0].gloas && envs[0].blockHash == blocks[0].parentHash)
            || exists k :: 0 <= k < |blocks| && blocks[k].root == envs[0].root
    ensures 0 !in Joined(blocks, envs) ==> Joined(blocks, envs) == []
  {
    var first := First(blocks, envs);
    var ps := Walk(blocks, envs, 0, first);
    WalkShape(blocks, envs, 0, first);
    if first == 1 {
      assert Joined(blocks, envs)[0] == 0;
    } else if exists k :: 0 <= k < |blocks| && blocks[k].root == envs[0].root {
      var k :| 0 <= k < |blocks| && blocks[k].root == envs[0].root;
      WalkReaches(blocks, envs, 0, 0, 1, [k]);
      assert Joined(blocks, envs)[0] == ps[0].envelope == 0;
    } else {
      WalkNone(blocks, envs, 0, 0);
    }
  }

  // ----- The lookup -----

  /** What the map holds for a root: the last envelope that names it. */
  function LastIndex(envs: seq<Envelope>, root: Root): (r: Option<nat>)
    ensures r.Some? ==> r.value < |envs| && envs[r.value].root == root
    ensures r.Some? ==> forall j :: r.value < j < |envs| ==> envs[j].root != root
    ensures r.None? ==> forall j :: 0 <= j < |envs| ==> envs[j].root != root
  {
    if envs == [] then None
    else if envs[|envs| - 1].root == root then Some(|envs| - 1)
    else LastIndex(envs[..|envs| - 1], root)
  }

  function Lookup(blocks: seq<Block>, envs: seq<Envelope>, i: nat): seq<Pair>
    requires i <= |blocks|
    decreases |blocks| - i
  {
    if i == |blocks| then []
    else if blocks[i].gloas && LastIndex(envs, blocks[i].root).Some?
    then [Pair(i, LastIndex(envs, blocks[i].root).value)] + Lookup(blocks, envs, i + 1)
    else Lookup(blocks, envs, i + 1)
  }

  method IndexEnvelopes(envs: seq<Envelope>) returns (envMap: map<Root, nat>)
    ensures forall r :: r in envMap <==> LastIndex(envs, r).Some?
    ensures forall r :: r in envMap ==> LastIndex(envs, r) == Some(envMap[r])
  {
    envMap := map[];
    for i := 0 to |envs|
      invariant forall r :: r in envMap <==> LastIndex(envs[..i], r).Some?
      invariant forall r :: r in envMap ==> LastIndex(envs[..i], r) == Some(envMap[r])
    {
      assert envs[..i + 1][..i] == envs[..i];
      envMap := envMap[envs[i].root := i];
    }
    assert envs[..|envs|] == envs;
  }

  method LookUpEnvelopes(blocks: seq<Block>, envs: seq<Envelope>) returns (pairs: seq<Pair>)
    ensures pairs == Lookup(blocks, envs, 0)
  {
    var envMap := IndexEnvelopes(envs);
    pairs := [];
    for i := 0 to |blocks|
      invariant Lookup(blocks, envs, 0) == pairs + Lookup(blocks, envs, i)
    {
      if blocks[i].gloas {
        if blocks[i].root in envMap {
          pairs := pairs + [Pair(i, envMap[blocks[i].root])];
        }
      }
    }
  }

  lemma {:induction false} LookupHas(blocks: seq<Block>, envs: seq<Envelope>, i: nat, k: nat)
    requires i <= k < |blocks| && blocks[k].gloas && LastIndex(envs, blocks[k].root).Some?
    ensures Pair(k, LastIndex(envs, blocks[k].root).value) in Lookup(blocks, envs, i)
    decreases |blocks| - i
  {
    if i < k {
      LookupHas(blocks, envs, i + 1, k);
    }
  }

  // ----- The two agree -----

  predicate DistinctBlocks(blocks: seq<Block>) {
    forall i, j :: 0 <= i < j < |blocks| ==> blocks[i].root != blocks[j].root
  }

  predicate DistinctEnvelopes(envs: seq<Envelope>) {
    forall i, j :: 0 <= i < j < |envs| ==> envs[i].root != envs[j].root
  }

  /** Only the envelopes from e up to `cut` name Gloas blocks from i on. */
  predicate ForeignOutside(blocks: seq<Block>, envs: seq<Envelope>, i: nat, e: nat, cut: nat) {
    forall j, k :: 0 <= j < |envs| && !(e <= j < cut) && i <= k < |blocks| && blocks[k].gloas ==>
      blocks[k].root != envs[j].root
  }

  predicate GloasAt(blocks: seq<Block>, at: seq<nat>) {
    forall k :: 0 <= k < |at| ==> at[k] < |blocks| && blocks[at[k]].gloas
  }

  /** Envelope `cut`, if there is one, names no block from i on that comes after those at `at`. */
  predicate Stalls(blocks: seq<Block>, envs: seq<Envelope>, i: nat, cut: nat, at: seq<nat>) {
    cut < |envs| ==> forall k :: After(i, at) <= k < |blocks| ==> blocks[k].root != envs[cut].root
  }

  function After(i: nat, at: seq<nat>): nat {
    if at == [] then i else at[|at| - 1] + 1
  }

  /** From block i and envelope e on: the envelopes up to `cut` name Gloas blocks in block order, no other envelope
      names a Gloas block, and the one at `cut` names no later block at all. */
  predicate Agreeable(blocks: seq<Block>, envs: seq<Envelope>, i: nat, e: nat, cut: nat, at: seq<nat>) {
    && InOrder(blocks, envs, i, e, cut, at) && GloasAt(blocks, at)
    && ForeignOutside(blocks, envs, i, e, cut) && Stalls(blocks, envs, i, cut, at)
  }

  /** A Gloas block i is named by envelope e only, or by none. */
  lemma LastIndexHere(blocks: seq<Block>, envs: seq<Envelope>, i: nat, e: nat, cut: nat, at: seq<nat>)
    requires i < |blocks| && blocks[i].gloas && DistinctBlocks(blocks) && InOrder(blocks, envs, i, e, cut, at)
    requires ForeignOutside(blocks, envs, i, e, cut)
    ensures at != [] && at[0] == i ==> LastIndex(envs, blocks[i].root) == Some(e)
    ensures at == [] || at[0] != i ==> LastIndex(envs, blocks[i].root) == None
  {
    var r := LastIndex(envs, blocks[i].root);
    if r.Some? {
      var j := r.value;
      assert e <= j < cut;
      assert blocks[at[j - e]].root == envs[e + (j - e)].root;
      assert at[j - e] == i;
    }
  }

  /** Taking the first placed block off. */
  lemma AgreeableTail(blocks: seq<Block>, envs: seq<Envelope>, i: nat, e: nat, cut: nat, at: seq<nat>)
    requires Agreeable(blocks, envs, i, e, cut, at) && at != [] && at[0] == i && DistinctBlocks(blocks)
    ensures Agreeable(blocks, envs, i + 1, e + 1, cut, at[1..])
  {
    InOrderTail(blocks, envs, i, e, cut, at);
    assert blocks[i].root == envs[e].root;
  }

  /** Skipping a block that is not placed: the walk does not match it. */
  lemma AgreeableSkip(blocks: seq<Block>, envs: seq<Envelope>, i: nat, e: nat, cut: nat, at: seq<nat>)
    requires i < |blocks| && Agreeable(blocks, envs, i, e, cut, at) && (at == [] || at[0] != i)
    requires DistinctBlocks(blocks)
    ensures Agreeable(blocks, envs, i + 1, e, cut, at)
    ensures e < |envs| ==> blocks[i].root != envs[e].root
  {
    if at == [] {
      assert e == cut;
    } else {
      assert blocks[at[0]].root == envs[e].root && i < at[0];
      assert forall k :: 0 < k < |at| ==> at[0] < at[k];
    }
  }

  lemma {:induction false} WalkIsLookup(blocks: seq<Block>, envs: seq<Envelope>, i: nat, e: nat, cut: nat, at: seq<nat>)
    requires i <= |blocks| && DistinctBlocks(blocks) && Agreeable(blocks, envs, i, e, cut, at)
    ensures Walk(blocks, envs, i, e) == Lookup(blocks, envs, i)
    decreases |blocks| - i
  {
    if i < |blocks| {
      if blocks[i].gloas {
        LastIndexHere(blocks, envs, i, e, cut, at);
      }
      if at != [] && at[0] == i {
        assert blocks[at[0]].gloas && blocks[i].root == envs[e].root;
        AgreeableTail(blocks, envs, i, e, cut, at);
        WalkIsLookup(blocks, envs, i + 1, e + 1, cut, at[1..]);
      } else {
        AgreeableSkip(blocks, envs, i, e, cut, at);
        WalkIsLookup(blocks, envs, i + 1, e, cut, at);
      }
    }
  }

  /** With distinct block roots, envelopes of Gloas blocks in block order and nothing but an applied parent
      envelope before them, the walk pairs exactly what the map lookup uses, and every envelope is joined once. */
  lemma PairsAgree(blocks: seq<Block>, envs: seq<Envelope>, at: seq<nat>)
    requires blocks != [] && DistinctBlocks(blocks) && GloasAt(blocks, at)
    requires InOrder(blocks, envs, 0, First(blocks, envs), |envs|, at)
    requires Applied(blocks, envs) ==> forall k :: 0 <= k < |blocks| ==> blocks[k].root != envs[0].root
    ensures var first := First(blocks, envs);
            && Walk(blocks, envs, 0, first) == Lookup(blocks, envs, 0)
            && Upto(0, first) + Envelopes(Lookup(blocks, envs, 0)) == Upto(0, |envs|)
  {
    WalkIsLookup(blocks, envs, 0, First(blocks, envs), |envs|, at);
    AllJoinedIf(blocks, envs, at);
  }

  lemma {:induction false} LookupGloas(blocks: seq<Block>, envs: seq<Envelope>, i: nat, p: Pair)
    requires i <= |blocks| && p in Lookup(blocks, envs, i)
    ensures p.block < |blocks| && blocks[p.block].gloas
    decreases |blocks| - i
  {
    if !(blocks[i].gloas && LastIndex(envs, blocks[i].root).Some? && p == Lookup(blocks, envs, i)[0]) {
      LookupGloas(blocks, envs, i + 1, p);
    }
  }

  /** The walk passes by every later block that the next envelope could name. */
  lemma {:induction false} WalkStalls(blocks: seq<Block>, envs: seq<Envelope>, i: nat, e: nat, ps: seq<Pair>, k: nat)
    requires i <= |blocks| && e <= |envs| && ps == Walk(blocks, envs, i, e) && e + |ps| < |envs|
    requires (if ps == [] then i else ps[|ps| - 1].block + 1) <= k < |blocks|
    ensures blocks[k].root != envs[e + |ps|].root
    decreases |blocks| - i
  {
    if blocks[i].root == envs[e].root {
      var rest := Walk(blocks, envs, i + 1, e + 1);
      assert ps == [Pair(i, e)] + rest && (rest != [] ==> ps[|ps| - 1] == rest[|rest| - 1]);
      WalkStalls(blocks, envs, i + 1, e + 1, rest, k);
    } else if i < k || ps != [] {
      WalkShape(blocks, envs, i + 1, e);
      WalkStalls(blocks, envs, i + 1, e, ps, k);
    }
  }

  lemma LookupIsForeignOutside(blocks: seq<Block>, envs: seq<Envelope>, e: nat, ps: seq<Pair>)
    requires DistinctEnvelopes(envs) && ps == Lookup(blocks, envs, 0) && Shape(blocks, envs, 0, e, ps)
    ensures ForeignOutside(blocks, envs, 0, e, e + |ps|)
  {
    assert forall p :: p in ps ==> e <= p.envelope < e + |ps|;
    forall j, k | 0 <= j < |envs| && !(e <= j < e + |ps|) && 0 <= k < |blocks| && blocks[k].gloas
      ensures blocks[k].root != envs[j].root
    {
      LookupNamed(blocks, envs, j, k);
    }
  }

  lemma LookupIsGloas(blocks: seq<Block>, envs: seq<Envelope>, ps: seq<Pair>)
    requires ps == Lookup(blocks, envs, 0)
    ensures GloasAt(blocks, BlocksOf(ps))
  {
    forall k | 0 <= k < |ps| ensures ps[k].block < |blocks| && blocks[ps[k].block].gloas {
      assert ps[k] in ps;
      LookupGloas(blocks, envs, 0, ps[k]);
    }
  }

  lemma WalkIsInOrder(blocks: seq<Block>, envs: seq<Envelope>, e: nat, ps: seq<Pair>)
    requires e <= |envs| && ps == Walk(blocks, envs, 0, e)
    ensures InOrder(blocks, envs, 0, e, e + |ps|, BlocksOf(ps)) && Stalls(blocks, envs, 0, e + |ps|, BlocksOf(ps))
  {
    WalkShape(blocks, envs, 0, e);
    if e + |ps| < |envs| {
      forall k | After(0, BlocksOf(ps)) <= k < |blocks| ensures blocks[k].root != envs[e + |ps|].root {
        WalkStalls(blocks, envs, 0, e, ps, k);
      }
    }
  }

  lemma AgreeOnlyIf(blocks: seq<Block>, envs: seq<Envelope>, e: nat) returns (cut: nat, at: seq<nat>)
    requires e <= |envs| && DistinctEnvelopes(envs) && Walk(blocks, envs, 0, e) == Lookup(blocks, envs, 0)
    ensures Agreeable(blocks, envs, 0, e, cut, at)
  {
    var ps := Walk(blocks, envs, 0, e);
    WalkShape(blocks, envs, 0, e);
    cut, at := e + |ps|, BlocksOf(ps);
    LookupIsForeignOutside(blocks, envs, e, ps);
    LookupIsGloas(blocks, envs, ps);
    WalkIsInOrder(blocks, envs, e, ps);
  }

  /** In a batch of distinct blocks and distinct envelopes, before, across or after the fork, walk and lookup agree
      exactly if the envelopes that name Gloas blocks come first, after an applied one and in block order, and the
      next envelope names no block the walk has yet to see. */
  lemma AgreeIff(blocks: seq<Block>, envs: seq<Envelope>, e: nat)
    requires e <= |envs| && DistinctBlocks(blocks) && DistinctEnvelopes(envs)
    ensures Walk(blocks, envs, 0, e) == Lookup(blocks, envs, 0)
       <==> exists cut: nat, at: seq<nat> :: Agreeable(blocks, envs, 0, e, cut, at)
  {
    if Walk(blocks, envs, 0, e) == Lookup(blocks, envs, 0) {
      var cut, at := AgreeOnlyIf(blocks, envs, e);
    } else {
      forall cut: nat, at: seq<nat> ensures !Agreeable(blocks, envs, 0, e, cut, at) {
        if Agreeable(blocks, envs, 0, e, cut, at) {
          WalkIsLookup(blocks, envs, 0, e, cut, at);
        }
      }
    }
  }

  lemma LookupNamed(blocks: seq<Block>, envs: seq<Envelope>, j: nat, k: nat)
    requires j < |envs| && k < |blocks| && blocks[k].gloas && DistinctEnvelopes(envs)
    ensures blocks[k].root == envs[j].root ==> Pair(k, j) in Lookup(blocks, envs, 0)
  {
    if blocks[k].root == envs[j].root {
      assert LastIndex(envs, blocks[k].root) == Some(j);
      LookupHas(blocks, envs, 0, k);
    }
  }

  /** Two envelopes against block order: the lookup uses both, the walk has joined one. */
  lemma OutOfOrder(a: Root, b: Root, hash: Hash)
    requires a != b
    ensures var blocks := [Block(a, true, hash), Block(b, true, hash)];
            var envs := [Envelope(b, hash + 1), Envelope(a, hash + 1)];
            && First(blocks, envs) == 0
            && Walk(blocks, envs, 0, 0) == [Pair(1, 0)]
            && Lookup(blocks, envs, 0) == [Pair(0, 1), Pair(1, 0)]
  {
    var blocks := [Block(a, true, hash), Block(b, true, hash)];
    var envs := [Envelope(b, hash + 1), Envelope(a, hash + 1)];
    assert Walk(blocks, envs, 2, 1) == [] && Lookup(blocks, envs, 2) == [];
    assert Walk(blocks, envs, 1, 0) == [Pair(1, 0)];
    assert LastIndex(envs, a) == Some(1) && LastIndex(envs, b) == Some(0);
    assert Lookup(blocks, envs, 1) == [Pair(1, 0)];
  }
}

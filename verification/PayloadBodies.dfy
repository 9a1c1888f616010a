/** Rebuilding full blocks from blinded ones: beacon-chain/execution/payload_body.go. The execution client is an
    oracle that may fail, answer with the wrong number of bodies, or leave bodies out. */
module PayloadBodies {
  import opened Wrappers

  type Hash = nat
  type Body = nat

  const ZERO_HASH: Hash := 0

  datatype Error = NotBlinded | NilHeader | CallFailed | InvalidResponse | NilBody
  datatype Result<T> = Ok(value: T) | Err(error: Error)

  datatype Header = Header(hash: Hash, number: nat)
  datatype Block = Block(id: nat, blinded: bool, header: Option<Header>)

  datatype Payload = Empty | Full(body: Body)
  datatype Unblinded = Unblinded(id: nat, payload: Payload)

  // ----- Ranges of consecutive numbers -----

  datatype Numbered = Numbered(hash: Hash, number: nat)
  datatype Range = Range(start: nat, count: nat, members: seq<Numbered>)

  predicate Sorted(s: seq<Numbered>) {
    forall i, j :: 0 <= i < j < |s| ==> s[i].number <= s[j].number
  }

  function Insert(x: Numbered, s: seq<Numbered>): seq<Numbered> {
    if s == [] || x.number <= s[0].number then [x] + s else [s[0]] + Insert(x, s[1..])
  }

  function Sort(s: seq<Numbered>): seq<Numbered> {
    if s == [] then [] else Insert(s[0], Sort(s[1..]))
  }

  lemma {:induction false} InsertHolds(x: Numbered, s: seq<Numbered>)
    ensures multiset(Insert(x, s)) == multiset{x} + multiset(s)
  {
    if s != [] && x.number > s[0].number {
      InsertHolds(x, s[1..]);
      assert s == [s[0]] + s[1..];
    }
  }

  lemma {:induction false} InsertSorts(x: Numbered, s: seq<Numbered>)
    requires Sorted(s)
    ensures Sorted(Insert(x, s))
  {
    if s != [] && x.number > s[0].number {
      InsertSorts(x, s[1..]);
      InsertHolds(x, s[1..]);
      var rest := Insert(x, s[1..]);
      forall k | 0 <= k < |rest| ensures s[0].number <= rest[k].number {
        assert rest[k] in multiset(rest);
        assert rest[k] == x || rest[k] in multiset(s[1..]);
        assert rest[k] == x || rest[k] in s[1..];
      }
    }
  }

  lemma {:induction false} SortSorts(s: seq<Numbered>)
    ensures Sorted(Sort(s)) && multiset(Sort(s)) == multiset(s)
  {
    if s != [] {
      SortSorts(s[1..]);
      InsertSorts(s[0], Sort(s[1..]));
      InsertHolds(s[0], Sort(s[1..]));
      assert s == [s[0]] + s[1..];
    }
  }

  function Concat(ranges: seq<Range>): seq<Numbered> {
    if ranges == [] then [] else Concat(ranges[..|ranges| - 1]) + ranges[|ranges| - 1].members
  }

  /** The numbers are start, start + 1 and so on. */
  predicate Consecutive(start: nat, s: seq<Numbered>) {
    s == [] || (s[|s| - 1].number == start + |s| - 1 && Consecutive(start, s[..|s| - 1]))
  }

  lemma {:induction false} ConsecutiveAt(start: nat, s: seq<Numbered>, p: nat)
    requires Consecutive(start, s) && p < |s|
    ensures s[p].number == start + p
  {
    if p < |s| - 1 {
      ConsecutiveAt(start, s[..|s| - 1], p);
    }
  }

  /** A range's members have its numbers, one after the other. */
  predicate IsRun(r: Range) {
    r.count == |r.members| > 0 && Consecutive(r.start, r.members)
  }

  predicate AllRuns(ranges: seq<Range>) {
    forall k :: 0 <= k < |ranges| ==> IsRun(ranges[k])
  }

  predicate Breaks(r: Range, start: nat) {
    start != r.start + r.count
  }

  /** No range could have been continued by the next. */
  predicate Maximal(ranges: seq<Range>) {
    |ranges| < 2
    || (Breaks(ranges[|ranges| - 2], ranges[|ranges| - 1].start) && Maximal(ranges[..|ranges| - 1]))
  }

  lemma {:induction false} MaximalAt(ranges: seq<Range>, k: nat)
    requires Maximal(ranges) && 0 < k < |ranges|
    ensures ranges[k].start != ranges[k - 1].start + ranges[k - 1].count
  {
    if k < |ranges| - 1 {
      MaximalAt(ranges[..|ranges| - 1], k);
    }
  }

  /** Half way: the ranges and the run still open make up what has been seen. */
  predicate Scanned(ranges: seq<Range>, start: nat, run: seq<Numbered>, seen: seq<Numbered>) {
    && seen == Concat(ranges) + run && Consecutive(start, run) && AllRuns(ranges) && Maximal(ranges)
    && (ranges != [] ==> Breaks(ranges[|ranges| - 1], start))
  }

  lemma {:induction false} ScanExtends(ranges: seq<Range>, start: nat, run: seq<Numbered>, seen: seq<Numbered>,
                                       x: Numbered)
    requires Scanned(ranges, start, run, seen) && x.number == start + |run|
    ensures Scanned(ranges, start, run + [x], seen + [x])
  {
    assert (run + [x])[..|run|] == run;
    assert Concat(ranges) + run + [x] == Concat(ranges) + (run + [x]);
  }

  lemma {:induction false} ScanCloses(ranges: seq<Range>, start: nat, run: seq<Numbered>, seen: seq<Numbered>)
    requires Scanned(ranges, start, run, seen) && run != []
    ensures var closed := ranges + [Range(start, |run|, run)];
            Concat(closed) == seen && AllRuns(closed) && Maximal(closed)
  {
    assert (ranges + [Range(start, |run|, run)])[..|ranges|] == ranges;
  }

  lemma Slices(s: seq<Numbered>, i: nat, count: nat)
    requires count <= i < |s|
    ensures s[..i + 1] == s[..i] + [s[i]] && s[i..i + 1] == [s[i]]
    ensures s[i - count..i + 1] == s[i - count..i] + [s[i]]
  {
  }

  lemma {:induction false} ScanReopens(ranges: seq<Range>, start: nat, run: seq<Numbered>, seen: seq<Numbered>,
                                       x: Numbered)
    requires Scanned(ranges, start, run, seen) && run != [] && x.number != start + |run|
    ensures Scanned(ranges + [Range(start, |run|, run)], x.number, [x], seen + [x])
  {
    ScanCloses(ranges, start, run, seen);
    assert [x][..0] == [];
  }

  /** The loop's variables after k hashes: the ranges closed, and the start and length of the open one. */
  datatype Progress = Progress(ranges: seq<Range>, start: nat, count: nat)

  function ScanTo(s: seq<Numbered>, k: nat): (p: Progress)
    requires s != [] && k <= |s|
    ensures p.count <= k && (k > 0 ==> p.count > 0) && (k == 0 ==> p.start == s[0].number)
  {
    if k == 0 then Progress([], s[0].number, 0)
    else
      var p := ScanTo(s, k - 1);
      if s[k - 1].number == p.start + p.count then p.(count := p.count + 1)
      else Progress(p.ranges + [Range(p.start, p.count, s[k - 1 - p.count..k - 1])], s[k - 1].number, 1)
  }

  lemma {:induction false} ScanHolds(s: seq<Numbered>, k: nat, p: Progress, run: seq<Numbered>, seen: seq<Numbered>)
    requires s != [] && k <= |s| && p == ScanTo(s, k) && run == s[k - p.count..k] && seen == s[..k]
    ensures Scanned(p.ranges, p.start, run, seen)
    decreases k
  {
    if k > 0 {
      var i, q := k - 1, ScanTo(s, k - 1);
      var run', seen' := s[i - q.count..i], s[..i];
      ScanHolds(s, i, q, run', seen');
      Slices(s, i, q.count);
      if s[i].number == q.start + q.count {
        ScanExtends(q.ranges, q.start, run', seen', s[i]);
        assert p == q.(count := q.count + 1) && run == run' + [s[i]] && seen == seen' + [s[i]];
      } else {
        ScanReopens(q.ranges, q.start, run', seen', s[i]);
        assert p == Progress(q.ranges + [Range(q.start, |run'|, run')], s[i].number, 1);
        assert run == [s[i]] && seen == seen' + [s[i]];
      }
    } else {
      assert run == [] && seen == [];
    }
  }

  lemma {:induction false} ScanDone(s: seq<Numbered>, p: Progress)
    requires s != [] && p == ScanTo(s, |s|)
    ensures var closed := p.ranges + [Range(p.start, p.count, s[|s| - p.count..])];
            Concat(closed) == s && AllRuns(closed) && Maximal(closed)
  {
    var run := s[|s| - p.count..];
    assert s[..|s|] == s && s[|s| - p.count..|s|] == run;
    ScanHolds(s, |s|, p, run, s);
    ScanCloses(p.ranges, p.start, run, s);
  }

  /** The ranges list every given hash once, by number, in runs of consecutive numbers that are as long as the order
      allows; a repeated number starts a range of its own. */
  method ComputeRanges(hbns: seq<Numbered>) returns (ranges: seq<Range>)
    ensures multiset(Concat(ranges)) == multiset(hbns) && Sorted(Concat(ranges))
    ensures AllRuns(ranges) && Maximal(ranges)
  {
    if hbns == [] {
      return [];
    }
    var s := Sort(hbns);
    SortSorts(hbns);
    assert hbns[0] in multiset(hbns) && hbns[0] in multiset(s);
    ranges := Split(s);
  }

  method Split(s: seq<Numbered>) returns (ranges: seq<Range>)
    requires s != []
    ensures Concat(ranges) == s && AllRuns(ranges) && Maximal(ranges)
  {
    ranges := [];
    var start: nat, count: nat := s[0].number, 0;
    for i := 0 to |s|
      invariant count <= i && Progress(ranges, start, count) == ScanTo(s, i)
    {
      if s[i].number == start + count {
        count := count + 1;
        continue;
      }
      ranges := ranges + [Range(start, count, s[i - count..i])];
      start, count := s[i].number, 1;
    }
    ScanDone(s, Progress(ranges, start, count));
    ranges := ranges + [Range(start, count, s[|s| - count..])];
  }

  lemma {:induction false} InSomeRange(ranges: seq<Range>, x: Numbered) returns (k: nat)
    requires x in Concat(ranges)
    ensures k < |ranges| && x in ranges[k].members
  {
    var n := |ranges| - 1;
    if x in ranges[n].members {
      k := n;
    } else {
      k := InSomeRange(ranges[..n], x);
    }
  }

  // ----- The reconstructor -----

  type Reply = Option<seq<Option<Body>>>

  class Reconstructor {
    /** The execution client: its answer to the k-th call, by hashes or by start and count; None is an error. */
    const byHash: (nat, seq<Hash>) -> Reply
    const byRange: (nat, nat, nat) -> Reply
    /** The chain the answers are measured against; no operation reads it. */
    const bodyOf: Hash -> Body
    const hashAt: nat -> Hash

    var ordered: seq<Block>
    var batch: map<Hash, nat>
    var bodies: map<Hash, Body>
    var calls: nat

    constructor (byHash: (nat, seq<Hash>) -> Reply, byRange: (nat, nat, nat) -> Reply,
                 bodyOf: Hash -> Body, hashAt: nat -> Hash)
      ensures Valid() && ordered == [] && bodies == map[]
      ensures this.byHash == byHash && this.byRange == byRange && this.bodyOf == bodyOf && this.hashAt == hashAt
    {
      this.byHash, this.byRange, this.bodyOf, this.hashAt := byHash, byRange, bodyOf, hashAt;
      ordered, batch, bodies, calls := [], map[], map[], 0;
    }

    /** What is requested is what the blocks taken so far need. */
    ghost predicate Valid()
      reads this
    {
      && (forall b :: b in ordered ==>
            b.blinded && b.header.Some? && (b.header.value.hash == ZERO_HASH || b.header.value.hash in batch))
      && forall h :: h in batch ==>
           h != ZERO_HASH && exists b :: b in ordered && b.header == Some(Header(h, batch[h]))
    }

    ghost predicate RightByHash(hs: seq<Hash>, result: seq<Option<Body>>) {
      forall i :: 0 <= i < |result| && i < |hs| && result[i].Some? ==> result[i].value == bodyOf(hs[i])
    }

    ghost predicate RightByNumber(start: nat, result: seq<Option<Body>>) {
      forall i: nat :: i < |result| && result[i].Some? ==> result[i].value == bodyOf(hashAt(start + i))
    }

    /** The client answers with the right bodies, or with none. */
    ghost predicate Honest() {
      && (forall k, hs :: byHash(k, hs).Some? ==> RightByHash(hs, byHash(k, hs).value))
      && (forall k, start, count :: byRange(k, start, count).Some? ==>
            RightByNumber(start, byRange(k, start, count).value))
    }

    /** The client answers every call in full; only a call by hashes may leave bodies out. */
    ghost predicate Responsive() {
      && (forall k, hs :: byHash(k, hs).Some? && |byHash(k, hs).value| == |hs|)
      && (forall k, start, count :: FullReply(byRange(k, start, count), count))
    }

    /** The client leaves no body out of an answer by hashes. */
    ghost predicate CompleteByHash() {
      forall k, hs :: FullReply(byHash(k, hs), |hs|)
    }

    ghost predicate FullReply(reply: Reply, count: nat) {
      reply.Some? && |reply.value| == count && forall i :: 0 <= i < count ==> reply.value[i].Some?
    }

    /** Every header taken is the chain's header of its number. */
    ghost predicate Canonical(blks: seq<Block>) {
      forall b :: b in blks && b.header.Some? ==> hashAt(b.header.value.number) == b.header.value.hash
    }

    ghost predicate CanonicalBatch()
      reads this`batch
    {
      forall h :: h in batch ==> hashAt(batch[h]) == h
    }

    ghost predicate CanonicalRange(req: Range) {
      forall m :: m in req.members ==> hashAt(m.number) == m.hash
    }

    ghost predicate Right()
      reads this`bodies
    {
      forall h :: h in bodies ==> bodies[h] == bodyOf(h)
    }

    method AddToBatch(b: Block) returns (r: Result<()>)
      requires Valid()
      modifies this`ordered, this`batch
      ensures Valid() && (r.Ok? <==> b.blinded && b.header.Some?)
      ensures ordered == if r.Ok? then old(ordered) + [b] else old(ordered)
      ensures batch == if r.Ok? && b.header.value.hash != ZERO_HASH
                       then old(batch)[b.header.value.hash := b.header.value.number] else old(batch)
    {
      if !b.blinded {
        return Err(NotBlinded);
      }
      if b.header.None? {
        return Err(NilHeader);
      }
      ghost var was := ordered;
      ordered := ordered + [b];
      assert forall x :: x in was ==> x in ordered;
      var hash := b.header.value.hash;
      if hash == ZERO_HASH {
        return Ok(());
      }
      batch := batch[hash := b.header.value.number];
      assert b in ordered && b.header == Some(Header(hash, batch[hash]));
      r := Ok(());
    }

    /** The hashes asked for are exactly the batch's; those left without a body are returned. */
    method RequestBodiesByHash() returns (r: Result<seq<Hash>>)
      requires Valid()
      modifies this`bodies, this`calls
      ensures forall h :: h in old(bodies) ==> h in bodies
      ensures r.Ok? ==> forall h :: h in batch ==> h in bodies || h in r.value
      ensures r.Ok? ==> forall h :: h in r.value ==> h in batch
      ensures Honest() && old(Right()) ==> Right()
      ensures Responsive() ==> r.Ok?
      ensures calls == old(calls) + if batch == map[] then 0 else 1
      ensures CompleteByHash() ==> r == Ok([])
    {
      if |batch| == 0 {
        assert forall h :: h !in batch.Keys;
        return Ok([]);
      }
      var hashes := Hashes();
      var answer := byHash(calls, hashes);
      ghost var call := calls;
      assert CompleteByHash() ==> FullReply(byHash(call, hashes), |hashes|);
      calls := calls + 1;
      if answer.None? {
        return Err(CallFailed);
      }
      var result := answer.value;
      if |hashes| != |result| {
        return Err(InvalidResponse);
      }
      assert Honest() ==> RightByHash(hashes, result);
      var nils := StoreByHash(hashes, result);
      r := Ok(nils);
    }

    /** The bodies of one answer; the hashes of those left out are returned. */
    method StoreByHash(hashes: seq<Hash>, result: seq<Option<Body>>) returns (nils: seq<Hash>)
      requires |hashes| == |result|
      modifies this`bodies
      ensures forall h :: h in old(bodies) ==> h in bodies
      ensures forall j :: 0 <= j < |hashes| ==> hashes[j] in bodies || hashes[j] in nils
      ensures forall h :: h in nils ==> h in hashes
      ensures (forall j :: 0 <= j < |result| ==> result[j].Some?) ==> nils == []
      ensures RightByHash(hashes, result) && old(Right()) ==> Right()
    {
      nils := [];
      for i := 0 to |result|
        invariant forall h :: h in old(bodies) ==> h in bodies
        invariant forall j :: 0 <= j < i ==> hashes[j] in bodies || hashes[j] in nils
        invariant forall h :: h in nils ==> h in hashes
        invariant (forall j :: 0 <= j < |result| ==> result[j].Some?) ==> nils == []
        invariant RightByHash(hashes, result) && old(Right()) ==> Right()
      {
        if result[i].None? {
          nils := nils + [hashes[i]];
        } else {
          bodies := bodies[hashes[i] := result[i].value];
        }
      }
    }

    method Hashes() returns (hashes: seq<Hash>)
      requires Valid()
      ensures forall h :: h in hashes <==> h in batch
    {
      hashes := [];
      var rest := batch.Keys;
      while rest != {}
        invariant rest <= batch.Keys
        invariant forall h :: h in hashes <==> h in batch && h !in rest
        decreases |rest|
      {
        var h :| h in rest;
        rest := rest - {h};
        if h == ZERO_HASH {
          continue;
        }
        hashes := hashes + [h];
      }
    }

    method RequestBodiesByRange(req: Range) returns (r: Result<()>)
      requires IsRun(req)
      modifies this`bodies, this`calls
      ensures forall h :: h in old(bodies) ==> h in bodies
      ensures r.Ok? ==> forall m :: m in req.members ==> m.hash in bodies
      ensures Honest() && old(Right()) && CanonicalRange(req) ==> Right()
      ensures Responsive() ==> r.Ok?
      ensures calls == old(calls) + 1
    {
      var answer := byRange(calls, req.start, req.count);
      calls := calls + 1;
      assert Responsive() ==> FullReply(answer, req.count);
      if answer.None? {
        return Err(CallFailed);
      }
      var result := answer.value;
      if |result| != req.count {
        return Err(InvalidResponse);
      }
      assert Honest() ==> RightByNumber(req.start, result);
      var stored := StoreRange(req, result);
      r := if stored then Ok(()) else Err(NilBody);
    }

    lemma MemberIsRight(req: Range, result: seq<Option<Body>>, i: nat)
      requires IsRun(req) && |result| == req.count && i < |result| && result[i].Some?
      requires RightByNumber(req.start, result) && CanonicalRange(req)
      ensures result[i].value == bodyOf(req.members[i].hash)
    {
      ConsecutiveAt(req.start, req.members, i);
      assert req.members[i] in req.members;
    }

    /** The bodies of one range, up to the first that is missing. */
    method StoreRange(req: Range, result: seq<Option<Body>>) returns (ok: bool)
      requires IsRun(req) && |result| == req.count
      modifies this`bodies
      ensures forall h :: h in old(bodies) ==> h in bodies
      ensures ok <==> forall i :: 0 <= i < |result| ==> result[i].Some?
      ensures ok ==> forall j :: 0 <= j < |result| ==> req.members[j].hash in bodies
      ensures RightByNumber(req.start, result) && CanonicalRange(req) && old(Right()) ==> Right()
    {
      ghost var right := RightByNumber(req.start, result) && CanonicalRange(req) && Right();
      for i := 0 to |result|
        invariant forall h :: h in old(bodies) ==> h in bodies
        invariant forall j :: 0 <= j < i ==> result[j].Some? && req.members[j].hash in bodies
        invariant right ==> Right()
      {
        if result[i].None? {
          return false;
        }
        if right {
          MemberIsRight(req, result, i);
        }
        bodies := bodies[req.members[i].hash := result[i].value];
      }
      ok := true;
    }

    method NumberHashes(nils: seq<Hash>) returns (hbns: seq<Numbered>)
      requires forall h :: h in nils ==> h in batch
      ensures |hbns| == |nils| && forall j :: 0 <= j < |nils| ==> hbns[j] == Numbered(nils[j], batch[nils[j]])
    {
      hbns := seq(|nils|, i requires 0 <= i < |nils| => Numbered(nils[i], 0));
      for i := 0 to |nils|
        invariant |hbns| == |nils| && forall j :: 0 <= j < i ==> hbns[j] == Numbered(nils[j], batch[nils[j]])
      {
        hbns := hbns[i := Numbered(nils[i], batch[nils[i]])];
      }
    }

    method RequestRanges(reqs: seq<Range>) returns (r: Result<()>)
      requires AllRuns(reqs)
      modifies this`bodies, this`calls
      ensures forall h :: h in old(bodies) ==> h in bodies
      ensures r.Ok? ==> forall j, m :: 0 <= j < |reqs| && m in reqs[j].members ==> m.hash in bodies
      ensures Honest() && old(Right()) && (forall j :: 0 <= j < |reqs| ==> CanonicalRange(reqs[j])) ==> Right()
      ensures Responsive() ==> r.Ok?
      ensures calls <= old(calls) + |reqs| && (r.Ok? ==> calls == old(calls) + |reqs|)
    {
      for k := 0 to |reqs|
        invariant calls == old(calls) + k
        invariant forall h :: h in old(bodies) ==> h in bodies
        invariant forall j, m :: 0 <= j < k && m in reqs[j].members ==> m.hash in bodies
        invariant Honest() && old(Right()) && (forall j :: 0 <= j < |reqs| ==> CanonicalRange(reqs[j])) ==> Right()
      {
        var requested := RequestBodiesByRange(reqs[k]);
        if requested.Err? {
          return requested;
        }
      }
      r := Ok(());
    }

    method HandleNilResults(nils: seq<Hash>) returns (r: Result<()>)
      requires forall h :: h in nils ==> h in batch
      modifies this`bodies, this`calls
      ensures forall h :: h in old(bodies) ==> h in bodies
      ensures r.Ok? ==> forall h :: h in nils ==> h in bodies
      ensures Honest() && old(Right()) && CanonicalBatch() ==> Right()
      ensures Responsive() ==> r.Ok?
      ensures nils == [] ==> r.Ok? && calls == old(calls)
    {
      if |nils| == 0 {
        return Ok(());
      }
      var hbns := NumberHashes(nils);
      var reqs := ComputeRanges(hbns);
      SameMembers(hbns, Concat(reqs));
      forall j, m | 0 <= j < |reqs| && m in reqs[j].members ensures m.hash in batch && m.number == batch[m.hash] {
        MemberInConcat(reqs, j, m);
      }
      assert CanonicalBatch() ==> forall j :: 0 <= j < |reqs| ==> CanonicalRange(reqs[j]);
      r := RequestRanges(reqs);
      if r.Ok? {
        forall i | 0 <= i < |nils| ensures nils[i] in bodies {
          assert hbns[i] in hbns;
          var k := InSomeRange(reqs, hbns[i]);
        }
      }
    }

    method RequestBodies() returns (r: Result<()>)
      requires Valid()
      modifies this`bodies, this`calls
      ensures forall h :: h in old(bodies) ==> h in bodies
      ensures r.Ok? ==> forall h :: h in batch ==> h in bodies
      ensures Honest() && Canonical(ordered) && old(Right()) ==> Right()
      ensures Responsive() ==> r.Ok?
      ensures CompleteByHash() ==> r.Ok? && calls == old(calls) + if batch == map[] then 0 else 1
    {
      var nils := RequestBodiesByHash();
      if nils.Err? {
        return Err(nils.error);
      }
      r := HandleNilResults(nils.value);
    }

    method PayloadForHeader(header: Header) returns (r: Result<Payload>)
      ensures r.Ok? <==> header.hash == ZERO_HASH || header.hash in bodies
      ensures r.Ok? ==> r.value == if header.hash == ZERO_HASH then Empty else Full(bodies[header.hash])
    {
      if header.hash == ZERO_HASH {
        return Ok(Empty);
      }
      if header.hash !in bodies {
        return Err(NilBody);
      }
      r := Ok(Full(bodies[header.hash]));
    }

    method Unblind() returns (r: Result<seq<Unblinded>>)
      requires Valid()
      ensures r.Ok? <==> forall b :: b in ordered ==> b.header.value.hash == ZERO_HASH || b.header.value.hash in bodies
      ensures r.Ok? ==> |r.value| == |ordered|
      ensures r.Ok? ==> forall i :: 0 <= i < |ordered| ==>
                var hash := ordered[i].header.value.hash;
                && r.value[i].id == ordered[i].id
                && r.value[i].payload == if hash == ZERO_HASH then Empty else Full(bodies[hash])
    {
      var out: seq<Unblinded> := [];
      for i := 0 to |ordered|
        invariant |out| == i
        invariant forall j :: 0 <= j < i ==>
                    var hash := ordered[j].header.value.hash;
                    && (hash == ZERO_HASH || hash in bodies)
                    && out[j] == Unblinded(ordered[j].id, if hash == ZERO_HASH then Empty else Full(bodies[hash]))
      {
        var payload := PayloadForHeader(ordered[i].header.value);
        if payload.Err? {
          assert ordered[i] in ordered;
          return Err(payload.error);
        }
        out := out + [Unblinded(ordered[i].id, payload.value)];
      }
      r := Ok(out);
    }

    /** On success the output has the input's blocks in the input's order, each with a body unless its hash is zero;
        from an honest client and canonical headers, each with the right body. A client that leaves no body out is
        asked at most once. */
    method ReconstructBatch(sbb: seq<Block>) returns (r: Result<seq<Unblinded>>)
      requires Valid() && ordered == [] && bodies == map[]
      modifies this
      ensures r.Ok? ==> |r.value| == |sbb|
      ensures r.Ok? ==> forall i :: 0 <= i < |sbb| ==>
                && sbb[i].blinded && sbb[i].header.Some? && r.value[i].id == sbb[i].id
                && (r.value[i].payload == Empty <==> sbb[i].header.value.hash == ZERO_HASH)
                && (Honest() && Canonical(sbb) && r.value[i].payload.Full? ==>
                      r.value[i].payload.body == bodyOf(sbb[i].header.value.hash))
      ensures Responsive() && (forall b :: b in sbb ==> b.blinded && b.header.Some?) ==> r.Ok?
      ensures CompleteByHash() ==> calls <= old(calls) + 1
      ensures CompleteByHash() && (forall b :: b in sbb ==> b.blinded && b.header.Some?) ==> r.Ok?
    {
      for i := 0 to |sbb|
        invariant Valid() && ordered == sbb[..i] && bodies == map[] && calls == old(calls)
      {
        var added := AddToBatch(sbb[i]);
        if added.Err? {
          return Err(added.error);
        }
      }
      assert ordered == sbb && (forall i :: 0 <= i < |sbb| ==> sbb[i] in ordered);
      var requested := RequestBodies();
      if requested.Err? {
        return Err(requested.error);
      }
      r := Unblind();
    }
  }

  lemma SameMembers(a: seq<Numbered>, b: seq<Numbered>)
    requires multiset(a) == multiset(b)
    ensures forall x :: x in a <==> x in b
  {
    forall x ensures x in a <==> x in b {
      assert x in a <==> x in multiset(a);
      assert x in b <==> x in multiset(b);
    }
  }

  lemma {:induction false} MemberInConcat(ranges: seq<Range>, k: nat, m: Numbered)
    requires k < |ranges| && m in ranges[k].members
    ensures m in Concat(ranges)
  {
    if k < |ranges| - 1 {
      MemberInConcat(ranges[..|ranges| - 1], k, m);
    }
  }
}

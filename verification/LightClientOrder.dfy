/** Which light-client update is better, and which finality updates are forwarded: the comparisons of
    beacon-chain/light-client/lightclient.go and their use in store.go, after is_better_update in section
    "is_better_update" of the consensus specification's Altair light-client sync protocol. */
module LightClientOrder {
  import opened Wrappers

  const SLOTS_PER_EPOCH: nat := 32
  const EPOCHS_PER_SYNC_COMMITTEE_PERIOD: nat := 256

  /** The fields the comparisons read; `committee` and `finality` say whether the branch is present. */
  datatype Update = Update(size: nat, participants: nat, attested: nat, signed: nat, finalized: nat,
                           committee: bool, finality: bool)

  function Period(slot: nat): nat {
    slot / SLOTS_PER_EPOCH / EPOCHS_PER_SYNC_COMMITTEE_PERIOD
  }

  predicate Supermajority(participants: nat, size: nat) {
    participants * 3 >= size * 2
  }

  predicate RelevantCommittee(u: Update) {
    u.committee && Period(u.attested) == Period(u.signed)
  }

  predicate CommitteeFinality(u: Update) {
    Period(u.finalized) == Period(u.attested)
  }

  /** The code's cascade; both majorities are measured against the new update's committee. */
  predicate IsBetterUpdate(u: Update, old_: Option<Update>) {
    old_.None? ||
    var o := old_.value;
    var uSuper, oSuper := Supermajority(u.participants, u.size), Supermajority(o.participants, u.size);
    if uSuper != oSuper then uSuper
    else if !uSuper && u.participants != o.participants then u.participants > o.participants
    else if RelevantCommittee(u) != RelevantCommittee(o) then RelevantCommittee(u)
    else if u.finality != o.finality then u.finality
    else if u.finality && CommitteeFinality(u) != CommitteeFinality(o) then CommitteeFinality(u)
    else if u.participants != o.participants then u.participants > o.participants
    else if u.attested != o.attested then u.attested < o.attested
    else u.signed < o.signed
  }

  // ----- The lexicographic key -----

  /** A sync-committee period in slots. */
  const PERIOD: nat := 8192

  predicate SamePeriod(a: nat, b: nat) {
    a / PERIOD == b / PERIOD
  }

  /** The least number of participants that is two thirds of the committee. */
  predicate TwoThirds(participants: nat, size: nat) {
    participants >= (2 * size + 2) / 3
  }

  lemma PeriodIs(a: nat, b: nat)
    ensures Period(a) == Period(b) <==> SamePeriod(a, b)
  {
    assert a / 32 / 256 == a / 8192 && b / 32 / 256 == b / 8192;
  }

  lemma SupermajorityIs(participants: nat, size: nat)
    ensures Supermajority(participants, size) <==> TwoThirds(participants, size)
  {
  }

  function Bit(b: bool): int {
    if b then 1 else 0
  }

  function Key(u: Update): seq<int> {
    var super := TwoThirds(u.participants, u.size);
    [Bit(super), if super then 0 else u.participants,
     Bit(u.committee && SamePeriod(u.attested, u.signed)), Bit(u.finality),
     Bit(u.finality && SamePeriod(u.finalized, u.attested)), u.participants, -(u.attested as int), -(u.signed as int)]
  }

  predicate Greater(a: seq<int>, b: seq<int>)
    requires |a| == |b|
  {
    a != [] && (a[0] > b[0] || (a[0] == b[0] && Greater(a[1..], b[1..])))
  }

  lemma {:induction false} GreaterAsymmetric(a: seq<int>, b: seq<int>)
    requires |a| == |b| && Greater(a, b)
    ensures !Greater(b, a) && a != b
  {
    if a[0] == b[0] {
      GreaterAsymmetric(a[1..], b[1..]);
    }
  }

  lemma {:induction false} GreaterTransitive(a: seq<int>, b: seq<int>, c: seq<int>)
    requires |a| == |b| == |c| && Greater(a, b) && Greater(b, c)
    ensures Greater(a, c)
  {
    if a[0] == b[0] && b[0] == c[0] {
      GreaterTransitive(a[1..], b[1..], c[1..]);
    }
  }

  lemma {:induction false} GreaterTotal(a: seq<int>, b: seq<int>)
    requires |a| == |b|
    ensures Greater(a, b) || Greater(b, a) || a == b
  {
    if a != [] && a[0] == b[0] {
      GreaterTotal(a[1..], b[1..]);
      assert a == [a[0]] + a[1..] && b == [b[0]] + b[1..];
    }
  }

  /** Where the keys first differ. */
  lemma {:induction false} GreaterAt(a: seq<int>, b: seq<int>, k: nat)
    requires |a| == |b| && k < |a| && a[k] != b[k] && a[..k] == b[..k]
    ensures Greater(a, b) <==> a[k] > b[k]
  {
    if k > 0 {
      assert a[0] == a[..k][0] == b[..k][0] == b[0];
      assert a[1..][..k - 1] == a[..k][1..] == b[..k][1..] == b[1..][..k - 1];
      GreaterAt(a[1..], b[1..], k - 1);
    }
  }

  lemma {:induction false} NotGreaterSelf(a: seq<int>)
    ensures !Greater(a, a)
  {
    if a != [] {
      NotGreaterSelf(a[1..]);
    }
  }

  /** Whatever the first difference decides is the lexicographic order. */
  lemma DecidedIsGreater(a: seq<int>, b: seq<int>, better: bool)
    requires |a| == |b| && (a == b ==> !better)
    requires forall k: nat {:trigger a[..k]} :: k < |a| && a[..k] == b[..k] && a[k] != b[k] ==>
               (better <==> a[k] > b[k])
    ensures better <==> Greater(a, b)
  {
    if a == b {
      NotGreaterSelf(a);
    } else {
      var k := FirstDifference(a, b);
      GreaterAt(a, b, k);
    }
  }

  /** For committees of one size, the cascade is the lexicographic order of the keys. */
  lemma BetterIsGreaterKey(u: Update, o: Update)
    requires u.size == o.size
    ensures IsBetterUpdate(u, Some(o)) <==> Greater(Key(u), Key(o))
  {
    forall k: nat | k < |Key(u)| && Key(u)[..k] == Key(o)[..k] && Key(u)[k] != Key(o)[k]
      ensures IsBetterUpdate(u, Some(o)) <==> Key(u)[k] > Key(o)[k]
    {
      DecidedAt(u, o, k);
    }
    if Key(u) == Key(o) {
      SameKeyIsNotBetter(u, o);
    }
    DecidedIsGreater(Key(u), Key(o), IsBetterUpdate(u, Some(o)));
  }

  lemma SameKeyIsNotBetter(u: Update, o: Update)
    requires u.size == o.size && Key(u) == Key(o)
    ensures !IsBetterUpdate(u, Some(o))
  {
    KeyParts(u);
    KeyParts(o);
    var a, b := Key(u), Key(o);
    assert a[0] == b[0] && a[2] == b[2] && a[3] == b[3] && a[4] == b[4];
    assert a[5] == b[5] && a[6] == b[6] && a[7] == b[7];
  }

  lemma {:induction false} FirstDifference(a: seq<int>, b: seq<int>) returns (k: nat)
    requires |a| == |b| && a != b
    ensures k < |a| && a[k] != b[k] && a[..k] == b[..k]
  {
    k := 0;
    if a[0] == b[0] {
      assert a == [a[0]] + a[1..] && b == [b[0]] + b[1..];
      var j := FirstDifference(a[1..], b[1..]);
      k := j + 1;
      assert a[..k] == [a[0]] + a[1..][..j] && b[..k] == [b[0]] + b[1..][..j];
    }
  }

  lemma KeyParts(u: Update)
    ensures Supermajority(u.participants, u.size) <==> TwoThirds(u.participants, u.size)
    ensures RelevantCommittee(u) <==> u.committee && SamePeriod(u.attested, u.signed)
    ensures CommitteeFinality(u) <==> SamePeriod(u.finalized, u.attested)
  {
    SupermajorityIs(u.participants, u.size);
    PeriodIs(u.attested, u.signed);
    PeriodIs(u.finalized, u.attested);
  }

  lemma DecidedAt(u: Update, o: Update, k: nat)
    requires u.size == o.size && k < 8 && Key(u)[k] != Key(o)[k] && Key(u)[..k] == Key(o)[..k]
    ensures IsBetterUpdate(u, Some(o)) <==> Key(u)[k] > Key(o)[k]
  {
    var a, b := Key(u), Key(o);
    KeyParts(u);
    KeyParts(o);
    SupermajorityIs(o.participants, u.size);
    assert forall j :: 0 <= j < k ==> a[..k][j] == a[j] && b[..k][j] == b[j];
    assert k > 0 ==> a[0] == b[0];
    assert k > 1 ==> a[1] == b[1];
    assert k > 2 ==> a[2] == b[2];
    assert k > 3 ==> a[3] == b[3];
    assert k > 4 ==> a[4] == b[4];
    assert k > 5 ==> a[5] == b[5];
    assert k > 6 ==> a[6] == b[6];
  }

  /** Better-than is a strict weak order on updates with one committee size. */
  lemma StrictWeakOrder(a: Update, b: Update, c: Update)
    requires a.size == b.size == c.size
    ensures !IsBetterUpdate(a, Some(a))
    ensures IsBetterUpdate(a, Some(b)) ==> !IsBetterUpdate(b, Some(a))
    ensures IsBetterUpdate(a, Some(b)) && IsBetterUpdate(b, Some(c)) ==> IsBetterUpdate(a, Some(c))
    ensures !IsBetterUpdate(a, Some(b)) && !IsBetterUpdate(b, Some(c)) ==> !IsBetterUpdate(a, Some(c))
  {
    BetterIsGreaterKey(a, a);
    BetterIsGreaterKey(a, b);
    BetterIsGreaterKey(b, a);
    BetterIsGreaterKey(b, c);
    BetterIsGreaterKey(a, c);
    KeyOrder(Key(a), Key(b), Key(c));
  }

  lemma KeyOrder(a: seq<int>, b: seq<int>, c: seq<int>)
    requires |a| == |b| == |c|
    ensures !Greater(a, a)
    ensures Greater(a, b) ==> !Greater(b, a)
    ensures Greater(a, b) && Greater(b, c) ==> Greater(a, c)
    ensures !Greater(a, b) && !Greater(b, c) ==> !Greater(a, c)
  {
    NotGreaterSelf(a);
    GreaterTotal(a, b);
    GreaterTotal(b, c);
    if Greater(a, b) {
      GreaterAsymmetric(a, b);
      if Greater(b, c) {
        GreaterTransitive(a, b, c);
      }
    } else if !Greater(b, c) {
      if Greater(b, a) && Greater(c, b) {
        GreaterTransitive(c, b, a);
        GreaterAsymmetric(c, a);
      } else if Greater(b, a) {
        GreaterAsymmetric(b, a);
      } else if Greater(c, b) {
        GreaterAsymmetric(c, b);
      }
    }
  }

  /** With committees of different sizes two updates can each be better than the other. */
  lemma DifferentSizes(slot: nat)
    ensures var a := Update(6, 3, slot, slot, slot, false, false);
            var b := Update(3, 2, slot, slot, slot, true, false);
            IsBetterUpdate(a, Some(b)) && IsBetterUpdate(b, Some(a))
  {
  }

  // ----- The best of a stream of updates -----

  /** What the store keeps within a period: a new update replaces the best so far if it is better. */
  function Best(us: seq<Update>): Option<Update> {
    if us == [] then None
    else
      var best, last := Best(us[..|us| - 1]), us[|us| - 1];
      if IsBetterUpdate(last, best) then Some(last) else best
  }

  ghost predicate OneSize(us: seq<Update>, size: nat) {
    forall u :: u in us ==> u.size == size
  }

  lemma StaysBelow(a: seq<int>, b: seq<int>, c: seq<int>)
    requires |a| == |b| == |c| && !Greater(a, b) && Greater(c, b)
    ensures !Greater(a, c)
  {
    if Greater(a, c) {
      GreaterTransitive(a, c, b);
    }
  }

  lemma {:induction false} BestIsMaximal(us: seq<Update>, size: nat, u: Update)
    requires us != [] && OneSize(us, size) && u in us
    ensures Best(us).Some? && Best(us).value in us && !Greater(Key(u), Key(Best(us).value))
  {
    var rest, last := us[..|us| - 1], us[|us| - 1];
    assert us == rest + [last];
    NotGreaterSelf(Key(last));
    if rest != [] {
      BestIsMaximal(rest, size, if u in rest then u else rest[0]);
      var best := Best(rest).value;
      BetterIsGreaterKey(last, best);
      if u in rest && Greater(Key(last), Key(best)) {
        StaysBelow(Key(u), Key(best), Key(last));
      }
    }
  }

  /** Whatever the order of arrival, the best updates of the same set tie. */
  lemma BestInAnyOrder(us: seq<Update>, vs: seq<Update>, size: nat)
    requires us != [] && OneSize(us, size) && multiset(us) == multiset(vs)
    ensures Best(us).Some? && Best(vs).Some? && Key(Best(us).value) == Key(Best(vs).value)
  {
    forall u ensures u in us <==> u in vs {
      assert u in us <==> u in multiset(us);
      assert u in vs <==> u in multiset(vs);
    }
    assert us[0] in vs;
    BestIsMaximal(us, size, us[0]);
    BestIsMaximal(vs, size, vs[0]);
    var a, b := Best(us).value, Best(vs).value;
    BestIsMaximal(us, size, b);
    BestIsMaximal(vs, size, a);
    GreaterTotal(Key(a), Key(b));
  }

  // ----- Finality updates -----

  datatype FinalityUpdate = FinalityUpdate(finalized: nat, attested: nat, signed: nat, size: nat, participants: nat)

  predicate IsFinalityUpdateValidForBroadcast(u: FinalityUpdate, old_: Option<FinalityUpdate>) {
    old_.None? ||
    var o := old_.value;
    if u.finalized < o.finalized then false
    else !(u.finalized == o.finalized
           && (Supermajority(o.participants, o.size) || !Supermajority(u.participants, u.size)))
  }

  predicate IsBetterFinalityUpdate(u: FinalityUpdate, old_: Option<FinalityUpdate>) {
    old_.None? ||
    var o := old_.value;
    if u.finalized < o.finalized then false
    else if u.finalized == o.finalized then
      if u.attested < o.attested then false else !(u.attested == o.attested && u.signed <= o.signed)
    else true
  }

  /** The finalized slot first, then the supermajority. */
  function Rank(u: FinalityUpdate): int {
    2 * u.finalized + Bit(TwoThirds(u.participants, u.size))
  }

  /** Forwarding asks for a strictly greater rank. */
  lemma BroadcastIsRank(u: FinalityUpdate, o: FinalityUpdate)
    ensures IsFinalityUpdateValidForBroadcast(u, Some(o)) <==> Rank(u) > Rank(o)
  {
    SupermajorityIs(u.participants, u.size);
    SupermajorityIs(o.participants, o.size);
  }

  function FinalityKey(u: FinalityUpdate): seq<int> {
    [u.finalized, u.attested, u.signed]
  }

  lemma BetterFinalityIsKey(u: FinalityUpdate, o: FinalityUpdate)
    ensures IsBetterFinalityUpdate(u, Some(o)) <==> Greater(FinalityKey(u), FinalityKey(o))
  {
    var a, b := FinalityKey(u), FinalityKey(o);
    assert a[1..] == [u.attested, u.signed] && b[1..] == [o.attested, o.signed];
    assert a[1..][1..] == [u.signed] && b[1..][1..] == [o.signed];
    assert Greater(a[1..][1..], b[1..][1..]) <==> u.signed > o.signed;
  }

  // ----- What the store forwards -----

  /** One save: the update and whether the caller wants it forwarded. */
  datatype Save = Save(update: FinalityUpdate, broadcast: bool)

  /** The update saved last, and those forwarded, in order. */
  datatype Store = Store(last: Option<FinalityUpdate>, forwarded: seq<FinalityUpdate>)

  const EMPTY := Store(None, [])

  /** Every save replaces the last update, forwarded or not. */
  function SetLastFinalityUpdate(s: Store, save: Save): Store {
    Store(Some(save.update),
          if save.broadcast && IsFinalityUpdateValidForBroadcast(save.update, s.last) then s.forwarded + [save.update]
          else s.forwarded)
  }

  function Run(s: Store, saves: seq<Save>): Store {
    if saves == [] then s
    else SetLastFinalityUpdate(Run(s, saves[..|saves| - 1]), saves[|saves| - 1])
  }

  predicate Rises(us: seq<FinalityUpdate>) {
    forall i, j :: 0 <= i < j < |us| ==> Rank(us[i]) < Rank(us[j])
  }

  /** Save k is forwarded: the caller wants it, and its rank is above that of the save just before it. */
  predicate Forwards(saves: seq<Save>, k: nat)
    requires k < |saves|
  {
    saves[k].broadcast && (k == 0 || Rank(saves[k - 1].update) < Rank(saves[k].update))
  }

  /** The forwarded updates are those of the saves at the positions `at`, which are all the forwarding ones. */
  predicate PicksForwarded(saves: seq<Save>, us: seq<FinalityUpdate>, at: seq<nat>) {
    && |at| == |us| && (forall i, j :: 0 <= i < j < |at| ==> at[i] < at[j])
    && (forall i :: 0 <= i < |at| ==> at[i] < |saves| && Forwards(saves, at[i]) && us[i] == saves[at[i]].update)
    && (forall k: nat :: k < |saves| && Forwards(saves, k) ==> k in at)
  }

  lemma {:induction false} RunForwards(saves: seq<Save>) returns (at: seq<nat>)
    ensures PicksForwarded(saves, Run(EMPTY, saves).forwarded, at)
    ensures saves != [] ==> Run(EMPTY, saves).last == Some(saves[|saves| - 1].update)
  {
    at := [];
    if saves != [] {
      var rest, k := saves[..|saves| - 1], |saves| - 1;
      at := RunForwards(rest);
      assert forall j: nat :: j < k ==> Forwards(rest, j) == Forwards(saves, j);
      if k > 0 {
        BroadcastIsRank(saves[k].update, saves[k - 1].update);
      }
      if Forwards(saves, k) {
        at := at + [k];
      }
    }
  }

  /** Save k forwards an update whose rank is no greater than that of one forwarded before. */
  predicate Relapse(saves: seq<Save>, j: nat, k: nat) {
    j < k < |saves| && Forwards(saves, j) && Forwards(saves, k) && Rank(saves[k].update) <= Rank(saves[j].update)
  }

  /** Over any run, the forwarded updates strictly rise in finalized slot and supermajority exactly if no wanted save
      climbs from a lower one to a rank already forwarded. */
  lemma ForwardedRiseIff(saves: seq<Save>)
    ensures Rises(Run(EMPTY, saves).forwarded) <==> forall j: nat, k: nat :: !Relapse(saves, j, k)
  {
    var us := Run(EMPTY, saves).forwarded;
    var at := RunForwards(saves);
    if Rises(us) {
      forall j: nat, k: nat | j < k < |saves| && Forwards(saves, j) && Forwards(saves, k)
        ensures Rank(saves[j].update) < Rank(saves[k].update)
      {
        var a := Position(saves, us, at, j);
        var b := Position(saves, us, at, k);
        assert at[a] < at[b];
        assert a < b;
      }
    } else {
      var i, l :| 0 <= i < l < |us| && Rank(us[i]) >= Rank(us[l]);
      assert at[i] < at[l] && Relapse(saves, at[i], at[l]);
    }
  }

  lemma Position(saves: seq<Save>, us: seq<FinalityUpdate>, at: seq<nat>, k: nat) returns (i: nat)
    requires PicksForwarded(saves, us, at) && k < |saves| && Forwards(saves, k)
    ensures i < |at| && at[i] == k && us[i] == saves[k].update
  {
    assert k in at;
    i :| 0 <= i < |at| && at[i] == k;
  }

  /** Slot f is forwarded at most twice. */
  predicate AtMostTwice(us: seq<FinalityUpdate>, f: nat) {
    forall i, j, k :: 0 <= i < j < k < |us| ==>
      !(us[i].finalized == f && us[j].finalized == f && us[k].finalized == f)
  }

  /** Save k enters slot f: from nothing, from a lower slot, or with the slot's first supermajority since the save
      just before, and the caller wants it forwarded. */
  predicate Enters(saves: seq<Save>, f: nat, k: nat) {
    && k < |saves| && saves[k].broadcast && saves[k].update.finalized == f
    && (k == 0 ||
        var o, u := saves[k - 1].update, saves[k].update;
        o.finalized < f ||
        (o.finalized == f && !TwoThirds(o.participants, o.size) && TwoThirds(u.participants, u.size)))
  }

  lemma EntersForwards(saves: seq<Save>, f: nat, k: nat)
    ensures Enters(saves, f, k) <==> k < |saves| && Forwards(saves, k) && saves[k].update.finalized == f
  {
  }

  /** Over any run, slot f is forwarded at most twice exactly if no three saves enter it. */
  lemma AtMostTwiceIff(saves: seq<Save>, f: nat)
    ensures AtMostTwice(Run(EMPTY, saves).forwarded, f)
       <==> forall i: nat, j: nat, k: nat :: i < j < k ==>
              !(Enters(saves, f, i) && Enters(saves, f, j) && Enters(saves, f, k))
  {
    var us := Run(EMPTY, saves).forwarded;
    var at := RunForwards(saves);
    if AtMostTwice(us, f) {
      forall i: nat, j: nat, k: nat | i < j < k && Enters(saves, f, i) && Enters(saves, f, j)
        ensures !Enters(saves, f, k)
      {
        if Enters(saves, f, k) {
          ThreeForwarded(saves, us, at, f, i, j, k);
        }
      }
    } else {
      var i, j, k :| 0 <= i < j < k < |us| && us[i].finalized == us[j].finalized == us[k].finalized == f;
      EntersForwards(saves, f, at[i]);
      EntersForwards(saves, f, at[j]);
      EntersForwards(saves, f, at[k]);
      assert at[i] < at[j] < at[k];
    }
  }

  lemma ThreeForwarded(saves: seq<Save>, us: seq<FinalityUpdate>, at: seq<nat>, f: nat, i: nat, j: nat, k: nat)
    requires PicksForwarded(saves, us, at) && i < j < k
    requires Enters(saves, f, i) && Enters(saves, f, j) && Enters(saves, f, k)
    ensures !AtMostTwice(us, f)
  {
    EntersForwards(saves, f, i);
    EntersForwards(saves, f, j);
    EntersForwards(saves, f, k);
    var a := Position(saves, us, at, i);
    var b := Position(saves, us, at, j);
    var c := Position(saves, us, at, k);
    assert at[a] < at[b] < at[c];
    assert a < b < c;
    assert us[a].finalized == us[b].finalized == us[c].finalized == f;
  }

  /** A rising list forwards each slot at most twice. */
  lemma RisingIsAtMostTwice(us: seq<FinalityUpdate>, f: nat)
    requires Rises(us)
    ensures AtMostTwice(us, f)
  {
    forall i, j, k | 0 <= i < j < k < |us|
      ensures !(us[i].finalized == f && us[j].finalized == f && us[k].finalized == f)
    {
      assert Rank(us[i]) < Rank(us[j]) < Rank(us[k]);
    }
  }

  // ----- One chain, no reorganization -----

  /** Head blocks of one chain: the best finality update so far is saved, and is wanted for forwarding exactly if the
      new one is better. At a period boundary the new one is saved and wanted in any case, which for a better one is
      the same. */
  function OfferOnChain(s: Store, u: FinalityUpdate): Store {
    if IsBetterFinalityUpdate(u, s.last) then SetLastFinalityUpdate(s, Save(u, true))
    else SetLastFinalityUpdate(s, Save(s.last.value, false))
  }

  function OfferAll(s: Store, us: seq<FinalityUpdate>): Store {
    if us == [] then s else OfferOnChain(OfferAll(s, us[..|us| - 1]), us[|us| - 1])
  }

  /** An offer that is no greater in finalized, attested and signature slot than what is kept changes nothing; a greater
      one is kept, and forwarded exactly if its rank is greater too. */
  lemma OfferIs(s: Store, u: FinalityUpdate)
    requires s.last.Some?
    ensures OfferOnChain(s, u)
         == if !Greater(FinalityKey(u), FinalityKey(s.last.value)) then s
            else Store(Some(u), if Rank(u) > Rank(s.last.value) then s.forwarded + [u] else s.forwarded)
  {
    BetterFinalityIsKey(u, s.last.value);
    BroadcastIsRank(u, s.last.value);
  }

  predicate UpTo(us: seq<FinalityUpdate>, top: FinalityUpdate) {
    forall u :: u in us ==> !Greater(FinalityKey(u), FinalityKey(top))
  }

  /** The slots of each, in order, are greater than those of all before it. */
  predicate KeysRise(us: seq<FinalityUpdate>) {
    forall i, j :: 0 <= i < j < |us| ==> Greater(FinalityKey(us[j]), FinalityKey(us[i]))
  }

  lemma UpToMore(us: seq<FinalityUpdate>, top: FinalityUpdate, u: FinalityUpdate)
    requires UpTo(us, top) && Greater(FinalityKey(u), FinalityKey(top))
    ensures UpTo(us + [u], u) && forall x :: x in us ==> Greater(FinalityKey(u), FinalityKey(x))
  {
    NotGreaterSelf(FinalityKey(u));
    forall x | x in us
      ensures Greater(FinalityKey(u), FinalityKey(x)) && !Greater(FinalityKey(x), FinalityKey(u))
    {
      StaysBelow(FinalityKey(x), FinalityKey(top), FinalityKey(u));
      GreaterTotal(FinalityKey(u), FinalityKey(x));
    }
  }

  /** On one chain the finality update kept is the greatest one offered, and those forwarded rise in their slots. */
  lemma {:induction false} KeptIsGreatest(us: seq<FinalityUpdate>)
    requires us != []
    ensures var s := OfferAll(EMPTY, us);
            && s.last.Some? && s.last.value in us && UpTo(us, s.last.value)
            && UpTo(s.forwarded, s.last.value) && KeysRise(s.forwarded)
  {
    var rest, u := us[..|us| - 1], us[|us| - 1];
    assert us == rest + [u];
    NotGreaterSelf(FinalityKey(u));
    if rest != [] {
      KeptIsGreatest(rest);
      var s := OfferAll(EMPTY, rest);
      OfferIs(s, u);
      if Greater(FinalityKey(u), FinalityKey(s.last.value)) {
        UpToMore(rest, s.last.value, u);
        UpToMore(s.forwarded, s.last.value, u);
      }
    }
  }

  /** The k-th of a series of updates about one finalized slot, each attested one slot later than the one before, with
      full and with little participation in turn. */
  function Flap(f: nat, k: nat): FinalityUpdate {
    FinalityUpdate(f, f + k, f + k + 1, 512, if k % 2 == 0 then 512 else 300)
  }

  function Flapping(f: nat, n: nat): (us: seq<FinalityUpdate>)
    ensures |us| == n
  {
    seq(n, k requires 0 <= k => Flap(f, k))
  }

  lemma FlapStep(s: Store, f: nat, k: nat)
    requires k > 0 && s.last == Some(Flap(f, k - 1))
    ensures IsBetterFinalityUpdate(Flap(f, k), s.last)
    ensures OfferOnChain(s, Flap(f, k))
         == Store(Some(Flap(f, k)), if k % 2 == 0 then s.forwarded + [Flap(f, k)] else s.forwarded)
  {
    BroadcastIsRank(Flap(f, k), Flap(f, k - 1));
  }

  /** Every second update of the series is forwarded. */
  lemma {:induction false} ForwardedEverySecond(f: nat, n: nat)
    requires n > 0
    ensures var s := OfferAll(EMPTY, Flapping(f, n));
            && s.last == Some(Flap(f, n - 1)) && |s.forwarded| == (n + 1) / 2
            && forall u :: u in s.forwarded ==> u.finalized == f
  {
    var us := Flapping(f, n);
    assert us[..n - 1] == Flapping(f, n - 1);
    if n > 1 {
      ForwardedEverySecond(f, n - 1);
      var s := OfferAll(EMPTY, us[..n - 1]);
      FlapStep(s, f, n - 1);
      assert OfferAll(EMPTY, us) == OfferOnChain(s, Flap(f, n - 1));
    }
  }

  /** For every n, a chain of ever better finality updates on which one slot is forwarded n times. */
  lemma ForwardedTimes(f: nat, n: nat) returns (us: seq<FinalityUpdate>)
    ensures forall k :: 0 < k < |us| ==> IsBetterFinalityUpdate(us[k], Some(us[k - 1]))
    ensures var s := OfferAll(EMPTY, us); |s.forwarded| == n && forall u :: u in s.forwarded ==> u.finalized == f
  {
    us := Flapping(f, 2 * n);
    forall k | 0 < k < |us| ensures IsBetterFinalityUpdate(us[k], Some(us[k - 1])) {
      FlapStep(Store(Some(Flap(f, k - 1)), []), f, k);
    }
    if n > 0 {
      ForwardedEverySecond(f, 2 * n);
    }
  }

  /** A concrete run, as after a reorganization: slots 5, 3 and 4 are saved, 5 and then 4 are forwarded. */
  lemma LoweredRun()
    ensures var at := (slot: nat) => Save(FinalityUpdate(slot, slot, slot, 512, 512), true);
            Run(EMPTY, [at(5), at(3), at(4)]).forwarded == [at(5).update, at(4).update]
  {
    var at := (slot: nat) => Save(FinalityUpdate(slot, slot, slot, 512, 512), true);
    assert [at(5), at(3), at(4)][..2] == [at(5), at(3)] && [at(5), at(3)][..1] == [at(5)] && [at(5)][..0] == [];
    assert Run(EMPTY, [at(5)]).forwarded == [at(5).update];
    assert Run(EMPTY, [at(5), at(3)]).forwarded == [at(5).update];
  }
}

/** async/multilock.go: locks over sets of keys, built from one-token channels that are created on
    demand and closed and dropped by Clean while other goroutines may still hold references to them.

    This module is the constructor: which key lists a lock can have. */
module MultilockKeys {

  /** The order sort.Strings uses. */
  predicate Less(a: string, b: string) {
    if b == [] then false
    else if a == [] then true
    else a[0] < b[0] || (a[0] == b[0] && Less(a[1..], b[1..]))
  }

  lemma {:induction false} LessTransitive(a: string, b: string, c: string)
    requires Less(a, b) && Less(b, c)
    ensures Less(a, c)
  {
    if a != [] && a[0] == b[0] && b[0] == c[0] { LessTransitive(a[1..], b[1..], c[1..]); }
  }

  lemma {:induction false} LessIrreflexive(a: string)
    ensures !Less(a, a)
  {
    if a != [] { LessIrreflexive(a[1..]); }
  }

  lemma {:induction false} LessTotal(a: string, b: string)
    ensures Less(a, b) || a == b || Less(b, a)
  {
    if a != [] && b != [] && a[0] == b[0] {
      LessTotal(a[1..], b[1..]);
      assert a[1..] == b[1..] ==> a == [a[0]] + a[1..] == [b[0]] + b[1..] == b;
    }
  }

  ghost predicate Increasing(keys: seq<string>) {
    forall i, j :: 0 <= i < j < |keys| ==> Less(keys[i], keys[j])
  }

  function Elements(keys: seq<string>): set<string> { set k | k in keys }

  /** Drops repeats, keeping first occurrences in order. */
  method Unique(arr: seq<string>) returns (result: seq<string>)
    ensures Elements(result) == Elements(arr)
    ensures forall i, j :: 0 <= i < j < |result| ==> result[i] != result[j]
  {
    if |arr| <= 1 {
      return arr;
    }
    var found: set<string> := {};
    result := [];
    for i := 0 to |arr|
      invariant found == Elements(result) == Elements(arr[..i])
      invariant forall i, j :: 0 <= i < j < |result| ==> result[i] != result[j]
    {
      assert arr[..i + 1] == arr[..i] + [arr[i]];
      if arr[i] !in found {
        found := found + {arr[i]};
        result := result + [arr[i]];
      }
    }
    assert arr[..|arr|] == arr;
  }

  function Insert(k: string, keys: seq<string>): (r: seq<string>)
    requires Increasing(keys) && k !in keys
    ensures Increasing(r) && Elements(r) == Elements(keys) + {k}
  {
    if keys == [] then [k]
    else if Less(k, keys[0]) then
      assert forall j :: 0 <= j < |keys| ==> Less(k, keys[j]) by {
        forall j | 0 < j < |keys| ensures Less(k, keys[j]) { LessTransitive(k, keys[0], keys[j]); }
      }
      [k] + keys
    else
      var rest := Insert(k, keys[1..]);
      assert Less(keys[0], k) by { LessTotal(k, keys[0]); }
      assert forall x :: x in rest ==> x in Elements(keys[1..]) + {k};
      assert forall x :: x in rest ==> Less(keys[0], x);
      assert Elements(keys) == Elements(keys[1..]) + {keys[0]} by { assert keys == [keys[0]] + keys[1..]; }
      [keys[0]] + rest
  }

  /** sort.Strings on distinct keys. */
  function Sorted(keys: seq<string>): (r: seq<string>)
    requires forall i, j :: 0 <= i < j < |keys| ==> keys[i] != keys[j]
    ensures Increasing(r) && Elements(r) == Elements(keys)
  {
    if keys == [] then []
    else
      assert keys == [keys[0]] + keys[1..];
      assert Elements(keys) == Elements(keys[1..]) + {keys[0]};
      var r := Sorted(keys[1..]);
      assert keys[0] !in Elements(r);
      Insert(keys[0], r)
  }

  datatype Created = NilLock | Created(keys: seq<string>)

  /** A lock carries its keys without repeats and in increasing order; no keys, no lock. */
  method NewMultilock(locks: seq<string>) returns (r: Created)
    ensures r.NilLock? <==> locks == []
    ensures r.Created? ==> Increasing(r.keys) && r.keys != [] && Elements(r.keys) == Elements(locks)
  {
    if |locks| == 0 {
      return NilLock;
    }
    var u := Unique(locks);
    r := Created(Sorted(u));
    assert locks[0] in Elements(r.keys);
  }
}

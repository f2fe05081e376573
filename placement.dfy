/** The deterministic placement that the tests of pkg/gateway/gateway_test.go
    pin down: `hash` (sum of code points), `readSortedMapKeys` (map keys in
    ascending order) and a `pickStorageInstance` that returns `keys[hash mod n]`.
    `hash` and `readSortedMapKeys` are not in the shown implementation, whose
    `pickStorageInstance` picks at random (see PkgGateway); everything in this
    module is derived from the tests. */
module Placement {
  import opened Base
  import AlnumIdValidator

  /** `hash`: the sum of the code points of the object ID. */
  function Hash(id: string): nat {
    if id == [] then 0 else id[0] as nat + Hash(id[1..])
  }

  /** The hash of a concatenation is the sum of the hashes. */
  lemma {:induction false} HashConcat(a: string, b: string)
    ensures Hash(a + b) == Hash(a) + Hash(b)
  {
    if a == [] {
      assert a + b == b;
    } else {
      assert (a + b)[1..] == a[1..] + b;
      HashConcat(a[1..], b);
    }
  }

  /** Each character adds at most its code point bound. */
  lemma {:induction false} HashBound(id: string, m: nat)
    requires forall i :: 0 <= i < |id| ==> id[i] as nat <= m
    ensures Hash(id) <= |id| * m
  {
    if id != [] {
      HashBound(id[1..], m);
      assert Hash(id) <= m + (|id| - 1) * m;
    }
  }

  /** A valid object ID (at most 32 characters up to 'z') hashes to at most 3904,
      so the Go `int` sum cannot wrap around for any ID that reaches the gateway. */
  lemma ValidIdHashIsSmall(id: string)
    requires AlnumIdValidator.ValidateInputObjectID(id) == None
    ensures Hash(id) <= 3904
  {
    assert forall i :: 0 <= i < |id| ==> id[i] as nat <= 122;
    HashBound(id, 122);
  }

  /** Go's `<` on strings: lexicographic by code point (the UTF-8 byte order agrees). */
  predicate Less(a: string, b: string) {
    b != [] && (a == [] || a[0] < b[0] || (a[0] == b[0] && Less(a[1..], b[1..])))
  }

  lemma {:induction false} LessIrreflexive(a: string)
    ensures !Less(a, a)
  {
    if a != [] {
      LessIrreflexive(a[1..]);
    }
  }

  lemma {:induction false} LessTransitive(a: string, b: string, c: string)
    requires Less(a, b) && Less(b, c)
    ensures Less(a, c)
  {
    if a != [] && a[0] == b[0] && b[0] == c[0] {
      LessTransitive(a[1..], b[1..], c[1..]);
    }
  }

  lemma {:induction false} LessTotal(a: string, b: string)
    requires a != b
    ensures Less(a, b) || Less(b, a)
  {
    if a != [] && b != [] && a[0] == b[0] {
      assert a == [a[0]] + a[1..] && b == [b[0]] + b[1..];
      LessTotal(a[1..], b[1..]);
    }
  }

  lemma LessAsymmetric(a: string, b: string)
    requires Less(a, b)
    ensures !Less(b, a)
  {
    if Less(b, a) {
      LessTransitive(a, b, a);
      LessIrreflexive(a);
    }
  }

  predicate StrictlySorted(s: seq<string>) {
    forall i, j :: 0 <= i < j < |s| ==> Less(s[i], s[j])
  }

  /** Insertion into an ascending list. */
  function Insert(x: string, s: seq<string>): seq<string> {
    if s == [] then [x]
    else if Less(x, s[0]) then [x] + s
    else [s[0]] + Insert(x, s[1..])
  }

  /** `readSortedMapKeys`: the keys, in ascending order; a nil or empty map gives []. */
  function SortKeys(keys: seq<string>): seq<string> {
    if keys == [] then [] else Insert(keys[0], SortKeys(keys[1..]))
  }

  lemma {:induction false} InsertPermutation(x: string, s: seq<string>)
    ensures multiset(Insert(x, s)) == multiset(s) + multiset{x}
  {
    if s != [] && !Less(x, s[0]) {
      InsertPermutation(x, s[1..]);
      assert s == [s[0]] + s[1..];
    }
  }

  lemma {:induction false} SortKeysPermutation(keys: seq<string>)
    ensures multiset(SortKeys(keys)) == multiset(keys)
  {
    if keys != [] {
      SortKeysPermutation(keys[1..]);
      InsertPermutation(keys[0], SortKeys(keys[1..]));
      assert keys == [keys[0]] + keys[1..];
    }
  }

  lemma {:induction false} InsertSorted(x: string, s: seq<string>)
    requires StrictlySorted(s) && x !in s
    ensures StrictlySorted(Insert(x, s))
  {
    if s == [] {
    } else if Less(x, s[0]) {
      forall j | 1 <= j < |s| ensures Less(x, s[j]) {
        LessTransitive(x, s[0], s[j]);
      }
    } else {
      LessTotal(x, s[0]);
      var rest := Insert(x, s[1..]);
      InsertSorted(x, s[1..]);
      InsertPermutation(x, s[1..]);
      forall j | 0 <= j < |rest| ensures Less(s[0], rest[j]) {
        assert rest[j] in multiset(rest);
        if rest[j] != x {
          assert rest[j] in multiset(s[1..]);
          var k :| 0 <= k < |s[1..]| && s[1..][k] == rest[j];
          assert s[k + 1] == rest[j];
        }
      }
    }
  }

  lemma {:induction false} SortKeysSorted(keys: seq<string>)
    requires Distinct(keys)
    ensures StrictlySorted(SortKeys(keys))
  {
    if keys != [] {
      assert Distinct(keys[1..]);
      SortKeysSorted(keys[1..]);
      SortKeysPermutation(keys[1..]);
      assert keys[0] !in keys[1..];
      assert keys[0] !in multiset(SortKeys(keys[1..]));
      InsertSorted(keys[0], SortKeys(keys[1..]));
    }
  }

  /** Two ascending lists with the same elements are the same list. */
  lemma {:induction false} SortedUnique(a: seq<string>, b: seq<string>)
    requires StrictlySorted(a) && StrictlySorted(b)
    requires forall x :: x in a <==> x in b
    ensures a == b
  {
    if a != [] {
      assert a[0] in b;
    }
    if b != [] {
      assert b[0] in a;
    }
    if a != [] {
      assert a[0] in b && b[0] in a;
      if a[0] != b[0] {
        var i :| 0 <= i < |a| && a[i] == b[0];
        var j :| 0 <= j < |b| && b[j] == a[0];
        assert Less(a[0], b[0]) && Less(b[0], a[0]);
        LessAsymmetric(a[0], b[0]);
      }
      forall x ensures x in a[1..] <==> x in b[1..] {
        if x in a[1..] {
          var i :| 0 <= i < |a[1..]| && a[1..][i] == x;
          assert Less(a[0], a[i + 1]);
          LessIrreflexive(x);
          assert x in a;
          var j :| 0 <= j < |b| && b[j] == x;
          assert j != 0;
          assert b[1..][j - 1] == x;
        }
        if x in b[1..] {
          var j :| 0 <= j < |b[1..]| && b[1..][j] == x;
          assert Less(b[0], b[j + 1]);
          LessIrreflexive(x);
          assert x in b;
          var i :| 0 <= i < |a| && a[i] == x;
          assert i != 0;
          assert a[1..][i - 1] == x;
        }
      }
      SortedUnique(a[1..], b[1..]);
      assert a == [a[0]] + a[1..] && b == [b[0]] + b[1..];
    }
  }

  /** The sorted key list does not depend on the order in which the map was iterated. */
  lemma SortKeysOrderIndependent(a: seq<string>, b: seq<string>)
    requires Distinct(a) && Distinct(b)
    requires forall x :: x in a <==> x in b
    ensures SortKeys(a) == SortKeys(b)
  {
    SortKeysSorted(a);
    SortKeysSorted(b);
    SortKeysPermutation(a);
    SortKeysPermutation(b);
    forall x ensures x in SortKeys(a) <==> x in SortKeys(b) {
      assert x in SortKeys(a) <==> x in multiset(SortKeys(a));
      assert x in SortKeys(b) <==> x in multiset(SortKeys(b));
      assert x in a <==> x in multiset(a);
      assert x in b <==> x in multiset(b);
    }
    SortedUnique(SortKeys(a), SortKeys(b));
  }

  /** The test-specified `pickStorageInstance`: "" for no instances, otherwise
      `sorted[hash(id) mod n]`. */
  function PickDeterministic(keys: seq<string>, objectId: string): string {
    var sorted := SortKeys(keys);
    if |sorted| == 0 then "" else sorted[Hash(objectId) % |sorted|]
  }

  /** For a non-empty instance set the pick is one of the instances; for an empty one it is "". */
  lemma PickIsMember(keys: seq<string>, objectId: string)
    ensures keys == [] ==> PickDeterministic(keys, objectId) == ""
    ensures keys != [] ==> PickDeterministic(keys, objectId) in keys
  {
    SortKeysPermutation(keys);
    var sorted := SortKeys(keys);
    assert |sorted| == |multiset(sorted)| == |multiset(keys)| == |keys|;
    if keys != [] {
      var x := sorted[Hash(objectId) % |sorted|];
      assert x in multiset(sorted);
      assert x in multiset(keys);
    }
  }

  /** Idempotent under a fixed instance set: the discovery order does not matter. */
  lemma PickIgnoresDiscoveryOrder(a: seq<string>, b: seq<string>, objectId: string)
    requires Distinct(a) && Distinct(b)
    requires forall x :: x in a <==> x in b
    ensures PickDeterministic(a, objectId) == PickDeterministic(b, objectId)
  {
    SortKeysOrderIndependent(a, b);
  }

  /** A single instance is always chosen. */
  lemma PickSingleton(k: string, objectId: string)
    ensures PickDeterministic([k], objectId) == k
  {
    assert [k][1..] == [];
    assert SortKeys([k]) == [k];
  }

  /** The cases of Test_hash, Test_readSortedMapKeys and Test_pickStorageInstance. */
  lemma TestCases()
    ensures Hash("1") == 49 && Hash("foo") == 324 && Hash("FOo0") == 308
    ensures SortKeys(["foo"]) == ["foo"] && SortKeys([]) == []
    ensures SortKeys(["foo", "baz", "bar"]) == ["bar", "baz", "foo"]
    ensures PickDeterministic([], "") == "" && PickDeterministic(["foo"], "") == "foo"
    ensures PickDeterministic(["foo", "bar", "baz"], "1") == "baz"
    ensures PickDeterministic(["foo", "bar", "baz"], "foo") == "bar"
    ensures PickDeterministic(["foo", "bar", "baz"], "FoO0") == "foo"
  {
    assert Less("bar", "baz") && Less("baz", "foo") && Less("bar", "foo");
    assert SortKeys(["baz", "bar"]) == ["bar", "baz"];
    assert SortKeys(["bar", "baz"]) == ["bar", "baz"];
    assert SortKeys(["foo", "bar", "baz"]) == ["bar", "baz", "foo"];
  }
}

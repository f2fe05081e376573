/** `concatHeaders` of internal/restfulhandler/handler.go (the same code is in
    pkg/gateway/restfulhandler/rest.go): the request headers flattened into one
    `k=v,k=v` string for the debug log line. */
module HeaderLog {
  import opened Base
  import opened HttpModel

  /** The `k=v` entries that one header key contributes, one per value. */
  function KeyPairs(k: string, vs: seq<string>): (ps: seq<string>)
    ensures |ps| == |vs|
    ensures forall j :: 0 <= j < |vs| ==> ps[j] == k + "=" + vs[j]
  {
    seq(|vs|, j requires 0 <= j < |vs| => k + "=" + vs[j])
  }

  /** Every `k=v` entry of the header, keys in iteration order, each key's values in order. */
  function Pairs(h: Header): seq<string> {
    if h == [] then [] else Pairs(h[..|h| - 1]) + KeyPairs(h[|h| - 1].0, h[|h| - 1].1)
  }

  /** The entries joined by ",". */
  function Join(ps: seq<string>): string
    requires ps != []
  {
    if |ps| == 1 then ps[0] else Join(ps[..|ps| - 1]) + "," + ps[|ps| - 1]
  }

  /** The builder's contents: each entry followed by ",". */
  function Terminated(ps: seq<string>): string {
    if ps == [] then "" else Terminated(ps[..|ps| - 1]) + ps[|ps| - 1] + ","
  }

  /** What `concatHeaders` returns: "" for no headers; `None` when there are keys but
      no values at all, where `o[:len(o)-1]` slices an empty string and panics;
      otherwise the entries joined by ",". */
  function ConcatSpec(h: Header): Option<string> {
    if h == [] then Some("")
    else if Pairs(h) == [] then None
    else Some(Join(Pairs(h)))
  }

  lemma TerminatedAppend(ps: seq<string>, x: string)
    ensures Terminated(ps + [x]) == Terminated(ps) + x + ","
  {
    assert (ps + [x])[..|ps|] == ps;
  }

  /** The builder holds the joined entries and exactly one trailing ",". */
  lemma {:induction false} TerminatedJoin(ps: seq<string>)
    requires ps != []
    ensures Terminated(ps) == Join(ps) + ","
  {
    if |ps| == 1 {
      assert ps[..0] == [];
    } else {
      TerminatedJoin(ps[..|ps| - 1]);
    }
  }

  /** The builder is empty exactly when there was no entry. */
  lemma TerminatedEmpty(ps: seq<string>)
    ensures Terminated(ps) == "" <==> ps == []
  {
    if ps != [] {
      assert |Terminated(ps)| >= 1;
    }
  }

  /** Writing one more value of the current key appends `k=v,` to the builder. */
  lemma BuilderStep(pre: seq<string>, k: string, vs: seq<string>, j: nat)
    requires j < |vs|
    ensures Terminated(pre + KeyPairs(k, vs[..j + 1])) == Terminated(pre + KeyPairs(k, vs[..j])) + k + "=" + vs[j] + ","
  {
    var x := k + "=" + vs[j];
    assert KeyPairs(k, vs[..j + 1]) == KeyPairs(k, vs[..j]) + [x];
    assert pre + KeyPairs(k, vs[..j + 1]) == (pre + KeyPairs(k, vs[..j])) + [x];
    TerminatedAppend(pre + KeyPairs(k, vs[..j]), x);
  }

  /** After all values of key `i`, the builder holds the entries of the first `i + 1` keys. */
  lemma KeyDone(h: Header, i: nat)
    requires i < |h|
    ensures Pairs(h[..i]) + KeyPairs(h[i].0, h[i].1[..|h[i].1|]) == Pairs(h[..i + 1])
  {
    assert h[i].1[..|h[i].1|] == h[i].1;
    assert h[..i + 1][..i] == h[..i];
  }

  /** `concatHeaders`: the nested loop over keys and their values writes
      `k`, "=", `v`, "," for each value; the final "," is cut off. */
  method ConcatHeaders(h: Header) returns (o: Option<string>)
    ensures o == ConcatSpec(h)
  {
    if |h| == 0 {
      return Some("");
    }
    var buf := "";
    var i := 0;
    while i < |h|
      invariant 0 <= i <= |h|
      invariant buf == Terminated(Pairs(h[..i]))
    {
      var k := h[i].0;
      var vs := h[i].1;
      var j := 0;
      assert Pairs(h[..i]) + KeyPairs(k, vs[..0]) == Pairs(h[..i]);
      while j < |vs|
        invariant 0 <= j <= |vs|
        invariant buf == Terminated(Pairs(h[..i]) + KeyPairs(k, vs[..j]))
      {
        BuilderStep(Pairs(h[..i]), k, vs, j);
        buf := buf + k + "=" + vs[j] + ",";
        j := j + 1;
      }
      KeyDone(h, i);
      i := i + 1;
    }
    assert h[..i] == h;
    TerminatedEmpty(Pairs(h));
    if |buf| == 0 {
      return None;
    }
    TerminatedJoin(Pairs(h));
    return Some(buf[..|buf| - 1]);
  }

  /** The number of values over all keys. */
  function ValueCount(h: Header): nat {
    if h == [] then 0 else ValueCount(h[..|h| - 1]) + |h[|h| - 1].1|
  }

  /** One entry per value, and every value of every key appears as `k=v`. */
  lemma {:induction false} PairsContents(h: Header)
    ensures |Pairs(h)| == ValueCount(h)
    ensures forall i, j :: 0 <= i < |h| && 0 <= j < |h[i].1| ==> h[i].0 + "=" + h[i].1[j] in Pairs(h)
  {
    if h != [] {
      var init := h[..|h| - 1];
      PairsContents(init);
      var last := KeyPairs(h[|h| - 1].0, h[|h| - 1].1);
      forall i, j | 0 <= i < |h| && 0 <= j < |h[i].1| ensures h[i].0 + "=" + h[i].1[j] in Pairs(h) {
        if i < |h| - 1 {
          assert h[i] == init[i];
          assert h[i].0 + "=" + h[i].1[j] in Pairs(init);
        } else {
          assert last[j] == h[i].0 + "=" + h[i].1[j];
        }
      }
    }
  }

  /** Each entry of the log string is a key, "=", and one of that key's values. */
  lemma {:induction false} PairsSound(h: Header, x: string)
    requires x in Pairs(h)
    ensures exists i, j :: 0 <= i < |h| && 0 <= j < |h[i].1| && x == h[i].0 + "=" + h[i].1[j]
  {
    var init := h[..|h| - 1];
    var last := KeyPairs(h[|h| - 1].0, h[|h| - 1].1);
    if x in Pairs(init) {
      PairsSound(init, x);
      var i, j :| 0 <= i < |init| && 0 <= j < |init[i].1| && x == init[i].0 + "=" + init[i].1[j];
      assert h[i] == init[i];
    } else {
      assert x in last;
      var j :| 0 <= j < |last| && last[j] == x;
      assert x == h[|h| - 1].0 + "=" + h[|h| - 1].1[j];
    }
  }

  /** `concatHeaders` panics exactly when the header has keys but not a single value. */
  lemma ConcatPanicsIff(h: Header)
    ensures ConcatSpec(h) == None <==> h != [] && forall i :: 0 <= i < |h| ==> h[i].1 == []
  {
    PairsContents(h);
    NoValues(h);
  }

  lemma {:induction false} NoValues(h: Header)
    ensures ValueCount(h) == 0 <==> forall i :: 0 <= i < |h| ==> h[i].1 == []
  {
    if h != [] {
      NoValues(h[..|h| - 1]);
      assert forall i :: 0 <= i < |h| - 1 ==> h[..|h| - 1][i] == h[i];
    }
  }

  /** A single key with a single value is logged as `k=v`, without a trailing ",". */
  lemma ConcatSingle(k: string, v: string)
    ensures ConcatSpec([(k, [v])]) == Some(k + "=" + v)
  {
    var h := [(k, [v])];
    assert h[..0] == [];
    assert Pairs(h) == [k + "=" + v];
  }

  /** Splitting at every ",", the inverse of `Join` where no entry holds a ",". */
  function Split(s: string): (parts: seq<string>)
    ensures parts != []
  {
    if s == [] then [""]
    else
      var p := Split(s[..|s| - 1]);
      var c := s[|s| - 1];
      if c == ',' then p + [""] else p[..|p| - 1] + [p[|p| - 1] + [c]]
  }

  predicate NoComma(s: string) {
    forall i :: 0 <= i < |s| ==> s[i] != ','
  }

  lemma {:induction false} SplitNoComma(s: string)
    requires NoComma(s)
    ensures Split(s) == [s]
  {
    if s != [] {
      SplitNoComma(s[..|s| - 1]);
      assert s[..|s| - 1] + [s[|s| - 1]] == s;
    }
  }

  lemma {:induction false} SplitAppend(a: string, b: string)
    requires NoComma(b)
    ensures Split(a + "," + b) == Split(a) + [b]
  {
    if b == [] {
      assert (a + ",")[..|a|] == a;
      assert a + "," + b == a + ",";
    } else {
      var b' := b[..|b| - 1];
      SplitAppend(a, b');
      var s := a + "," + b;
      assert s[..|s| - 1] == a + "," + b';
      assert s[|s| - 1] == b[|b| - 1];
      assert b' + [b[|b| - 1]] == b;
    }
  }

  /** Entries without "," come back from the log string one by one. */
  lemma {:induction false} SplitJoin(ps: seq<string>)
    requires ps != []
    requires forall i :: 0 <= i < |ps| ==> NoComma(ps[i])
    ensures Split(Join(ps)) == ps
  {
    if |ps| == 1 {
      SplitNoComma(ps[0]);
    } else {
      SplitJoin(ps[..|ps| - 1]);
      SplitAppend(Join(ps[..|ps| - 1]), ps[|ps| - 1]);
      assert ps[..|ps| - 1] + [ps[|ps| - 1]] == ps;
    }
  }
}

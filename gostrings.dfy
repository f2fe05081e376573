/** The few functions of Go's `strings` package that the HTTP adapters use,
    on strings as sequences of Unicode code points. */
module GoStrings {

  /** `strings.HasPrefix(s, prefix)`. */
  predicate HasPrefix(s: string, prefix: string) {
    prefix <= s
  }

  /** `strings.TrimPrefix(s, prefix)`: removes one leading copy of `prefix`, if present. */
  function TrimPrefix(s: string, prefix: string): (r: string)
    ensures HasPrefix(s, prefix) ==> prefix + r == s
    ensures !HasPrefix(s, prefix) ==> r == s
  {
    if prefix <= s then s[|prefix|..] else s
  }

  /** `strings.TrimRightFunc(s, func(r rune) bool { return r == '/' })`:
      the longest prefix of `s` that does not end in '/'; only '/' were cut. */
  function TrimRightSlash(s: string): (r: string)
    ensures r <= s
    ensures r == [] || r[|r| - 1] != '/'
    ensures forall i :: |r| <= i < |s| ==> s[i] == '/'
  {
    if |s| > 0 && s[|s| - 1] == '/' then TrimRightSlash(s[..|s| - 1]) else s
  }

  /** `strings.TrimLeftFunc(s, func(r rune) bool { return r == '/' })`:
      the longest suffix of `s` that does not start with '/'; only '/' were cut. */
  function TrimLeftSlash(s: string): (r: string)
    ensures |r| <= |s| && r == s[|s| - |r|..]
    ensures r == [] || r[0] != '/'
    ensures forall i :: 0 <= i < |s| - |r| ==> s[i] == '/'
  {
    if |s| > 0 && s[0] == '/' then TrimLeftSlash(s[1..]) else s
  }

  /** Trimming trailing '/' a second time changes nothing. */
  lemma TrimRightSlashIdempotent(s: string)
    ensures TrimRightSlash(TrimRightSlash(s)) == TrimRightSlash(s)
  {
  }

  /** Cutting leading '/' keeps the last character of a non-empty result, so a
      string that did not end in '/' still does not. */
  lemma TrimLeftKeepsEnd(s: string)
    requires s == [] || s[|s| - 1] != '/'
    ensures var r := TrimLeftSlash(s); r == [] || r[|r| - 1] != '/'
  {
    var r := TrimLeftSlash(s);
    if r != [] {
      assert r[|r| - 1] == s[|s| - 1];
    }
  }

  /** A string made of '/' only, the empty string included. */
  predicate AllSlashes(s: string) {
    forall i :: 0 <= i < |s| ==> s[i] == '/'
  }

  /** Trailing '/' appended to a string that does not end in '/' are exactly what
      `TrimRightSlash` cuts. */
  lemma {:induction false} TrimRightSlashOf(x: string, b: string)
    requires AllSlashes(b) && (x == [] || x[|x| - 1] != '/')
    ensures TrimRightSlash(x + b) == x
  {
    if b == [] {
      assert x + b == x;
    } else {
      var s := x + b;
      assert s[..|s| - 1] == x + b[..|b| - 1];
      TrimRightSlashOf(x, b[..|b| - 1]);
    }
  }

  /** Leading '/' put before a string that does not start with '/' are exactly what
      `TrimLeftSlash` cuts. */
  lemma {:induction false} TrimLeftSlashOf(a: string, x: string)
    requires AllSlashes(a) && (x == [] || x[0] != '/')
    ensures TrimLeftSlash(a + x) == x
  {
    if a == [] {
      assert a + x == x;
    } else {
      assert (a + x)[1..] == a[1..] + x;
      TrimLeftSlashOf(a[1..], x);
    }
  }
}

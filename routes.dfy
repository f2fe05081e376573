/** `knownRoute` and `readObjectID` of the three restful handlers
    (internal/restfulhandler/handler.go, pkg/gateway/restfulhandler/rest.go and
    internal/restfulhandler/rest.go, identical in all three), with the route prefix
    "/object" every constructor sets. */
module RestRoute {
  import opened GoStrings

  const DefaultPrefix := "/object"

  /** `knownRoute`: the path starts with "/object" (so "/objectX" is known too). */
  predicate KnownRoute(p: string) {
    HasPrefix(p, DefaultPrefix)
  }

  /** `readObjectID`: one "/object" cut off the front, then every trailing and every
      leading '/'; the ID never starts or ends with '/'. */
  function ReadObjectID(p: string): (id: string)
    ensures id == [] || (id[0] != '/' && id[|id| - 1] != '/')
    ensures |id| <= |p|
  {
    var s := TrimPrefix(p, DefaultPrefix);
    var r := TrimRightSlash(s);
    TrimLeftKeepsEnd(r);
    TrimLeftSlash(r)
  }

  /** Any run of '/' around an ID that itself has no '/' at either end is dropped,
      and the ID comes back unchanged. */
  lemma ReadObjectIDOf(a: string, id: string, b: string)
    requires AllSlashes(a) && AllSlashes(b)
    requires id == [] || (id[0] != '/' && id[|id| - 1] != '/')
    ensures ReadObjectID(DefaultPrefix + a + id + b) == id
  {
    var p := DefaultPrefix + a + id + b;
    assert DefaultPrefix + (a + id + b) == p;
    assert TrimPrefix(p, DefaultPrefix) == a + id + b;
    if id == [] {
      assert a + id + b == [] + (a + b);
      TrimRightSlashOf([], a + b);
      assert TrimLeftSlash([]) == [];
    } else {
      assert a + id + b == (a + id) + b;
      TrimRightSlashOf(a + id, b);
      TrimLeftSlashOf(a, id);
    }
  }

  /** The routes of handler_test.go, and "/objectX", which the prefix test lets
      through as well. */
  lemma KnownRouteExamples()
    ensures KnownRoute("/object/bAr1") && KnownRoute("/objectX") && !KnownRoute("/foo/bar1")
  {
    assert "/foo/bar1"[1] != DefaultPrefix[1];
  }

  /** The object ID of the handler_test.go path with one '/' before the ID. */
  lemma ReadObjectIDPlain()
    ensures ReadObjectID("/object/bAr1") == "bAr1"
  {
    assert "/object/bAr1" == DefaultPrefix + "/" + "bAr1" + "";
    ReadObjectIDOf("/", "bAr1", "");
  }

  /** The object ID of the handler_test.go path with runs of '/' around the ID. */
  lemma ReadObjectIDSlashes()
    ensures ReadObjectID("/object////-!#///") == "-!#"
  {
    var a, id, b := "////", "-!#", "///";
    assert AllSlashes(a) && AllSlashes(b);
    assert id[0] == '-' && id[2] == '#';
    assert "/object////-!#///" == DefaultPrefix + a + id + b;
    ReadObjectIDOf(a, id, b);
  }
}

/** `knownRoute` and `readObjectID` of the two httphandlers (httphandler.go and
    internal/httphandler/httphandler.go, identical in both), for a given `commonPrefix`. */
module HttpRoute {
  import opened GoStrings

  /** `knownRoute`: `strings.HasPrefix(h.commonPrefix, p)`, arguments reversed, so a
      route is known when it is a prefix of `commonPrefix`. */
  predicate KnownRoute(prefix: string, p: string) {
    HasPrefix(prefix, p)
  }

  /** `readObjectID`: `commonPrefix` cut off the front, then trailing '/' cut twice;
      leading '/' stay. */
  function ReadObjectID(prefix: string, p: string): (id: string)
    ensures id == [] || id[|id| - 1] != '/'
    ensures id <= TrimPrefix(p, prefix)
  {
    TrimRightSlash(TrimRightSlash(TrimPrefix(p, prefix)))
  }

  /** The second trim does nothing. */
  lemma SecondTrimIsNoOp(prefix: string, p: string)
    ensures ReadObjectID(prefix, p) == TrimRightSlash(TrimPrefix(p, prefix))
  {
    TrimRightSlashIdempotent(TrimPrefix(p, prefix));
  }

  /** On a known route the path is a prefix of `commonPrefix`; only the path equal to
      it loses the prefix, so every ID that reaches validation is a prefix of
      `commonPrefix` (with its trailing '/' cut), and "" for the prefix itself. */
  lemma KnownRouteID(prefix: string, p: string)
    requires KnownRoute(prefix, p)
    ensures ReadObjectID(prefix, p) == if p == prefix then "" else TrimRightSlash(p)
    ensures ReadObjectID(prefix, p) <= prefix
  {
    SecondTrimIsNoOp(prefix, p);
    if p == prefix {
      assert TrimPrefix(p, prefix) == [];
    } else {
      assert !(prefix <= p);
    }
  }

  /** An ID after the prefix keeps its leading '/'. */
  lemma LeadingSlashKept(prefix: string, id: string)
    requires id == [] || id[|id| - 1] != '/'
    ensures ReadObjectID(prefix, prefix + id) == id
  {
    assert TrimPrefix(prefix + id, prefix) == id;
    SecondTrimIsNoOp(prefix, prefix + id);
    TrimRightSlashOf(id, []);
    assert id + [] == id;
  }

  /** A path that starts with '/' is unknown for a prefix that does not. */
  lemma SlashPathUnknown(prefix: string, p: string)
    requires prefix == [] || prefix[0] != '/'
    requires p != [] && p[0] == '/'
    ensures !KnownRoute(prefix, p)
  {
  }
}

/** `Client` of gateway.go: the first generation of the location cache, talking to
    minio nodes directly. The nodes are an environment passed to each call: the
    replies of the cluster access details reader for each lookup key, the
    connection factory, and for every host the outcome of each minio operation on
    the object of that call. Each call returns the trace of its interactions. */
module RootGateway {
  import opened Base

  const NoDetailsMsg := "no connection details found for the node with the label "
  const StoreFailedMsg := "cannot store the object: "
  const BucketFailedMsg := "cannot create bucket to store objects "

  /** `MimioConnectionDetails`. */
  datatype Details = Details(ipAddress: string, accessKeyID: string, secretAccessKey: string)

  /** A Go `map[string]MimioConnectionDetails`: its keys in the order in which the
      `range` of `Read` or of `Write`'s probe visits them, its keys in the order in
      which the separate `range` of `readKeys` visits them, and its entries. Go
      fixes no iteration order, so the two orders are independent; for a real map
      each is a permutation of the other (`SameKeys`). */
  datatype HostMap = HostMap(order: seq<string>, keysOrder: seq<string>, details: map<string, Details>)

  /** Both ranges visit the same keys, as they do over one Go map. */
  predicate SameKeys(h: HostMap) {
    multiset(h.keysOrder) == multiset(h.order)
  }

  /** The two results of `ClusterAccessDetailsReader.Read`. */
  datatype Lookup = Lookup(hosts: HostMap, err: Option<Error>)

  /** The two results of `BucketExists`. */
  datatype BucketReply = BucketReply(present: bool, err: Option<Error>)

  /** The environment of one Read or Write call on one object ID. `laterLookup`
      and `laterFactory` answer the new connection that `write` opens to the host
      Write picks for a new object, after the probe has connected to every host;
      they may differ from the first answers (the node may have gone down meanwhile). */
  datatype Nodes = Nodes(
    lookup: string -> Lookup,
    factory: Details -> Option<Error>,
    laterLookup: string -> Lookup,
    laterFactory: Details -> Option<Error>,
    getObject: string -> DataReply,
    getAcl: string -> Option<Error>,
    bucketExists: string -> BucketReply,
    makeBucket: string -> Option<Error>,
    putObject: string -> Option<Error>)

  /** One interaction with the environment; `LookupCall` is a call of the details
      reader, `ConnectCall` one of the connection factory. */
  datatype Call = LookupCall(key: string) | ConnectCall(host: string) | GetObjectCall(host: string)
    | AclCall(host: string) | BucketExistsCall(host: string) | MakeBucketCall(host: string)
    | PutCall(host: string)

  /** A result together with the calls that produced it. */
  datatype Traced<R> = Traced(result: R, calls: seq<Call>)

  /** `newStorageConnection`: the details of `node` are looked up by its own label;
      a missing entry is an error and the factory is not called. */
  function NewStorageConnection(n: Nodes, node: string): (r: Traced<Option<Error>>)
    ensures n.lookup(node).err.Some? ==> r == Traced(n.lookup(node).err, [LookupCall(node)])
    ensures n.lookup(node).err.None? && node !in n.lookup(node).hosts.details ==>
              r == Traced(Some(Plain(NoDetailsMsg + node)), [LookupCall(node)])
    ensures ConnectCall(node) in r.calls <==> n.lookup(node).err.None? && node in n.lookup(node).hosts.details
    ensures ConnectCall(node) in r.calls ==>
              r == Traced(n.factory(n.lookup(node).hosts.details[node]), [LookupCall(node), ConnectCall(node)])
  {
    var l := n.lookup(node);
    if l.err.Some? then Traced(l.err, [LookupCall(node)])
    else if node !in l.hosts.details then Traced(Some(Plain(NoDetailsMsg + node)), [LookupCall(node)])
    else Traced(n.factory(l.hosts.details[node]), [LookupCall(node), ConnectCall(node)])
  }

  /** The nodes as the placement's own connection sees them. */
  function Later(n: Nodes): Nodes
  {
    n.(lookup := n.laterLookup, factory := n.laterFactory)
  }

  /** `read`: `GetObject` on a fresh connection to `host`. */
  function ReadAt(n: Nodes, host: string): (r: Traced<DataReply>)
    ensures var c := NewStorageConnection(n, host);
      (c.result.Some? ==> r == Traced(DataReply(None, c.result), c.calls))
      && (c.result.None? ==> r == Traced(n.getObject(host), c.calls + [GetObjectCall(host)]))
  {
    var c := NewStorageConnection(n, host);
    if c.result.Some? then Traced(DataReply(None, c.result), c.calls)
    else Traced(n.getObject(host), c.calls + [GetObjectCall(host)])
  }

  /** The results of `objectExists`: found, the error, and the calls. */
  datatype Exists = Exists(found: bool, err: Option<Error>, calls: seq<Call>)

  /** `objectExists`: the object exists when `GetObjectACL` succeeds; a not-found
      answer means absent, not failure; a connection error is passed on. */
  function ExistsAt(n: Nodes, host: string): (r: Exists)
    ensures r.found ==> r.err.None?
    ensures var c := NewStorageConnection(n, host);
      (c.result.Some? ==> r == Exists(false, c.result, c.calls))
      && (c.result.None? ==>
            r.calls == c.calls + [AclCall(host)]
            && (r.found <==> n.getAcl(host).None?)
            && r.err == (if IsNotFound(n.getAcl(host)) then None else n.getAcl(host)))
  {
    var c := NewStorageConnection(n, host);
    if c.result.Some? then Exists(false, c.result, c.calls)
    else
      var acl := n.getAcl(host);
      if acl.None? then Exists(true, None, c.calls + [AclCall(host)])
      else if IsNotFound(acl) then Exists(false, None, c.calls + [AclCall(host)])
      else Exists(false, acl, c.calls + [AclCall(host)])
  }

  /** `write`: the object is put only once the bucket is known to exist, having
      been created if it was missing; a failed check or creation returns a
      wrapped error and puts nothing. */
  function WriteAt(n: Nodes, host: string): (r: Traced<Option<Error>>)
    ensures PutCall(host) in r.calls ==>
              n.bucketExists(host).err.None? && (n.bucketExists(host).present || n.makeBucket(host).None?)
    ensures var c := NewStorageConnection(n, host); var b := n.bucketExists(host);
      (c.result.Some? ==> r == Traced(c.result, c.calls))
      && (c.result.None? && b.err.Some? ==>
            r.result == Some(Plain(StoreFailedMsg + b.err.value.msg)) && PutCall(host) !in r.calls)
      && (c.result.None? && b.err.None? && !b.present && n.makeBucket(host).Some? ==>
            r.result == Some(Plain(BucketFailedMsg + n.makeBucket(host).value.msg)) && PutCall(host) !in r.calls)
      && (c.result.None? && b.err.None? && (b.present || n.makeBucket(host).None?) ==>
            r.result == n.putObject(host) && PutCall(host) in r.calls)
  {
    var c := NewStorageConnection(n, host);
    if c.result.Some? then Traced(c.result, c.calls)
    else
      var b := n.bucketExists(host);
      var calls := c.calls + [BucketExistsCall(host)];
      if b.err.Some? then Traced(Some(Plain(StoreFailedMsg + b.err.value.msg)), calls)
      else if !b.present then
        var m := n.makeBucket(host);
        if m.Some? then Traced(Some(Plain(BucketFailedMsg + m.value.msg)), calls + [MakeBucketCall(host)])
        else Traced(n.putObject(host), calls + [MakeBucketCall(host), PutCall(host)])
      else Traced(n.putObject(host), calls + [PutCall(host)])
  }

  /** The outcome of the Read scan and of Read: its result, the cache after it, the calls. */
  datatype Step = Step(result: ReadReply, cache: map<string, string>, calls: seq<Call>)

  /** The Read scan over the hosts still to visit. A host that returns data is
      recorded and ends the scan; so does any outcome that is not a not-found error. */
  function ReadScan(n: Nodes, id: string, rest: seq<string>, cache: map<string, string>, calls: seq<Call>): Step
    decreases |rest|
  {
    if rest == [] then Step(ReadReply(None, false, None), cache, calls)
    else
      var host := rest[0];
      var r := ReadAt(n, host);
      if r.result.data.Some? then Step(ReadReply(r.result.data, true, r.result.err), cache[id := host], calls + r.calls)
      else if !IsNotFound(r.result.err) then Step(ReadReply(None, false, r.result.err), cache, calls + r.calls)
      else ReadScan(n, id, rest[1..], cache, calls + r.calls)
  }

  /** `Client.Read` on a cache with host prefix `prefix`. */
  function ReadSpec(n: Nodes, id: string, cache: map<string, string>, prefix: string): Step {
    if id in cache then
      var r := ReadAt(n, cache[id]);
      if r.result.err.Some? then
        if IsNotFound(r.result.err) then Step(ReadReply(r.result.data, false, None), cache, r.calls)
        else Step(ReadReply(r.result.data, false, r.result.err), cache, r.calls)
      else Step(ReadReply(r.result.data, true, None), cache, r.calls)
    else
      var l := n.lookup(prefix);
      if l.err.Some? then Step(ReadReply(None, false, l.err), cache, [LookupCall(prefix)])
      else ReadScan(n, id, l.hosts.order, cache, [LookupCall(prefix)])
  }

  /** How a Write call ends: returning an error value, or in a run-time panic. */
  datatype Exit = Return(err: Option<Error>) | Panic

  datatype Probe = Settled(exit: Exit, calls: seq<Call>) | Undetected(calls: seq<Call>)

  /** The Write probe: an `objectExists` error aborts; the first host holding the
      object gets `PutObject` on the probe's own connection. */
  function ProbeScan(n: Nodes, rest: seq<string>, calls: seq<Call>): Probe
    decreases |rest|
  {
    if rest == [] then Undetected(calls)
    else
      var host := rest[0];
      var e := ExistsAt(n, host);
      if e.err.Some? then Settled(Return(e.err), calls + e.calls)
      else if e.found then Settled(Return(n.putObject(host)), calls + e.calls + [PutCall(host)])
      else ProbeScan(n, rest[1..], calls + e.calls)
  }

  /** `Client.Write` on a cache, when `target` is the host the random pick chooses. */
  function WriteSpec(n: Nodes, id: string, cache: map<string, string>, prefix: string, target: string): Traced<Exit> {
    if id in cache then
      var w := WriteAt(n, cache[id]);
      Traced(Return(w.result), w.calls)
    else
      var l := n.lookup(prefix);
      if l.err.Some? then Traced(Return(l.err), [LookupCall(prefix)])
      else
        match ProbeScan(n, l.hosts.order, [LookupCall(prefix)])
        case Settled(exit, calls) => Traced(exit, calls)
        case Undetected(calls) =>
          if |l.hosts.keysOrder| == 0 then Traced(Panic, calls)
          else
            var w := WriteAt(Later(n), target);
            Traced(Return(w.result), calls + w.calls)
  }

  /** Whether Write on this cache reaches the random pick with a non-empty key list. */
  predicate Picks(n: Nodes, id: string, cache: map<string, string>, prefix: string) {
    id !in cache && n.lookup(prefix).err.None? && |n.lookup(prefix).hosts.keysOrder| > 0
    && ProbeScan(n, n.lookup(prefix).hosts.order, [LookupCall(prefix)]).Undetected?
  }

  /** `readKeys`: a slice as long as the map, filled through an index that is never
      advanced, so only its first slot is written, each time, and ends with the
      last key its own `range` visits (`keys` is that visiting order). */
  method ReadKeys(keys: seq<string>) returns (o: seq<string>)
    ensures |o| == |keys|
    ensures |keys| > 0 ==> o[0] == keys[|keys| - 1]
    ensures forall j :: 1 <= j < |o| ==> o[j] == ""
  {
    var a := new string[|keys|](_ => "");
    var i := 0;
    var k := 0;
    while k < |keys|
      invariant 0 <= k <= |keys|
      invariant k > 0 ==> a[0] == keys[k - 1]
      invariant forall j :: 1 <= j < a.Length ==> a[j] == ""
    {
      a[i] := keys[k];
      k := k + 1;
    }
    o := a[..];
  }

  /** `pickStorage`: a uniformly random element; `rand.Intn` panics on an empty slice. */
  method PickStorage(hosts: seq<string>, objectId: string) returns (host: string)
    requires |hosts| > 0
    ensures host in hosts
  {
    var pick :| 0 <= pick < |hosts|;
    host := hosts[pick];
  }

  class Client {
    /** `StorageHostPrefix`: the filter passed to the details reader to list the hosts. */
    const prefix: string
    /** `cacheObjectLocation`: object ID to the host that holds it. */
    var cache: map<string, string>

    /** `New`: the cache starts empty. */
    constructor (hostPrefix: string)
      ensures prefix == hostPrefix && cache == map[]
    {
      prefix := hostPrefix;
      cache := map[];
    }

    /** `setObjectLocation`. */
    method SetObjectLocation(id: string, host: string)
      modifies this
      ensures cache == old(cache)[id := host]
    {
      cache := cache[id := host];
    }

    method Read(n: Nodes, id: string) returns (r: ReadReply, calls: seq<Call>)
      modifies this
      ensures ReadSpec(n, id, old(cache), prefix) == Step(r, cache, calls)
    {
      if id in cache {
        var t := ReadAt(n, cache[id]);
        calls := t.calls;
        if t.result.err.Some? {
          if IsNotFound(t.result.err) {
            r := ReadReply(t.result.data, false, None);
            return;
          }
          r := ReadReply(t.result.data, false, t.result.err);
          return;
        }
        r := ReadReply(t.result.data, true, None);
        return;
      }
      var l := n.lookup(prefix);
      calls := [LookupCall(prefix)];
      if l.err.Some? {
        r := ReadReply(None, false, l.err);
        return;
      }
      var order := l.hosts.order;
      var i := 0;
      while i < |order|
        invariant 0 <= i <= |order|
        invariant cache == old(cache)
        invariant ReadScan(n, id, order[i..], cache, calls) == ReadSpec(n, id, old(cache), prefix)
      {
        var host := order[i];
        assert order[i..][1..] == order[i + 1..];
        var t := ReadAt(n, host);
        calls := calls + t.calls;
        if t.result.data.Some? {
          SetObjectLocation(id, host);
          r := ReadReply(t.result.data, true, t.result.err);
          return;
        }
        if !IsNotFound(t.result.err) {
          r := ReadReply(None, false, t.result.err);
          return;
        }
        i := i + 1;
      }
      r := ReadReply(None, false, None);
    }

    /** Write never changes the cache: it has no `modifies` clause. `target` is the
        host the random pick chose, when the call reached it: the last key the
        `range` of `readKeys` visits, or the "" of an unwritten slot. */
    method Write(n: Nodes, id: string) returns (exit: Exit, calls: seq<Call>, ghost target: string)
      ensures Picks(n, id, cache, prefix) ==>
                var keys := n.lookup(prefix).hosts.keysOrder;
                target == keys[|keys| - 1] || (|keys| > 1 && target == "")
      ensures Picks(n, id, cache, prefix) && SameKeys(n.lookup(prefix).hosts) ==>
                var order := n.lookup(prefix).hosts.order;
                target in order || (|order| > 1 && target == "")
      ensures WriteSpec(n, id, cache, prefix, target) == Traced(exit, calls)
    {
      target := "";
      if id in cache {
        var w := WriteAt(n, cache[id]);
        exit := Return(w.result);
        calls := w.calls;
        return;
      }
      var l := n.lookup(prefix);
      calls := [LookupCall(prefix)];
      if l.err.Some? {
        exit := Return(l.err);
        return;
      }
      var order := l.hosts.order;
      var i := 0;
      while i < |order|
        invariant 0 <= i <= |order|
        invariant ProbeScan(n, order[i..], calls) == ProbeScan(n, order, [LookupCall(prefix)])
      {
        var host := order[i];
        assert order[i..][1..] == order[i + 1..];
        var e := ExistsAt(n, host);
        if e.err.Some? {
          exit := Return(e.err);
          calls := calls + e.calls;
          return;
        }
        if e.found {
          exit := Return(n.putObject(host));
          calls := calls + e.calls + [PutCall(host)];
          return;
        }
        calls := calls + e.calls;
        i := i + 1;
      }
      assert order[i..] == [];
      assert ProbeScan(n, order, [LookupCall(prefix)]) == Undetected(calls);
      var visited := l.hosts.keysOrder;
      var keys := ReadKeys(visited);
      if |keys| == 0 {
        exit := Panic;
        return;
      }
      var host := PickStorage(keys, id);
      assert host == visited[|visited| - 1] || (|visited| > 1 && host == "") by {
        var j :| 0 <= j < |keys| && keys[j] == host;
        if j > 0 {
          assert keys[j] == "";
        }
      }
      if SameKeys(l.hosts) {
        assert visited[|visited| - 1] in multiset(visited);
        assert |multiset(visited)| == |visited| && |multiset(order)| == |order|;
      }
      target := host;
      var w := WriteAt(Later(n), host);
      exit := Return(w.result);
      calls := calls + w.calls;
    }
  }

  /** A host the Read scan passes over: no data, and a not-found error. */
  predicate Passes(n: Nodes, host: string) {
    ReadAt(n, host).result.data.None? && IsNotFound(ReadAt(n, host).result.err)
  }

  /** The calls of `read` on each of `hosts`, in order. */
  function ReadTrace(n: Nodes, hosts: seq<string>): seq<Call> {
    if hosts == [] then [] else ReadAt(n, hosts[0]).calls + ReadTrace(n, hosts[1..])
  }

  /** A host the Write probe passes over: `objectExists` reports it absent without error. */
  predicate Absent(n: Nodes, host: string) {
    ExistsAt(n, host).err.None? && !ExistsAt(n, host).found
  }

  /** The calls of `objectExists` on each of `hosts`, in order. */
  function ProbeTrace(n: Nodes, hosts: seq<string>): seq<Call> {
    if hosts == [] then [] else ExistsAt(n, hosts[0]).calls + ProbeTrace(n, hosts[1..])
  }

  /** Read on a cache hit keeps the cache in every case, reads only the cached
      host, turns a not-found error into "not found" without error, returns any
      other error with found false, and reports found on success. */
  lemma ReadHit(n: Nodes, id: string, cache: map<string, string>, prefix: string)
    requires id in cache
    ensures var s := ReadSpec(n, id, cache, prefix); var t := ReadAt(n, cache[id]).result;
      s.cache == cache && s.calls == ReadAt(n, cache[id]).calls
      && s.result.data == t.data
      && (IsNotFound(t.err) ==> s.result == ReadReply(t.data, false, None))
      && (t.err.Some? && !IsNotFound(t.err) ==> s.result == ReadReply(t.data, false, t.err))
      && (t.err.None? ==> s.result == ReadReply(t.data, true, None))
  {
  }

  /** The Read scan stops at the first host that is not passed over. Data from it
      is recorded in the cache and reported found, with whatever error came along;
      any other outcome, nil data with nil error included, returns that error with
      found false and leaves the cache. */
  lemma {:induction false} ReadScanStops(n: Nodes, id: string, rest: seq<string>,
                                         cache: map<string, string>, calls: seq<Call>, k: nat)
    requires k < |rest| && !Passes(n, rest[k])
    requires forall j :: 0 <= j < k ==> Passes(n, rest[j])
    ensures var s := ReadScan(n, id, rest, cache, calls); var t := ReadAt(n, rest[k]).result;
      s.calls == calls + ReadTrace(n, rest[..k + 1])
      && (t.data.Some? ==> s.result == ReadReply(t.data, true, t.err) && s.cache == cache[id := rest[k]])
      && (t.data.None? ==> s.result == ReadReply(None, false, t.err) && !IsNotFound(t.err) && s.cache == cache)
  {
    if k > 0 {
      forall j | 0 <= j < k - 1 ensures Passes(n, rest[1..][j]) {
        assert rest[1..][j] == rest[j + 1];
      }
      assert rest[1..][k - 1] == rest[k];
      assert Passes(n, rest[0]);
      var e := ReadAt(n, rest[0]).calls;
      ReadScanStops(n, id, rest[1..], cache, calls + e, k - 1);
      assert rest[..k + 1][0] == rest[0] && rest[..k + 1][1..] == rest[1..][..k];
      assert ReadTrace(n, rest[..k + 1]) == e + ReadTrace(n, rest[1..][..k]);
      assert calls + e + ReadTrace(n, rest[1..][..k]) == calls + (e + ReadTrace(n, rest[1..][..k]));
    } else {
      assert rest[..1] == [rest[0]] && [rest[0]][1..] == [];
      assert ReadTrace(n, rest[..1]) == ReadAt(n, rest[0]).calls;
    }
  }

  /** A Read scan that passes over every host returns nothing, without error, and
      leaves the cache. */
  lemma {:induction false} ReadScanExhausted(n: Nodes, id: string, rest: seq<string>,
                                             cache: map<string, string>, calls: seq<Call>)
    requires forall j :: 0 <= j < |rest| ==> Passes(n, rest[j])
    ensures ReadScan(n, id, rest, cache, calls) == Step(ReadReply(None, false, None), cache, calls + ReadTrace(n, rest))
  {
    if rest != [] {
      forall j | 0 <= j < |rest| - 1 ensures Passes(n, rest[1..][j]) {
        assert rest[1..][j] == rest[j + 1];
      }
      assert Passes(n, rest[0]);
      var e := ReadAt(n, rest[0]).calls;
      ReadScanExhausted(n, id, rest[1..], cache, calls + e);
      assert ReadTrace(n, rest) == e + ReadTrace(n, rest[1..]);
      assert calls + e + ReadTrace(n, rest[1..]) == calls + (e + ReadTrace(n, rest[1..]));
    } else {
      assert calls + ReadTrace(n, rest) == calls;
    }
  }

  /** Read on a miss: the hosts are listed once, then read in order until the
      first one that is not passed over, which decides the reply. */
  lemma ReadMissStops(n: Nodes, id: string, cache: map<string, string>, prefix: string, k: nat)
    requires id !in cache && n.lookup(prefix).err.None?
    requires var order := n.lookup(prefix).hosts.order;
      k < |order| && !Passes(n, order[k]) && forall j :: 0 <= j < k ==> Passes(n, order[j])
    ensures var order := n.lookup(prefix).hosts.order;
      var s := ReadSpec(n, id, cache, prefix); var t := ReadAt(n, order[k]).result;
      s.calls == [LookupCall(prefix)] + ReadTrace(n, order[..k + 1])
      && (t.data.Some? ==> s.result == ReadReply(t.data, true, t.err) && s.cache == cache[id := order[k]])
      && (t.data.None? ==> s.result == ReadReply(None, false, t.err) && !IsNotFound(t.err) && s.cache == cache)
  {
    ReadScanStops(n, id, n.lookup(prefix).hosts.order, cache, [LookupCall(prefix)], k);
  }

  /** Read on a miss where every host is passed over, an empty host map included,
      returns (nil, false, nil) and leaves the cache. */
  lemma ReadMissExhausted(n: Nodes, id: string, cache: map<string, string>, prefix: string)
    requires id !in cache && n.lookup(prefix).err.None?
    requires var order := n.lookup(prefix).hosts.order;
      forall j :: 0 <= j < |order| ==> Passes(n, order[j])
    ensures var s := ReadSpec(n, id, cache, prefix);
      s.result == ReadReply(None, false, None) && s.cache == cache
      && s.calls == [LookupCall(prefix)] + ReadTrace(n, n.lookup(prefix).hosts.order)
  {
    ReadScanExhausted(n, id, n.lookup(prefix).hosts.order, cache, [LookupCall(prefix)]);
  }

  /** Read changes no cache entry but that of `id`, and a new entry names a listed
      host. */
  lemma {:induction false} ReadScanFrame(n: Nodes, id: string, rest: seq<string>,
                                         cache: map<string, string>, calls: seq<Call>)
    ensures var s := ReadScan(n, id, rest, cache, calls);
      OnlyIdChanged(cache, s.cache, id) && (s.cache == cache || (id in s.cache && s.cache[id] in rest))
  {
    if rest != [] && Passes(n, rest[0]) {
      ReadScanFrame(n, id, rest[1..], cache, calls + ReadAt(n, rest[0]).calls);
      var s := ReadScan(n, id, rest, cache, calls);
      if s.cache != cache {
        assert s.cache[id] in rest;
      }
    }
  }

  lemma ReadCacheFrame(n: Nodes, id: string, cache: map<string, string>, prefix: string)
    ensures var s := ReadSpec(n, id, cache, prefix);
      OnlyIdChanged(cache, s.cache, id)
      && (s.cache == cache || (id !in cache && id in s.cache && s.cache[id] in n.lookup(prefix).hosts.order))
  {
    if id !in cache && n.lookup(prefix).err.None? {
      ReadScanFrame(n, id, n.lookup(prefix).hosts.order, cache, [LookupCall(prefix)]);
    }
  }

  /** Skipping the hosts that report the object absent. */
  lemma {:induction false} ProbeSkips(n: Nodes, rest: seq<string>, calls: seq<Call>, k: nat)
    requires k <= |rest|
    requires forall j :: 0 <= j < k ==> Absent(n, rest[j])
    ensures ProbeScan(n, rest, calls) == ProbeScan(n, rest[k..], calls + ProbeTrace(n, rest[..k]))
  {
    if k > 0 {
      forall j | 0 <= j < k - 1 ensures Absent(n, rest[1..][j]) {
        assert rest[1..][j] == rest[j + 1];
      }
      assert Absent(n, rest[0]);
      var e := ExistsAt(n, rest[0]).calls;
      ProbeSkips(n, rest[1..], calls + e, k - 1);
      assert rest[1..][k - 1..] == rest[k..];
      assert rest[..k][0] == rest[0] && rest[..k][1..] == rest[1..][..k - 1];
      assert ProbeTrace(n, rest[..k]) == e + ProbeTrace(n, rest[1..][..k - 1]);
      assert calls + e + ProbeTrace(n, rest[1..][..k - 1]) == calls + (e + ProbeTrace(n, rest[1..][..k - 1]));
    } else {
      assert rest[..0] == [] && rest[0..] == rest;
      assert calls + ProbeTrace(n, rest[..0]) == calls;
    }
  }

  /** The probe only looks up, connects and asks for ACLs: it never checks or creates a bucket. */
  lemma {:induction false} ProbeTraceChecksNoBucket(n: Nodes, hosts: seq<string>)
    ensures forall m :: 0 <= m < |ProbeTrace(n, hosts)| ==>
              !ProbeTrace(n, hosts)[m].BucketExistsCall? && !ProbeTrace(n, hosts)[m].MakeBucketCall?
  {
    if hosts != [] {
      ProbeTraceChecksNoBucket(n, hosts[1..]);
      var e := ExistsAt(n, hosts[0]).calls;
      assert forall m :: 0 <= m < |e| ==> !e[m].BucketExistsCall? && !e[m].MakeBucketCall?;
    }
  }

  /** Write on a cache hit is `write` to the cached host. */
  lemma WriteHit(n: Nodes, id: string, cache: map<string, string>, prefix: string, target: string)
    requires id in cache
    ensures WriteSpec(n, id, cache, prefix, target)
         == Traced(Return(WriteAt(n, cache[id]).result), WriteAt(n, cache[id]).calls)
  {
  }

  /** Write on a miss returns the first `objectExists` error, with no write anywhere. */
  lemma WriteProbeErrorAborts(n: Nodes, id: string, cache: map<string, string>, prefix: string,
                              target: string, k: nat)
    requires id !in cache && n.lookup(prefix).err.None?
    requires var order := n.lookup(prefix).hosts.order;
      k < |order| && ExistsAt(n, order[k]).err.Some? && forall j :: 0 <= j < k ==> Absent(n, order[j])
    ensures var order := n.lookup(prefix).hosts.order; var w := WriteSpec(n, id, cache, prefix, target);
      w.result == Return(ExistsAt(n, order[k]).err)
      && w.calls == [LookupCall(prefix)] + ProbeTrace(n, order[..k]) + ExistsAt(n, order[k]).calls
  {
    var order := n.lookup(prefix).hosts.order;
    ProbeSkips(n, order, [LookupCall(prefix)], k);
    assert order[k..][0] == order[k];
  }

  /** Stickiness: the first host that holds the object gets `PutObject` on the
      probe's connection, without any bucket check, and no later host is asked. */
  lemma WriteFirstExisting(n: Nodes, id: string, cache: map<string, string>, prefix: string,
                           target: string, k: nat)
    requires id !in cache && n.lookup(prefix).err.None?
    requires var order := n.lookup(prefix).hosts.order;
      k < |order| && ExistsAt(n, order[k]).found && forall j :: 0 <= j < k ==> Absent(n, order[j])
    ensures var order := n.lookup(prefix).hosts.order; var w := WriteSpec(n, id, cache, prefix, target);
      w.result == Return(n.putObject(order[k]))
      && w.calls == [LookupCall(prefix)] + ProbeTrace(n, order[..k]) + ExistsAt(n, order[k]).calls
                    + [PutCall(order[k])]
      && forall m :: 0 <= m < |w.calls| ==> !w.calls[m].BucketExistsCall? && !w.calls[m].MakeBucketCall?
  {
    var order := n.lookup(prefix).hosts.order;
    ProbeSkips(n, order, [LookupCall(prefix)], k);
    assert order[k..][0] == order[k];
    ProbeTraceChecksNoBucket(n, order[..k]);
    var w := WriteSpec(n, id, cache, prefix, target);
    var e := ExistsAt(n, order[k]).calls;
    assert forall m :: 0 <= m < |e| ==> !e[m].BucketExistsCall? && !e[m].MakeBucketCall?;
    var p := ProbeTrace(n, order[..k]);
    forall m | 0 <= m < |w.calls| ensures !w.calls[m].BucketExistsCall? && !w.calls[m].MakeBucketCall? {
      if 1 <= m < 1 + |p| {
        assert w.calls[m] == p[m - 1];
      } else if 1 + |p| <= m < 1 + |p| + |e| {
        assert w.calls[m] == e[m - 1 - |p|];
      }
    }
  }

  /** Write on a miss where no host holds the object: every host is probed, then
      the picked host is written to with `write`; when `readKeys` visits no key,
      `rand.Intn(0)` panics before any write, which for a real map is exactly the
      empty host map. */
  lemma WriteNoneExisting(n: Nodes, id: string, cache: map<string, string>, prefix: string, target: string)
    requires id !in cache && n.lookup(prefix).err.None?
    requires var order := n.lookup(prefix).hosts.order;
      forall j :: 0 <= j < |order| ==> Absent(n, order[j])
    ensures var hosts := n.lookup(prefix).hosts; var w := WriteSpec(n, id, cache, prefix, target);
      (hosts.keysOrder == [] ==> w == Traced(Panic, [LookupCall(prefix)] + ProbeTrace(n, hosts.order)))
      && (hosts.keysOrder != [] ==>
            Picks(n, id, cache, prefix)
            && w.result == Return(WriteAt(Later(n), target).result)
            && w.calls == [LookupCall(prefix)] + ProbeTrace(n, hosts.order) + WriteAt(Later(n), target).calls)
      && (SameKeys(hosts) && hosts.order == [] ==> w == Traced(Panic, [LookupCall(prefix)]))
  {
    var hosts := n.lookup(prefix).hosts;
    var order := hosts.order;
    ProbeSkips(n, order, [LookupCall(prefix)], |order|);
    assert order[|order|..] == [] && order[..|order|] == order;
    if SameKeys(hosts) && order == [] {
      assert |multiset(hosts.keysOrder)| == |hosts.keysOrder|;
    }
  }

  /** Because `readKeys` leaves every slot but the first empty, a pick of the
      empty label sends the write to a node that the details reader does not know,
      and it fails before any bucket check. */
  lemma EmptyLabelWriteFails(n: Nodes)
    requires n.lookup("").err.None? && "" !in n.lookup("").hosts.details
    ensures WriteAt(n, "") == Traced(Some(Plain(NoDetailsMsg)), [LookupCall("")])
  {
    assert NoDetailsMsg + "" == NoDetailsMsg;
  }
}

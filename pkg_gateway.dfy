/** `Gateway` of pkg/gateway/gateway.go: the location cache in front of a cluster
    of storage instances. The cluster is an environment passed to each call: the
    discovery reply, and for every instance the outcome of connecting to it and of
    each storage operation on the object of that call. Each call returns the trace
    of the environment interactions it made, in order. */
module PkgGateway {
  import opened Base

  const NoInstancesMsg := "cannot identify storage instances, check if cluster is running"

  /** What `StorageConnectionDetailsReader.Read` returns for an instance. */
  datatype Details = Details(ipAddress: string, accessKeyID: string, secretAccessKey: string)
  datatype DetailsReply = DetailsReply(details: Details, err: Option<Error>)

  /** What `StorageInstancesFinder.Find` returns: the instance IDs in the order in
      which the map is iterated, and an error. */
  datatype FindReply = FindReply(instances: seq<string>, err: Option<Error>)

  /** The two results of `StorageController.Detected`. */
  datatype DetectReply = DetectReply(found: bool, err: Option<Error>)

  /** The environment of one Read or Write call on one object ID. `laterDetails`
      and `laterFactory` answer the second connection that Write opens to the
      instance it picks, after that instance has already been probed; they may
      differ from the first answers (the instance may have gone down meanwhile). */
  datatype Cluster = Cluster(
    find: FindReply,
    details: string -> DetailsReply,
    factory: Details -> Option<Error>,
    laterDetails: string -> DetailsReply,
    laterFactory: Details -> Option<Error>,
    read: string -> ReadReply,
    detect: string -> DetectReply,
    write: string -> Option<Error>)

  /** The cluster as the placement's own connection sees it. */
  function Later(c: Cluster): Cluster
  {
    c.(details := c.laterDetails, factory := c.laterFactory)
  }

  /** One interaction with the environment. `ConnectCall` stands for the details
      read followed by the connection factory. */
  datatype Call = FindCall | ConnectCall(instance: string) | ReadCall(instance: string)
    | DetectCall(instance: string) | WriteCall(instance: string)

  /** The outcome of a Read or Write: its result, the cache afterwards, the calls made. */
  datatype Step<R> = Step(result: R, cache: map<string, string>, calls: seq<Call>)

  /** `newStorageInstanceConnection`: the error that keeps a connection from being made. */
  function Connect(c: Cluster, instance: string): (r: Option<Error>)
    ensures c.details(instance).err.Some? ==> r == c.details(instance).err
    ensures c.details(instance).err.None? ==> r == c.factory(c.details(instance).details)
  {
    var d := c.details(instance);
    if d.err.Some? then d.err else c.factory(d.details)
  }

  /** The Read scan over the instances still to visit, from the named results
      `reply` and the cache and calls so far. */
  function ReadScan(c: Cluster, id: string, rest: seq<string>, reply: ReadReply,
                    cache: map<string, string>, calls: seq<Call>): Step<ReadReply>
    decreases |rest|
  {
    if rest == [] then Step(reply, cache, calls)
    else
      var inst := rest[0];
      var err := Connect(c, inst);
      if err.Some? then Step(ReadReply(reply.data, reply.found, err), cache, calls + [ConnectCall(inst)])
      else
        var r := c.read(inst);
        ReadScan(c, id, rest[1..], r, if r.found then cache[id := inst] else cache,
                 calls + [ConnectCall(inst), ReadCall(inst)])
  }

  /** `Gateway.Read` on a cache. */
  function ReadSpec(c: Cluster, id: string, cache: map<string, string>): Step<ReadReply> {
    if id in cache then
      var inst := cache[id];
      var err := Connect(c, inst);
      if err.Some? then Step(ReadReply(None, false, err), cache, [ConnectCall(inst)])
      else Step(c.read(inst), cache, [ConnectCall(inst), ReadCall(inst)])
    else if c.find.err.Some? then Step(ReadReply(None, false, c.find.err), cache, [FindCall])
    else if |c.find.instances| == 0 then
      Step(ReadReply(None, false, Some(Plain(NoInstancesMsg))), cache, [FindCall])
    else ReadScan(c, id, c.find.instances, ReadReply(None, false, None), cache, [FindCall])
  }

  /** The Write probe loop either settles the call or finds the object nowhere. */
  datatype Probe = Settled(step: Step<Option<Error>>) | Undetected(calls: seq<Call>)

  function DetectScan(c: Cluster, id: string, rest: seq<string>,
                      cache: map<string, string>, calls: seq<Call>): Probe
    decreases |rest|
  {
    if rest == [] then Undetected(calls)
    else
      var inst := rest[0];
      var err := Connect(c, inst);
      if err.Some? then Settled(Step(err, cache, calls + [ConnectCall(inst)]))
      else
        var d := c.detect(inst);
        if d.err.Some? then Settled(Step(d.err, cache, calls + [ConnectCall(inst), DetectCall(inst)]))
        else if d.found then
          Settled(Step(c.write(inst), cache[id := inst],
                       calls + [ConnectCall(inst), DetectCall(inst), WriteCall(inst)]))
        else DetectScan(c, id, rest[1..], cache, calls + [ConnectCall(inst), DetectCall(inst)])
  }

  /** Writing a new object to the picked instance over a new connection; the cache
      learns it only on success. */
  function Place(c: Cluster, id: string, target: string,
                 cache: map<string, string>, calls: seq<Call>): Step<Option<Error>>
  {
    var err := Connect(Later(c), target);
    if err.Some? then Step(err, cache, calls + [ConnectCall(target)])
    else
      var w := c.write(target);
      if w.Some? then Step(w, cache, calls + [ConnectCall(target), WriteCall(target)])
      else Step(None, cache[id := target], calls + [ConnectCall(target), WriteCall(target)])
  }

  /** `Gateway.Write` on a cache, when `target` is the instance the random pick chooses. */
  function WriteSpec(c: Cluster, id: string, cache: map<string, string>, target: string): Step<Option<Error>> {
    if id in cache then
      var inst := cache[id];
      var err := Connect(c, inst);
      if err.Some? then Step(err, cache, [ConnectCall(inst)])
      else Step(c.write(inst), cache, [ConnectCall(inst), WriteCall(inst)])
    else if c.find.err.Some? then Step(c.find.err, cache, [FindCall])
    else if |c.find.instances| == 0 then Step(Some(Plain(NoInstancesMsg)), cache, [FindCall])
    else
      match DetectScan(c, id, c.find.instances, cache, [FindCall])
      case Settled(s) => s
      case Undetected(calls) => Place(c, id, target, cache, calls)
  }

  /** Whether Write on this cache reaches the random pick. */
  predicate Picks(c: Cluster, id: string, cache: map<string, string>) {
    id !in cache && c.find.err.None? && |c.find.instances| > 0
    && DetectScan(c, id, c.find.instances, cache, [FindCall]).Undetected?
  }

  /** `pickStorageInstance`: the map is walked with a counter until it reaches
      `pick`, the number `rand.Intn` drew, which is any valid index. */
  method PickStorageInstance(ids: seq<string>, objectId: string, pick: nat) returns (id: string)
    requires pick < |ids|
    ensures id == ids[pick]
    ensures id in ids
  {
    id := "";
    var i := 0;
    while i < |ids|
      invariant 0 <= i <= pick
      invariant i > 0 ==> id == ids[i - 1]
    {
      id := ids[i];
      if i == pick {
        return;
      }
      i := i + 1;
    }
    assert false;
  }

  class Gateway {
    /** `cacheObjectLocation`: object ID to the instance ID that holds it. */
    var cache: map<string, string>

    /** `New`: the cache starts empty. */
    constructor ()
      ensures cache == map[]
    {
      cache := map[];
    }

    method Read(c: Cluster, id: string) returns (r: ReadReply, calls: seq<Call>)
      modifies this
      ensures ReadSpec(c, id, old(cache)) == Step(r, cache, calls)
    {
      if id in cache {
        var inst := cache[id];
        var err := Connect(c, inst);
        if err.Some? {
          r := ReadReply(None, false, err);
          calls := [ConnectCall(inst)];
          return;
        }
        r := c.read(inst);
        calls := [ConnectCall(inst), ReadCall(inst)];
        return;
      }
      calls := [FindCall];
      var instances := c.find.instances;
      if c.find.err.Some? {
        r := ReadReply(None, false, c.find.err);
        return;
      }
      if |instances| == 0 {
        r := ReadReply(None, false, Some(Plain(NoInstancesMsg)));
        return;
      }
      r := ReadReply(None, false, None);
      var i := 0;
      while i < |instances|
        invariant 0 <= i <= |instances|
        invariant ReadScan(c, id, instances[i..], r, cache, calls) == ReadSpec(c, id, old(cache))
      {
        var inst := instances[i];
        assert instances[i..][1..] == instances[i + 1..];
        var err := Connect(c, inst);
        if err.Some? {
          r := ReadReply(r.data, r.found, err);
          calls := calls + [ConnectCall(inst)];
          return;
        }
        r := c.read(inst);
        calls := calls + [ConnectCall(inst), ReadCall(inst)];
        if r.found {
          cache := cache[id := inst];
        }
        i := i + 1;
      }
    }

    /** `target` is the instance the random pick chose, when the call reached it. */
    method Write(c: Cluster, id: string) returns (err: Option<Error>, calls: seq<Call>, ghost target: string)
      modifies this
      ensures Picks(c, id, old(cache)) ==> target in c.find.instances
      ensures WriteSpec(c, id, old(cache), target) == Step(err, cache, calls)
    {
      target := "";
      if id in cache {
        var inst := cache[id];
        err := Connect(c, inst);
        if err.Some? {
          calls := [ConnectCall(inst)];
          return;
        }
        err := c.write(inst);
        calls := [ConnectCall(inst), WriteCall(inst)];
        return;
      }
      calls := [FindCall];
      var instances := c.find.instances;
      if c.find.err.Some? {
        err := c.find.err;
        return;
      }
      if |instances| == 0 {
        err := Some(Plain(NoInstancesMsg));
        return;
      }
      var i := 0;
      while i < |instances|
        invariant 0 <= i <= |instances|
        invariant cache == old(cache)
        invariant DetectScan(c, id, instances[i..], cache, calls)
               == DetectScan(c, id, instances, cache, [FindCall])
      {
        var inst := instances[i];
        assert instances[i..][1..] == instances[i + 1..];
        err := Connect(c, inst);
        if err.Some? {
          calls := calls + [ConnectCall(inst)];
          return;
        }
        var d := c.detect(inst);
        if d.err.Some? {
          err := d.err;
          calls := calls + [ConnectCall(inst), DetectCall(inst)];
          return;
        }
        if d.found {
          cache := cache[id := inst];
          err := c.write(inst);
          calls := calls + [ConnectCall(inst), DetectCall(inst), WriteCall(inst)];
          return;
        }
        calls := calls + [ConnectCall(inst), DetectCall(inst)];
        i := i + 1;
      }
      var pick :| 0 <= pick < |instances|;
      var picked := PickStorageInstance(instances, id, pick);
      target := picked;
      err := Connect(Later(c), picked);
      if err.Some? {
        calls := calls + [ConnectCall(picked)];
        return;
      }
      err := c.write(picked);
      calls := calls + [ConnectCall(picked), WriteCall(picked)];
      if err.Some? {
        return;
      }
      cache := cache[id := picked];
    }
  }

  /** The calls of a Read scan that connects to each of `insts`. */
  function ReadVisits(insts: seq<string>): seq<Call> {
    if insts == [] then [] else [ConnectCall(insts[0]), ReadCall(insts[0])] + ReadVisits(insts[1..])
  }

  /** The calls of a Write probe that connects to each of `insts` and finds nothing. */
  function ProbeVisits(insts: seq<string>): seq<Call> {
    if insts == [] then [] else [ConnectCall(insts[0]), DetectCall(insts[0])] + ProbeVisits(insts[1..])
  }

  /** An instance the Write probe passes over: it connects, and `Detected` reports
      the object absent without error. */
  predicate Clean(c: Cluster, inst: string) {
    Connect(c, inst).None? && c.detect(inst).err.None? && !c.detect(inst).found
  }

  /** On a cache hit neither Read nor Write asks the finder: each connects to the
      cached instance only, hands back that instance's Read reply or Write error
      unchanged, and leaves the cache as it was. */
  lemma CacheHitIsLocal(c: Cluster, id: string, cache: map<string, string>, target: string)
    requires id in cache
    ensures var r := ReadSpec(c, id, cache); var inst := cache[id];
      r.cache == cache && FindCall !in r.calls && r.calls[0] == ConnectCall(inst)
      && (Connect(c, inst).None? ==> r.result == c.read(inst) && r.calls == [ConnectCall(inst), ReadCall(inst)])
      && (Connect(c, inst).Some? ==> r.result == ReadReply(None, false, Connect(c, inst)) && |r.calls| == 1)
    ensures var w := WriteSpec(c, id, cache, target); var inst := cache[id];
      w.cache == cache && FindCall !in w.calls && w.calls[0] == ConnectCall(inst)
      && (Connect(c, inst).None? ==> w.result == c.write(inst) && w.calls == [ConnectCall(inst), WriteCall(inst)])
      && (Connect(c, inst).Some? ==> w.result == Connect(c, inst) && |w.calls| == 1)
  {
  }

  /** On a miss with an empty instance set both calls fail with the
      "cannot identify storage instances" error and leave the cache alone. */
  lemma EmptyClusterFails(c: Cluster, id: string, cache: map<string, string>, target: string)
    requires id !in cache && c.find.err.None? && c.find.instances == []
    ensures ReadSpec(c, id, cache) == Step(ReadReply(None, false, Some(Plain(NoInstancesMsg))), cache, [FindCall])
    ensures WriteSpec(c, id, cache, target) == Step(Some(Plain(NoInstancesMsg)), cache, [FindCall])
  {
  }

  /** A Read scan in which every connection succeeds and no instance finds the
      object leaves the cache alone. */
  lemma {:induction false} ReadScanNoneFound(c: Cluster, id: string, rest: seq<string>, reply: ReadReply,
                                             cache: map<string, string>, calls: seq<Call>)
    requires forall k :: 0 <= k < |rest| ==> Connect(c, rest[k]).None? && !c.read(rest[k]).found
    ensures ReadScan(c, id, rest, reply, cache, calls).cache == cache
  {
    if rest != [] {
      assert Connect(c, rest[0]).None? && !c.read(rest[0]).found;
      forall j | 0 <= j < |rest[1..]| ensures Connect(c, rest[1..][j]).None? && !c.read(rest[1..][j]).found {
        assert rest[1..][j] == rest[j + 1];
      }
      ReadScanNoneFound(c, id, rest[1..], c.read(rest[0]), cache, calls + [ConnectCall(rest[0]), ReadCall(rest[0])]);
    }
  }

  /** A Read scan in which every connection succeeds ends with the cache at the
      last instance that found the object. */
  lemma {:induction false} ReadScanLastFound(c: Cluster, id: string, rest: seq<string>, reply: ReadReply,
                                             cache: map<string, string>, calls: seq<Call>, k: nat)
    requires forall m :: 0 <= m < |rest| ==> Connect(c, rest[m]).None?
    requires k < |rest| && c.read(rest[k]).found && forall j :: k < j < |rest| ==> !c.read(rest[j]).found
    ensures ReadScan(c, id, rest, reply, cache, calls).cache == cache[id := rest[k]]
  {
    var inst := rest[0];
    var r := c.read(inst);
    var cache' := if r.found then cache[id := inst] else cache;
    var calls' := calls + [ConnectCall(inst), ReadCall(inst)];
    assert Connect(c, inst).None?;
    assert ReadScan(c, id, rest, reply, cache, calls) == ReadScan(c, id, rest[1..], r, cache', calls');
    if k == 0 {
      forall j | 0 <= j < |rest[1..]| ensures Connect(c, rest[1..][j]).None? && !c.read(rest[1..][j]).found {
        assert rest[1..][j] == rest[j + 1];
      }
      ReadScanNoneFound(c, id, rest[1..], r, cache', calls');
    } else {
      forall j | 0 <= j < |rest[1..]| ensures Connect(c, rest[1..][j]).None? {
        assert rest[1..][j] == rest[j + 1];
      }
      assert rest[1..][k - 1] == rest[k];
      forall j | k - 1 < j < |rest[1..]| ensures !c.read(rest[1..][j]).found {
        assert rest[1..][j] == rest[j + 1];
      }
      ReadScanLastFound(c, id, rest[1..], r, cache', calls', k - 1);
      assert cache'[id := rest[k]] == cache[id := rest[k]];
    }
  }

  /** A Read scan in which every connection succeeds visits every instance whatever
      the replies; the result is the last reply, and the cache ends at the last
      instance that reported the object found. */
  lemma {:induction false} ReadScanVisitsAll(c: Cluster, id: string, rest: seq<string>, reply: ReadReply,
                                             cache: map<string, string>, calls: seq<Call>)
    requires forall k :: 0 <= k < |rest| ==> Connect(c, rest[k]).None?
    ensures var s := ReadScan(c, id, rest, reply, cache, calls);
      s.calls == calls + ReadVisits(rest)
      && s.result == (if rest == [] then reply else c.read(rest[|rest| - 1]))
      && ((forall k :: 0 <= k < |rest| ==> !c.read(rest[k]).found) ==> s.cache == cache)
      && (forall k :: 0 <= k < |rest| && c.read(rest[k]).found
                      && (forall j :: k < j < |rest| ==> !c.read(rest[j]).found)
                      ==> s.cache == cache[id := rest[k]])
  {
    if rest != [] {
      var inst := rest[0];
      var r := c.read(inst);
      var cache' := if r.found then cache[id := inst] else cache;
      var calls' := calls + [ConnectCall(inst), ReadCall(inst)];
      forall j | 0 <= j < |rest[1..]| ensures Connect(c, rest[1..][j]).None? {
        assert rest[1..][j] == rest[j + 1];
      }
      ReadScanVisitsAll(c, id, rest[1..], r, cache', calls');
      assert Connect(c, inst).None?;
      assert ReadScan(c, id, rest, reply, cache, calls) == ReadScan(c, id, rest[1..], r, cache', calls');
      assert calls' + ReadVisits(rest[1..]) == calls + ReadVisits(rest);
    }
    forall k | 0 <= k < |rest| && c.read(rest[k]).found && (forall j :: k < j < |rest| ==> !c.read(rest[j]).found)
      ensures ReadScan(c, id, rest, reply, cache, calls).cache == cache[id := rest[k]]
    {
      ReadScanLastFound(c, id, rest, reply, cache, calls, k);
    }
    if forall k :: 0 <= k < |rest| ==> !c.read(rest[k]).found {
      ReadScanNoneFound(c, id, rest, reply, cache, calls);
    }
  }

  /** Read on a miss, when every instance can be connected to: no early exit on a
      hit or on a read error; the reply is the last instance's and the cache ends
      at the last instance that found the object. */
  lemma ReadMissVisitsAll(c: Cluster, id: string, cache: map<string, string>)
    requires id !in cache && c.find.err.None? && |c.find.instances| > 0
    requires forall k :: 0 <= k < |c.find.instances| ==> Connect(c, c.find.instances[k]).None?
    ensures var s := ReadSpec(c, id, cache); var insts := c.find.instances;
      s.calls == [FindCall] + ReadVisits(insts)
      && s.result == c.read(insts[|insts| - 1])
      && ((forall k :: 0 <= k < |insts| ==> !c.read(insts[k]).found) ==> s.cache == cache)
      && (forall k :: 0 <= k < |insts| && c.read(insts[k]).found
                      && (forall j :: k < j < |insts| ==> !c.read(insts[j]).found)
                      ==> s.cache == cache[id := insts[k]])
  {
    ReadScanVisitsAll(c, id, c.find.instances, ReadReply(None, false, None), cache, [FindCall]);
  }

  /** A Read scan stops at the first instance it cannot connect to. It returns that
      error together with the data and found flag left by the previous instance. */
  lemma {:induction false} ReadScanStops(c: Cluster, id: string, rest: seq<string>, reply: ReadReply,
                                         cache: map<string, string>, calls: seq<Call>, k: nat)
    requires k < |rest| && Connect(c, rest[k]).Some?
    requires forall j :: 0 <= j < k ==> Connect(c, rest[j]).None?
    ensures var s := ReadScan(c, id, rest, reply, cache, calls);
      var prev := if k == 0 then reply else c.read(rest[k - 1]);
      s.calls == calls + ReadVisits(rest[..k]) + [ConnectCall(rest[k])]
      && s.result == ReadReply(prev.data, prev.found, Connect(c, rest[k]))
  {
    if k > 0 {
      var inst := rest[0];
      var r := c.read(inst);
      var cache' := if r.found then cache[id := inst] else cache;
      var calls' := calls + [ConnectCall(inst), ReadCall(inst)];
      assert rest[1..][k - 1] == rest[k];
      forall j | 0 <= j < k - 1 ensures Connect(c, rest[1..][j]).None? {
        assert rest[1..][j] == rest[j + 1];
      }
      ReadScanStops(c, id, rest[1..], r, cache', calls', k - 1);
      if k > 1 {
        assert rest[1..][k - 2] == rest[k - 1];
      }
      assert rest[..k] == [inst] + rest[1..][..k - 1];
      assert calls' + ReadVisits(rest[1..][..k - 1]) == calls + ReadVisits(rest[..k]);
    }
  }

  /** Read on a miss returns the first connection error at once; the instances
      after it are not visited. */
  lemma ReadConnectFailureStops(c: Cluster, id: string, cache: map<string, string>, k: nat)
    requires id !in cache && c.find.err.None? && k < |c.find.instances|
    requires Connect(c, c.find.instances[k]).Some?
    requires forall j :: 0 <= j < k ==> Connect(c, c.find.instances[j]).None?
    ensures var s := ReadSpec(c, id, cache); var insts := c.find.instances;
      s.calls == [FindCall] + ReadVisits(insts[..k]) + [ConnectCall(insts[k])]
      && s.result.err == Connect(c, insts[k])
      && (k == 0 ==> s.result == ReadReply(None, false, Connect(c, insts[k])))
      && (k > 0 ==> s.result.data == c.read(insts[k - 1]).data && s.result.found == c.read(insts[k - 1]).found)
  {
    ReadScanStops(c, id, c.find.instances, ReadReply(None, false, None), cache, [FindCall], k);
  }

  /** The Read scan changes only the entry of `id`, and only to an instance of the
      scan that reported the object found. */
  lemma {:induction false} ReadScanFrame(c: Cluster, id: string, rest: seq<string>, reply: ReadReply,
                                         cache: map<string, string>, calls: seq<Call>)
    ensures var s := ReadScan(c, id, rest, reply, cache, calls);
      OnlyIdChanged(cache, s.cache, id)
      && (id in s.cache ==> (id in cache && s.cache[id] == cache[id])
                            || (s.cache[id] in rest && c.read(s.cache[id]).found))
  {
    if rest != [] && Connect(c, rest[0]).None? {
      var inst := rest[0];
      var r := c.read(inst);
      var cache' := if r.found then cache[id := inst] else cache;
      ReadScanFrame(c, id, rest[1..], r, cache', calls + [ConnectCall(inst), ReadCall(inst)]);
      var s := ReadScan(c, id, rest, reply, cache, calls);
      if id in s.cache && s.cache[id] in rest[1..] {
        assert s.cache[id] in rest;
      }
    }
  }

  /** Skipping the instances that connect and report the object absent. */
  lemma {:induction false} DetectScanSkips(c: Cluster, id: string, rest: seq<string>,
                                           cache: map<string, string>, calls: seq<Call>, k: nat)
    requires k <= |rest|
    requires forall j :: 0 <= j < k ==> Clean(c, rest[j])
    ensures DetectScan(c, id, rest, cache, calls) == DetectScan(c, id, rest[k..], cache, calls + ProbeVisits(rest[..k]))
  {
    if k > 0 {
      var inst := rest[0];
      assert Clean(c, rest[0]);
      forall j | 0 <= j < k - 1 ensures Clean(c, rest[1..][j]) {
        assert rest[1..][j] == rest[j + 1];
      }
      DetectScanSkips(c, id, rest[1..], cache, calls + [ConnectCall(inst), DetectCall(inst)], k - 1);
      assert rest[1..][k - 1..] == rest[k..];
      assert rest[..k] == [inst] + rest[1..][..k - 1];
      assert calls + [ConnectCall(inst), DetectCall(inst)] + ProbeVisits(rest[1..][..k - 1])
          == calls + ProbeVisits(rest[..k]);
    } else {
      assert rest[..0] == [] && rest[0..] == rest;
      assert calls + ProbeVisits(rest[..0]) == calls;
    }
  }

  /** Write on a miss: the first instance that reports the object receives the
      write, on the probe's connection, and no later instance is contacted. The
      cache points at it before the write, so the entry stays even if the write fails. */
  lemma WriteFirstDetected(c: Cluster, id: string, cache: map<string, string>, target: string, k: nat)
    requires id !in cache && c.find.err.None? && k < |c.find.instances|
    requires forall j :: 0 <= j < k ==> Clean(c, c.find.instances[j])
    requires Connect(c, c.find.instances[k]).None?
    requires c.detect(c.find.instances[k]) == DetectReply(true, None)
    ensures var w := WriteSpec(c, id, cache, target); var inst := c.find.instances[k];
      w.result == c.write(inst)
      && w.cache == cache[id := inst]
      && w.calls == [FindCall] + ProbeVisits(c.find.instances[..k])
                    + [ConnectCall(inst), DetectCall(inst), WriteCall(inst)]
  {
    var insts := c.find.instances;
    DetectScanSkips(c, id, insts, cache, [FindCall], k);
    assert insts[k..][0] == insts[k];
  }

  /** Write on a miss stops at the first instance it cannot connect to or whose
      `Detected` fails, returns that error, writes nowhere and keeps the cache. */
  lemma WriteProbeFailureAborts(c: Cluster, id: string, cache: map<string, string>, target: string, k: nat)
    requires id !in cache && c.find.err.None? && k < |c.find.instances|
    requires forall j :: 0 <= j < k ==> Clean(c, c.find.instances[j])
    requires Connect(c, c.find.instances[k]).Some? || c.detect(c.find.instances[k]).err.Some?
    ensures var w := WriteSpec(c, id, cache, target); var inst := c.find.instances[k];
      w.cache == cache
      && w.result == (if Connect(c, inst).Some? then Connect(c, inst) else c.detect(inst).err)
      && w.calls == [FindCall] + ProbeVisits(c.find.instances[..k])
                    + (if Connect(c, inst).Some? then [ConnectCall(inst)] else [ConnectCall(inst), DetectCall(inst)])
  {
    var insts := c.find.instances;
    DetectScanSkips(c, id, insts, cache, [FindCall], k);
    assert insts[k..][0] == insts[k];
  }

  /** Write on a miss with the object on no instance: every instance is probed,
      then the picked target is written to over a second connection, whose own
      failure is returned, and the cache learns the target only if that write
      succeeds. */
  lemma WriteUndetectedPlaces(c: Cluster, id: string, cache: map<string, string>, target: string)
    requires id !in cache && c.find.err.None? && |c.find.instances| > 0
    requires forall j :: 0 <= j < |c.find.instances| ==> Clean(c, c.find.instances[j])
    ensures Picks(c, id, cache)
    ensures var w := WriteSpec(c, id, cache, target);
      w.result == (if Connect(Later(c), target).Some? then Connect(Later(c), target) else c.write(target))
      && w.cache == (if w.result == None then cache[id := target] else cache)
      && w.calls == [FindCall] + ProbeVisits(c.find.instances) + [ConnectCall(target)]
                    + (if Connect(Later(c), target).None? then [WriteCall(target)] else [])
  {
    var insts := c.find.instances;
    DetectScanSkips(c, id, insts, cache, [FindCall], |insts|);
    assert insts[|insts|..] == [] && insts[..|insts|] == insts;
  }

  /** The probe changes only the entry of `id`, and only when it settles on an
      instance of the scan that reported the object; a settled call without error
      has the entry. */
  lemma {:induction false} DetectScanFrame(c: Cluster, id: string, rest: seq<string>,
                                           cache: map<string, string>, calls: seq<Call>)
    ensures var p := DetectScan(c, id, rest, cache, calls);
      p.Settled? ==> OnlyIdChanged(cache, p.step.cache, id)
                     && (p.step.cache == cache || (id in p.step.cache && p.step.cache[id] in rest))
                     && (p.step.result == None ==> id in p.step.cache && p.step.cache[id] in rest)
  {
    if rest != [] && Clean(c, rest[0]) {
      DetectScanFrame(c, id, rest[1..], cache, calls + [ConnectCall(rest[0]), DetectCall(rest[0])]);
      var p := DetectScan(c, id, rest, cache, calls);
      if p.Settled? && id in p.step.cache && p.step.cache[id] in rest[1..] {
        assert p.step.cache[id] in rest;
      }
    }
  }

  /** Neither Read nor Write changes any cache entry but that of `id`. A new entry
      points at a discovered instance: for Read one that found the object, for
      Write one that reported it or the picked target after a successful write. */
  lemma CacheFrame(c: Cluster, id: string, cache: map<string, string>, target: string)
    ensures var r := ReadSpec(c, id, cache);
      OnlyIdChanged(cache, r.cache, id)
      && (id in cache ==> r.cache == cache)
      && (id in r.cache && id !in cache ==> r.cache[id] in c.find.instances && c.read(r.cache[id]).found)
    ensures var w := WriteSpec(c, id, cache, target);
      OnlyIdChanged(cache, w.cache, id)
      && (id in cache ==> w.cache == cache)
      && (id in w.cache && id !in cache ==>
            w.cache[id] in c.find.instances
            || (Picks(c, id, cache) && w.cache[id] == target && w.result == None))
  {
    if id !in cache && c.find.err.None? && |c.find.instances| > 0 {
      ReadScanFrame(c, id, c.find.instances, ReadReply(None, false, None), cache, [FindCall]);
      DetectScanFrame(c, id, c.find.instances, cache, [FindCall]);
    }
  }

  /** Stickiness: once a Write has succeeded, the ID is in the cache, so the next
      Read and the next Write, whatever the cluster then reports, go straight to
      that instance without asking the finder. */
  lemma SuccessfulWriteSticks(c: Cluster, c2: Cluster, id: string, cache: map<string, string>,
                              target: string, target2: string)
    requires WriteSpec(c, id, cache, target).result == None
    ensures var after := WriteSpec(c, id, cache, target).cache;
      id in after
      && FindCall !in ReadSpec(c2, id, after).calls
      && ReadSpec(c2, id, after).calls[0] == ConnectCall(after[id])
      && FindCall !in WriteSpec(c2, id, after, target2).calls
      && WriteSpec(c2, id, after, target2).calls[0] == ConnectCall(after[id])
  {
    if id !in cache {
      DetectScanFrame(c, id, c.find.instances, cache, [FindCall]);
    }
    var after := WriteSpec(c, id, cache, target).cache;
    CacheHitIsLocal(c2, id, after, target2);
  }
}

/** The server cache, the descriptor request and the resolving of a list of ids, with their loops. */
module ServerResolving {
  import opened CloudResolution
  import opened ResolvedServers
  import opened Options

  class Aether {
    var servers: Cache

    constructor ()
      ensures servers == map[]
    {
      servers := map[];
    }

    /** Inserting does not replace a server that is already there. */
    method StoreServer(s: Server)
      modifies this
      ensures servers == if s.id in old(servers) then old(servers) else old(servers)[s.id := s]
    {
      if s.id !in servers { servers := servers[s.id := s]; }
    }

    method StoreOthers(others: seq<Server>)
      modifies this
      ensures servers == StoreAll(old(servers), others)
    {
      for i := 0 to |others|
        invariant servers == StoreAll(old(servers), others[..i])
      {
        assert others[..i + 1][..i] == others[..i];
        StoreServer(others[i]);
      }
      assert others[..|others|] == others;
    }

    method GetServer(id: nat) returns (s: Option<Server>)
      ensures s == if id in servers then Some(servers[id]) else None
    {
      s := if id in servers then Some(servers[id]) else None;
    }

    method SplitMissingLoaded(sids: seq<nat>) returns (loaded: seq<Server>, missing: seq<nat>)
      ensures loaded == Loaded(servers, sids) && missing == Missing(servers, sids)
      ensures WellKeyed(servers) ==> FromCache(loaded, servers)
    {
      if WellKeyed(servers) { LoadedAreCached(servers, sids); }
      loaded, missing := [], [];
      for i := 0 to |sids|
        invariant loaded == Loaded(servers, sids[..i]) && missing == Missing(servers, sids[..i])
      {
        assert sids[..i + 1][..i] == sids[..i];
        var s := GetServer(sids[i]);
        if s.Some? {
          loaded := loaded + [s.value];
        } else {
          missing := missing + [sids[i]];
        }
      }
      assert sids[..|sids|] == sids;
    }

    method BuildNewServers(servers: seq<Server>, ds: seq<Descriptor>) returns (all: seq<Server>)
      modifies this
      ensures Built(this.servers, all) == Build(Built(old(this.servers), servers), ds)
    {
      all := servers;
      for i := 0 to |ds|
        invariant Built(this.servers, all) == Build(Built(old(this.servers), servers), ds[..i])
      {
        assert ds[..i + 1][..i] == ds[..i];
        var known := GetServer(ds[i].id);
        if known.Some? {
          all := all + [known.value];
        } else {
          var endpoints := MakeEndpoints(ds[i].ips);
          var s := Server(ds[i].id, endpoints);
          StoreServer(s);
          all := all + [s];
        }
      }
      assert ds[..|ds|] == ds;
    }
  }

  method MakeEndpoints(ips: seq<Ip>) returns (endpoints: seq<Endpoint>)
    ensures endpoints == Endpoints(ips) && Describes(endpoints, ips)
  {
    EndpointsDescribe(ips);
    endpoints := [];
    for i := 0 to |ips|
      invariant endpoints == Endpoints(ips[..i])
    {
      assert ips[..i + 1][..i] == ips[..i];
      ghost var before := endpoints;
      var ports := ips[i].ports;
      for j := 0 to |ports|
        invariant endpoints == before + PortEndpoints(ips[i])[..j]
      {
        endpoints := endpoints + [Endpoint(ips[i].ip, ports[j].port, ports[j].protocol)];
      }
    }
    assert ips[..|ips|] == ips;
  }

  class GetServersAction {
    const serverIds: seq<nat>
    var descriptors: seq<Descriptor>
    var succeeded: bool
    ghost var stream: seq<Descriptor>

    ghost predicate Valid()
      reads this
    {
      && descriptors == CollectAll(serverIds, stream)
      && (succeeded <==> |serverIds| > 0 && |descriptors| == |serverIds|)
    }

    constructor (serverIds: seq<nat>)
      ensures this.serverIds == serverIds && stream == [] && Valid()
    {
      this.serverIds := serverIds;
      descriptors, succeeded, stream := [], false, [];
    }

    /** An answer, as long as the request is running.  It succeeds with the answer that leaves no
        id unanswered, which cannot come when an id was asked for twice. */
    method GetResponse(d: Descriptor)
      requires Valid() && !succeeded
      modifies this
      ensures Valid() && stream == old(stream) + [d]
      ensures succeeded <==> |serverIds| > 0 && Distinct(serverIds)
                             && forall id :: id in serverIds ==> id in DescriptorIds(stream)
    {
      stream := stream + [d];
      assert stream[..|stream| - 1] == old(stream);
      RequestSucceedsIff(serverIds, stream);
      var i := 0;
      while i < |serverIds| && serverIds[i] != d.id
        invariant i <= |serverIds| && forall j :: 0 <= j < i ==> serverIds[j] != d.id
      {
        i := i + 1;
      }
      if i == |serverIds| { return; }
      var k := 0;
      while k < |descriptors| && descriptors[k].id != d.id
        invariant k <= |descriptors| && forall j :: 0 <= j < k ==> descriptors[j].id != d.id
      {
        k := k + 1;
      }
      if k < |descriptors| {
        assert DescriptorIds(descriptors)[k] == d.id;
        return;
      }
      descriptors := descriptors + [d];
      if |descriptors| == |serverIds| { succeeded := true; }
    }
  }

  /** SortNewServers: insertions in the place of the library's sort. */
  method SortNewServers(sids: seq<nat>, servers: seq<Server>) returns (sorted: seq<Server>)
    ensures SortedInto(sids, servers, sorted)
  {
    sorted := [];
    for i := 0 to |servers|
      invariant SortedInto(sids, servers[..i], sorted)
    {
      sorted := InsertServer(sids, servers[..i], sorted, servers[i]);
      assert servers[..i + 1] == servers[..i] + [servers[i]];
    }
    assert servers[..|servers|] == servers;
  }

  method InsertServer(sids: seq<nat>, ghost servers: seq<Server>, sorted: seq<Server>, s: Server)
      returns (r: seq<Server>)
    requires SortedInto(sids, servers, sorted)
    ensures SortedInto(sids, servers + [s], r)
  {
    var k := FindPlace(sids, sorted, s.id);
    InsertSorted(sids, servers, sorted, s, k);
    r := sorted[..k] + [s] + sorted[k..];
  }

  method FindPlace(sids: seq<nat>, sorted: seq<Server>, id: nat) returns (k: nat)
    ensures k <= |sorted|
    ensures k < |sorted| ==> First(sids, id) < First(sids, sorted[k].id)
    ensures k > 0 ==> First(sids, sorted[k - 1].id) <= First(sids, id)
  {
    k := |sorted|;
    while k > 0 && First(sids, id) < First(sids, sorted[k - 1].id)
      invariant 0 <= k <= |sorted|
      invariant k < |sorted| ==> First(sids, id) < First(sids, sorted[k].id)
    {
      k := k - 1;
    }
  }

  lemma InsertSorted(sids: seq<nat>, servers: seq<Server>, sorted: seq<Server>, s: Server, k: nat)
    requires SortedInto(sids, servers, sorted) && k <= |sorted|
    requires k < |sorted| ==> First(sids, s.id) < First(sids, sorted[k].id)
    requires k > 0 ==> First(sids, sorted[k - 1].id) <= First(sids, s.id)
    ensures SortedInto(sids, servers + [s], sorted[..k] + [s] + sorted[k..])
  {
    InsertMembers(servers, sorted, s, k);
    InsertInOrder(sids, Ids(sorted), s.id, k);
    InsertIds(sorted, s, k);
  }

  lemma InsertMembers(servers: seq<Server>, sorted: seq<Server>, s: Server, k: nat)
    requires multiset(sorted) == multiset(servers) && k <= |sorted|
    ensures multiset(sorted[..k] + [s] + sorted[k..]) == multiset(servers + [s])
  {
    assert sorted == sorted[..k] + sorted[k..];
  }

  lemma InsertIds(sorted: seq<Server>, s: Server, k: nat)
    requires k <= |sorted|
    ensures Ids(sorted[..k] + [s] + sorted[k..]) == Ids(sorted)[..k] + [s.id] + Ids(sorted)[k..]
  {
  }

  ghost predicate SortedBy(rank: nat -> nat, ids: seq<nat>) {
    forall i, j :: 0 <= i < j < |ids| ==> rank(ids[i]) <= rank(ids[j])
  }

  lemma InsertBy(rank: nat -> nat, ids: seq<nat>, id: nat, k: nat)
    requires SortedBy(rank, ids) && k <= |ids|
    requires (k < |ids| ==> rank(id) <= rank(ids[k])) && (k > 0 ==> rank(ids[k - 1]) <= rank(id))
    ensures SortedBy(rank, ids[..k] + [id] + ids[k..])
  {
  }

  function Rank(sids: seq<nat>): nat -> nat {
    id => First(sids, id)
  }

  lemma InOrderByRank(sids: seq<nat>, ids: seq<nat>)
    ensures InOrder(sids, ids) <==> SortedBy(Rank(sids), ids)
  {
  }

  lemma InsertInOrder(sids: seq<nat>, ids: seq<nat>, id: nat, k: nat)
    requires InOrder(sids, ids) && k <= |ids|
    requires k < |ids| ==> First(sids, id) <= First(sids, ids[k])
    requires k > 0 ==> First(sids, ids[k - 1]) <= First(sids, id)
    ensures InOrder(sids, ids[..k] + [id] + ids[k..])
  {
    InOrderByRank(sids, ids);
    InsertBy(Rank(sids), ids, id, k);
    InOrderByRank(sids, ids[..k] + [id] + ids[k..]);
  }

  /** The cache after other resolutions have stored servers. */
  function StoreAll(cache: Cache, servers: seq<Server>): Cache {
    if servers == [] then cache
    else
      var before := StoreAll(cache, servers[..|servers| - 1]);
      var s := servers[|servers| - 1];
      if s.id in before then before else before[s.id := s]
  }

  lemma {:induction false} StoreAllWellKeyed(cache: Cache, servers: seq<Server>)
    requires WellKeyed(cache)
    ensures WellKeyed(StoreAll(cache, servers)) && Grown(cache, StoreAll(cache, servers))
  {
    if servers != [] { StoreAllWellKeyed(cache, servers[..|servers| - 1]); }
  }

  /** The whole pipeline, from the split to the sorted servers, for the answers that came.  While
      they were awaited, other resolutions may have stored servers, the missing ones among them. */
  method Resolve(aether: Aether, sids: seq<nat>, meanwhile: seq<Server>, stream: seq<Descriptor>)
      returns (result: Option<seq<Server>>)
    requires WellKeyed(aether.servers)
    modifies aether
    ensures WellKeyed(aether.servers)
    ensures forall id :: id in StoreAll(old(aether.servers), meanwhile) ==>
              id in aether.servers && aether.servers[id] == StoreAll(old(aether.servers), meanwhile)[id]
    ensures result.Some? ==> multiset(Ids(result.value)) == multiset(sids)
    ensures result.Some? && Distinct(sids) ==> Ids(result.value) == sids
    ensures result.Some? <==>
            var missing := Missing(old(aether.servers), sids);
            Distinct(missing) && forall id :: id in missing ==> id in DescriptorIds(stream)
    ensures result.None? ==> aether.servers == StoreAll(old(aether.servers), meanwhile)
    ensures result.Some? ==> FromCache(result.value, aether.servers)
    ensures forall id :: id in aether.servers && id !in StoreAll(old(aether.servers), meanwhile) ==>
              Answered(aether.servers, stream, id)
  {
    var loaded, missing := aether.SplitMissingLoaded(sids);
    RequestSucceedsIff(missing, stream);
    var all := loaded;
    aether.StoreOthers(meanwhile);
    ghost var later := aether.servers;
    StoreAllWellKeyed(old(aether.servers), meanwhile);
    if missing != [] {
      var action := new GetServersAction(missing);
      var i := 0;
      while i < |stream| && !action.succeeded
        invariant i <= |stream| && action.Valid() && fresh(action) && action.serverIds == missing
        invariant action.stream == stream[..i]
        invariant aether.servers == later
      {
        action.GetResponse(stream[i]);
        i := i + 1;
      }
      FinishedEarly(missing, stream, i);
      assert stream[..|stream|] == stream;
      if !action.succeeded { return None; }
      BuildEffect(Built(aether.servers, loaded), action.descriptors);
      all := aether.BuildNewServers(loaded, action.descriptors);
    }
    var sorted := SortNewServers(sids, all);
    NothingMissing(missing, stream);
    ResolutionIsExact(old(aether.servers), later, sids, stream, sorted);
    ResolvedAreStored(old(aether.servers), later, sids, stream, sorted);
    DistinctIsGrouped(sids);
    result := Some(sorted);
  }

  /** What comes after the last answer needed changes nothing. */
  lemma {:induction false} FinishedEarly(missing: seq<nat>, stream: seq<Descriptor>, i: nat)
    requires i <= |stream| && (i < |stream| ==> |CollectAll(missing, stream[..i])| == |missing|)
    ensures CollectAll(missing, stream) == CollectAll(missing, stream[..i])
    decreases |stream|
  {
    if i == |stream| {
      assert stream[..i] == stream;
    } else {
      var front := stream[..|stream| - 1];
      assert front[..i] == stream[..i];
      FinishedEarly(missing, front, i);
    }
  }

  lemma NothingMissing(missing: seq<nat>, stream: seq<Descriptor>)
    ensures missing == [] ==> CollectAll(missing, stream) == []
  {
    CollectedProperties(missing, stream);
  }

  lemma DistinctIsGrouped(sids: seq<nat>)
    ensures Distinct(sids) ==> Grouped(sids)
  {
  }
}

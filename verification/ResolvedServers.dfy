/**
 The servers a resolution yields, and not only their ids: cached ones as they are, new ones with the
 endpoints of the first descriptor that came for them.
 */
module ResolvedServers {
  import opened CloudResolution

  // ---------------------------------------------------------------- endpoints

  /** The ports of the first n addresses. */
  function PortsBefore(ips: seq<Ip>, n: nat): nat
    requires n <= |ips|
  {
    if n == 0 then 0 else PortsBefore(ips, n - 1) + |ips[n - 1].ports|
  }

  /** Port p of address a has its endpoint, with its ip, port and protocol, behind those of the
      addresses before it. */
  ghost predicate EndpointAt(endpoints: seq<Endpoint>, ips: seq<Ip>, a: nat, p: nat)
    requires a < |ips| && p < |ips[a].ports|
  {
    var k := PortsBefore(ips, a) + p;
    && k < |endpoints|
    && endpoints[k].ip == ips[a].ip
    && endpoints[k].port == ips[a].ports[p].port
    && endpoints[k].protocol == ips[a].ports[p].protocol
  }

  /** One endpoint for each port of each address, in order, and no other. */
  ghost predicate Describes(endpoints: seq<Endpoint>, ips: seq<Ip>) {
    && |endpoints| == PortsBefore(ips, |ips|)
    && forall a: nat, p: nat :: a < |ips| && p < |ips[a].ports| ==> EndpointAt(endpoints, ips, a, p)
  }

  lemma {:induction false} SamePorts(ips: seq<Ip>, n: nat, m: nat)
    requires n <= m <= |ips|
    ensures PortsBefore(ips[..m], n) == PortsBefore(ips, n)
  {
    if n > 0 { SamePorts(ips, n - 1, m); }
  }

  lemma {:induction false} EndpointsDescribe(ips: seq<Ip>)
    ensures Describes(Endpoints(ips), ips)
  {
    if ips != [] {
      var front, n := ips[..|ips| - 1], |ips| - 1;
      EndpointsDescribe(front);
      SamePorts(ips, n, n);
      forall a: nat, p: nat | a < |ips| && p < |ips[a].ports| ensures EndpointAt(Endpoints(ips), ips, a, p) {
        SamePorts(ips, a, n);
        if a < n { assert EndpointAt(Endpoints(front), front, a, p); }
      }
    }
  }

  // ---------------------------------------------------------------- cached servers

  /** The servers are those the cache has under their ids. */
  ghost predicate FromCache(servers: seq<Server>, cache: Cache) {
    forall i :: 0 <= i < |servers| ==> servers[i].id in cache && cache[servers[i].id] == servers[i]
  }

  lemma {:induction false} LoadedAreCached(cache: Cache, sids: seq<nat>)
    requires WellKeyed(cache)
    ensures FromCache(Loaded(cache, sids), cache)
  {
    if sids != [] { LoadedAreCached(cache, sids[..|sids| - 1]); }
  }

  /** A cache that has grown still has its servers. */
  ghost predicate Grown(cache: Cache, later: Cache) {
    forall id :: id in cache ==> id in later && later[id] == cache[id]
  }

  // ---------------------------------------------------------------- new servers

  /** Answer k is the first for the id. */
  ghost predicate FirstAnswer(stream: seq<Descriptor>, k: nat, id: nat) {
    k < |stream| && stream[k].id == id && forall j :: 0 <= j < k ==> stream[j].id != id
  }

  lemma {:induction false} CollectedIsFirst(missing: seq<nat>, stream: seq<Descriptor>, d: Descriptor) returns (k: nat)
    requires d in CollectAll(missing, stream)
    ensures FirstAnswer(stream, k, d.id) && stream[k] == d
  {
    var front, last := stream[..|stream| - 1], stream[|stream| - 1];
    var before := CollectAll(missing, front);
    if d in before {
      k := CollectedIsFirst(missing, front, d);
    } else {
      k := |stream| - 1;
      forall j | 0 <= j < k ensures stream[j].id != d.id {
        if stream[j].id == d.id {
          assert DescriptorIds(front)[j] == d.id;
          CollectedCovers(missing, front, d.id);
        }
      }
    }
  }

  /** The server made for a descriptor. */
  ghost predicate MadeFrom(s: Server, d: Descriptor) {
    s.id == d.id && Describes(s.endpoints, d.ips)
  }

  /** One descriptor: a server known by now is taken as it is, else one is made from it. */
  lemma OneBuilt(b: Built, d: Descriptor)
    requires WellKeyed(b.cache) && FromCache(b.servers, b.cache)
    ensures var r := BuildOne(b, d);
            && FromCache(r.servers, r.cache) && Grown(b.cache, r.cache) && d.id in r.cache
            && (d.id !in b.cache ==> MadeFrom(r.cache[d.id], d))
  {
    EndpointsDescribe(d.ips);
  }

  lemma {:induction false} BuiltFromCache(b: Built, ds: seq<Descriptor>)
    requires WellKeyed(b.cache) && FromCache(b.servers, b.cache)
    ensures FromCache(Build(b, ds).servers, Build(b, ds).cache) && Grown(b.cache, Build(b, ds).cache)
  {
    if ds != [] {
      var front := ds[..|ds| - 1];
      BuiltFromCache(b, front);
      BuildEffect(b, front);
      OneBuilt(Build(b, front), ds[|ds| - 1]);
    }
  }

  /** A server that was not known is made from its descriptor, if no other has its id. */
  lemma {:induction false} BuiltFromDescriptor(b: Built, ds: seq<Descriptor>, i: nat)
    requires WellKeyed(b.cache) && FromCache(b.servers, b.cache) && Distinct(DescriptorIds(ds))
    requires i < |ds| && ds[i].id !in b.cache
    ensures ds[i].id in Build(b, ds).cache && MadeFrom(Build(b, ds).cache[ds[i].id], ds[i])
  {
    var front, d := ds[..|ds| - 1], ds[|ds| - 1];
    assert DescriptorIds(front) == DescriptorIds(ds)[..|ds| - 1];
    BuildEffect(b, front);
    BuiltFromCache(b, front);
    OneBuilt(Build(b, front), d);
    if i < |front| {
      BuiltFromDescriptor(b, front, i);
    } else {
      NotBuiltYet(ds);
    }
  }

  lemma NotBuiltYet(ds: seq<Descriptor>)
    requires ds != [] && Distinct(DescriptorIds(ds))
    ensures ds[|ds| - 1].id !in DescriptorIds(ds[..|ds| - 1])
  {
  }

  // ---------------------------------------------------------------- sorting keeps the servers

  lemma SortedFromCache(servers: seq<Server>, sorted: seq<Server>, cache: Cache)
    requires multiset(sorted) == multiset(servers) && FromCache(servers, cache)
    ensures FromCache(sorted, cache)
  {
    forall i | 0 <= i < |sorted| ensures sorted[i].id in cache && cache[sorted[i].id] == sorted[i] {
      assert sorted[i] in multiset(sorted);
      var k := Position(servers, sorted[i]);
    }
  }

  /** A server new to the cache is made from the first answer for its id. */
  ghost predicate Answered(cache: Cache, stream: seq<Descriptor>, id: nat) {
    id in cache && exists k: nat :: FirstAnswer(stream, k, id) && MadeFrom(cache[id], stream[k])
  }

  lemma AnsweredBy(cache: Cache, stream: seq<Descriptor>, missing: seq<nat>, i: nat)
    requires i < |CollectAll(missing, stream)|
    requires var d := CollectAll(missing, stream)[i]; d.id in cache && MadeFrom(cache[d.id], d)
    ensures Answered(cache, stream, CollectAll(missing, stream)[i].id)
  {
    var k := CollectedIsFirst(missing, stream, CollectAll(missing, stream)[i]);
    assert FirstAnswer(stream, k, stream[k].id);
  }

  /** Whatever is cached, answered and sorted: the servers resolved are those stored under their ids
      afterwards, what was stored is as it was, and each new one has the endpoints of the first
      descriptor that came for it. */
  lemma ResolvedAreStored(
      cache: Cache, later: Cache, sids: seq<nat>, stream: seq<Descriptor>, result: seq<Server>)
    requires WellKeyed(cache) && WellKeyed(later) && Grown(cache, later)
    requires SortedInto(sids, Resolved(cache, later, sids, stream).servers, result)
    ensures var after := Resolved(cache, later, sids, stream).cache;
            && FromCache(result, after) && Grown(later, after)
            && forall id :: id in after && id !in later ==> Answered(after, stream, id)
  {
    var missing := Missing(cache, sids);
    var got := CollectAll(missing, stream);
    var built := Resolved(cache, later, sids, stream);
    LoadedAreCached(cache, sids);
    CollectedProperties(missing, stream);
    BuiltFromCache(Built(later, Loaded(cache, sids)), got);
    BuildEffect(Built(later, Loaded(cache, sids)), got);
    SortedFromCache(built.servers, result, built.cache);
    forall id | id in built.cache && id !in later ensures Answered(built.cache, stream, id) {
      var i :| 0 <= i < |got| && got[i].id == id;
      BuiltFromDescriptor(Built(later, Loaded(cache, sids)), got, i);
      AnsweredBy(built.cache, stream, missing, i);
    }
  }
}

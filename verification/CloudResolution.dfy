/**
 Turning a list of server ids into servers: those already known are taken from the cache, the
 rest are requested as descriptors, and the result is sorted into the requested order.
 */
module CloudResolution {

  datatype Endpoint = Endpoint(ip: nat, port: nat, protocol: nat)
  datatype Server = Server(id: nat, endpoints: seq<Endpoint>)
  datatype Port = Port(protocol: nat, port: nat)
  datatype Ip = Ip(ip: nat, ports: seq<Port>)
  datatype Descriptor = Descriptor(id: nat, ips: seq<Ip>)

  type Cache = map<nat, Server>

  ghost predicate WellKeyed(cache: Cache) {
    forall id :: id in cache ==> cache[id].id == id
  }

  function Ids(servers: seq<Server>): (r: seq<nat>)
    ensures |r| == |servers| && forall i :: 0 <= i < |r| ==> r[i] == servers[i].id
  {
    seq(|servers|, i requires 0 <= i < |servers| => servers[i].id)
  }

  function DescriptorIds(ds: seq<Descriptor>): (r: seq<nat>)
    ensures |r| == |ds| && forall i :: 0 <= i < |r| ==> r[i] == ds[i].id
  {
    seq(|ds|, i requires 0 <= i < |ds| => ds[i].id)
  }

  ghost predicate Distinct(ids: seq<nat>) {
    forall i, j :: 0 <= i < j < |ids| ==> ids[i] != ids[j]
  }

  // ---------------------------------------------------------------- the steps

  /** SplitMissingLoaded: the cached servers and the ids of the others, both in request order. */
  function Loaded(cache: Cache, sids: seq<nat>): seq<Server> {
    if sids == [] then []
    else Loaded(cache, sids[..|sids| - 1]) + (if sids[|sids| - 1] in cache then [cache[sids[|sids| - 1]]] else [])
  }

  function Missing(cache: Cache, sids: seq<nat>): seq<nat> {
    if sids == [] then []
    else Missing(cache, sids[..|sids| - 1]) + (if sids[|sids| - 1] in cache then [] else [sids[|sids| - 1]])
  }

  /** GetResponse: a descriptor counts if it was asked for and is the first for its id.  Once all
      have come the request is finished. */
  function Collect(missing: seq<nat>, got: seq<Descriptor>, d: Descriptor): seq<Descriptor> {
    if |got| == |missing| || d.id !in missing || d.id in DescriptorIds(got) then got else got + [d]
  }

  function CollectAll(missing: seq<nat>, stream: seq<Descriptor>): seq<Descriptor> {
    if stream == [] then []
    else Collect(missing, CollectAll(missing, stream[..|stream| - 1]), stream[|stream| - 1])
  }

  function PortEndpoints(ip: Ip): seq<Endpoint> {
    seq(|ip.ports|, i requires 0 <= i < |ip.ports| => Endpoint(ip.ip, ip.ports[i].port, ip.ports[i].protocol))
  }

  function Endpoints(ips: seq<Ip>): seq<Endpoint> {
    if ips == [] then [] else Endpoints(ips[..|ips| - 1]) + PortEndpoints(ips[|ips| - 1])
  }

  datatype Built = Built(cache: Cache, servers: seq<Server>)

  /** BuildNewServers for one descriptor: a server known by now is used, else it is made and stored. */
  function BuildOne(b: Built, d: Descriptor): Built {
    if d.id in b.cache then Built(b.cache, b.servers + [b.cache[d.id]])
    else
      var s := Server(d.id, Endpoints(d.ips));
      Built(b.cache[d.id := s], b.servers + [s])
  }

  function Build(b: Built, ds: seq<Descriptor>): Built {
    if ds == [] then b else BuildOne(Build(b, ds[..|ds| - 1]), ds[|ds| - 1])
  }

  /** The position of the first occurrence, or the length. */
  function First(sids: seq<nat>, id: nat): (i: nat)
    ensures i <= |sids| && (i < |sids| ==> sids[i] == id)
    ensures forall j :: 0 <= j < i ==> sids[j] != id
  {
    if sids == [] || sids[0] == id then 0 else 1 + First(sids[1..], id)
  }

  ghost predicate InOrder(sids: seq<nat>, ids: seq<nat>) {
    forall i, j :: 0 <= i < j < |ids| ==> First(sids, ids[i]) <= First(sids, ids[j])
  }

  /** What std::sort may return: it need not keep servers of equal rank in their order. */
  ghost predicate SortedInto(sids: seq<nat>, servers: seq<Server>, result: seq<Server>) {
    multiset(result) == multiset(servers) && InOrder(sids, Ids(result))
  }

  // ---------------------------------------------------------------- splitting

  ghost predicate Makes(a: seq<nat>, m: seq<nat>, all: seq<nat>) {
    multiset(a) + multiset(m) == multiset(all)
  }

  /** One more id goes to one of the two lists. */
  lemma OneMore(a: seq<nat>, m: seq<nat>, all: seq<nat>, a': seq<nat>, m': seq<nat>)
    requires all != [] && Makes(a, m, all[..|all| - 1])
    requires var id := all[|all| - 1]; (a' == a + [id] && m' == m) || (a' == a && m' == m + [id])
    ensures Makes(a', m', all)
  {
    assert all == all[..|all| - 1] + [all[|all| - 1]];
  }

  lemma SplitStep(cache: Cache, sids: seq<nat>)
    requires WellKeyed(cache) && sids != []
    ensures var front, last := sids[..|sids| - 1], sids[|sids| - 1];
            if last in cache then
              && Ids(Loaded(cache, sids)) == Ids(Loaded(cache, front)) + [last]
              && Missing(cache, sids) == Missing(cache, front)
            else
              && Ids(Loaded(cache, sids)) == Ids(Loaded(cache, front))
              && Missing(cache, sids) == Missing(cache, front) + [last]
  {
  }

  /** The servers found and the ids missing make up the request. */
  lemma {:induction false} SplitCoversRequest(cache: Cache, sids: seq<nat>)
    requires WellKeyed(cache)
    ensures Makes(Ids(Loaded(cache, sids)), Missing(cache, sids), sids)
  {
    if sids != [] {
      var front := sids[..|sids| - 1];
      SplitCoversRequest(cache, front);
      SplitStep(cache, sids);
      OneMore(Ids(Loaded(cache, front)), Missing(cache, front), sids, Ids(Loaded(cache, sids)), Missing(cache, sids));
    }
  }

  // ---------------------------------------------------------------- collecting

  lemma {:induction false} CollectedProperties(missing: seq<nat>, stream: seq<Descriptor>)
    ensures var got := CollectAll(missing, stream);
            && Distinct(DescriptorIds(got))
            && |got| <= |missing|
            && (forall id :: id in DescriptorIds(got) ==> id in missing)
            && (forall d :: d in got ==> d in stream)
  {
    if stream != [] {
      var front, d := stream[..|stream| - 1], stream[|stream| - 1];
      CollectedProperties(missing, front);
      var before := CollectAll(missing, front);
      assert stream == front + [d];
      if CollectAll(missing, stream) != before {
        assert DescriptorIds(before + [d]) == DescriptorIds(before) + [d.id];
      }
    }
  }

  lemma SubMultiset(a: seq<nat>, b: seq<nat>)
    requires Distinct(a) && forall id :: id in a ==> id in b
    ensures multiset(a) <= multiset(b)
  {
    forall id ensures multiset(a)[id] <= multiset(b)[id] {
      DistinctOnce(a, id);
      if id in a { assert id in multiset(b); }
    }
  }

  lemma {:induction false} DistinctOnce(a: seq<nat>, id: nat)
    requires Distinct(a)
    ensures multiset(a)[id] == if id in a then 1 else 0
  {
    if a != [] {
      DistinctOnce(a[1..], id);
      assert a == [a[0]] + a[1..];
    }
  }

  lemma SameSize(a: multiset<nat>, b: multiset<nat>)
    requires a <= b && |a| == |b|
    ensures a == b
  {
    assert b == a + (b - a);
  }

  /** A successful request has collected exactly the missing ids. */
  lemma CollectedIsMissing(missing: seq<nat>, stream: seq<Descriptor>)
    requires |CollectAll(missing, stream)| == |missing|
    ensures multiset(DescriptorIds(CollectAll(missing, stream))) == multiset(missing)
  {
    CollectedProperties(missing, stream);
    var ids := DescriptorIds(CollectAll(missing, stream));
    SubMultiset(ids, missing);
    SameSize(multiset(ids), multiset(missing));
  }

  lemma {:induction false} CollectedCovers(missing: seq<nat>, stream: seq<Descriptor>, id: nat)
    requires id in missing && id in DescriptorIds(stream)
    ensures id in DescriptorIds(CollectAll(missing, stream))
  {
    var front, d := stream[..|stream| - 1], stream[|stream| - 1];
    var before := CollectAll(missing, front);
    assert DescriptorIds(stream) == DescriptorIds(front) + [d.id];
    if id in DescriptorIds(front) {
      CollectedCovers(missing, front, id);
    }
    if |before| == |missing| {
      CollectedIsMissing(missing, front);
      assert id in multiset(missing);
      assert id in multiset(DescriptorIds(before));
    } else if CollectAll(missing, stream) != before {
      assert DescriptorIds(before + [d]) == DescriptorIds(before) + [d.id];
    }
  }

  lemma {:induction false} DistinctByMultiset(a: seq<nat>, b: seq<nat>)
    requires Distinct(a) && multiset(a) == multiset(b)
    ensures Distinct(b)
  {
    forall i, j | 0 <= i < j < |b| ensures b[i] != b[j] {
      DistinctOnce(a, b[i]);
      assert b == b[..j] + [b[j]] + b[j + 1..];
      assert b[i] in b[..j];
      assert multiset(b[..j])[b[i]] >= 1;
    }
  }

  /** The request succeeds if and only if no id is missing twice and each has been answered. */
  lemma RequestSucceedsIff(missing: seq<nat>, stream: seq<Descriptor>)
    ensures |CollectAll(missing, stream)| == |missing| <==>
            Distinct(missing) && forall id :: id in missing ==> id in DescriptorIds(stream)
  {
    var got := CollectAll(missing, stream);
    CollectedProperties(missing, stream);
    if |got| == |missing| {
      CollectedIsMissing(missing, stream);
      DistinctByMultiset(DescriptorIds(got), missing);
      forall id | id in missing ensures id in DescriptorIds(stream) {
        assert id in multiset(missing) && id in multiset(DescriptorIds(got));
        var k :| 0 <= k < |got| && got[k].id == id;
        assert got[k] in stream;
        var m :| 0 <= m < |stream| && stream[m] == got[k];
        assert DescriptorIds(stream)[m] == id;
      }
    }
    if Distinct(missing) && forall id :: id in missing ==> id in DescriptorIds(stream) {
      forall id | id in missing ensures id in DescriptorIds(got) {
        CollectedCovers(missing, stream, id);
      }
      SubMultiset(missing, DescriptorIds(got));
      assert multiset(DescriptorIds(got)) == multiset(missing) + (multiset(DescriptorIds(got)) - multiset(missing));
    }
  }

  /** An id that is missing twice is collected once, whatever the answers: the request never
      succeeds. */
  lemma MissingTwice(id: nat, stream: seq<Descriptor>)
    ensures |CollectAll([id, id], stream)| < 2
  {
    RequestSucceedsIff([id, id], stream);
    CollectedProperties([id, id], stream);
    var twice := [id, id];
    assert twice[0] == twice[1];
  }

  // ---------------------------------------------------------------- building

  /** Each descriptor yields a server with its id; servers already known are kept as they are. */
  lemma {:induction false} BuildEffect(b: Built, ds: seq<Descriptor>)
    requires WellKeyed(b.cache)
    ensures var r := Build(b, ds);
            && WellKeyed(r.cache)
            && Ids(r.servers) == Ids(b.servers) + DescriptorIds(ds)
            && (forall id :: id in r.cache <==> id in b.cache || id in DescriptorIds(ds))
            && (forall id :: id in b.cache ==> r.cache[id] == b.cache[id])
  {
    if ds != [] {
      var front, d := ds[..|ds| - 1], ds[|ds| - 1];
      BuildEffect(b, front);
      assert DescriptorIds(ds) == DescriptorIds(front) + [d.id];
    }
  }

  // ---------------------------------------------------------------- sorting

  lemma RemoveAt(s: seq<Server>, k: nat)
    requires k < |s|
    ensures multiset(s[..k] + s[k + 1..]) == multiset(s) - multiset{s[k]}
  {
    assert s == s[..k] + [s[k]] + s[k + 1..];
  }

  lemma RemoveIdAt(s: seq<Server>, k: nat)
    requires k < |s|
    ensures multiset(Ids(s)) == multiset(Ids(s[..k] + s[k + 1..])) + multiset{s[k].id}
  {
    var ids := Ids(s);
    assert ids == ids[..k] + [ids[k]] + ids[k + 1..];
    assert Ids(s[..k] + s[k + 1..]) == ids[..k] + ids[k + 1..];
  }

  lemma Position(s: seq<Server>, x: Server) returns (k: nat)
    requires x in multiset(s)
    ensures k < |s| && s[k] == x
  {
    assert x in s;
    k :| 0 <= k < |s| && s[k] == x;
  }

  function Drop(s: seq<Server>, k: nat): seq<Server>
    requires k < |s|
  {
    s[..k] + s[k + 1..]
  }

  lemma DropSame(a: seq<Server>, b: seq<Server>, k: nat)
    requires multiset(a) == multiset(b) && a != [] && k < |b| && b[k] == a[0]
    ensures multiset(Drop(a, 0)) == multiset(Drop(b, k))
  {
    RemoveAt(a, 0);
    RemoveAt(b, k);
  }

  lemma DropIds(a: seq<Server>, b: seq<Server>, k: nat)
    requires a != [] && k < |b| && b[k] == a[0]
    requires multiset(Ids(Drop(a, 0))) == multiset(Ids(Drop(b, k)))
    ensures multiset(Ids(a)) == multiset(Ids(b))
  {
    RemoveIdAt(a, 0);
    RemoveIdAt(b, k);
  }

  lemma {:induction false} SameIds(a: seq<Server>, b: seq<Server>)
    requires multiset(a) == multiset(b)
    ensures multiset(Ids(a)) == multiset(Ids(b))
    decreases |a|
  {
    if a == [] {
      assert |multiset(b)| == 0;
      assert b == [];
    } else {
      assert a[0] in multiset(a);
      var k := Position(b, a[0]);
      DropSame(a, b, k);
      SameIds(Drop(a, 0), Drop(b, k));
      DropIds(a, b, k);
    }
  }

  lemma {:induction false} FirstExists(sids: seq<nat>, id: nat)
    requires id in sids
    ensures First(sids, id) < |sids|
  {
    if sids[0] != id { FirstExists(sids[1..], id); }
  }

  lemma SameHead(sids: seq<nat>, a: seq<nat>, b: seq<nat>)
    requires a != [] && b != [] && a[0] in b && b[0] in a && a[0] in sids && b[0] in sids
    requires InOrder(sids, a) && InOrder(sids, b)
    ensures a[0] == b[0]
  {
    FirstExists(sids, a[0]);
    FirstExists(sids, b[0]);
    var i :| 0 <= i < |a| && a[i] == b[0];
    var j :| 0 <= j < |b| && b[j] == a[0];
    assert First(sids, a[0]) <= First(sids, a[i]) && First(sids, b[0]) <= First(sids, b[j]);
  }

  lemma SameTail(a: seq<nat>, b: seq<nat>)
    requires multiset(a) == multiset(b) && a != [] && b != [] && a[0] == b[0]
    ensures multiset(a[1..]) == multiset(b[1..])
  {
    assert a == [a[0]] + a[1..] && b == [b[0]] + b[1..];
    assert multiset(a[1..]) == multiset(a) - multiset{a[0]};
    assert multiset(b[1..]) == multiset(b) - multiset{b[0]};
  }

  lemma SameMembers(a: seq<nat>, b: seq<nat>)
    requires multiset(a) == multiset(b)
    ensures |a| == |b| && (a != [] ==> a[0] in b && b[0] in a)
  {
    assert |a| == |multiset(a)| && |b| == |multiset(b)|;
    if a != [] { assert a[0] in multiset(b) && b[0] in multiset(a); }
  }

  /** Sorting the same ids by first occurrence has only one result. */
  lemma {:induction false} SortedIsUnique(sids: seq<nat>, a: seq<nat>, b: seq<nat>)
    requires multiset(a) == multiset(b) && (forall id :: id in a ==> id in sids)
    requires InOrder(sids, a) && InOrder(sids, b)
    ensures a == b
    decreases |a|
  {
    SameMembers(a, b);
    if a != [] {
      SameHead(sids, a, b);
      SameTail(a, b);
      SortedIsUnique(sids, a[1..], b[1..]);
      assert a == [a[0]] + a[1..] && b == [b[0]] + b[1..];
    }
  }

  /** Equal ids stand side by side. */
  ghost predicate Grouped(sids: seq<nat>) {
    forall i, j, k :: 0 <= i < j < k < |sids| && sids[i] == sids[k] ==> sids[j] == sids[i]
  }

  lemma GroupedPair(sids: seq<nat>, i: nat, j: nat)
    requires Grouped(sids) && i < j < |sids|
    ensures First(sids, sids[i]) <= First(sids, sids[j])
  {
    FirstExists(sids, sids[j]);
    var f := First(sids, sids[j]);
    assert f < i ==> sids[f] == sids[j] == sids[i];
  }

  lemma OrderedTriple(sids: seq<nat>, i: nat, j: nat, k: nat)
    requires InOrder(sids, sids) && i < j < k < |sids| && sids[i] == sids[k]
    ensures sids[j] == sids[i]
  {
    FirstExists(sids, sids[i]);
    FirstExists(sids, sids[j]);
    assert First(sids, sids[i]) <= First(sids, sids[j]) <= First(sids, sids[k]);
  }

  lemma InOrderIffGrouped(sids: seq<nat>)
    ensures InOrder(sids, sids) <==> Grouped(sids)
  {
    if Grouped(sids) {
      forall i, j | 0 <= i < j < |sids| ensures First(sids, sids[i]) <= First(sids, sids[j]) {
        GroupedPair(sids, i, j);
      }
    }
    if InOrder(sids, sids) {
      forall i, j, k | 0 <= i < j < k < |sids| && sids[i] == sids[k] ensures sids[j] == sids[i] {
        OrderedTriple(sids, i, j, k);
      }
    }
  }

  // ---------------------------------------------------------------- the pipeline

  /** The servers before sorting; `later` is the cache when the answers have come. */
  function Resolved(cache: Cache, later: Cache, sids: seq<nat>, stream: seq<Descriptor>): Built {
    Build(Built(later, Loaded(cache, sids)), CollectAll(Missing(cache, sids), stream))
  }

  /** Whatever was cached, and whatever the order, repetition or irrelevance of the answers, a
      successful resolution yields the requested ids; it yields them in the requested order
      exactly if equal ids were requested side by side, so always for distinct ids. */
  lemma ResolutionIsExact(cache: Cache, later: Cache, sids: seq<nat>, stream: seq<Descriptor>, result: seq<Server>)
    requires WellKeyed(cache) && WellKeyed(later)
    requires |CollectAll(Missing(cache, sids), stream)| == |Missing(cache, sids)|
    requires SortedInto(sids, Resolved(cache, later, sids, stream).servers, result)
    ensures multiset(Ids(result)) == multiset(sids)
    ensures Ids(result) == sids <==> Grouped(sids)
    ensures Distinct(sids) ==> Ids(result) == sids
  {
    var missing := Missing(cache, sids);
    var got := CollectAll(missing, stream);
    var built := Resolved(cache, later, sids, stream);
    SplitCoversRequest(cache, sids);
    CollectedIsMissing(missing, stream);
    BuildEffect(Built(later, Loaded(cache, sids)), got);
    SameIds(result, built.servers);
    InOrderIffGrouped(sids);
    if Grouped(sids) {
      forall id | id in Ids(result) ensures id in sids {
        assert id in multiset(Ids(result));
      }
      SortedIsUnique(sids, Ids(result), sids);
    }
  }

  /** Ids requested apart from each other come back side by side. */
  lemma ScatteredIds(cache: Cache, stream: seq<Descriptor>, result: seq<Server>)
    requires WellKeyed(cache) && 5 in cache && 6 in cache
    requires SortedInto([5, 6, 5], Resolved(cache, cache, [5, 6, 5], stream).servers, result)
    ensures Ids(result) != [5, 6, 5]
  {
    var sids := [5, 6, 5];
    assert sids[..2] == [5, 6] && sids[..2][..1] == [5] && [5][..0] == [];
    assert Missing(cache, [5]) == [] && Missing(cache, [5, 6]) == [] by {
      assert [5, 6][..1] == [5];
    }
    CollectedProperties([], stream);
    ResolutionIsExact(cache, cache, sids, stream, result);
    assert sids[0] == sids[2] && sids[1] != sids[0];
  }
}

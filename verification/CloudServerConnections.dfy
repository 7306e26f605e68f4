/**
 CloudServerConnection and CloudServerConnections as objects updated in place.
 Each method is proved against the transition of ServerSelection it implements, so
 every theorem about runs of that system holds of these objects.
 */
module CloudServerConnections {
  import S = ServerSelection
  import I = InterruptedSelection

  /** One server of the cloud.  A pointer to it is its index in the owner's list. */
  class CloudServerConnection {
    var priority: nat
    var isConnection: bool
    var hasClient: bool
    var isQuarantined: bool
    var generation: nat

    function View(): S.Server
      reads this
    {
      S.Server(priority, isConnection, hasClient, isQuarantined, generation)
    }

    constructor ()
      ensures View() == S.NEW_SERVER
    {
      priority, isConnection, hasClient, isQuarantined, generation := 0, false, false, false, 0;
    }

    /** `outcome` is what the connection factory delivers if it is asked. */
    method BeginConnection(newPriority: nat, outcome: S.Outcome) returns (began: bool)
      modifies this
      ensures View() == S.BeginConnection(old(View()), newPriority, outcome)
      ensures began == !old(isConnection)
    {
      priority := newPriority;
      if !isConnection {
        isConnection := true;
        hasClient := outcome != S.NoClient;
        generation := generation + 1;
        return true;
      }
      return false;
    }

    method EndConnection(newPriority: nat)
      modifies this
      ensures View() == S.EndConnection(old(View()), newPriority)
    {
      priority := newPriority;
      isConnection := false;
    }
  }

  datatype RequestPolicy = MainServer | Priority(priority: nat) | Replica(count: nat) | All

  class CloudServerConnections {
    const servers: seq<CloudServerConnection>
    const maxConnections: nat
    var selected: seq<nat>
    var reselectPending: bool
    var releases: multiset<nat>
    var watched: set<nat>
    var updates: nat

    ghost predicate Valid()
      reads this
    {
      && (forall i, j :: 0 <= i < j < |servers| ==> servers[i] != servers[j])
      && (forall i :: 0 <= i < |selected| ==> selected[i] < |servers|)
    }

    function View(): S.State
      reads this, servers
    {
      S.State(seq(|servers|, i requires 0 <= i < |servers| reads this, servers => servers[i].View()),
              selected, reselectPending, releases, maxConnections)
    }

    /** The constructor creates one connection object per server and makes the first selection. */
    constructor (n: nat, maxConnections: nat, env: nat -> S.Outcome)
      ensures Valid() && fresh(servers) && |servers| == n
      ensures exists order :: S.IsCandidateOrder(S.Fresh(n, maxConnections), order)
                              && View() == S.InitServers(S.Fresh(n, maxConnections), order, env)
      ensures S.Inv(View())
    {
      var list: seq<CloudServerConnection> := [];
      while |list| < n
        invariant |list| <= n
        invariant forall i :: 0 <= i < |list| ==> fresh(list[i]) && list[i].View() == S.NEW_SERVER
        invariant forall i, j :: 0 <= i < j < |list| ==> list[i] != list[j]
      {
        var c := new CloudServerConnection();
        list := list + [c];
      }
      this.servers := list;
      this.maxConnections := maxConnections;
      selected, reselectPending, releases, watched, updates := [], false, multiset{}, {}, 0;
      new;
      assert View() == S.Fresh(n, maxConnections);
      S.FreshIsSound(n, maxConnections);
      var order := FirstSelection(env);
      S.InitServersInv(S.Fresh(n, maxConnections), order, env);
    }

    /** The selection of the constructor: no server has been watched before. */
    method FirstSelection(env: nat -> S.Outcome) returns (order: seq<nat>)
      requires Valid()
      modifies this`selected, this`releases, this`reselectPending, this`watched, this`updates, servers
      ensures Valid() && S.IsCandidateOrder(old(View()), order)
      ensures View() == S.InitServers(old(View()), order, env)
    {
      ghost var before := View();
      var noErrors := (i: nat) => [];
      order := InitServers(env, noErrors);
      I.NoErrors(I.Pass(before, order, env, noErrors), S.Min(|order|, maxConnections));
    }

    /** Stand-in for std::sort: any order by priority is allowed, this is one. */
    method SortByPriority(cands: seq<nat>) returns (order: seq<nat>)
      requires Valid() && S.Distinct(cands) && S.InRange(View(), cands)
      ensures S.Distinct(order) && S.InRange(View(), order) && S.SortedByPriority(View(), order)
      ensures forall k :: k in order <==> k in cands
    {
      order := [];
      for i := 0 to |cands|
        invariant S.Distinct(order) && S.InRange(View(), order) && S.SortedByPriority(View(), order)
        invariant forall k :: k in order <==> k in cands[..i]
      {
        assert cands[..i + 1] == cands[..i] + [cands[i]];
        assert cands[i] !in cands[..i];
        S.InsertProperties(View(), order, cands[i]);
        S.InsertMembers(View(), order, cands[i]);
        order := S.Insert(View(), order, cands[i]);
      }
      assert cands[..|cands|] == cands;
    }

    method ServerCandidates() returns (order: seq<nat>)
      requires Valid()
      ensures S.IsCandidateOrder(View(), order)
    {
      var cands: seq<nat> := [];
      for i := 0 to |servers|
        invariant S.InRange(View(), cands) && S.Distinct(cands)
        invariant forall k :: k in cands ==> k < i
        invariant forall k :: 0 <= k < |servers| ==> (k in cands <==> k < i && !View().servers[k].quarantined)
      {
        if !servers[i].isQuarantined {
          assert i !in cands;
          cands := cands + [i];
        }
      }
      order := SortByPriority(cands);
    }

    /** std::erase of one element. */
    method UnselectServer(k: nat)
      requires Valid() && k < |servers|
      modifies this`selected
      ensures Valid()
      ensures selected == S.Without(old(selected), k)
    {
      var kept: seq<nat> := [];
      ghost var was := selected;
      for i := 0 to |selected|
        invariant selected == was
        invariant forall j :: 0 <= j < |kept| ==> kept[j] < |servers|
        invariant kept + S.Without(was[i..], k) == S.Without(was, k)
      {
        assert was[i..][1..] == was[i + 1..];
        if selected[i] != k {
          kept := kept + [selected[i]];
        }
      }
      assert was[|was|..] == [];
      selected := kept;
    }

    /** The failure handler of a server connection. */
    method BadServer(k: nat)
      requires Valid() && k < |servers|
      modifies this`selected, this`releases, this`reselectPending, servers[k]
      ensures Valid()
      ensures View() == S.BadServer(old(View()), k)
    {
      ghost var was := View();
      var newPriority := servers[k].priority + |servers|;
      servers[k].EndConnection(newPriority);
      QuarantineTimer(k);
      UnselectServer(k);
      ReselectServers();
      assert View().servers == S.BadServer(was, k).servers;
    }

    method QuarantineTimer(k: nat)
      requires Valid() && k < |servers|
      modifies this`releases, servers[k]
      ensures releases == old(releases) + multiset{k}
      ensures servers[k].View() == old(servers[k].View()).(quarantined := true)
    {
      releases := releases + multiset{k};
      servers[k].isQuarantined := true;
    }

    /** Schedules the deferred selection unless one is pending. */
    method ReselectServers()
      modifies this`reselectPending
      ensures reselectPending
    {
      if reselectPending {
        return;
      }
      reselectPending := true;
    }

    /** Reports a bad new connection at once; a good one is watched for link errors. */
    method SubscribeToServerState(k: nat, outcome: S.Outcome)
      requires Valid() && k < |servers|
      requires servers[k].hasClient <==> outcome != S.NoClient
      modifies this`selected, this`releases, this`reselectPending, this`watched, servers[k]
      ensures Valid()
      ensures View() == if outcome == S.Healthy then old(View()) else S.BadServer(old(View()), k)
      ensures watched == if outcome == S.Healthy then old(watched) + {k} else old(watched)
    {
      if !servers[k].hasClient {
        BadServer(k);
        return;
      }
      if outcome == S.LinkErrorAtOnce {
        BadServer(k);
        return;
      }
      watched := watched + {k};
    }

    /** Link errors of servers of this cloud; one being connected is not watched meanwhile. */
    ghost predicate ErrorsFit(errs: nat -> seq<nat>) {
      && (forall k: nat, j :: 0 <= j < |errs(k)| ==> errs(k)[j] < |servers|)
      && (forall k: nat :: k !in errs(k))
    }

    /** Link errors that come while a connection is being created. */
    method Interrupt(errs: seq<nat>)
      requires Valid() && forall i :: 0 <= i < |errs| ==> errs[i] < |servers|
      modifies this`selected, this`releases, this`reselectPending, servers
      ensures Valid() && View() == I.Hits(old(View()), errs)
    {
      ghost var all := I.Hits(View(), errs);
      for i := 0 to |errs|
        invariant Valid() && I.Hits(View(), errs[i..]) == all
      {
        assert errs[i..][1..] == errs[i + 1..];
        BadServer(errs[i]);
      }
    }

    /** The body of the selection loop. */
    method SelectServer(k: nat, i: nat, env: nat -> S.Outcome, errs: seq<nat>)
      requires Valid() && k < |servers| && forall j :: 0 <= j < |errs| ==> errs[j] < |servers|
      requires k !in errs
      modifies this`selected, this`releases, this`reselectPending, this`watched, servers
      ensures Valid()
      ensures View() == I.SelectOneWith(old(View()), k, i, env, errs)
      ensures old(watched) <= watched
    {
      ghost var before := View();
      selected := selected + [k];
      var began := servers[k].BeginConnection(i, env(k));
      assert View().servers == before.servers[k := S.BeginConnection(before.servers[k], i, env(k))];
      if began {
        ghost var begun := View();
        Interrupt(errs);
        I.HitsServer(begun, errs, k);
        assert View().servers[k] == begun.servers[k];
        SubscribeToServerState(k, env(k));
      }
    }

    method EndServer(k: nat, i: nat)
      requires Valid() && k < |servers|
      modifies servers[k]
      ensures View() == old(View()).(servers := old(View()).servers[k := S.EndConnection(old(View()).servers[k], i)])
    {
      ghost var before := View();
      servers[k].EndConnection(i);
      assert View().servers == before.servers[k := S.EndConnection(before.servers[k], i)];
    }

    /** A whole pass; `errs(k)` are the link errors that come while server k is connected. */
    method SelectServers(order: seq<nat>, env: nat -> S.Outcome, errs: nat -> seq<nat>)
      requires Valid() && S.InRange(View(), order) && I.InRangeErrs(I.Pass(View(), order, env, errs))
      requires forall k: nat :: k !in errs(k)
      modifies this`selected, this`releases, this`reselectPending, this`watched, this`updates, servers
      ensures Valid()
      ensures View() == I.SelectServersWith(I.Pass(old(View()), order, env, errs))
      ensures old(watched) <= watched && updates == old(updates) + 1
    {
      var count := S.Min(|order|, maxConnections);
      SelectTop(order, count, env, errs);
      EndOthers(order, count);
      updates := updates + 1;
    }

    method SelectTop(order: seq<nat>, count: nat, env: nat -> S.Outcome, errs: nat -> seq<nat>)
      requires Valid() && S.InRange(View(), order) && count <= |order|
      requires I.InRangeErrs(I.Pass(View(), order, env, errs)) && forall k: nat :: k !in errs(k)
      modifies this`selected, this`releases, this`reselectPending, this`watched, servers
      ensures Valid()
      ensures View() == I.SelectFirstWith(I.Pass(old(View()), order, env, errs), count)
      ensures old(watched) <= watched
    {
      var d := I.Pass(View(), order, env, errs);
      ClearSelected();
      var i := 0;
      while i < count
        invariant 0 <= i <= count
        invariant Valid() && View() == I.SelectFirstWith(d, i) && old(watched) <= watched
      {
        SelectNext(d, i);
        i := i + 1;
      }
    }

    method ClearSelected()
      requires Valid()
      modifies this`selected
      ensures Valid() && View() == old(View()).(selected := [])
    {
      ghost var was := View();
      selected := [];
      assert View().servers == was.servers;
    }

    /** One turn of the loop. */
    method SelectNext(d: I.Pass, i: nat)
      requires Valid() && i < |d.order| && |d.st.servers| == |servers| && S.InRange(d.st, d.order)
      requires I.InRangeErrs(d) && (forall k: nat :: k !in d.errs(k)) && View() == I.SelectFirstWith(d, i)
      modifies this`selected, this`releases, this`reselectPending, this`watched, servers
      ensures Valid() && View() == I.SelectFirstWith(d, i + 1)
      ensures old(watched) <= watched
    {
      var k := d.order[i];
      SelectServer(k, i, d.env, d.errs(k));
    }

    /** The second loop: the connections of the other candidates end. */
    method EndOthers(order: seq<nat>, count: nat)
      requires Valid() && S.InRange(View(), order) && count <= |order|
      modifies servers
      ensures View() == S.EndRest(old(View()), order, count, |order|)
    {
      ghost var mid := View();
      var i := count;
      while i < |order|
        invariant count <= i <= |order|
        invariant View() == S.EndRest(mid, order, count, i)
      {
        EndServer(order[i], i);
        i := i + 1;
      }
    }

    method InitServers(env: nat -> S.Outcome, errs: nat -> seq<nat>) returns (order: seq<nat>)
      requires Valid() && ErrorsFit(errs)
      modifies this`selected, this`releases, this`reselectPending, this`watched, this`updates, servers
      ensures Valid()
      ensures S.IsCandidateOrder(old(View()), order)
      ensures var d := I.Pass(old(View()), order, env, errs);
              if |old(selected)| >= I.Count(d) then View() == old(View()) && updates == old(updates)
              else View() == I.SelectServersWith(d) && updates == old(updates) + 1
      ensures old(watched) <= watched
    {
      order := ServerCandidates();
      if |selected| >= S.Min(|order|, maxConnections) {
        return;
      }
      SelectServers(order, env, errs);
    }

    // ------------------------------------------------------------ what the scheduler and the streams call

    method OnLinkError(k: nat)
      requires Valid() && S.Inv(View()) && k < |servers|
      modifies this`selected, this`releases, this`reselectPending, servers
      ensures Valid() && S.Inv(View())
      ensures S.Next(old(View()), S.LinkError(k), View())
    {
      ghost var was := View();
      BadServer(k);
      S.NextKeepsInv(was, S.LinkError(k), View());
    }

    method OnRelease(k: nat)
      requires Valid() && S.Inv(View()) && k < |servers| && k in releases
      modifies this`releases, this`reselectPending, servers
      ensures Valid() && S.Inv(View())
      ensures S.Next(old(View()), S.Release(k), View())
    {
      ghost var was := View();
      releases := releases - multiset{k};
      servers[k].isQuarantined := false;
      ReselectServers();
      assert View().servers == S.ReleaseServer(was, k).servers;
      S.NextKeepsInv(was, S.Release(k), View());
    }

    /** The deferred task, with whatever link errors come while it connects servers. */
    method OnReselect(env: nat -> S.Outcome, errs: nat -> seq<nat>) returns (order: seq<nat>)
      requires Valid() && S.Inv(View()) && reselectPending && ErrorsFit(errs)
      modifies this`selected, this`releases, this`reselectPending, this`watched, this`updates, servers
      ensures Valid()
      ensures I.NextWith(old(View()), I.Disturbed(order, env, errs), View())
      ensures S.Inv(View()) <==> !I.Unclean(old(View()), I.Disturbed(order, env, errs))
    {
      ghost var was := View();
      reselectPending := false;
      ghost var mid := View();
      assert mid.servers == was.servers;
      order := InitServers(env, errs);
      I.StepKeepsInvIff(was, I.Disturbed(order, env, errs), View());
    }

    lemma SelectedHaveClients()
      requires Valid() && S.Inv(View())
      ensures forall i :: 0 <= i < |selected| ==> servers[selected[i]].hasClient
    {
      S.InvSpelledOut(View());
      forall i | 0 <= i < |selected| ensures servers[selected[i]].hasClient {
        assert selected[i] in View().selected;
        assert View().servers[selected[i]].hasClient;
      }
    }

    /** The servers a request policy visits.  Each of them has a client connection, so the
        assertion in CallApi holds in every reachable state. */
    method ForServers(policy: RequestPolicy) returns (visited: seq<nat>)
      requires Valid() && S.Inv(View())
      ensures visited == match policy
                         case MainServer => selected[..S.Min(1, |selected|)]
                         case Priority(p) => if p < |selected| then [selected[p]] else []
                         case Replica(c) => selected[..S.Min(c, |selected|)]
                         case All => selected
      ensures forall i :: 0 <= i < |visited| ==> visited[i] < |servers| && servers[visited[i]].hasClient
    {
      SelectedHaveClients();
      match policy
      case MainServer =>
        visited := if selected == [] then [] else [selected[0]];
      case Priority(p) =>
        visited := if p >= |selected| then [] else [selected[p]];
      case Replica(c) =>
        visited := VisitFirst(S.Min(|selected|, c));
      case All =>
        visited := VisitFirst(|selected|);
    }

    method VisitFirst(visitCount: nat) returns (visited: seq<nat>)
      requires visitCount <= |selected|
      ensures visited == selected[..visitCount]
    {
      visited := [];
      for i := 0 to visitCount
        invariant visited == selected[..i]
      {
        visited := visited + [selected[i]];
      }
    }
  }
}

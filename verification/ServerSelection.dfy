/**
 The selection protocol of CloudServerConnections as a transition system.

 A cloud holds a fixed list of servers.  At most `maxConnections` of them are
 selected, in priority order.  A link error demotes and quarantines a server, a
 timer releases it, and a deferred task selects again.  The scheduler is a bag of
 pending tasks: link errors, releases and reselections interleave arbitrarily.
 */
module ServerSelection {

  /** What CloudServerConnection remembers about one server.  `generation` counts
      the connections created so far, so an unchanged value means "not reconnected". */
  datatype Server = Server(priority: nat, isConnection: bool, hasClient: bool, quarantined: bool, generation: nat)

  /** What the connection factory delivers when asked for a new connection. */
  datatype Outcome = NoClient | LinkErrorAtOnce | Healthy

  datatype State = State(
    servers: seq<Server>,
    selected: seq<nat>,
    reselectPending: bool,
    releases: multiset<nat>,
    maxConnections: nat)

  const NEW_SERVER: Server := Server(0, false, false, false, 0)

  function Min(a: nat, b: nat): nat {
    if a <= b then a else b
  }

  // ---------------------------------------------------------------- transitions

  function BeginConnection(s: Server, priority: nat, outcome: Outcome): Server {
    if s.isConnection then s.(priority := priority)
    else Server(priority, true, outcome != NoClient, s.quarantined, s.generation + 1)
  }

  function EndConnection(s: Server, priority: nat): Server {
    s.(priority := priority, isConnection := false)
  }

  /** std::erase on the selected list. */
  function Without(s: seq<nat>, k: nat): seq<nat> {
    if s == [] then []
    else if s[0] == k then Without(s[1..], k)
    else [s[0]] + Without(s[1..], k)
  }

  /** The failure handler: demote, quarantine with a release timer, unselect and ask for a reselection. */
  function BadServer(st: State, k: nat): State
    requires k < |st.servers|
  {
    var s := st.servers[k];
    st.(servers := st.servers[k := EndConnection(s, s.priority + |st.servers|).(quarantined := true)],
        releases := st.releases + multiset{k},
        selected := Without(st.selected, k),
        reselectPending := true)
  }

  function ReleaseServer(st: State, k: nat): State
    requires k < |st.servers|
  {
    st.(servers := st.servers[k := st.servers[k].(quarantined := false)],
        releases := st.releases - multiset{k},
        reselectPending := true)
  }

  /** One iteration of the selection loop; a new connection may turn out bad at once. */
  function SelectOne(st: State, k: nat, priority: nat, env: nat -> Outcome): State
    requires k < |st.servers|
  {
    var s := st.servers[k];
    var st1 := st.(selected := st.selected + [k],
                   servers := st.servers[k := BeginConnection(s, priority, env(k))]);
    if !s.isConnection && env(k) != Healthy then BadServer(st1, k) else st1
  }

  ghost predicate InRange(st: State, order: seq<nat>) {
    forall i :: 0 <= i < |order| ==> order[i] < |st.servers|
  }

  /** The state after the first `m` iterations of the selection loop. */
  ghost function SelectFirst(st: State, order: seq<nat>, m: nat, env: nat -> Outcome): (r: State)
    requires m <= |order| && InRange(st, order)
    ensures |r.servers| == |st.servers|
  {
    if m == 0 then st.(selected := [])
    else SelectOne(SelectFirst(st, order, m - 1, env), order[m - 1], m - 1, env)
  }

  /** The state after ending the connections of order[from..m], which renumbers them. */
  ghost function EndRest(st: State, order: seq<nat>, from: nat, m: nat): (r: State)
    requires from <= m <= |order| && InRange(st, order)
    ensures |r.servers| == |st.servers|
    decreases m
  {
    if m == from then st
    else
      var r := EndRest(st, order, from, m - 1);
      var k := order[m - 1];
      r.(servers := r.servers[k := EndConnection(r.servers[k], m - 1)])
  }

  ghost function SelectServers(st: State, order: seq<nat>, env: nat -> Outcome): State
    requires InRange(st, order)
  {
    var count := Min(|order|, st.maxConnections);
    EndRest(SelectFirst(st, order, count, env), order, count, |order|)
  }

  ghost function InitServers(st: State, order: seq<nat>, env: nat -> Outcome): State
    requires InRange(st, order)
  {
    if |st.selected| >= Min(|order|, st.maxConnections) then st
    else SelectServers(st, order, env)
  }

  ghost predicate Distinct(order: seq<nat>) {
    forall i, j :: 0 <= i < j < |order| ==> order[i] != order[j]
  }

  /** What std::sort may deliver: every server out of quarantine once, by priority, ties in any order. */
  ghost predicate IsCandidateOrder(st: State, order: seq<nat>) {
    && InRange(st, order)
    && Distinct(order)
    && (forall k :: 0 <= k < |st.servers| ==> (k in order <==> !st.servers[k].quarantined))
    && (forall i, j :: 0 <= i < j < |order| ==> st.servers[order[i]].priority <= st.servers[order[j]].priority)
  }

  datatype Action = LinkError(k: nat) | Release(k: nat) | Reselect(order: seq<nat>, env: nat -> Outcome)

  /** One step.  A link error may hit any server, selected or not: the subscription to
      the state of a connection outlives the selection of its server. */
  ghost predicate Next(st: State, a: Action, st': State) {
    match a
    case LinkError(k) => k < |st.servers| && st' == BadServer(st, k)
    case Release(k) => k < |st.servers| && k in st.releases && st' == ReleaseServer(st, k)
    case Reselect(order, env) =>
      && st.reselectPending
      && IsCandidateOrder(st, order)
      && st' == InitServers(st.(reselectPending := false), order, env)
  }

  function Fresh(n: nat, maxConnections: nat): State {
    State(seq(n, _ => NEW_SERVER), [], false, multiset{}, maxConnections)
  }

  /** A run starts with the selection made by the constructor and takes the given steps. */
  ghost predicate IsRun(n: nat, maxConnections: nat, order: seq<nat>, env: nat -> Outcome,
                        run: seq<State>, acts: seq<Action>)
  {
    && |run| == |acts| + 1
    && IsCandidateOrder(Fresh(n, maxConnections), order)
    && run[0] == InitServers(Fresh(n, maxConnections), order, env)
    && forall i :: 0 <= i < |acts| ==> Next(run[i], acts[i], run[i + 1])
  }

  // ---------------------------------------------------------------- the invariant

  ghost function Candidates(st: State): set<nat> {
    set k: nat | k < |st.servers| && !st.servers[k].quarantined
  }

  /** As many servers are selected as there are candidates, up to the maximum. */
  ghost predicate Full(st: State) {
    |st.selected| == Min(|Candidates(st)|, st.maxConnections)
  }

  /** The selected list is strictly ordered by priorities. */
  ghost predicate SelectedSorted(st: State) {
    && (forall i :: 0 <= i < |st.selected| ==> st.selected[i] < |st.servers|)
    && (forall i, j :: 0 <= i < j < |st.selected| ==>
          st.servers[st.selected[i]].priority < st.servers[st.selected[j]].priority)
  }

  /** Server k outranked by every selected one: enough to look at the last of them. */
  ghost predicate BehindSelected(st: State, k: nat)
    requires SelectedSorted(st) && k < |st.servers|
  {
    |st.selected| > 0 ==> st.servers[st.selected[|st.selected| - 1]].priority < st.servers[k].priority
  }

  /** The flags of server k agree with the selected list, its rank with its state. */
  ghost predicate ServerSound(st: State, k: nat)
    requires SelectedSorted(st) && k < |st.servers|
  {
    var s := st.servers[k];
    && (s.isConnection <==> k in st.selected)
    && (s.isConnection ==> s.hasClient && !s.quarantined && s.priority < st.maxConnections && s.priority < |st.servers|)
    && (s.quarantined ==> s.priority >= Min(|st.servers|, st.maxConnections) && k in st.releases)
    && (!s.isConnection && !s.quarantined ==> BehindSelected(st, k))
  }

  ghost predicate Sound(st: State) {
    && SelectedSorted(st)
    && |st.selected| <= st.maxConnections
    && (forall k :: 0 <= k < |st.servers| ==> ServerSound(st, k))
    && (forall k :: k in st.releases ==> k < |st.servers|)
  }

  /** The invariant of every reachable state: sound, and short of servers only while a reselection is pending. */
  ghost predicate Inv(st: State) {
    Sound(st) && (Full(st) || st.reselectPending)
  }

  /** What the invariant says, spelled out: the selected list has no duplicates and is strictly
      ordered, connected means selected, a selected server has a client and no quarantine, it
      outranks every other candidate, and a quarantined server has a pending release. */
  lemma InvSpelledOut(st: State)
    requires Inv(st)
    ensures Distinct(st.selected)
    ensures forall i, j :: 0 <= i < j < |st.selected| ==>
              st.servers[st.selected[i]].priority < st.servers[st.selected[j]].priority < st.maxConnections
    ensures forall k :: 0 <= k < |st.servers| ==> (st.servers[k].isConnection <==> k in st.selected)
    ensures forall k :: k in st.selected ==>
              st.servers[k].hasClient && !st.servers[k].quarantined && st.servers[k].priority < st.maxConnections
    ensures forall s, t ::
              s in st.selected && 0 <= t < |st.servers| && t !in st.selected && !st.servers[t].quarantined ==>
              st.servers[s].priority < st.servers[t].priority
    ensures forall k :: 0 <= k < |st.servers| && st.servers[k].quarantined ==> k in st.releases
    ensures |st.selected| == Min(|Candidates(st)|, st.maxConnections) || st.reselectPending
  {
    forall i | 0 <= i < |st.selected|
      ensures ServerSound(st, st.selected[i]) && st.servers[st.selected[i]].isConnection
    {
      assert st.selected[i] in st.selected;
      assert ServerSound(st, st.selected[i]);
    }
    forall k | 0 <= k < |st.servers|
      ensures st.servers[k].isConnection <==> k in st.selected
      ensures st.servers[k].quarantined ==> k in st.releases
    {
      assert ServerSound(st, k);
    }
    forall s, t | s in st.selected && 0 <= t < |st.servers| && t !in st.selected && !st.servers[t].quarantined
      ensures st.servers[s].priority < st.servers[t].priority
    {
      var i :| 0 <= i < |st.selected| && st.selected[i] == s;
      assert ServerSound(st, t);
      assert BehindSelected(st, t);
    }
  }

  // ---------------------------------------------------------------- link errors and releases

  lemma {:induction false} WithoutMembers(sel: seq<nat>, k: nat)
    ensures |Without(sel, k)| <= |sel|
    ensures forall x :: x in Without(sel, k) <==> x in sel && x != k
    ensures k !in sel ==> Without(sel, k) == sel
  {
    if sel != [] {
      WithoutMembers(sel[1..], k);
      assert forall x :: x in sel <==> x == sel[0] || x in sel[1..];
    }
  }

  ghost predicate Rising(rank: nat -> int, sel: seq<nat>) {
    forall i, j :: 0 <= i < j < |sel| ==> rank(sel[i]) < rank(sel[j])
  }

  lemma {:induction false} WithoutRising(rank: nat -> int, sel: seq<nat>, k: nat)
    requires Rising(rank, sel)
    ensures Rising(rank, Without(sel, k))
    ensures Without(sel, k) != [] ==> rank(Without(sel, k)[|Without(sel, k)| - 1]) <= rank(sel[|sel| - 1])
  {
    if sel != [] {
      var rest := sel[1..];
      WithoutRising(rank, rest, k);
      WithoutMembers(rest, k);
      var w := Without(rest, k);
      forall j | 0 <= j < |w| ensures rank(sel[0]) < rank(w[j]) {
        assert w[j] in w;
        var l :| 0 <= l < |rest| && rest[l] == w[j];
        assert rest[l] == sel[l + 1];
      }
    }
  }

  function Priorities(st: State): nat -> int {
    (k: nat) => if k < |st.servers| then st.servers[k].priority else 0
  }

  lemma SortedIsRising(st: State, sel: seq<nat>)
    requires forall x :: x in sel ==> x < |st.servers|
    ensures SelectedSorted(st.(selected := sel)) <==> Rising(Priorities(st), sel)
  {
    assert forall i :: 0 <= i < |sel| ==> sel[i] in sel;
    if Rising(Priorities(st), sel) {
      forall i, j | 0 <= i < j < |sel| ensures st.servers[sel[i]].priority < st.servers[sel[j]].priority {
        assert Priorities(st)(sel[i]) < Priorities(st)(sel[j]);
      }
    }
  }

  /** Without keeps the order by priorities. */
  lemma WithoutSorted(st: State, sel: seq<nat>, k: nat)
    requires SelectedSorted(st.(selected := sel))
    ensures SelectedSorted(st.(selected := Without(sel, k)))
    ensures Without(sel, k) != [] ==>
              st.servers[Without(sel, k)[|Without(sel, k)| - 1]].priority <= st.servers[sel[|sel| - 1]].priority
  {
    assert forall x :: x in sel ==> x < |st.servers|;
    WithoutMembers(sel, k);
    SortedIsRising(st, sel);
    WithoutRising(Priorities(st), sel, k);
    SortedIsRising(st, Without(sel, k));
  }

  /** The order of a selection depends on the priorities of its members only. */
  lemma SameRanks(st: State, r: State)
    requires SelectedSorted(st) && r.selected == st.selected && |r.servers| == |st.servers|
    requires forall i :: 0 <= i < |st.selected| ==> r.servers[st.selected[i]] == st.servers[st.selected[i]]
    ensures SelectedSorted(r)
  {
  }

  /** The selection without server k, as it is ranked after its link error. */
  lemma BadServerSorted(st: State, k: nat, mid: State, r: State)
    requires SelectedSorted(st) && k < |st.servers|
    requires mid == st.(selected := Without(st.selected, k)) && r == BadServer(st, k)
    ensures SelectedSorted(mid) && SelectedSorted(r) && r.selected == mid.selected
    ensures forall i :: 0 <= i < |mid.selected| ==> r.servers[mid.selected[i]] == mid.servers[mid.selected[i]]
    ensures mid.selected != [] ==>
              && st.selected != []
              && st.servers[mid.selected[|mid.selected| - 1]].priority
                 <= st.servers[st.selected[|st.selected| - 1]].priority
  {
    WithoutSorted(st, st.selected, k);
    WithoutMembers(st.selected, k);
    forall i | 0 <= i < |mid.selected| ensures r.servers[mid.selected[i]] == mid.servers[mid.selected[i]] {
      assert mid.selected[i] in mid.selected;
    }
    SameRanks(mid, r);
  }

  lemma BadServerSelected(st: State, k: nat)
    requires SelectedSorted(st) && k < |st.servers|
    ensures var r := BadServer(st, k);
            && SelectedSorted(r)
            && |r.selected| <= |st.selected|
            && (forall x :: x in r.selected <==> x in st.selected && x != k)
            && (forall j :: 0 <= j < |st.servers| && BehindSelected(st, j) && j != k ==> BehindSelected(r, j))
  {
    var mid, r := st.(selected := Without(st.selected, k)), BadServer(st, k);
    BadServerSorted(st, k, mid, r);
    WithoutMembers(st.selected, k);
    forall j | 0 <= j < |st.servers| && BehindSelected(st, j) && j != k ensures BehindSelected(r, j) {
      StillBehind(st, mid, r, j);
    }
  }

  lemma StillBehind(st: State, mid: State, r: State, j: nat)
    requires SelectedSorted(st) && SelectedSorted(mid) && SelectedSorted(r) && mid.servers == st.servers
    requires mid.selected != [] ==>
               && st.selected != []
               && st.servers[mid.selected[|mid.selected| - 1]].priority
                  <= st.servers[st.selected[|st.selected| - 1]].priority
    requires r.selected == mid.selected && |r.servers| == |st.servers|
    requires forall i :: 0 <= i < |mid.selected| ==> r.servers[mid.selected[i]] == mid.servers[mid.selected[i]]
    requires j < |st.servers| && BehindSelected(st, j) && r.servers[j] == st.servers[j]
    ensures BehindSelected(r, j)
  {
  }

  /** A link error puts its server behind every server ranked by the last pass, and servers that fail
      one after the other keep their order; it is cut off, quarantined with one release more and taken
      off the selection, and no other server changes. */
  lemma LinkErrorDemotes(st: State, k: nat, l: nat)
    requires k < |st.servers| && l < |st.servers| && k != l
    ensures var r := BadServer(st, k);
            && (st.servers[l].priority < |st.servers| ==> r.servers[l].priority < r.servers[k].priority)
            && !r.servers[k].isConnection && r.servers[k].quarantined && r.servers[l] == st.servers[l]
            && r.releases[k] == st.releases[k] + 1 && r.releases[l] == st.releases[l]
            && k !in r.selected && (l in r.selected <==> l in st.selected) && r.reselectPending
    ensures var r := BadServer(BadServer(st, k), l);
            r.servers[k].priority < r.servers[l].priority <==> st.servers[k].priority < st.servers[l].priority
  {
    WithoutMembers(st.selected, k);
  }

  lemma LinkErrorKeepsInv(st: State, k: nat)
    requires Inv(st) && k < |st.servers|
    ensures Inv(BadServer(st, k))
  {
    var r := BadServer(st, k);
    BadServerSelected(st, k);
    forall j | 0 <= j < |st.servers| ensures ServerSound(r, j) {
      assert ServerSound(st, j);
    }
  }

  lemma ReleaseKeepsInv(st: State, k: nat)
    requires Inv(st) && k < |st.servers|
    ensures Inv(ReleaseServer(st, k))
  {
    var r := ReleaseServer(st, k);
    assert SelectedSorted(r);
    if |st.selected| > 0 {
      var last := st.selected[|st.selected| - 1];
      assert last in st.selected;
      assert ServerSound(st, last);
    }
    forall j | 0 <= j < |st.servers| ensures ServerSound(r, j) {
      assert ServerSound(st, j);
    }
  }

  // ---------------------------------------------------------------- the selection pass

  /** Sorting by priority puts the selected servers first, in their current order. */
  lemma {:induction false} SelectedComeFirst(st: State, order: seq<nat>, m: nat)
    requires Sound(st) && IsCandidateOrder(st, order) && m <= |st.selected|
    ensures m <= |order| && order[..m] == st.selected[..m]
  {
    if m > 0 {
      SelectedComeFirst(st, order, m - 1);
      var i := m - 1;
      forall l | 0 <= l < i ensures order[l] == st.selected[l] {
        assert order[..i][l] == st.selected[..i][l];
      }
      NextSelected(st, order, i);
      assert order[..m] == order[..i] + [order[i]];
      assert st.selected[..m] == st.selected[..i] + [st.selected[i]];
    }
  }

  lemma NextSelected(st: State, order: seq<nat>, i: nat)
    requires Sound(st) && IsCandidateOrder(st, order)
    requires i < |st.selected| && i <= |order|
    requires forall l :: 0 <= l < i ==> order[l] == st.selected[l]
    ensures i < |order| && order[i] == st.selected[i]
  {
    var s := st.selected[i];
    assert s in st.selected;
    assert ServerSound(st, s);
    var j :| 0 <= j < |order| && order[j] == s;
    assert i <= j;
    var t := order[i];
    assert t in order;
    assert ServerSound(st, t);
    assert st.servers[t].priority <= st.servers[s].priority;
    assert st.servers[s].priority <= st.servers[st.selected[|st.selected| - 1]].priority;
    assert t in st.selected;
    var l :| 0 <= l < |st.selected| && st.selected[l] == t;
    assert i <= l;
  }

  /** A candidate stays selected if it is connected already or its new connection is healthy. */
  predicate Survives(st0: State, k: nat, env: nat -> Outcome)
    requires k < |st0.servers|
  {
    st0.servers[k].isConnection || env(k) == Healthy
  }

  /** Where the selection loop leaves the server it meets at position i. */
  function Ranked(st0: State, k: nat, i: nat, env: nat -> Outcome): Server
    requires k < |st0.servers|
  {
    var s := BeginConnection(st0.servers[k], i, env(k));
    if Survives(st0, k, env) then s
    else EndConnection(s, i + |st0.servers|).(quarantined := true)
  }

  /** The positions that stay selected, in order. */
  ghost function Kept(st0: State, order: seq<nat>, m: nat, env: nat -> Outcome): (r: seq<nat>)
    requires m <= |order| && InRange(st0, order)
    ensures |r| <= m
    ensures forall i :: 0 <= i < |r| ==> r[i] < m
  {
    if m == 0 then []
    else
      var r := Kept(st0, order, m - 1, env);
      if Survives(st0, order[m - 1], env) then r + [m - 1] else r
  }

  lemma {:induction false} KeptProperties(st0: State, order: seq<nat>, m: nat, env: nat -> Outcome)
    requires m <= |order| && InRange(st0, order)
    ensures var r := Kept(st0, order, m, env);
            && (forall i, j :: 0 <= i < j < |r| ==> r[i] < r[j])
            && (forall p :: 0 <= p < m ==> (p in r <==> Survives(st0, order[p], env)))
  {
    if m > 0 {
      var last := m - 1;
      KeptProperties(st0, order, last, env);
      var before, r := Kept(st0, order, last, env), Kept(st0, order, m, env);
      forall p | 0 <= p < m ensures p in r <==> Survives(st0, order[p], env) {
        assert last !in before;
        if Survives(st0, order[last], env) { assert r == before + [last]; } else { assert r == before; }
      }
    }
  }

  ghost function At(order: seq<nat>, positions: seq<nat>): (r: seq<nat>)
    requires forall i :: 0 <= i < |positions| ==> positions[i] < |order|
    ensures |r| == |positions|
    ensures forall i :: 0 <= i < |r| ==> r[i] == order[positions[i]]
  {
    seq(|positions|, i requires 0 <= i < |positions| => order[positions[i]])
  }

  /** The effect of m iterations of the selection loop: on the servers, ... */
  ghost predicate ServersRanked(st0: State, order: seq<nat>, m: nat, env: nat -> Outcome, servers: seq<Server>)
    requires m <= |order| && InRange(st0, order)
  {
    && |servers| == |st0.servers|
    && (forall k :: 0 <= k < |servers| && k !in order[..m] ==> servers[k] == st0.servers[k])
    && (forall p :: 0 <= p < m ==> servers[order[p]] == Ranked(st0, order[p], p, env))
  }

  /** ... on the release timers, ... */
  ghost predicate FailuresTimed(st0: State, order: seq<nat>, m: nat, env: nat -> Outcome, releases: multiset<nat>)
    requires m <= |order| && InRange(st0, order)
  {
    && st0.releases <= releases
    && (forall p :: 0 <= p < m && !Survives(st0, order[p], env) ==> order[p] in releases)
    && (forall k :: k in releases ==> k in st0.releases || k in order)
  }

  /** ... and on the selected list and the pending reselection. */
  ghost predicate Selecting(st0: State, order: seq<nat>, m: nat, env: nat -> Outcome, st: State)
    requires m <= |order| && InRange(st0, order)
  {
    && st.maxConnections == st0.maxConnections
    && ServersRanked(st0, order, m, env, st.servers)
    && FailuresTimed(st0, order, m, env, st.releases)
    && st.selected == At(order, Kept(st0, order, m, env))
    && (st.reselectPending <==> st0.reselectPending || |Kept(st0, order, m, env)| < m)
  }

  lemma {:induction false} WithoutLast(sel: seq<nat>, k: nat)
    requires k !in sel
    ensures Without(sel + [k], k) == sel
  {
    if sel == [] {
      assert [k][1..] == [];
    } else {
      assert sel[0] in sel;
      assert (sel + [k])[1..] == sel[1..] + [k];
      WithoutLast(sel[1..], k);
    }
  }

  lemma NotYetSelected(st0: State, order: seq<nat>, m: nat, env: nat -> Outcome)
    requires InRange(st0, order) && Distinct(order) && m < |order|
    ensures order[m] !in At(order, Kept(st0, order, m, env))
    ensures order[m] !in order[..m]
    ensures At(order, Kept(st0, order, m + 1, env)) ==
            At(order, Kept(st0, order, m, env)) + (if Survives(st0, order[m], env) then [order[m]] else [])
  {
    var kept := Kept(st0, order, m, env);
    forall i | 0 <= i < |kept| ensures At(order, kept)[i] != order[m] {}
  }

  lemma RankOne(st0: State, order: seq<nat>, m: nat, env: nat -> Outcome, servers: seq<Server>)
    requires InRange(st0, order) && Distinct(order) && m < |order|
    requires ServersRanked(st0, order, m, env, servers)
    ensures ServersRanked(st0, order, m + 1, env, servers[order[m] := Ranked(st0, order[m], m, env)])
  {
    assert order[..m + 1] == order[..m] + [order[m]];
  }

  lemma TimeOne(st0: State, order: seq<nat>, m: nat, env: nat -> Outcome, releases: multiset<nat>)
    requires InRange(st0, order) && m < |order|
    requires FailuresTimed(st0, order, m, env, releases)
    ensures Survives(st0, order[m], env) ==> FailuresTimed(st0, order, m + 1, env, releases)
    ensures FailuresTimed(st0, order, m + 1, env, releases + multiset{order[m]})
  {
    assert order[m] in order;
  }

  /** One iteration in closed form, for a server not met before. */
  lemma SelectOneClosed(st0: State, st: State, k: nat, m: nat, env: nat -> Outcome)
    requires |st.servers| == |st0.servers| && k < |st0.servers|
    requires st.servers[k] == st0.servers[k] && k !in st.selected
    ensures SelectOne(st, k, m, env) ==
            var ok := Survives(st0, k, env);
            State(st.servers[k := Ranked(st0, k, m, env)],
                  st.selected + (if ok then [k] else []),
                  st.reselectPending || !ok,
                  if ok then st.releases else st.releases + multiset{k},
                  st.maxConnections)
  {
    WithoutLast(st.selected, k);
  }

  lemma SelectOneStep(
      st0: State, order: seq<nat>, m: nat, n: nat, env: nat -> Outcome, st: State, next: State)
    requires InRange(st0, order) && Distinct(order) && m < n == m + 1 <= |order|
    requires Selecting(st0, order, m, env, st) && next == SelectOne(st, order[m], m, env)
    ensures Selecting(st0, order, n, env, next)
  {
    NotYetSelected(st0, order, m, env);
    SelectOneClosed(st0, st, order[m], m, env);
    RankOne(st0, order, m, env, st.servers);
    TimeOne(st0, order, m, env, st.releases);
  }

  lemma NoneSelectedYet(st0: State, order: seq<nat>, env: nat -> Outcome, st: State)
    requires InRange(st0, order) && st == st0.(selected := [])
    ensures Selecting(st0, order, 0, env, st)
  {
    assert order[..0] == [];
  }

  lemma SelectFirstOne(
      st0: State, order: seq<nat>, m: nat, n: nat, env: nat -> Outcome, st: State, next: State)
    requires InRange(st0, order) && m < n == m + 1 <= |order|
    requires st == SelectFirst(st0, order, m, env) && next == SelectFirst(st0, order, n, env)
    ensures next == SelectOne(st, order[m], m, env)
  {
  }

  lemma {:induction false} SelectFirstSteps(
      st0: State, order: seq<nat>, m: nat, env: nat -> Outcome, st: State)
    requires InRange(st0, order) && Distinct(order) && m <= |order| && st == SelectFirst(st0, order, m, env)
    ensures Selecting(st0, order, m, env, st)
    decreases m
  {
    if m == 0 {
      NoneSelectedYet(st0, order, env, st);
    } else {
      var last := m - 1;
      var before := SelectFirst(st0, order, last, env);
      SelectFirstOne(st0, order, last, m, env, before, st);
      SelectFirstSteps(st0, order, last, env, before);
      SelectOneStep(st0, order, last, m, env, before, st);
    }
  }

  /** What ending the connections of order[from..m] has made of `st`. */
  ghost predicate EndedIn(st: State, r: State, order: seq<nat>, from: nat, m: nat)
    requires from <= m <= |order| && InRange(st, order)
  {
    && |r.servers| == |st.servers|
    && r == st.(servers := r.servers)
    && (forall i :: from <= i < m ==> r.servers[order[i]] == EndConnection(st.servers[order[i]], i))
    && (forall k :: 0 <= k < |st.servers| && k !in order[from..m] ==> r.servers[k] == st.servers[k])
  }

  lemma EndOneMore(st: State, r: State, order: seq<nat>, from: nat, m: nat, n: nat)
    requires from <= m < n == m + 1 <= |order| && InRange(st, order) && Distinct(order)
    requires EndedIn(st, r, order, from, m)
    ensures EndedIn(st, r.(servers := r.servers[order[m] := EndConnection(r.servers[order[m]], m)]), order, from, n)
  {
    var t := r.(servers := r.servers[order[m] := EndConnection(r.servers[order[m]], m)]);
    assert order[from..n] == order[from..m] + [order[m]];
    assert order[m] !in order[from..m];
    forall i | from <= i < n ensures t.servers[order[i]] == EndConnection(st.servers[order[i]], i) {
      assert i < m ==> order[i] != order[m];
    }
  }

  lemma {:induction false} EndRestEnds(st: State, order: seq<nat>, from: nat, m: nat)
    requires from <= m <= |order| && InRange(st, order) && Distinct(order)
    ensures EndedIn(st, EndRest(st, order, from, m), order, from, m)
  {
    if m > from {
      var last := m - 1;
      EndRestEnds(st, order, from, last);
      EndOneMore(st, EndRest(st, order, from, last), order, from, last, m);
    }
  }

  lemma EndRestEffect(st: State, order: seq<nat>, from: nat, m: nat)
    requires from <= m <= |order| && InRange(st, order) && Distinct(order)
    ensures EndRest(st, order, from, m) == st.(servers := EndRest(st, order, from, m).servers)
    ensures forall i :: from <= i < m ==>
              EndRest(st, order, from, m).servers[order[i]] == EndConnection(st.servers[order[i]], i)
    ensures forall k :: 0 <= k < |st.servers| && k !in order[from..m] ==>
              EndRest(st, order, from, m).servers[k] == st.servers[k]
  {
    EndRestEnds(st, order, from, m);
  }

  /** The effect of a whole pass: the first `count` candidates are ranked, the rest renumbered. */
  ghost predicate Pass(st0: State, order: seq<nat>, count: nat, env: nat -> Outcome, r: State)
    requires count <= |order| && InRange(st0, order)
  {
    && |r.servers| == |st0.servers| && r.maxConnections == st0.maxConnections
    && (forall k :: 0 <= k < |r.servers| && k !in order ==> r.servers[k] == st0.servers[k])
    && (forall p :: 0 <= p < |order| ==>
          r.servers[order[p]] ==
          if p < count then Ranked(st0, order[p], p, env) else EndConnection(st0.servers[order[p]], p))
    && FailuresTimed(st0, order, count, env, r.releases)
    && r.selected == At(order, Kept(st0, order, count, env))
    && (r.reselectPending <==> st0.reselectPending || |Kept(st0, order, count, env)| < count)
  }

  lemma PassAt(st0: State, order: seq<nat>, count: nat, env: nat -> Outcome, p: nat)
    requires InRange(st0, order) && Distinct(order) && count <= |order| && p < |order|
    ensures var r := EndRest(SelectFirst(st0, order, count, env), order, count, |order|);
            r.servers[order[p]] ==
            if p < count then Ranked(st0, order[p], p, env) else EndConnection(st0.servers[order[p]], p)
  {
    SelectFirstSteps(st0, order, count, env, SelectFirst(st0, order, count, env));
    EndRestEffect(SelectFirst(st0, order, count, env), order, count, |order|);
    if p < count {
      assert order[p] !in order[count..|order|];
    } else {
      assert order[p] !in order[..count];
    }
  }

  lemma PassEffect(st0: State, order: seq<nat>, count: nat, env: nat -> Outcome)
    requires InRange(st0, order) && Distinct(order) && count <= |order|
    ensures Pass(st0, order, count, env, EndRest(SelectFirst(st0, order, count, env), order, count, |order|))
  {
    SelectFirstSteps(st0, order, count, env, SelectFirst(st0, order, count, env));
    var mid := SelectFirst(st0, order, count, env);
    EndRestEffect(mid, order, count, |order|);
    var r := EndRest(mid, order, count, |order|);
    forall p | 0 <= p < |order|
      ensures r.servers[order[p]] ==
              if p < count then Ranked(st0, order[p], p, env) else EndConnection(st0.servers[order[p]], p)
    {
      PassAt(st0, order, count, env, p);
    }
    forall k | 0 <= k < |st0.servers| && k !in order ensures r.servers[k] == st0.servers[k] {
      assert k !in order[..count] && k !in order[count..|order|];
    }
  }

  /** The selected servers are the first candidates, so a pass keeps them all. */
  lemma SelectedAreKept(st: State, order: seq<nat>, count: nat, env: nat -> Outcome)
    requires Sound(st) && IsCandidateOrder(st, order) && |st.selected| <= count <= |order|
    ensures st.selected <= At(order, Kept(st, order, count, env))
    ensures forall i :: 0 <= i < |st.selected| ==> order[i] == st.selected[i] && st.servers[order[i]].isConnection
    ensures forall i :: |st.selected| <= i < |order| ==> !st.servers[order[i]].isConnection
    decreases count
  {
    var n := |st.selected|;
    SelectedComeFirst(st, order, n);
    forall i | 0 <= i < n ensures order[i] == st.selected[i] && st.servers[order[i]].isConnection {
      assert order[..n][i] == st.selected[..n][i];
      assert st.selected[i] in st.selected;
      assert ServerSound(st, order[i]);
    }
    forall i | n <= i < |order| ensures !st.servers[order[i]].isConnection {
      assert ServerSound(st, order[i]);
      forall l | 0 <= l < n ensures st.selected[l] != order[i] {
        assert order[l] == st.selected[l];
      }
    }
    KeptPrefix(st, order, count, env, n);
    var kept := Kept(st, order, count, env);
    forall i | 0 <= i < n ensures At(order, kept)[i] == st.selected[i] {
      assert kept[i] == i;
    }
  }

  lemma {:induction false} KeptPrefix(st: State, order: seq<nat>, count: nat, env: nat -> Outcome, n: nat)
    requires n <= count <= |order| && InRange(st, order)
    requires forall i :: 0 <= i < n ==> st.servers[order[i]].isConnection
    ensures |Kept(st, order, count, env)| >= n
    ensures forall i :: 0 <= i < n ==> Kept(st, order, count, env)[i] == i
    decreases count
  {
    if count > 0 {
      var before := Kept(st, order, count - 1, env);
      if count > n {
        KeptPrefix(st, order, count - 1, env, n);
        assert before <= Kept(st, order, count, env);
      } else {
        KeptPrefix(st, order, count - 1, env, n - 1);
        assert Survives(st, order[n - 1], env);
        assert Kept(st, order, count, env) == before + [n - 1];
      }
    }
  }

  /** After a pass the selected list is sorted, because each member's rank is its position. */
  lemma PassSorted(st0: State, order: seq<nat>, count: nat, env: nat -> Outcome, r: State)
    requires count <= |order| && InRange(st0, order)
    requires Pass(st0, order, count, env, r)
    ensures SelectedSorted(r)
    ensures |r.selected| <= count
    ensures forall i :: 0 <= i < |r.selected| ==> r.servers[r.selected[i]].priority < count
  {
    var kept := Kept(st0, order, count, env);
    KeptProperties(st0, order, count, env);
    forall i | 0 <= i < |r.selected|
      ensures r.selected[i] < |r.servers| && r.servers[r.selected[i]].priority == kept[i]
    {
      assert kept[i] in kept;
      assert r.selected[i] == order[kept[i]];
    }
  }

  /** Position p stays selected exactly if it survives. */
  lemma PassSelected(st0: State, order: seq<nat>, count: nat, env: nat -> Outcome, r: State, p: nat)
    requires InRange(st0, order) && Distinct(order) && count <= |order| && p < |order|
    requires r.selected == At(order, Kept(st0, order, count, env))
    ensures order[p] in r.selected <==> p < count && Survives(st0, order[p], env)
  {
    var kept := Kept(st0, order, count, env);
    KeptProperties(st0, order, count, env);
    if order[p] in r.selected {
      var i :| 0 <= i < |kept| && r.selected[i] == order[p];
      assert kept[i] == p;
      assert p in kept;
    }
    if p < count && Survives(st0, order[p], env) {
      assert p in kept;
      var i :| 0 <= i < |kept| && kept[i] == p;
      assert r.selected[i] == order[p];
    }
  }

  lemma PassServerSound(st0: State, order: seq<nat>, count: nat, env: nat -> Outcome, r: State, k: nat)
    requires SelectedSorted(st0) && k < |st0.servers| && ServerSound(st0, k)
    requires IsCandidateOrder(st0, order) && count <= |order| && count <= st0.maxConnections && |order| <= |st0.servers|
    requires forall i :: count <= i < |order| ==> !st0.servers[order[i]].isConnection
    requires Pass(st0, order, count, env, r) && SelectedSorted(r)
    requires forall i :: 0 <= i < |r.selected| ==> r.servers[r.selected[i]].priority < count
    ensures ServerSound(r, k)
  {
    if k in order {
      var p :| 0 <= p < |order| && order[p] == k;
      PassSelected(st0, order, count, env, r, p);
      RankedSound(st0, order, count, env, r, p);
    } else {
      assert k !in r.selected;
    }
  }

  lemma RankedSound(st0: State, order: seq<nat>, count: nat, env: nat -> Outcome, r: State, p: nat)
    requires SelectedSorted(st0) && InRange(st0, order) && p < |order| && ServerSound(st0, order[p])
    requires !st0.servers[order[p]].quarantined
    requires count <= |order| && count <= st0.maxConnections && |order| <= |st0.servers|
    requires count <= p ==> !st0.servers[order[p]].isConnection
    requires Pass(st0, order, count, env, r) && SelectedSorted(r)
    requires forall i :: 0 <= i < |r.selected| ==> r.servers[r.selected[i]].priority < count
    requires order[p] in r.selected <==> p < count && Survives(st0, order[p], env)
    ensures ServerSound(r, order[p])
  {
    assert p < count && !Survives(st0, order[p], env) ==> order[p] in r.releases;
  }

  lemma DistinctSize(order: seq<nat>, s: set<nat>)
    requires Distinct(order)
    requires forall k :: k in s <==> k in order
    ensures |order| == |s|
  {
    if order == [] {
      assert s == {};
    } else {
      var k := order[|order| - 1];
      var front := order[..|order| - 1];
      assert order == front + [k];
      DistinctSize(front, s - {k});
    }
  }

  lemma {:induction false} SizeBelow(s: set<nat>, n: nat)
    requires forall k :: k in s ==> k < n
    ensures |s| <= n
  {
    if n == 0 {
      assert s == {};
    } else {
      SizeBelow(s - {n - 1}, n - 1);
    }
  }

  lemma CandidateCount(st: State, order: seq<nat>)
    requires IsCandidateOrder(st, order)
    ensures |order| == |Candidates(st)| <= |st.servers|
  {
    forall k | k in order ensures k in Candidates(st) {
      var i :| 0 <= i < |order| && order[i] == k;
    }
    DistinctSize(order, Candidates(st));
    SizeBelow(Candidates(st), |st.servers|);
  }

  lemma PassFull(st0: State, order: seq<nat>, count: nat, env: nat -> Outcome, r: State)
    requires IsCandidateOrder(st0, order) && count == Min(|order|, st0.maxConnections)
    requires Pass(st0, order, count, env, r) && !r.reselectPending
    ensures Full(r)
  {
    var kept := Kept(st0, order, count, env);
    forall p | 0 <= p < count ensures Survives(st0, order[p], env) {
      AllKept(st0, order, count, env, p);
    }
    forall k: nat | k < |st0.servers| ensures r.servers[k].quarantined == st0.servers[k].quarantined {
      if k in order {
        var p :| 0 <= p < |order| && order[p] == k;
      }
    }
    assert Candidates(r) == Candidates(st0);
    CandidateCount(st0, order);
  }

  lemma {:induction false} AllKept(st: State, order: seq<nat>, m: nat, env: nat -> Outcome, p: nat)
    requires p < m <= |order| && InRange(st, order)
    requires |Kept(st, order, m, env)| == m
    ensures Survives(st, order[p], env)
    decreases m
  {
    if p < m - 1 {
      AllKept(st, order, m - 1, env, p);
    }
  }

  /** A selection pass establishes the invariant, keeps the selected servers as a prefix
      and leaves their connections alone. */
  lemma SelectServersEffect(st: State, order: seq<nat>, env: nat -> Outcome)
    requires Sound(st) && IsCandidateOrder(st, order)
    requires |st.selected| < Min(|order|, st.maxConnections)
    ensures Inv(SelectServers(st, order, env))
    ensures st.selected <= SelectServers(st, order, env).selected
    ensures forall i :: 0 <= i < |st.selected| ==>
              SelectServers(st, order, env).servers[st.selected[i]] == st.servers[st.selected[i]].(priority := i)
  {
    var count := Min(|order|, st.maxConnections);
    var r := SelectServers(st, order, env);
    PassEffect(st, order, count, env);
    PassSorted(st, order, count, env, r);
    SelectedAreKept(st, order, count, env);
    PassIsSound(st, order, env);
    if !r.reselectPending {
      PassFull(st, order, count, env, r);
    }
  }

  lemma PassIsSound(st: State, order: seq<nat>, env: nat -> Outcome)
    requires Sound(st) && IsCandidateOrder(st, order)
    requires |st.selected| < Min(|order|, st.maxConnections)
    ensures Sound(SelectServers(st, order, env))
  {
    var count := Min(|order|, st.maxConnections);
    var r := SelectServers(st, order, env);
    PassEffect(st, order, count, env);
    PassSorted(st, order, count, env, r);
    CandidateCount(st, order);
    SelectedAreKept(st, order, count, env);
    forall k | 0 <= k < |st.servers| ensures ServerSound(r, k) {
      assert ServerSound(st, k);
      PassServerSound(st, order, count, env, r, k);
    }
  }

  lemma InitServersInv(st: State, order: seq<nat>, env: nat -> Outcome)
    requires Sound(st) && IsCandidateOrder(st, order)
    ensures Inv(InitServers(st, order, env))
  {
    if |st.selected| < Min(|order|, st.maxConnections) {
      SelectServersEffect(st, order, env);
    } else {
      CandidateCount(st, order);
      SelectedComeFirst(st, order, |st.selected|);
    }
  }

  // ---------------------------------------------------------------- theorems over runs

  /** A reselect of a selection that is full changes nothing but its own flag. */
  lemma FullReselectIsIdle(st: State, order: seq<nat>, env: nat -> Outcome, st': State)
    requires Full(st) && Next(st, Reselect(order, env), st')
    ensures st' == st.(reselectPending := false)
  {
    CandidateCount(st, order);
  }

  lemma FreshIsSound(n: nat, maxConnections: nat)
    ensures Sound(Fresh(n, maxConnections))
  {
    var st := Fresh(n, maxConnections);
    assert SelectedSorted(st);
    forall k | 0 <= k < n ensures ServerSound(st, k) {}
  }

  lemma PendingIsIrrelevant(st: State)
    requires Sound(st)
    ensures Sound(st.(reselectPending := false))
  {
    var st1 := st.(reselectPending := false);
    assert SelectedSorted(st1);
    forall k | 0 <= k < |st.servers| ensures ServerSound(st1, k) {
      assert ServerSound(st, k);
    }
  }

  lemma NextKeepsInv(st: State, a: Action, st': State)
    requires Inv(st) && Next(st, a, st')
    ensures Inv(st')
  {
    match a
    case LinkError(k) => LinkErrorKeepsInv(st, k);
    case Release(k) => ReleaseKeepsInv(st, k);
    case Reselect(order, env) =>
      PendingIsIrrelevant(st);
      InitServersInv(st.(reselectPending := false), order, env);
  }

  /** Every state of every run satisfies the invariant, whatever the interleaving and
      whichever new connections fail at once. */
  lemma {:induction false} EveryReachableStateIsInv(
      n: nat, maxConnections: nat, order: seq<nat>, env: nat -> Outcome, run: seq<State>, acts: seq<Action>, i: nat)
    requires IsRun(n, maxConnections, order, env, run, acts) && i < |run|
    ensures Inv(run[i])
  {
    if i == 0 {
      FreshIsSound(n, maxConnections);
      InitServersInv(Fresh(n, maxConnections), order, env);
    } else {
      EveryReachableStateIsInv(n, maxConnections, order, env, run, acts, i - 1);
      assert Next(run[i - 1], acts[i - 1], run[i - 1 + 1]);
      NextKeepsInv(run[i - 1], acts[i - 1], run[i]);
    }
  }

  /** A reselection never drops, reorders or reconnects a healthy selected server. */
  lemma ReselectKeepsHealthyServers(st: State, order: seq<nat>, env: nat -> Outcome, st': State)
    requires Inv(st) && Next(st, Reselect(order, env), st')
    ensures st.selected <= st'.selected
    ensures forall i :: 0 <= i < |st.selected| ==>
              var s, s' := st.servers[st.selected[i]], st'.servers[st.selected[i]];
              s'.generation == s.generation && s'.isConnection && s'.hasClient && !s'.quarantined
  {
    forall i | 0 <= i < |st.selected| ensures ServerSound(st, st.selected[i]) && st.selected[i] in st.selected {}
    var st1 := st.(reselectPending := false);
    PendingIsIrrelevant(st);
    if |st1.selected| < Min(|order|, st1.maxConnections) {
      SelectServersEffect(st1, order, env);
    }
  }

  // ---------------------------------------------------------------- convergence

  ghost predicate AllHealthy(env: nat -> Outcome) {
    forall k: nat :: env(k) == Healthy
  }

  /** A step without failures: no link error, and every new connection comes up healthy. */
  ghost predicate CalmStep(st: State, a: Action, st': State) {
    Next(st, a, st') && !a.LinkError? && (a.Reselect? ==> AllHealthy(a.env))
  }

  /** The number of tasks still to run: a release schedules one reselection. */
  function Work(st: State): nat {
    2 * |st.releases| + (if st.reselectPending then 1 else 0)
  }

  ghost predicate Converged(st: State) {
    && (forall k :: 0 <= k < |st.servers| ==> !st.servers[k].quarantined)
    && |st.selected| == Min(|st.servers|, st.maxConnections)
  }

  ghost predicate IsCalmRun(run: seq<State>, acts: seq<Action>) {
    && |run| == |acts| + 1
    && Inv(run[0])
    && forall i :: 0 <= i < |acts| ==> CalmStep(run[i], acts[i], run[i + 1])
  }

  lemma {:induction false} HealthySelectFirst(st: State, order: seq<nat>, m: nat, env: nat -> Outcome)
    requires m <= |order| && InRange(st, order) && AllHealthy(env)
    ensures SelectFirst(st, order, m, env).releases == st.releases
    ensures SelectFirst(st, order, m, env).reselectPending == st.reselectPending
  {
    if m > 0 {
      HealthySelectFirst(st, order, m - 1, env);
    }
  }

  /** Each calm step uses up work, and keeps the invariant. */
  lemma CalmStepUsesWork(st: State, a: Action, st': State)
    requires Inv(st) && CalmStep(st, a, st')
    ensures Inv(st') && Work(st') < Work(st)
  {
    NextKeepsInv(st, a, st');
    if a.Reselect? {
      var st1 := st.(reselectPending := false);
      if |st1.selected| < Min(|a.order|, st1.maxConnections) {
        var count := Min(|a.order|, st1.maxConnections);
        HealthySelectFirst(st1, a.order, count, a.env);
        EndRestEffect(SelectFirst(st1, a.order, count, a.env), a.order, count, |a.order|);
      }
    }
  }

  lemma {:induction false} FullRange(s: set<nat>, n: nat)
    requires forall k: nat :: k in s <==> k < n
    ensures |s| == n
  {
    if n == 0 {
      assert s == {};
    } else {
      FullRange(s - {n - 1}, n - 1);
    }
  }

  /** When no task is left the cloud has converged. */
  lemma IdleIsConverged(st: State)
    requires Inv(st) && Work(st) == 0
    ensures Converged(st)
  {
    forall k | 0 <= k < |st.servers| ensures !st.servers[k].quarantined {
      assert ServerSound(st, k);
      assert k !in st.releases;
    }
    FullRange(Candidates(st), |st.servers|);
  }

  /** Inserting k into a list sorted by priority. */
  function Insert(st: State, order: seq<nat>, k: nat): seq<nat>
    requires k < |st.servers| && forall i :: 0 <= i < |order| ==> order[i] < |st.servers|
  {
    if order == [] then [k]
    else if st.servers[k].priority < st.servers[order[0]].priority then [k] + order
    else [order[0]] + Insert(st, order[1..], k)
  }

  lemma {:induction false} InsertMembers(st: State, order: seq<nat>, k: nat)
    requires k < |st.servers| && InRange(st, order)
    ensures InRange(st, Insert(st, order, k))
    ensures forall x :: x in Insert(st, order, k) <==> x == k || x in order
  {
    if order != [] && !(st.servers[k].priority < st.servers[order[0]].priority) {
      assert forall x :: x in order <==> x == order[0] || x in order[1..];
      InsertMembers(st, order[1..], k);
    }
  }

  ghost predicate SortedByPriority(st: State, order: seq<nat>)
    requires InRange(st, order)
  {
    forall i, j :: 0 <= i < j < |order| ==> st.servers[order[i]].priority <= st.servers[order[j]].priority
  }

  /** A server that ranks before all others, in front of them. */
  lemma InFront(st: State, k: nat, order: seq<nat>)
    requires k < |st.servers| && InRange(st, order) && Distinct(order) && SortedByPriority(st, order)
    requires forall x :: x in order && x < |st.servers| ==>
               x != k && st.servers[k].priority <= st.servers[x].priority
    ensures InRange(st, [k] + order) && Distinct([k] + order) && SortedByPriority(st, [k] + order)
  {
    var all := [k] + order;
    forall i, j | 0 <= i < j < |all|
      ensures all[i] != all[j] && st.servers[all[i]].priority <= st.servers[all[j]].priority
    {
      assert all[j] == order[j - 1] && order[j - 1] in order;
    }
  }

  /** The first of a sorted list ranks before the rest of it. */
  lemma FirstRanksFirst(st: State, order: seq<nat>, x: nat)
    requires InRange(st, order) && Distinct(order) && SortedByPriority(st, order)
    requires order != [] && x in order[1..]
    ensures x in order && x < |st.servers| && x != order[0]
    ensures st.servers[order[0]].priority <= st.servers[x].priority
  {
    var l :| 0 <= l < |order[1..]| && order[1..][l] == x;
    assert order[l + 1] == x;
  }

  lemma {:induction false} InsertProperties(st: State, order: seq<nat>, k: nat)
    requires k < |st.servers| && InRange(st, order) && Distinct(order) && k !in order
    requires SortedByPriority(st, order)
    ensures InRange(st, Insert(st, order, k)) && Distinct(Insert(st, order, k))
    ensures SortedByPriority(st, Insert(st, order, k))
  {
    if order == [] {
      InFront(st, k, []);
      assert [k] + [] == [k];
    } else {
      var first, rest := order[0], order[1..];
      forall x | x in rest
        ensures x in order && x < |st.servers| && x != first
        ensures st.servers[first].priority <= st.servers[x].priority
      {
        FirstRanksFirst(st, order, x);
      }
      assert forall x :: x in order <==> x == first || x in rest;
      if st.servers[k].priority < st.servers[first].priority {
        InFront(st, k, order);
      } else {
        InsertProperties(st, rest, k);
        InsertMembers(st, rest, k);
        InFront(st, first, Insert(st, rest, k));
      }
    }
  }

  /** The candidates among the first n servers, by priority. */
  function SortedCandidates(st: State, n: nat): (order: seq<nat>)
    requires n <= |st.servers|
    ensures InRange(st, order) && Distinct(order) && SortedByPriority(st, order)
    ensures forall k :: 0 <= k < |st.servers| ==> (k in order <==> k < n && !st.servers[k].quarantined)
  {
    if n == 0 then []
    else
      var order := SortedCandidates(st, n - 1);
      if st.servers[n - 1].quarantined then order
      else
        InsertProperties(st, order, n - 1);
        InsertMembers(st, order, n - 1);
        Insert(st, order, n - 1)
  }

  /** Nothing can block the drain: while work is left, a calm step is possible. */
  lemma WorkLeftCanProceed(st: State) returns (a: Action, st': State)
    requires Inv(st) && Work(st) > 0
    ensures CalmStep(st, a, st')
  {
    if st.reselectPending {
      var order := SortedCandidates(st, |st.servers|);
      a := Reselect(order, (_: nat) => Healthy);
      st' := InitServers(st.(reselectPending := false), order, a.env);
    } else {
      var k :| k in st.releases;
      a := Release(k);
      st' := ReleaseServer(st, k);
    }
  }

  /** Once failures stop, at most Work(run[0]) tasks run; a run that cannot be continued has converged. */
  lemma {:induction false} CalmRunsConverge(run: seq<State>, acts: seq<Action>)
    requires IsCalmRun(run, acts)
    ensures Inv(run[|acts|])
    ensures |acts| + Work(run[|acts|]) <= Work(run[0])
    ensures Work(run[|acts|]) == 0 ==> Converged(run[|acts|])
    ensures Work(run[|acts|]) > 0 ==> exists a, st' :: CalmStep(run[|acts|], a, st')
  {
    var n := |acts|;
    if n > 0 {
      assert CalmStep(run[n - 1], acts[n - 1], run[n - 1 + 1]);
      CalmRunsConverge(run[..n], acts[..n - 1]);
      CalmStepUsesWork(run[n - 1], acts[n - 1], run[n]);
    }
    if Work(run[n]) == 0 {
      IdleIsConverged(run[n]);
    } else {
      var a, st' := WorkLeftCanProceed(run[n]);
    }
  }
}

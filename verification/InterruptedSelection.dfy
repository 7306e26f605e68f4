/**
 Link errors of other servers that come while the selection loop creates a connection.  Whether the
 invariant survives them depends on whom they hit: the loop does not look again at the quarantine
 of the candidates it has still to take.
 */
module InterruptedSelection {
  import opened ServerSelection

  /** A pass from `st`; `errs(k)` are the servers whose link errors come while the connection of
      server k is being created. */
  datatype Pass = Pass(st: State, order: seq<nat>, env: nat -> Outcome, errs: nat -> seq<nat>)

  function Hits(st: State, ks: seq<nat>): (r: State)
    requires forall i :: 0 <= i < |ks| ==> ks[i] < |st.servers|
    ensures |r.servers| == |st.servers|
    decreases |ks|
  {
    if ks == [] then st else Hits(BadServer(st, ks[0]), ks[1..])
  }

  /** One iteration of the selection loop with the errors that interrupt it. */
  function SelectOneWith(st: State, k: nat, priority: nat, env: nat -> Outcome, errs: seq<nat>): (r: State)
    requires k < |st.servers| && forall i :: 0 <= i < |errs| ==> errs[i] < |st.servers|
    ensures |r.servers| == |st.servers|
  {
    var s := st.servers[k];
    var begun := st.(selected := st.selected + [k], servers := st.servers[k := BeginConnection(s, priority, env(k))]);
    if s.isConnection then begun
    else
      var hit := Hits(begun, errs);
      if env(k) != Healthy then BadServer(hit, k) else hit
  }

  ghost predicate InRangeErrs(d: Pass) {
    forall k: nat, j :: 0 <= j < |d.errs(k)| ==> d.errs(k)[j] < |d.st.servers|
  }

  ghost function SelectFirstWith(d: Pass, m: nat): (r: State)
    requires m <= |d.order| && InRange(d.st, d.order) && InRangeErrs(d)
    ensures |r.servers| == |d.st.servers|
  {
    if m == 0 then d.st.(selected := [])
    else SelectOneWith(SelectFirstWith(d, m - 1), d.order[m - 1], m - 1, d.env, d.errs(d.order[m - 1]))
  }

  ghost function Count(d: Pass): nat {
    Min(|d.order|, d.st.maxConnections)
  }

  ghost function SelectServersWith(d: Pass): State
    requires InRange(d.st, d.order) && InRangeErrs(d)
  {
    EndRest(SelectFirstWith(d, Count(d)), d.order, Count(d), |d.order|)
  }

  /** A pass that InitServers may make: candidates in order, and a server whose connection is being
      created is not watched meanwhile. */
  ghost predicate Feasible(d: Pass) {
    && IsCandidateOrder(d.st, d.order) && InRangeErrs(d)
    && forall k: nat :: k !in d.errs(k)
  }

  ghost predicate Proper(d: Pass) {
    Sound(d.st) && Feasible(d)
  }

  // ---------------------------------------------------------------- who is hit when

  /** Server k is hit while one of the positions from p to m - 1 is being taken. */
  predicate HitFrom(d: Pass, p: nat, m: nat, k: nat)
    requires m <= |d.order| && InRange(d.st, d.order)
    decreases m, 0
  {
    p < m && (HitFrom(d, p, m - 1, k) || (Begins(d, m - 1) && k in d.errs(d.order[m - 1])))
  }

  /** Position i begins a new connection: it had none, or has lost it in this pass. */
  predicate Begins(d: Pass, i: nat)
    requires i < |d.order| && InRange(d.st, d.order)
    decreases i, 1
  {
    !d.st.servers[d.order[i]].isConnection || HitFrom(d, 0, i, d.order[i])
  }

  /** Position p, once taken, is still selected when the loop has come to m. */
  predicate Survives(d: Pass, p: nat, m: nat)
    requires p < m <= |d.order| && InRange(d.st, d.order)
  {
    (Begins(d, p) ==> d.env(d.order[p]) == Healthy) && !HitFrom(d, p, m, d.order[p])
  }

  /** The condition: no server that is hit before its turn survives its turn. */
  ghost predicate Clean(d: Pass)
    requires InRange(d.st, d.order)
  {
    forall p :: 0 <= p < Count(d) ==> !(HitFrom(d, 0, p, d.order[p]) && Survives(d, p, Count(d)))
  }

  // ---------------------------------------------------------------- a series of errors

  /** What the errors do to the rest of the state. */
  lemma {:induction false} HitsEffect(st: State, ks: seq<nat>)
    requires SelectedSorted(st) && forall i :: 0 <= i < |ks| ==> ks[i] < |st.servers|
    ensures var r := Hits(st, ks);
            && SelectedSorted(r) && |r.selected| <= |st.selected| && r.maxConnections == st.maxConnections
            && (forall x :: x in r.selected <==> x in st.selected && x !in ks)
            && (forall x :: x in r.releases <==> x in st.releases || x in ks)
            && (st.reselectPending || ks != [] ==> r.reselectPending)
    decreases |ks|
  {
    if ks != [] {
      BadServerSelected(st, ks[0]);
      HitsEffect(BadServer(st, ks[0]), ks[1..]);
      assert forall x :: x in ks <==> x == ks[0] || x in ks[1..];
    }
  }

  /** What they do to one server. */
  lemma {:induction false} HitsServer(st: State, ks: seq<nat>, k: nat)
    requires k < |st.servers| && forall i :: 0 <= i < |ks| ==> ks[i] < |st.servers|
    ensures var s, s' := st.servers[k], Hits(st, ks).servers[k];
            if k !in ks then s' == s
            else s'.quarantined && !s'.isConnection && s'.priority >= s.priority + |st.servers|
    decreases |ks|
  {
    if ks != [] {
      HitsServer(BadServer(st, ks[0]), ks[1..], k);
      assert k in ks <==> k == ks[0] || k in ks[1..];
    }
  }

  // ---------------------------------------------------------------- the loop invariant

  /** A position the loop has taken. */
  ghost predicate Taken(d: Pass, st: State, m: nat, p: nat)
    requires p < m <= |d.order| && InRange(d.st, d.order) && |st.servers| == |d.st.servers|
  {
    var k := d.order[p];
    var s := st.servers[k];
    && (s.isConnection <==> Survives(d, p, m)) && (k in st.selected <==> Survives(d, p, m))
    && (s.quarantined <==> HitFrom(d, 0, p, k) || !Survives(d, p, m))
    && (s.quarantined ==> k in st.releases)
    && (if Survives(d, p, m) then s.priority == p && s.hasClient else s.priority >= |st.servers|)
  }

  /** A position it has still to take. */
  ghost predicate Waiting(d: Pass, st: State, m: nat, p: nat)
    requires m <= p < |d.order| && InRange(d.st, d.order) && |st.servers| == |d.st.servers|
  {
    var k := d.order[p];
    var s := st.servers[k];
    && k !in st.selected
    && if HitFrom(d, 0, m, k) then s.quarantined && !s.isConnection && k in st.releases && s.priority >= |st.servers|
       else s == d.st.servers[k]
  }

  /** A server that is no candidate. */
  ghost predicate Outside(d: Pass, st: State, k: nat)
    requires k < |st.servers| && |st.servers| == |d.st.servers|
  {
    var s := st.servers[k];
    && k !in st.selected && s.quarantined && !s.isConnection && k in st.releases
    && s.priority >= Min(|st.servers|, st.maxConnections)
  }

  ghost predicate NoneHit(d: Pass, m: nat)
    requires m <= |d.order| && InRange(d.st, d.order)
  {
    forall k :: !HitFrom(d, 0, m, k)
  }

  ghost predicate LoopInv(d: Pass, st: State, m: nat)
    requires m <= |d.order| && InRange(d.st, d.order) && |st.servers| == |d.st.servers|
  {
    && SelectedSorted(st) && |st.selected| <= m && st.maxConnections == d.st.maxConnections
    && (forall k :: k in st.releases ==> k < |st.servers|)
    && (forall p :: 0 <= p < m ==> Taken(d, st, m, p))
    && (forall p :: m <= p < |d.order| ==> Waiting(d, st, m, p))
    && (forall k :: 0 <= k < |st.servers| && k !in d.order ==> Outside(d, st, k))
    && (forall k :: k in st.selected ==> exists p :: 0 <= p < m && d.order[p] == k)
    && (!st.reselectPending ==> |st.selected| == m && NoneHit(d, m))
  }

  lemma LoopStart(d: Pass)
    requires Proper(d)
    ensures LoopInv(d, d.st.(selected := []), 0)
  {
    var st := d.st.(selected := []);
    forall k | 0 <= k < |st.servers| && k !in d.order ensures Outside(d, st, k) {
      assert ServerSound(d.st, k);
    }
  }

  /** The state right after a position was pushed and its connection begun. */
  function Begun(d: Pass, st: State, m: nat): State
    requires m < |d.order| && d.order[m] < |st.servers|
  {
    var k := d.order[m];
    st.(selected := st.selected + [k], servers := st.servers[k := BeginConnection(st.servers[k], m, d.env(k))])
  }

  lemma BegunSorted(d: Pass, st: State, m: nat)
    requires Proper(d) && m < |d.order| && |st.servers| == |d.st.servers| && LoopInv(d, st, m)
    ensures SelectedSorted(Begun(d, st, m)) && d.order[m] !in st.selected
    ensures st.servers[d.order[m]].isConnection <==> !Begins(d, m)
  {
    var r, k := Begun(d, st, m), d.order[m];
    assert Waiting(d, st, m, m);
    assert ServerSound(d.st, k);
    forall i | 0 <= i < |st.selected| ensures st.selected[i] != k && r.servers[st.selected[i]].priority < m {
      var x := st.selected[i];
      assert x in st.selected;
      var p :| 0 <= p < m && d.order[p] == x;
      assert Taken(d, st, m, p);
    }
  }

  /** The errors that interrupt position m. */
  function Errors(d: Pass, m: nat): seq<nat>
    requires m < |d.order| && InRange(d.st, d.order)
  {
    if Begins(d, m) then d.errs(d.order[m]) else []
  }

  /** The state after the errors, and the one after the new connection was looked at. */
  ghost function Interrupted(d: Pass, st: State, m: nat): (r: State)
    requires m < |d.order| && InRange(d.st, d.order) && InRangeErrs(d) && |st.servers| == |d.st.servers|
    ensures |r.servers| == |st.servers|
  {
    Hits(Begun(d, st, m), Errors(d, m))
  }

  ghost function Looked(d: Pass, st: State, m: nat): (r: State)
    requires m < |d.order| && InRange(d.st, d.order) && InRangeErrs(d) && |st.servers| == |d.st.servers|
    ensures |r.servers| == |st.servers|
  {
    var k := d.order[m];
    if Begins(d, m) && d.env(k) != Healthy then BadServer(Interrupted(d, st, m), k) else Interrupted(d, st, m)
  }

  lemma IsLooked(d: Pass, st: State, m: nat)
    requires Proper(d) && m < |d.order| && |st.servers| == |d.st.servers| && LoopInv(d, st, m)
    ensures SelectOneWith(st, d.order[m], m, d.env, d.errs(d.order[m])) == Looked(d, st, m)
  {
    BegunSorted(d, st, m);
  }

  /** The rest of the state after an iteration. */
  lemma LookedRest(d: Pass, st: State, m: nat)
    requires Proper(d) && m < |d.order| && |st.servers| == |d.st.servers| && LoopInv(d, st, m)
    ensures var r, k, errs := Looked(d, st, m), d.order[m], Errors(d, m);
            var bad := Begins(d, m) && d.env(k) != Healthy;
            && SelectedSorted(r) && |r.selected| <= |st.selected| + 1 && r.maxConnections == st.maxConnections
            && (forall x :: x in r.selected <==> (x in st.selected && x !in errs) || (x == k && !bad))
            && (forall x :: x in r.releases <==> x in st.releases || x in errs || (x == k && bad))
            && (st.reselectPending || errs != [] || bad ==> r.reselectPending)
            && (errs == [] && !bad ==> r == Begun(d, st, m))
  {
    var k := d.order[m];
    BegunSorted(d, st, m);
    HitsEffect(Begun(d, st, m), Errors(d, m));
    if Begins(d, m) && d.env(k) != Healthy { BadServerSelected(Interrupted(d, st, m), k); }
  }

  /** A server other than the one taken is changed only by an error. */
  lemma LookedOther(d: Pass, st: State, m: nat, k: nat)
    requires Proper(d) && m < |d.order| && |st.servers| == |d.st.servers| && LoopInv(d, st, m)
    requires k < |st.servers| && k != d.order[m]
    ensures var s, s' := st.servers[k], Looked(d, st, m).servers[k];
            if k !in Errors(d, m) then s' == s
            else s'.quarantined && !s'.isConnection && s'.priority >= |st.servers|
  {
    HitsServer(Begun(d, st, m), Errors(d, m), k);
  }

  lemma TakenStep(d: Pass, st: State, m: nat, p: nat)
    requires Proper(d) && p < m < |d.order| && |st.servers| == |d.st.servers| && LoopInv(d, st, m)
    ensures Taken(d, Looked(d, st, m), m + 1, p)
  {
    assert Taken(d, st, m, p);
    LookedOther(d, st, m, d.order[p]);
    LookedRest(d, st, m);
  }

  lemma TakenNow(d: Pass, st: State, m: nat)
    requires Proper(d) && m < |d.order| && |st.servers| == |d.st.servers| && LoopInv(d, st, m)
    ensures Taken(d, Looked(d, st, m), m + 1, m)
  {
    var k := d.order[m];
    assert Waiting(d, st, m, m);
    assert ServerSound(d.st, k);
    assert k in d.order;
    BegunSorted(d, st, m);
    HitsServer(Begun(d, st, m), Errors(d, m), k);
    LookedRest(d, st, m);
    assert HitFrom(d, m, m + 1, k) == false;
  }

  lemma WaitingStep(d: Pass, st: State, m: nat, p: nat)
    requires Proper(d) && m < p < |d.order| && |st.servers| == |d.st.servers| && LoopInv(d, st, m)
    ensures Waiting(d, Looked(d, st, m), m + 1, p)
  {
    assert Waiting(d, st, m, p);
    LookedOther(d, st, m, d.order[p]);
    LookedRest(d, st, m);
  }

  lemma OutsideStep(d: Pass, st: State, m: nat, k: nat)
    requires Proper(d) && m < |d.order| && |st.servers| == |d.st.servers| && LoopInv(d, st, m)
    requires k < |st.servers| && k !in d.order
    ensures Outside(d, Looked(d, st, m), k)
  {
    assert Outside(d, st, k);
    LookedOther(d, st, m, k);
    LookedRest(d, st, m);
  }

  lemma LoopStep(d: Pass, st: State, m: nat, n: nat)
    requires Proper(d) && m < |d.order| && n == m + 1 && |st.servers| == |d.st.servers| && LoopInv(d, st, m)
    ensures LoopInv(d, Looked(d, st, m), n)
  {
    var r := Looked(d, st, m);
    LookedRest(d, st, m);
    forall p | 0 <= p < n ensures Taken(d, r, n, p) {
      if p < m { TakenStep(d, st, m, p); } else { TakenNow(d, st, m); }
    }
    forall p | n <= p < |d.order| ensures Waiting(d, r, n, p) {
      WaitingStep(d, st, m, p);
    }
    forall k | 0 <= k < |r.servers| && k !in d.order ensures Outside(d, r, k) {
      OutsideStep(d, st, m, k);
    }
    PlacesStep(d, st, m, n);
    if !r.reselectPending { QuietStep(d, st, m); }
  }

  lemma PlacesStep(d: Pass, st: State, m: nat, n: nat)
    requires Proper(d) && m < |d.order| && n == m + 1 && |st.servers| == |d.st.servers| && LoopInv(d, st, m)
    ensures var r := Looked(d, st, m);
            && (forall k :: k in r.releases ==> k < |r.servers|)
            && (forall k :: k in r.selected ==> exists p :: 0 <= p < n && d.order[p] == k)
  {
    var r := Looked(d, st, m);
    LookedRest(d, st, m);
    forall k | k in r.releases ensures k < |r.servers| {
      if k in Errors(d, m) { var i :| 0 <= i < |Errors(d, m)| && Errors(d, m)[i] == k; }
    }
    forall k | k in r.selected ensures exists p :: 0 <= p < n && d.order[p] == k {
      if k != d.order[m] {
        var p :| 0 <= p < m && d.order[p] == k;
        assert p < n;
      }
    }
  }

  /** An iteration that asks for no reselection selects its server and hits none. */
  lemma QuietStep(d: Pass, st: State, m: nat)
    requires Proper(d) && m < |d.order| && |st.servers| == |d.st.servers| && LoopInv(d, st, m)
    requires !Looked(d, st, m).reselectPending
    ensures |Looked(d, st, m).selected| == m + 1 && NoneHit(d, m + 1)
  {
    LookedRest(d, st, m);
    var n := m + 1;
    forall k ensures !HitFrom(d, 0, n, k) {
      assert !HitFrom(d, 0, m, k);
      assert !(Begins(d, m) && k in d.errs(d.order[m]));
    }
  }

  lemma NextState(d: Pass, st: State, m: nat, n: nat)
    requires Proper(d) && n <= |d.order| && n == m + 1 && st == SelectFirstWith(d, m) && LoopInv(d, st, m)
    ensures SelectFirstWith(d, n) == Looked(d, st, m)
  {
    IsLooked(d, st, m);
  }

  lemma LoopAgain(d: Pass, m: nat, n: nat)
    requires Proper(d) && n <= |d.order| && n == m + 1 && LoopInv(d, SelectFirstWith(d, m), m)
    ensures LoopInv(d, SelectFirstWith(d, n), n)
  {
    NextState(d, SelectFirstWith(d, m), m, n);
    LoopStep(d, SelectFirstWith(d, m), m, n);
  }

  lemma {:induction false} LoopHolds(d: Pass, m: nat)
    requires Proper(d) && m <= |d.order|
    ensures LoopInv(d, SelectFirstWith(d, m), m)
  {
    if m == 0 {
      LoopStart(d);
    } else {
      LoopHolds(d, m - 1);
      LoopAgain(d, m - 1, m);
    }
  }

  // ---------------------------------------------------------------- the whole pass

  /** The second loop leaves selected servers alone and renumbers the other candidates. */
  lemma PassServer(d: Pass, k: nat)
    requires Proper(d) && k < |d.st.servers|
    ensures var mid, r := SelectFirstWith(d, Count(d)), SelectServersWith(d);
            && r == mid.(servers := r.servers) && |r.servers| == |mid.servers|
            && (forall p :: Count(d) <= p < |d.order| && d.order[p] == k ==>
                              r.servers[k] == EndConnection(mid.servers[k], p))
            && (k !in d.order[Count(d)..] ==> r.servers[k] == mid.servers[k])
  {
    EndRestEffect(SelectFirstWith(d, Count(d)), d.order, Count(d), |d.order|);
    assert d.order[Count(d)..|d.order|] == d.order[Count(d)..];
  }

  lemma SelectedUntouched(d: Pass, k: nat)
    requires Proper(d) && k in SelectFirstWith(d, Count(d)).selected
    ensures var mid, r := SelectFirstWith(d, Count(d)), SelectServersWith(d);
            k < |mid.servers| && r.servers[k] == mid.servers[k] && mid.servers[k].priority < Count(d)
  {
    LoopHolds(d, Count(d));
    var mid := SelectFirstWith(d, Count(d));
    var p :| 0 <= p < Count(d) && d.order[p] == k;
    assert Taken(d, mid, Count(d), p);
    PassServer(d, k);
  }

  lemma PassSelection(d: Pass)
    requires Proper(d)
    ensures var r := SelectServersWith(d);
            && |r.servers| == |d.st.servers| && r.maxConnections == d.st.maxConnections
            && SelectedSorted(r) && |r.selected| <= Count(d)
            && (forall k :: k in r.selected ==> r.servers[k].priority < Count(d))
            && (forall k :: k in r.releases ==> k < |r.servers|)
  {
    LoopHolds(d, Count(d));
    var mid, r := SelectFirstWith(d, Count(d)), SelectServersWith(d);
    EndRestEffect(mid, d.order, Count(d), |d.order|);
    forall i | 0 <= i < |r.selected|
      ensures r.servers[r.selected[i]] == mid.servers[r.selected[i]] && r.servers[r.selected[i]].priority < Count(d)
    {
      assert r.selected[i] in mid.selected;
      SelectedUntouched(d, r.selected[i]);
    }
  }

  lemma TakenSound(d: Pass, p: nat)
    requires Proper(d) && p < Count(d)
    ensures var r, k := SelectServersWith(d), d.order[p];
            && k < |r.servers| && |r.servers| == |d.st.servers| && SelectedSorted(r)
            && (ServerSound(r, k) <==> !(HitFrom(d, 0, p, k) && Survives(d, p, Count(d))))
  {
    var k := d.order[p];
    LoopHolds(d, Count(d));
    assert Taken(d, SelectFirstWith(d, Count(d)), Count(d), p);
    PassServer(d, k);
    PassSelection(d);
    CandidateCount(d.st, d.order);
    assert k !in d.order[Count(d)..];
  }

  lemma WaitingServer(d: Pass, p: nat)
    requires Proper(d) && Count(d) <= p < |d.order|
    ensures var r, k := SelectServersWith(d), d.order[p];
            && |r.servers| == |d.st.servers| && k !in r.selected
            && !r.servers[k].isConnection && r.servers[k].priority == p
            && (r.servers[k].quarantined ==> k in r.releases)
  {
    var k := d.order[p];
    LoopHolds(d, Count(d));
    assert Waiting(d, SelectFirstWith(d, Count(d)), Count(d), p);
    PassServer(d, k);
    assert k in d.order && !d.st.servers[k].quarantined;
  }

  lemma WaitingSound(d: Pass, p: nat)
    requires Proper(d) && Count(d) <= p < |d.order|
    ensures var r := SelectServersWith(d);
            |r.servers| == |d.st.servers| && SelectedSorted(r) && ServerSound(r, d.order[p])
  {
    var r := SelectServersWith(d);
    WaitingServer(d, p);
    PassSelection(d);
    if r.selected != [] { assert r.selected[|r.selected| - 1] in r.selected; }
  }

  lemma OutsideSound(d: Pass, k: nat)
    requires Proper(d) && k < |d.st.servers| && k !in d.order
    ensures var r := SelectServersWith(d);
            |r.servers| == |d.st.servers| && SelectedSorted(r) && ServerSound(r, k)
  {
    LoopHolds(d, Count(d));
    assert Outside(d, SelectFirstWith(d, Count(d)), k);
    PassServer(d, k);
    PassSelection(d);
  }

  lemma RestSound(d: Pass, k: nat)
    requires Proper(d) && k < |d.st.servers| && k !in d.order[..Count(d)]
    ensures var r := SelectServersWith(d);
            |r.servers| == |d.st.servers| && SelectedSorted(r) && ServerSound(r, k)
  {
    if k in d.order {
      var p :| 0 <= p < |d.order| && d.order[p] == k;
      WaitingSound(d, p);
    } else {
      OutsideSound(d, k);
    }
  }

  lemma QuietPassIsFull(d: Pass)
    requires Proper(d) && !SelectServersWith(d).reselectPending
    ensures Full(SelectServersWith(d))
  {
    var mid, r := SelectFirstWith(d, Count(d)), SelectServersWith(d);
    LoopHolds(d, Count(d));
    EndRestEffect(mid, d.order, Count(d), |d.order|);
    forall k: nat | k < |r.servers| ensures r.servers[k].quarantined == d.st.servers[k].quarantined {
      QuietServer(d, k);
    }
    assert Candidates(r) == Candidates(d.st);
    CandidateCount(d.st, d.order);
  }

  lemma QuietServer(d: Pass, k: nat)
    requires Proper(d) && k < |d.st.servers| && !SelectServersWith(d).reselectPending
    ensures SelectServersWith(d).servers[k].quarantined == d.st.servers[k].quarantined
  {
    if k in d.order {
      var p :| 0 <= p < |d.order| && d.order[p] == k;
      if p < Count(d) { QuietTaken(d, p); } else { QuietWaiting(d, p); }
    } else {
      LoopHolds(d, Count(d));
      PassServer(d, k);
      assert Outside(d, SelectFirstWith(d, Count(d)), k);
    }
  }

  lemma QuietTaken(d: Pass, p: nat)
    requires Proper(d) && p < Count(d) && !SelectServersWith(d).reselectPending
    ensures !SelectServersWith(d).servers[d.order[p]].quarantined
  {
    var k, n := d.order[p], Count(d);
    LoopHolds(d, n);
    PassServer(d, k);
    assert Taken(d, SelectFirstWith(d, n), n, p);
    AllSurvive(d, p);
    assert !HitFrom(d, 0, n, k);
    NotHitEarlier(d, p, n, k);
    assert k !in d.order[n..];
  }

  lemma QuietWaiting(d: Pass, p: nat)
    requires Proper(d) && Count(d) <= p < |d.order| && !SelectServersWith(d).reselectPending
    ensures !SelectServersWith(d).servers[d.order[p]].quarantined
  {
    var k, n := d.order[p], Count(d);
    LoopHolds(d, n);
    PassServer(d, k);
    assert Waiting(d, SelectFirstWith(d, n), n, p);
    assert !HitFrom(d, 0, n, k);
    assert k in d.order;
  }

  /** As many selected as taken means that all of them are. */
  lemma AllSurvive(d: Pass, p: nat)
    requires Proper(d) && p < Count(d) && |SelectFirstWith(d, Count(d)).selected| == Count(d)
    ensures Survives(d, p, Count(d))
  {
    var mid, n := SelectFirstWith(d, Count(d)), Count(d);
    LoopHolds(d, n);
    assert Taken(d, mid, n, p);
    assert d.order[p] in mid.selected by {
      forall k | k in mid.selected ensures k in d.order[..n] {
        var q :| 0 <= q < n && d.order[q] == k;
      }
      AllInside(mid.selected, d.order[..n], d.order[p]);
    }
  }

  /** A list without repetition of members of another one as long as it holds all of them. */
  lemma AllInside(a: seq<nat>, b: seq<nat>, x: nat)
    requires Distinct(a) && Distinct(b) && |a| == |b| && x in b && forall k :: k in a ==> k in b
    ensures x in a
  {
    var inA, inB := set k | k in a, set k | k in b;
    DistinctSize(a, inA);
    DistinctSize(b, inB);
    SubsetOfSize(inA, inB);
    assert x in inB;
  }

  lemma SubsetOfSize(a: set<nat>, b: set<nat>)
    requires a <= b && |a| >= |b|
    ensures a == b
  {
    assert b == a + (b - a);
  }

  lemma {:induction false} NotHitEarlier(d: Pass, p: nat, m: nat, k: nat)
    requires p <= m <= |d.order| && InRange(d.st, d.order) && !HitFrom(d, 0, m, k)
    ensures !HitFrom(d, 0, p, k)
    decreases m
  {
    if p < m { NotHitEarlier(d, p, m - 1, k); }
  }

  /** The pass keeps the invariant exactly if no server hit before its turn survives its turn. */
  lemma InterruptedPassIff(d: Pass)
    requires Proper(d)
    ensures Inv(SelectServersWith(d)) <==> Clean(d)
  {
    var r := SelectServersWith(d);
    PassSelection(d);
    if !r.reselectPending { QuietPassIsFull(d); }
    forall p | 0 <= p < Count(d)
      ensures ServerSound(r, d.order[p]) <==> !(HitFrom(d, 0, p, d.order[p]) && Survives(d, p, Count(d)))
    {
      TakenSound(d, p);
    }
    forall k | 0 <= k < |r.servers| && k !in d.order[..Count(d)] ensures ServerSound(r, k) {
      RestSound(d, k);
    }
    if Clean(d) {
      forall k | 0 <= k < |r.servers| ensures ServerSound(r, k) {
        if k in d.order[..Count(d)] { var p :| 0 <= p < Count(d) && d.order[p] == k; }
      }
    }
  }

  /** Without errors it is the pass of SelectServers. */
  lemma {:induction false} NoErrors(d: Pass, m: nat)
    requires m <= |d.order| && InRange(d.st, d.order) && InRangeErrs(d) && forall i: nat :: d.errs(i) == []
    ensures SelectFirstWith(d, m) == SelectFirst(d.st, d.order, m, d.env)
  {
    if m > 0 { NoErrors(d, m - 1); }
  }

  // ---------------------------------------------------------------- runs

  datatype Move = Plain(a: Action) | Disturbed(order: seq<nat>, env: nat -> Outcome, errs: nat -> seq<nat>)

  function PassOf(st: State, a: Move): Pass
    requires a.Disturbed?
  {
    Pass(st.(reselectPending := false), a.order, a.env, a.errs)
  }

  /** A step; a deferred selection may be disturbed. */
  ghost predicate NextWith(st: State, a: Move, st': State) {
    match a
    case Plain(b) => Next(st, b, st')
    case Disturbed(_, _, _) =>
      var d := PassOf(st, a);
      && st.reselectPending && Feasible(d)
      && st' == if |st.selected| >= Count(d) then d.st else SelectServersWith(d)
  }

  /** The disturbed selection makes a pass, and the errors hit someone they should not. */
  ghost predicate Unclean(st: State, a: Move) {
    a.Disturbed? && var d := PassOf(st, a);
    InRange(d.st, d.order) && |st.selected| < Count(d) && !Clean(d)
  }

  lemma PendingDoesNotMatter(st: State)
    requires Sound(st)
    ensures Sound(st.(reselectPending := false))
  {
    var t := st.(reselectPending := false);
    forall k | 0 <= k < |t.servers| ensures ServerSound(t, k) {
      assert ServerSound(st, k);
    }
  }

  /** A step keeps the invariant exactly if it is not such a selection. */
  lemma StepKeepsInvIff(st: State, a: Move, st': State)
    requires Inv(st) && NextWith(st, a, st')
    ensures Inv(st') <==> !Unclean(st, a)
  {
    match a
    case Plain(b) => NextKeepsInv(st, b, st');
    case Disturbed(order, env, _) =>
      var d := PassOf(st, a);
      PendingDoesNotMatter(st);
      if |st.selected| >= Count(d) {
        InitServersInv(d.st, order, env);
      } else {
        InterruptedPassIff(d);
      }
  }

  ghost predicate StepAt(run: seq<State>, moves: seq<Move>, i: nat)
    requires |run| == |moves| + 1 && i < |moves|
  {
    NextWith(run[i], moves[i], run[i + 1])
  }

  ghost predicate IsRunWith(run: seq<State>, moves: seq<Move>) {
    && |run| == |moves| + 1 && Inv(run[0])
    && forall i :: 0 <= i < |moves| ==> StepAt(run, moves, i)
  }

  /** In a run whose selections are disturbed cleanly, every state satisfies the invariant. */
  lemma {:induction false} EveryStateIsInv(run: seq<State>, moves: seq<Move>, i: nat)
    requires IsRunWith(run, moves) && i <= |moves|
    requires forall j :: 0 <= j < i ==> !Unclean(run[j], moves[j])
    ensures Inv(run[i])
  {
    if i > 0 {
      EveryStateIsInv(run, moves, i - 1);
      assert StepAt(run, moves, i - 1);
      StepKeepsInvIff(run[i - 1], moves[i - 1], run[i]);
    }
  }

  /** Errors that hit only servers already taken, as all do in the first selection, are clean. */
  lemma LateErrorsAreClean(d: Pass)
    requires Feasible(d)
    requires forall i, p :: 0 <= i < p < |d.order| ==> d.order[p] !in d.errs(d.order[i])
    ensures Clean(d)
  {
    forall p | 0 <= p < Count(d) ensures !HitFrom(d, 0, p, d.order[p]) {
      NotHitBefore(d, p, p);
    }
  }

  lemma {:induction false} NotHitBefore(d: Pass, m: nat, p: nat)
    requires m <= p < |d.order| && InRange(d.st, d.order)
    requires forall i :: 0 <= i < p ==> d.order[p] !in d.errs(d.order[i])
    ensures !HitFrom(d, 0, m, d.order[p])
    decreases m
  {
    if m > 0 { NotHitBefore(d, m - 1, p); }
  }

  /** Two servers that have failed and are released again, with their old connections around. */
  function BothReleased(): State {
    State([Server(2, false, true, false, 1), Server(3, false, true, false, 1)], [], true, multiset{}, 2)
  }

  /** The state is reached from the first selection by two link errors and two releases. */
  lemma BothReleasedIsReached()
    ensures var servers := [Server(0, true, true, false, 1), Server(1, true, true, false, 1)];
            var connected := State(servers, [0, 1], false, multiset{}, 2);
            var failed := BadServer(BadServer(connected, 0), 1);
            ReleaseServer(ReleaseServer(failed, 0), 1) == BothReleased()
  {
    assert [0, 1][1..] == [1] && [1][1..] == [];
    assert Without([0, 1], 0) == [1] && Without([1], 1) == [];
  }

  ghost predicate SecondFails(d: Pass) {
    && d.st == BothReleased().(reselectPending := false) && d.order == [0, 1]
    && d.env(0) == d.env(1) == Healthy && d.errs(0) == [1] && forall i: nat :: i > 0 ==> d.errs(i) == []
  }

  lemma BothReleasedIsInv()
    ensures Inv(BothReleased())
  {
    var st := BothReleased();
    forall k | 0 <= k < 2 ensures ServerSound(st, k) { }
  }

  lemma SecondFailsIsProper(d: Pass)
    requires SecondFails(d)
    ensures Proper(d) && Count(d) == 2
  {
    BothReleasedIsInv();
    PendingDoesNotMatter(BothReleased());
    assert IsCandidateOrder(d.st, d.order);
    FewErrors(d);
  }

  lemma FewErrors(d: Pass)
    requires SecondFails(d)
    ensures InRangeErrs(d) && forall k: nat :: k !in d.errs(k)
  {
    forall k: nat ensures k !in d.errs(k) && forall j :: 0 <= j < |d.errs(k)| ==> d.errs(k)[j] < 2 {
      assert k == 0 || d.errs(k) == [];
    }
  }

  lemma SecondIsHit(d: Pass)
    requires SecondFails(d)
    ensures HitFrom(d, 0, 1, d.order[1]) && Survives(d, 1, 2)
  {
    assert Begins(d, 0) && Begins(d, 1);
    assert !HitFrom(d, 0, 0, 1) && !HitFrom(d, 1, 1, 1);
    assert HitFrom(d, 0, 1, 1) && !HitFrom(d, 1, 2, 1);
  }

  /** While the first is connected again the old connection of the second fails once more.  The pass
      selects it all the same, and it is selected and in quarantine. */
  lemma SelectedInQuarantine(d: Pass)
    requires SecondFails(d)
    ensures Inv(BothReleased()) && Feasible(d) && !Clean(d) && !Inv(SelectServersWith(d))
    ensures 1 in SelectServersWith(d).selected && SelectServersWith(d).servers[1].quarantined
  {
    BothReleasedIsInv();
    SecondFailsIsProper(d);
    SecondIsHit(d);
    InterruptedPassIff(d);
    LoopHolds(d, 2);
    assert Taken(d, SelectFirstWith(d, 2), 2, 1);
    assert SelectServersWith(d) == SelectFirstWith(d, 2);
  }
}

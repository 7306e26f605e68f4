/**
 The retry budget of a cloud request: which server is asked again, when a server is given up and
 when the request fails by itself.  Callbacks are separate steps.
 */
module RequestRetries {

  datatype ServerRequest = ServerRequest(retries: nat, exhausted: bool)
  datatype Outcome = Running | Finished(success: bool)

  /** `sent` and `restreamed` list the servers requests were sent to and restreams asked of. */
  datatype State = State(
    max: nat, servers: map<nat, ServerRequest>, queued: bool, outcome: Outcome, sent: seq<nat>, restreamed: seq<nat>)

  datatype Step =
    | Run(visited: seq<nat>)
    | Timeout(sc: nat)
    | WriteFailed(sc: nat)
    | ChannelChanged(sc: nat)
    | ServersUpdated
    | Listener(success: bool)

  function Start(max: nat, servers: set<nat>): State {
    State(max, map sc | sc in servers :: ServerRequest(0, false), true, Running, [], [])
  }

  predicate Skipped(s: State, sc: nat) {
    sc in s.servers && s.servers[sc].exhausted
  }

  /** One server of the policy's selection: unknown ones are added, exhausted ones passed over. */
  function Ask(s: State, sc: nat): State {
    if Skipped(s, sc) then s
    else
      s.(servers := if sc in s.servers then s.servers else s.servers[sc := ServerRequest(0, false)],
         sent := s.sent + [sc])
  }

  function AskAll(s: State, visited: seq<nat>): State
    decreases |visited|
  {
    if visited == [] then s else AskAll(Ask(s, visited[0]), visited[1..])
  }

  predicate AllExhausted(servers: map<nat, ServerRequest>) {
    servers != map[] && forall sc :: sc in servers ==> servers[sc].exhausted
  }

  function Finish(s: State, success: bool): State {
    s.(servers := map[], queued := false, outcome := Finished(success))
  }

  function MakeRequest(s: State, visited: seq<nat>): State {
    var t := AskAll(s.(queued := false), visited);
    if AllExhausted(t.servers) then Finish(t, false) else t
  }

  function Put(s: State, sc: nat, retries: nat, exhausted: bool): State {
    s.(servers := s.servers[sc := ServerRequest(retries, exhausted)])
  }

  function OnTimeout(s: State, sc: nat): State
    requires sc in s.servers
  {
    var sr := s.servers[sc];
    if sr.retries >= s.max then Put(s, sc, sr.retries, true).(queued := true)
    else Put(s, sc, sr.retries + 1, sr.exhausted).(restreamed := s.restreamed + [sc])
  }

  function OnWriteFailed(s: State, sc: nat): State
    requires sc in s.servers
  {
    var sr := s.servers[sc];
    Put(s, sc, sr.retries + 1, sr.exhausted || sr.retries + 1 >= s.max).(queued := true)
  }

  function OnChannelChanged(s: State, sc: nat): State
    requires sc in s.servers
  {
    var sr := s.servers[sc];
    Put(s, sc, sr.retries, sr.exhausted || sr.retries >= s.max).(queued := true)
  }

  predicate Enabled(s: State, step: Step) {
    s.outcome.Running? && (step.Run? ==> s.queued)
  }

  function Do(s: State, step: Step): State
    requires Enabled(s, step)
  {
    match step
    case Run(visited) => MakeRequest(s, visited)
    case Timeout(sc) => if sc in s.servers then OnTimeout(s, sc) else s
    case WriteFailed(sc) => if sc in s.servers then OnWriteFailed(s, sc) else s
    case ChannelChanged(sc) => if sc in s.servers then OnChannelChanged(s, sc) else s
    case ServersUpdated => s.(queued := true)
    case Listener(success) => Finish(s, success)
  }

  ghost predicate StepAt(run: seq<State>, steps: seq<Step>, i: nat)
    requires |run| == |steps| + 1 && i < |steps|
  {
    Enabled(run[i], steps[i]) && run[i + 1] == Do(run[i], steps[i])
  }

  ghost predicate IsRun(run: seq<State>, steps: seq<Step>, max: nat, servers: set<nat>) {
    && |run| == |steps| + 1
    && run[0] == Start(max, servers)
    && forall i :: 0 <= i < |steps| ==> StepAt(run, steps, i)
  }

  // ---------------------------------------------------------------- one pass over the servers

  /** A pass keeps what is known and adds the rest of the visited. */
  lemma {:induction false} AskAllServers(s: State, visited: seq<nat>)
    ensures var t := AskAll(s, visited);
            && t == s.(servers := t.servers, sent := t.sent)
            && (forall sc :: sc in t.servers <==> sc in s.servers || sc in visited)
            && (forall sc :: sc in s.servers ==> t.servers[sc] == s.servers[sc])
            && (forall sc :: sc in t.servers && sc !in s.servers ==> t.servers[sc] == ServerRequest(0, false))
    decreases |visited|
  {
    if visited != [] {
      AskAllServers(Ask(s, visited[0]), visited[1..]);
    }
  }

  /** The visited servers that are sent to. */
  function Asked(s: State, visited: seq<nat>): (r: seq<nat>)
    ensures forall sc :: sc in r <==> sc in visited && !Skipped(s, sc)
  {
    if visited == [] then []
    else (if Skipped(s, visited[0]) then [] else [visited[0]]) + Asked(s, visited[1..])
  }

  lemma {:induction false} AskedStays(s: State, sc: nat, visited: seq<nat>)
    ensures Asked(Ask(s, sc), visited) == Asked(s, visited)
  {
    if visited != [] { AskedStays(s, sc, visited[1..]); }
  }

  lemma {:induction false} AskAllSent(s: State, visited: seq<nat>)
    ensures AskAll(s, visited).sent == s.sent + Asked(s, visited)
    decreases |visited|
  {
    if visited != [] {
      AskAllSent(Ask(s, visited[0]), visited[1..]);
      AskedStays(s, visited[0], visited[1..]);
    }
  }

  /** Both together, for the queued pass. */
  lemma AskAllEffect(s: State, visited: seq<nat>)
    ensures var t := AskAll(s.(queued := false), visited);
            && t == s.(servers := t.servers, sent := s.sent + Asked(s, visited), queued := false)
            && (forall sc :: sc in t.servers <==> sc in s.servers || sc in visited)
            && (forall sc :: sc in s.servers ==> t.servers[sc] == s.servers[sc])
            && (forall sc :: sc in t.servers && sc !in s.servers ==> t.servers[sc] == ServerRequest(0, false))
  {
    var r := s.(queued := false);
    AskAllServers(r, visited);
    AskAllSent(r, visited);
    SameAsked(s, r, visited);
  }

  lemma {:induction false} SameAsked(s: State, r: State, visited: seq<nat>)
    requires s.servers == r.servers
    ensures Asked(s, visited) == Asked(r, visited)
  {
    if visited != [] { SameAsked(s, r, visited[1..]); }
  }

  /** The request gives up exactly when it knows servers, all of them are exhausted and the
      policy offers no other. */
  lemma FailsByItselfIff(s: State, visited: seq<nat>)
    requires Enabled(s, Run(visited))
    ensures var t := Do(s, Run(visited));
            && (t.outcome.Finished? <==> AllExhausted(s.servers) && forall sc :: sc in visited ==> sc in s.servers)
            && (t.outcome.Finished? ==> !t.outcome.success && t.sent == s.sent)
  {
    var u := AskAll(s.(queued := false), visited);
    AskAllEffect(s, visited);
    if forall sc :: sc in visited ==> sc in s.servers {
      assert u.servers == s.servers;
      if AllExhausted(s.servers) { NoneAsked(s, visited); }
    } else {
      var sc :| sc in visited && sc !in s.servers;
      assert sc in u.servers && !u.servers[sc].exhausted;
    }
  }

  lemma {:induction false} NoneAsked(s: State, visited: seq<nat>)
    requires forall sc :: sc in visited ==> Skipped(s, sc)
    ensures Asked(s, visited) == []
  {
    if visited != [] {
      assert forall sc :: sc in visited[1..] ==> sc in visited;
      NoneAsked(s, visited[1..]);
    }
  }

  // ---------------------------------------------------------------- the invariant

  ghost predicate Budget(s: State, sc: nat) {
    sc in s.servers ==>
      if s.servers[sc].exhausted then s.servers[sc].retries >= s.max else s.servers[sc].retries <= s.max
  }

  ghost predicate Inv(s: State) {
    && (forall sc :: Budget(s, sc))
    && (s.outcome.Finished? ==> s.servers == map[] && !s.queued)
    && (s.outcome.Running? && AllExhausted(s.servers) ==> s.queued)
  }

  lemma StepKeepsInv(s: State, step: Step)
    requires Inv(s) && Enabled(s, step)
    ensures Inv(Do(s, step))
  {
    var t := Do(s, step);
    if step.Run? { AskAllEffect(s, step.visited); }
    forall sc ensures Budget(t, sc) {
      assert Budget(s, sc);
    }
    if step.Timeout? && step.sc in s.servers && s.servers[step.sc].retries < s.max {
      assert Budget(s, step.sc);
      assert step.sc in t.servers && !t.servers[step.sc].exhausted;
    }
  }

  /** In every reachable state a server that is not exhausted is within its budget and an
      exhausted one has used it up, and a request all of whose servers are exhausted has the pass
      queued that fails it. */
  lemma {:induction false} EveryReachableStateIsInv(
      run: seq<State>, steps: seq<Step>, max: nat, servers: set<nat>, i: nat)
    requires IsRun(run, steps, max, servers) && i <= |steps|
    ensures Inv(run[i]) && run[i].max == max
  {
    if i == 0 {
      assert forall sc :: Budget(run[0], sc);
    } else {
      EveryReachableStateIsInv(run, steps, max, servers, i - 1);
      assert StepAt(run, steps, i - 1);
      StepKeepsInv(run[i - 1], steps[i - 1]);
      if steps[i - 1].Run? { AskAllEffect(run[i - 1], steps[i - 1].visited); }
    }
  }

  // ---------------------------------------------------------------- exhaustion is final

  ghost predicate GivenUp(s: State, sc: nat) {
    s.outcome.Finished? || Skipped(s, sc)
  }

  lemma StepKeepsGivenUp(s: State, step: Step, sc: nat)
    requires Enabled(s, step) && GivenUp(s, sc)
    ensures GivenUp(Do(s, step), sc)
    ensures s.sent <= Do(s, step).sent && sc !in Do(s, step).sent[|s.sent|..]
  {
    if step.Run? { AskAllEffect(s, step.visited); }
  }

  /** Once a server is exhausted it stays so until the request ends, and nothing is sent to it. */
  lemma {:induction false} ExhaustedIsFinal(
      run: seq<State>, steps: seq<Step>, max: nat, servers: set<nat>, sc: nat, i: nat, j: nat)
    requires IsRun(run, steps, max, servers) && i <= j <= |steps| && GivenUp(run[i], sc)
    ensures GivenUp(run[j], sc)
    ensures run[i].sent <= run[j].sent && sc !in run[j].sent[|run[i].sent|..]
    decreases j
  {
    if i < j {
      ExhaustedIsFinal(run, steps, max, servers, sc, i, j - 1);
      assert StepAt(run, steps, j - 1);
      StepKeepsGivenUp(run[j - 1], steps[j - 1], sc);
      var a, b, c := run[i].sent, run[j - 1].sent, run[j].sent;
      assert c[|a|..] == b[|a|..] + c[|b|..];
    }
  }

  // ---------------------------------------------------------------- the number of charges

  /** A timeout or a failed write that hits a server the request has not given up. */
  predicate Charge(s: State, step: Step, sc: nat) {
    (step == Timeout(sc) || step == WriteFailed(sc)) && sc in s.servers && !s.servers[sc].exhausted
  }

  function Charges(run: seq<State>, steps: seq<Step>, sc: nat, i: nat): nat
    requires |run| == |steps| + 1 && i <= |steps|
  {
    if i == 0 then 0
    else Charges(run, steps, sc, i - 1) + if Charge(run[i - 1], steps[i - 1], sc) then 1 else 0
  }

  ghost predicate ChargesFit(s: State, sc: nat, charges: nat) {
    if s.outcome.Finished? then charges <= s.max + 1
    else if sc !in s.servers then charges == 0
    else if s.servers[sc].exhausted then charges <= s.max + 1
    else charges == s.servers[sc].retries
  }

  lemma StepKeepsCharges(s: State, step: Step, sc: nat, charges: nat)
    requires Inv(s) && Enabled(s, step) && ChargesFit(s, sc, charges)
    ensures ChargesFit(Do(s, step), sc, charges + if Charge(s, step, sc) then 1 else 0)
  {
    assert Budget(s, sc);
    if step.Run? { AskAllEffect(s, step.visited); }
  }

  /** The retry counter of a server in use is the number of timeouts and failed writes that hit
      it, and no server is hit more than max + 1 times before it is exhausted. */
  lemma {:induction false} ChargesAreBounded(
      run: seq<State>, steps: seq<Step>, max: nat, servers: set<nat>, sc: nat, i: nat)
    requires IsRun(run, steps, max, servers) && i <= |steps|
    ensures ChargesFit(run[i], sc, Charges(run, steps, sc, i))
    ensures Charges(run, steps, sc, i) <= max + 1
    decreases i
  {
    EveryReachableStateIsInv(run, steps, max, servers, i);
    assert Budget(run[i], sc);
    if i > 0 {
      ChargesAreBounded(run, steps, max, servers, sc, i - 1);
      EveryReachableStateIsInv(run, steps, max, servers, i - 1);
      assert StepAt(run, steps, i - 1);
      StepKeepsCharges(run[i - 1], steps[i - 1], sc, Charges(run, steps, sc, i - 1));
    }
  }

  function TimeoutTimes(s: State, sc: nat, n: nat): State
    decreases n
  {
    if n == 0 || sc !in s.servers then s else TimeoutTimes(OnTimeout(s, sc), sc, n - 1)
  }

  /** The bound is met: `max` timeouts leave a fresh server in use, one more exhausts it. */
  lemma {:induction false} TimeoutsUseBudget(s: State, sc: nat, n: nat)
    requires sc in s.servers && !s.servers[sc].exhausted && s.servers[sc].retries + n == s.max
    ensures var t := TimeoutTimes(s, sc, n);
            && sc in t.servers && t.servers[sc] == ServerRequest(s.max, false)
            && OnTimeout(t, sc).servers[sc] == ServerRequest(s.max, true)
    decreases n
  {
    if n > 0 { TimeoutsUseBudget(OnTimeout(s, sc), sc, n - 1); }
  }
}

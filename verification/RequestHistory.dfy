/**
 What a run of a cloud request has done, told by its steps: with what result it ended, when it sends
 again and which connections it restreams.
 */
module RequestHistory {
  import opened RequestRetries

  // ---------------------------------------------------------------- one step

  /** The pass knows servers, all of them given up, and the policy offers no other. */
  ghost predicate GivesUp(s: State, step: Step) {
    step.Run? && AllExhausted(s.servers) && forall sc :: sc in step.visited ==> sc in s.servers
  }

  /** The step asks for another pass: the servers have changed, a write failed, a channel changed, or
      a server has timed out once too often. */
  predicate Requeues(s: State, step: Step) {
    match step
    case ServersUpdated => true
    case WriteFailed(sc) => sc in s.servers
    case ChannelChanged(sc) => sc in s.servers
    case Timeout(sc) => sc in s.servers && s.servers[sc].retries >= s.max
    case _ => false
  }

  /** A timeout within the budget restreams the connection. */
  predicate Restreams(s: State, step: Step) {
    step.Timeout? && step.sc in s.servers && s.servers[step.sc].retries < s.max
  }

  /** The request ends exactly by its listener, with the result given, or by giving up, as a failure;
      while it runs a pass is queued exactly if the step asks for one or leaves it queued; and exactly
      the connections that timed out within the budget are restreamed. */
  lemma StepEffect(s: State, step: Step)
    requires Enabled(s, step)
    ensures var t := Do(s, step);
            && (forall b :: t.outcome == Finished(b) <==> step == Listener(b) || (!b && GivesUp(s, step)))
            && (t.outcome.Running? ==> (t.queued <==> Requeues(s, step) || (s.queued && !step.Run?)))
            && t.restreamed == s.restreamed + (if Restreams(s, step) then [step.sc] else [])
            && t.max == s.max
  {
    if step.Run? {
      AskAllEffect(s, step.visited);
      FailsByItselfIff(s, step.visited);
    }
  }

  // ---------------------------------------------------------------- runs

  /** A pass was asked for by step k and none has run since; step 0 stands for the start. */
  ghost predicate AskedBy(run: seq<State>, steps: seq<Step>, k: nat, i: nat)
    requires |run| == |steps| + 1 && i <= |steps|
  {
    && k <= i && (k > 0 ==> Requeues(run[k - 1], steps[k - 1]))
    && forall l :: k <= l < i ==> !steps[l].Run?
  }

  ghost predicate PassDue(run: seq<State>, steps: seq<Step>, i: nat)
    requires |run| == |steps| + 1 && i <= |steps|
  {
    exists k: nat :: AskedBy(run, steps, k, i)
  }

  lemma PassDueStep(run: seq<State>, steps: seq<Step>, i: nat, j: nat)
    requires |run| == |steps| + 1 && i == j + 1 <= |steps|
    ensures PassDue(run, steps, i) <==>
            Requeues(run[j], steps[j]) || (PassDue(run, steps, j) && !steps[j].Run?)
  {
    if Requeues(run[j], steps[j]) { assert AskedBy(run, steps, i, i); }
    if k: nat :| AskedBy(run, steps, k, j) {
      if !steps[j].Run? { assert AskedBy(run, steps, k, i); }
    }
    if k: nat :| AskedBy(run, steps, k, i) {
      if k <= j { assert AskedBy(run, steps, k, j); }
    }
  }

  /** While the request runs, a pass is queued exactly if one was asked for since the last. */
  lemma {:induction false} PassQueuedIff(
      run: seq<State>, steps: seq<Step>, max: nat, servers: set<nat>, i: nat)
    requires IsRun(run, steps, max, servers) && i <= |steps| && run[i].outcome.Running?
    ensures run[i].queued <==> PassDue(run, steps, i)
  {
    if i == 0 {
      assert AskedBy(run, steps, 0, 0);
    } else {
      assert StepAt(run, steps, i - 1);
      StepEffect(run[i - 1], steps[i - 1]);
      PassQueuedIff(run, steps, max, servers, i - 1);
      PassDueStep(run, steps, i, i - 1);
    }
  }

  /** A request has ended exactly if its last step was the listener's, with the result given, or a
      pass that gave up. */
  lemma EndedIff(run: seq<State>, steps: seq<Step>, max: nat, servers: set<nat>, i: nat, success: bool)
    requires IsRun(run, steps, max, servers) && i <= |steps|
    ensures run[i].outcome == Finished(success) <==>
            i > 0 && (steps[i - 1] == Listener(success) || (!success && GivesUp(run[i - 1], steps[i - 1])))
    ensures run[i].outcome.Finished? ==> i == |steps|
  {
    if i > 0 {
      assert StepAt(run, steps, i - 1);
      StepEffect(run[i - 1], steps[i - 1]);
    }
    if i < |steps| { assert StepAt(run, steps, i); }
  }

  // ---------------------------------------------------------------- exhaustion

  /** The step is the end of a server that was hit `charges` times before: a timeout or a changed
      channel beyond the maximum, or the failed write that reaches it. */
  predicate UsesUp(step: Step, sc: nat, charges: nat, max: nat) {
    || (step == Timeout(sc) && charges >= max)
    || (step == ChannelChanged(sc) && charges >= max)
    || (step == WriteFailed(sc) && charges + 1 >= max)
  }

  ghost predicate UsedUpBy(run: seq<State>, steps: seq<Step>, sc: nat, max: nat, k: nat)
    requires |run| == |steps| + 1
  {
    k < |steps| && sc in run[k].servers && UsesUp(steps[k], sc, Charges(run, steps, sc, k), max)
  }

  ghost predicate UsedUp(run: seq<State>, steps: seq<Step>, sc: nat, max: nat, i: nat)
    requires |run| == |steps| + 1
  {
    exists k: nat :: k < i && UsedUpBy(run, steps, sc, max, k)
  }

  lemma UsedUpStep(run: seq<State>, steps: seq<Step>, sc: nat, max: nat, i: nat, j: nat)
    requires |run| == |steps| + 1 && i == j + 1 <= |steps|
    ensures UsedUp(run, steps, sc, max, i) <==> UsedUp(run, steps, sc, max, j) || UsedUpBy(run, steps, sc, max, j)
  {
  }

  lemma StepExhausts(s: State, step: Step, sc: nat, charges: nat)
    requires Enabled(s, step) && sc in s.servers && sc in Do(s, step).servers
    requires !s.servers[sc].exhausted ==> charges == s.servers[sc].retries
    ensures s.servers[sc].exhausted ==> Do(s, step).servers[sc].exhausted
    ensures !s.servers[sc].exhausted ==> (Do(s, step).servers[sc].exhausted <==> UsesUp(step, sc, charges, s.max))
  {
    if step.Run? { AskAllEffect(s, step.visited); }
  }

  lemma AddedIsFresh(s: State, step: Step, sc: nat)
    requires Enabled(s, step) && sc !in s.servers && sc in Do(s, step).servers
    ensures !Do(s, step).servers[sc].exhausted && s.outcome.Running?
  {
    if step.Run? { AskAllEffect(s, step.visited); }
  }

  lemma KnownStays(s: State, step: Step, sc: nat)
    requires Enabled(s, step) && sc in s.servers && Do(s, step).outcome.Running?
    ensures sc in Do(s, step).servers
  {
    if step.Run? { AskAllEffect(s, step.visited); }
  }

  lemma {:induction false} NeverUsedUp(
      run: seq<State>, steps: seq<Step>, max: nat, servers: set<nat>, sc: nat, i: nat)
    requires IsRun(run, steps, max, servers) && i <= |steps| && run[i].outcome.Running? && sc !in run[i].servers
    ensures !UsedUp(run, steps, sc, max, i)
  {
    if i > 0 {
      var j := i - 1;
      assert StepAt(run, steps, j);
      if sc in run[j].servers { KnownStays(run[j], steps[j], sc); }
      NeverUsedUp(run, steps, max, servers, sc, j);
      UsedUpStep(run, steps, sc, max, i, j);
    }
  }

  /** A server of a running request is exhausted exactly if one of the steps used up its budget. */
  lemma {:induction false} ExhaustedIff(
      run: seq<State>, steps: seq<Step>, max: nat, servers: set<nat>, sc: nat, i: nat)
    requires IsRun(run, steps, max, servers) && i <= |steps| && sc in run[i].servers
    ensures run[i].servers[sc].exhausted <==> UsedUp(run, steps, sc, max, i)
  {
    if i > 0 {
      var j := i - 1;
      assert StepAt(run, steps, j);
      EveryReachableStateIsInv(run, steps, max, servers, j);
      UsedUpStep(run, steps, sc, max, i, j);
      if sc in run[j].servers {
        ExhaustedIff(run, steps, max, servers, sc, j);
        ChargesAreBounded(run, steps, max, servers, sc, j);
        StepExhausts(run[j], steps[j], sc, Charges(run, steps, sc, j));
      } else {
        AddedIsFresh(run[j], steps[j], sc);
        NeverUsedUp(run, steps, max, servers, sc, j);
      }
    }
  }

  // ---------------------------------------------------------------- restreams

  function Count(s: seq<nat>, sc: nat): nat {
    if s == [] then 0 else Count(s[..|s| - 1], sc) + if s[|s| - 1] == sc then 1 else 0
  }

  lemma CountSnoc(s: seq<nat>, x: nat, sc: nat)
    ensures Count(s + [x], sc) == Count(s, sc) + if x == sc then 1 else 0
  {
    assert (s + [x])[..|s|] == s;
  }

  /** Each restream of a server was charged to its budget. */
  ghost predicate RestreamsFit(s: State, sc: nat) {
    && Count(s.restreamed, sc) <= s.max
    && (s.outcome.Running? ==> Count(s.restreamed, sc) <= if sc in s.servers then s.servers[sc].retries else 0)
  }

  lemma StepKeepsRestreams(s: State, step: Step, sc: nat)
    requires Enabled(s, step) && RestreamsFit(s, sc)
    ensures RestreamsFit(Do(s, step), sc)
  {
    StepEffect(s, step);
    if Restreams(s, step) { CountSnoc(s.restreamed, step.sc, sc); }
    assert s.restreamed + [] == s.restreamed;
    if step.Run? { AskAllEffect(s, step.visited); }
  }

  /** No server is restreamed more often than the request may retry. */
  lemma {:induction false} RestreamsAreBounded(
      run: seq<State>, steps: seq<Step>, max: nat, servers: set<nat>, sc: nat, i: nat)
    requires IsRun(run, steps, max, servers) && i <= |steps|
    ensures RestreamsFit(run[i], sc) && run[i].max == max && Count(run[i].restreamed, sc) <= max
  {
    if i > 0 {
      RestreamsAreBounded(run, steps, max, servers, sc, i - 1);
      assert StepAt(run, steps, i - 1);
      StepEffect(run[i - 1], steps[i - 1]);
      StepKeepsRestreams(run[i - 1], steps[i - 1], sc);
    }
  }
}

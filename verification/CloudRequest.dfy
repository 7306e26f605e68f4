/** CloudRequest as an object: its server table, its queued task and its result. */
module CloudRequest {
  import opened RequestRetries

  class CloudRequest {
    const max: nat
    var servers: map<nat, ServerRequest>
    var queued: bool
    var outcome: Outcome
    var sent: seq<nat>
    var restreamed: seq<nat>

    function View(): State
      reads this
    {
      State(max, servers, queued, outcome, sent, restreamed)
    }

    constructor (max: nat, known: set<nat>)
      ensures this.max == max && View() == Start(max, known) && Inv(View())
    {
      this.max := max;
      servers, queued, outcome, sent, restreamed := map[], false, Running, [], [];
      new;
      PrefillServerRequests(known);
      EnqueueMakeRequest();
      assert forall sc :: Budget(View(), sc);
    }

    method PrefillServerRequests(known: set<nat>)
      requires servers == map[]
      modifies this`servers
      ensures servers == map sc | sc in known :: ServerRequest(0, false)
    {
      var left := known;
      while left != {}
        invariant left <= known
        invariant servers == map sc | sc in known - left :: ServerRequest(0, false)
        decreases |left|
      {
        var sc :| sc in left;
        left := left - {sc};
        servers := servers[sc := ServerRequest(0, false)];
      }
    }

    method EnqueueMakeRequest()
      modifies this`queued
      ensures queued
    {
      if queued { return; }
      queued := true;
    }

    /** The task: asks the servers the policy selects, then fails if every known one is exhausted. */
    method MakeRequest(visited: seq<nat>)
      requires Inv(View()) && Enabled(View(), Run(visited))
      modifies this
      ensures View() == Do(old(View()), Run(visited)) && Inv(View())
      ensures outcome.Finished? <==> AllExhausted(old(servers)) && forall sc :: sc in visited ==> sc in old(servers)
      ensures sent == old(sent) + Asked(old(View()), visited)
    {
      StepKeepsInv(View(), Run(visited));
      FailsByItselfIff(View(), visited);
      AskAllEffect(View(), visited);
      queued := false;
      ghost var all := AskAll(View(), visited);
      for i := 0 to |visited|
        invariant AskAll(View(), visited[i..]) == all
      {
        MakeServerRequest(visited[i]);
        assert visited[i..][1..] == visited[i + 1..];
      }
      var exhausted := CheckExhausted();
      if exhausted { Finish(false); }
    }

    method MakeServerRequest(sc: nat)
      modifies this`servers, this`sent
      ensures View() == Ask(old(View()), sc)
    {
      if sc !in servers {
        servers := servers[sc := ServerRequest(0, false)];
      } else if servers[sc].exhausted {
        return;
      }
      sent := sent + [sc];
    }

    method CheckExhausted() returns (all: bool)
      ensures all <==> AllExhausted(servers)
    {
      all := servers != map[];
      var left := servers.Keys;
      while left != {}
        invariant left <= servers.Keys
        invariant all <==> servers != map[] && forall sc :: sc in servers && sc !in left ==> servers[sc].exhausted
        decreases |left|
      {
        var sc :| sc in left;
        if !servers[sc].exhausted { return false; }
        left := left - {sc};
      }
    }

    method OnChannelChanged(sc: nat)
      requires Inv(View()) && Enabled(View(), ChannelChanged(sc))
      modifies this
      ensures View() == Do(old(View()), ChannelChanged(sc)) && Inv(View())
    {
      StepKeepsInv(View(), ChannelChanged(sc));
      if sc !in servers { return; }
      var sr := servers[sc];
      if sr.retries >= max {
        servers := servers[sc := sr.(exhausted := true)];
        EnqueueMakeRequest();
        return;
      }
      EnqueueMakeRequest();
      assert servers[sc := sr] == servers;
    }

    method OnWriteFailed(sc: nat)
      requires Inv(View()) && Enabled(View(), WriteFailed(sc))
      modifies this
      ensures View() == Do(old(View()), WriteFailed(sc)) && Inv(View())
    {
      StepKeepsInv(View(), WriteFailed(sc));
      if sc !in servers { return; }
      var sr := servers[sc];
      sr := sr.(retries := sr.retries + 1);
      if sr.retries >= max {
        sr := sr.(exhausted := true);
      }
      servers := servers[sc := sr];
      EnqueueMakeRequest();
    }

    method OnServerRequestTimeout(sc: nat)
      requires Inv(View()) && Enabled(View(), Timeout(sc))
      modifies this
      ensures View() == Do(old(View()), Timeout(sc)) && Inv(View())
    {
      StepKeepsInv(View(), Timeout(sc));
      if sc !in servers { return; }
      var sr := servers[sc];
      if sr.retries >= max {
        servers := servers[sc := sr.(exhausted := true)];
        EnqueueMakeRequest();
        return;
      }
      servers := servers[sc := sr.(retries := sr.retries + 1)];
      restreamed := restreamed + [sc];
    }

    method ServersChanged()
      requires Inv(View()) && Enabled(View(), ServersUpdated)
      modifies this`queued
      ensures View() == Do(old(View()), ServersUpdated) && Inv(View())
    {
      StepKeepsInv(View(), ServersUpdated);
      EnqueueMakeRequest();
    }

    /** Succeeded and Failed, as a listener calls them. */
    method Finish(success: bool)
      requires outcome.Running?
      modifies this`servers, this`queued, this`outcome
      ensures View() == RequestRetries.Finish(old(View()), success)
    {
      queued := false;
      servers := map[];
      outcome := Finished(success);
    }
  }
}

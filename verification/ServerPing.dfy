/**
 The connectivity policy, the blocker handles that refer to it and the server ping that holds
 three of them, as objects.
 */
module ServerPing {
  import Blocking = SuspendBlocking
  import opened Options
  import opened Pinging

  class ClientConnectivityPolicy {
    var count: nat
    var canSuspend: bool
    var fired: nat

    function View(): Policy
      reads this
    {
      Blocking.Policy(count, canSuspend, fired)
    }

    constructor ()
      ensures View() == Blocking.IDLE
    {
      count, canSuspend, fired := 0, true, 0;
    }

    method IncrementSuspendBlock()
      modifies this
      ensures View() == Blocking.Increment(old(View()))
    {
      count := (count + 1) % Blocking.COUNT_WRAP;
      canSuspend := false;
    }

    method DecrementSuspendBlock()
      modifies this
      ensures View() == Blocking.Decrement(old(View()))
    {
      if count == 0 { return; }
      count := count - 1;
      canSuspend := count == 0;
      if canSuspend { fired := fired + 1; }
    }
  }

  class SuspendBlocker {
    var policy: ClientConnectivityPolicy?

    constructor Empty()
      ensures policy == null
    {
      policy := null;
    }

    constructor Acquire(p: ClientConnectivityPolicy)
      modifies p
      ensures policy == p && p.View() == Blocking.Increment(old(p.View()))
    {
      policy := p;
      p.IncrementSuspendBlock();
    }

    /** Move construction takes over the other's policy, which does not notice. */
    constructor MoveFrom(other: SuspendBlocker)
      modifies other`policy
      ensures policy == old(other.policy) && other.policy == null
    {
      policy := other.policy;
      new;
      other.policy := null;
    }

    method Reset()
      modifies this`policy, policy
      ensures policy == null
      ensures old(policy) != null ==> old(policy).View() == Blocking.Decrement(old(policy.View()))
    {
      if policy != null {
        policy.DecrementSuspendBlock();
        policy := null;
      }
    }

    /** Move assignment: gives up what is held, then takes over the other's policy. */
    method Assign(other: SuspendBlocker)
      modifies this`policy, other`policy, policy
      ensures this != other ==> policy == old(other.policy) && other.policy == null
      ensures this != other && old(policy) != null ==> old(policy).View() == Blocking.Decrement(old(policy.View()))
      ensures this == other ==> policy == old(policy) && (policy != null ==> policy.View() == old(policy.View()))
    {
      if this != other {
        Reset();
        policy := other.policy;
        other.policy := null;
      }
    }
  }

  class ServerPing {
    const conf: Conf
    const policy: ClientConnectivityPolicy
    const pingBlocker: SuspendBlocker
    const windowBlocker: SuspendBlocker
    const restreamBlocker: SuspendBlocker
    var stopped: bool
    var start: Option<nat>
    var waiting: bool
    var inFlight: bool
    var window: Option<nat>
    var restream: bool
    var next: nat
    var reported: Option<nat>
    var sent: seq<nat>
    var restreams: nat

    ghost predicate Valid()
      reads this, pingBlocker, windowBlocker, restreamBlocker
    {
      && pingBlocker != windowBlocker && pingBlocker != restreamBlocker && windowBlocker != restreamBlocker
      && pingBlocker.policy in {null, policy}
      && windowBlocker.policy in {null, policy}
      && restreamBlocker.policy in {null, policy}
    }

    function Blocker(h: Holder): SuspendBlocker {
      match h
      case ForPing => pingBlocker
      case ForWindow => windowBlocker
      case ForRestream => restreamBlocker
    }

    function Held(): set<Holder>
      reads pingBlocker, windowBlocker, restreamBlocker
    {
      set h: Holder | Blocker(h).policy != null
    }

    /** The state of the ping at a time, with so many blockers held by others. */
    function View(now: nat, others: nat): State
      reads this, pingBlocker, windowBlocker, restreamBlocker, policy
    {
      State(now, stopped, start, waiting, inFlight, window, restream, next, reported, sent, restreams, Held(), others,
            policy.View())
    }

    constructor (conf: Conf, policy: ClientConnectivityPolicy, now: nat, nextRx: nat)
      modifies policy
      ensures this.conf == conf && this.policy == policy && Valid()
      ensures fresh(pingBlocker) && fresh(windowBlocker) && fresh(restreamBlocker)
      ensures forall others: nat :: View(now, others) == Init(now, nextRx, others, old(policy.View()))
    {
      this.conf, this.policy := conf, policy;
      pingBlocker := new SuspendBlocker.Empty();
      windowBlocker := new SuspendBlocker.Empty();
      restreamBlocker := new SuspendBlocker.Empty();
      stopped, waiting, inFlight, window, restream, next, sent, restreams := false, false, false, None, false, 0, [], 0;
      reported := None;
      start := None;
      new;
      assert Held() == {};
      if nextRx != 0 && now < nextRx {
        start := Some(nextRx);
      } else {
        ghost var before := View(now, 0);
        Hold(ForPing, now);
        assert View(now, 0) == Pinging.Hold(before, ForPing);
        assert Held() == {ForPing};
        start := Some(now);
      }
    }

    /** Assigns a freshly acquired blocker. */
    method Hold(h: Holder, now: nat)
      requires Valid()
      modifies Blocker(h), policy
      ensures Valid()
      ensures forall others: nat :: View(now, others) == Pinging.Hold(old(View(now, others)), h)
    {
      ghost var before := Held();
      var temp := new SuspendBlocker.Acquire(policy);
      Blocker(h).Assign(temp);
      assert Held() == before + {h};
    }

    method Drop(h: Holder, now: nat)
      requires Valid()
      modifies Blocker(h), policy
      ensures Valid()
      ensures forall others: nat :: View(now, others) == Pinging.Drop(old(View(now, others)), h)
    {
      ghost var before := Held();
      Blocker(h).Reset();
      assert Held() == before - {h};
    }

    method Stop(now: nat)
      requires Valid()
      modifies this, pingBlocker, windowBlocker, restreamBlocker, policy
      ensures Valid()
      ensures forall others: nat :: View(now, others) == DoStop(old(View(now, others)))
    {
      stopped, start, window, restream := true, None, None, false;
      Drop(ForPing, now);
      Drop(ForWindow, now);
      Drop(ForRestream, now);
    }

    method OpenRxWindow(now: nat)
      requires Valid()
      modifies this`window, windowBlocker, policy
      ensures Valid()
      ensures forall others: nat :: View(now, others) == Pinging.OpenRxWindow(old(View(now, others)), conf)
    {
      Hold(ForWindow, now);
      window := Some(now + conf.window);
    }

    /** The part of the pipeline behind the link: checks the stop flag, sends, and reschedules. */
    method MakePing(now: nat, channel: bool)
      requires Valid()
      modifies this, pingBlocker, windowBlocker, policy
      ensures Valid()
      ensures forall others: nat :: View(now, others) == Pinging.MakePing(old(View(now, others)), conf, channel)
    {
      if stopped { return; }
      if !channel { return; }
      SendPing(now);
      OpenRxWindow(now);
      Reschedule(now);
    }

    method Reschedule(now: nat)
      modifies this`next, this`reported, this`start
      ensures next == now + conf.interval && reported == Some(next)
      ensures start == if stopped then old(start) else Some(next)
    {
      next := now + conf.interval;
      reported := Some(next);
      if stopped { return; }
      start := Some(next);
    }

    method SendPing(now: nat)
      requires Valid()
      modifies this`inFlight, this`sent, pingBlocker, policy
      ensures Valid()
      ensures forall others: nat :: View(now, others) ==
                Pinging.Hold(old(View(now, others)), ForPing).(inFlight := true, sent := old(sent) + [now])
    {
      Hold(ForPing, now);
      inFlight := true;
      sent := sent + [now];
    }

    method Start(now: nat, client: bool, linked: bool, channel: bool)
      requires Valid()
      modifies this, pingBlocker, windowBlocker, policy
      ensures Valid()
      ensures forall others: nat ::
                View(now, others) == Pinging.Start(old(View(now, others)), conf, client, linked, channel)
    {
      start := None;
      if !client { return; }
      if linked {
        MakePing(now, channel);
      } else {
        waiting := true;
      }
    }

    method ScheduleRestream(now: nat)
      requires Valid()
      modifies this`restream, restreamBlocker, policy
      ensures Valid()
      ensures forall others: nat :: View(now, others) == Pinging.ScheduleRestream(old(View(now, others)))
    {
      if stopped { return; }
      Hold(ForRestream, now);
      restream := true;
    }

    method OnPingResult(now: nat, ok: bool, client: bool)
      requires Valid()
      modifies this, pingBlocker, restreamBlocker, policy
      ensures Valid()
      ensures forall others: nat :: View(now, others) == Pinging.OnPingResult(old(View(now, others)), ok, client)
    {
      if client && !ok { ScheduleRestream(now); }
      Drop(ForPing, now);
      inFlight := false;
    }
  }
}

/**
 Suspend blockers: movable handles that keep the client from suspending.  The policy counts them
 in eight bits, tells whether suspending is allowed and emits an event when it becomes so.
 */
module SuspendBlocking {

  const COUNT_WRAP: nat := 256

  datatype Policy = Policy(count: nat, canSuspend: bool, fired: nat)

  const IDLE: Policy := Policy(0, true, 0)

  function Increment(p: Policy): Policy {
    p.(count := (p.count + 1) % COUNT_WRAP, canSuspend := false)
  }

  function Decrement(p: Policy): Policy {
    if p.count == 0 then p
    else Policy(p.count - 1, p.count == 1, if p.count == 1 then p.fired + 1 else p.fired)
  }

  /** `live` names the handles that refer to the policy. */
  datatype State = State(policy: Policy, live: set<nat>)

  datatype Step =
    | Acquire(b: nat)
    | MoveInto(b: nat, source: nat)
    | Assign(b: nat, source: nat)
    | Reset(b: nat)

  const START: State := State(IDLE, {})

  function Release(s: State, b: nat): State {
    if b in s.live then State(Decrement(s.policy), s.live - {b}) else s
  }

  function Transfer(s: State, b: nat, source: nat): State {
    if source in s.live then s.(live := s.live - {source} + {b}) else s
  }

  /** Construction needs a new handle; a handle is reset when it is destroyed. */
  predicate Enabled(s: State, step: Step) {
    (step.Acquire? || step.MoveInto?) ==> step.b !in s.live
  }

  function Do(s: State, step: Step): State
    requires Enabled(s, step)
  {
    match step
    case Acquire(b) => State(Increment(s.policy), s.live + {b})
    case MoveInto(b, source) => Transfer(s, b, source)
    case Assign(b, source) => if b == source then s else Transfer(Release(s, b), b, source)
    case Reset(b) => Release(s, b)
  }

  /** What the policy should say. */
  ghost predicate Exact(s: State) {
    && s.policy.count == |s.live|
    && (s.policy.canSuspend <==> s.live == {})
  }

  lemma ReleaseExact(s: State, b: nat)
    requires Exact(s)
    ensures var t := Release(s, b);
            && Exact(t)
            && t.policy.fired == s.policy.fired + (if s.live == {b} then 1 else 0)
  {
    if b in s.live && s.live != {b} {
      assert s.live == (s.live - {b}) + {b};
    }
    if s.live == {b} { assert |s.live| == 1; assert s.live - {b} == {}; }
    else if b in s.live { assert |s.live - {b}| == |s.live| - 1; }
  }

  lemma TransferExact(s: State, b: nat, source: nat)
    requires Exact(s) && b !in s.live
    ensures Exact(Transfer(s, b, source)) && Transfer(s, b, source).policy == s.policy
    ensures Transfer(s, b, source).live == {} <==> s.live == {}
  {
    if source in s.live {
      var t := Transfer(s, b, source);
      assert |t.live| == |s.live|;
      assert b in t.live;
    }
  }

  /** A step keeps the count exact if and only if it leaves at most 255 handles alive; the event
      fires exactly when the last handle is given up. */
  lemma StepExactIff(s: State, step: Step)
    requires Exact(s) && Enabled(s, step) && |s.live| < 256
    ensures var t := Do(s, step);
            && (Exact(t) <==> |t.live| < 256)
            && t.policy.fired == s.policy.fired + (if s.live != {} && t.live == {} then 1 else 0)
  {
    match step
    case Acquire(b) =>
      var t := Do(s, step);
      assert |t.live| == |s.live| + 1;
      assert b in t.live;
    case MoveInto(b, source) =>
      TransferExact(s, b, source);
      NeverGrows(s, step);
    case Assign(b, source) =>
      if b != source {
        ReleaseExact(s, b);
        TransferExact(Release(s, b), b, source);
        if source in s.live { assert source in Release(s, b).live; }
      }
      NeverGrows(s, step);
    case Reset(b) =>
      ReleaseExact(s, b);
      NeverGrows(s, step);
  }

  lemma NeverGrows(s: State, step: Step)
    requires Enabled(s, step) && !step.Acquire?
    ensures |Do(s, step).live| <= |s.live|
  {
    match step
    case MoveInto(b, source) =>
    case Assign(b, source) =>
      if b != source && source in s.live {
        var t := Release(s, b);
        assert |t.live| <= |s.live|;
        assert |t.live - {source} + {b}| <= |t.live|;
      }
    case Reset(b) =>
  }

  ghost predicate StepAt(run: seq<State>, steps: seq<Step>, i: nat)
    requires |run| == |steps| + 1 && i < |steps|
  {
    Enabled(run[i], steps[i]) && run[i + 1] == Do(run[i], steps[i])
  }

  ghost predicate IsRun(run: seq<State>, steps: seq<Step>) {
    && |run| == |steps| + 1
    && run[0] == START
    && forall i :: 0 <= i < |steps| ==> StepAt(run, steps, i)
  }

  /** How often the last handle has been given up. */
  ghost function Emptied(run: seq<State>, i: nat): nat
    requires i < |run|
  {
    if i == 0 then 0 else Emptied(run, i - 1) + if run[i - 1].live != {} && run[i].live == {} then 1 else 0
  }

  /** With at most 255 live handles the count is the number of live handles, suspending is
      allowed exactly when there is none, and the event has fired once per one-to-zero change. */
  lemma {:induction false} CountIsExact(run: seq<State>, steps: seq<Step>, i: nat)
    requires IsRun(run, steps) && i <= |steps|
    requires forall k :: 0 <= k <= i ==> |run[k].live| < 256
    ensures Exact(run[i]) && run[i].policy.fired == Emptied(run, i)
  {
    if i > 0 {
      CountIsExact(run, steps, i - 1);
      assert StepAt(run, steps, i - 1);
      StepExactIff(run[i - 1], steps[i - 1]);
    }
  }

  /** Assigning a freshly acquired blocker: the temporary is acquired first, then moved. */
  function Replace(s: State, b: nat, temp: nat): State
    requires temp !in s.live && temp != b
  {
    var t := Do(s, Acquire(temp));
    var u := Do(t, Assign(b, temp));
    u
  }

  lemma ReplaceFiresNothing(s: State, b: nat, temp: nat)
    requires Exact(s) && temp !in s.live && temp != b && |s.live| + 1 < COUNT_WRAP
    ensures var t := Replace(s, b, temp);
            && Exact(t) && t.live == s.live + {b}
            && t.policy == (if b in s.live then s.policy else Increment(s.policy))
  {
    var t := Do(s, Acquire(temp));
    StepExactIff(s, Acquire(temp));
    StepExactIff(t, Assign(b, temp));
    var u := Do(t, Assign(b, temp));
    assert |t.live| == |s.live| + 1;
    assert u.live == s.live + {b};
    assert b in u.live;
    if b in s.live { assert |s.live| > 0; assert s.live == u.live; }
  }

  /** One handle too many wraps the count to zero while handles are alive. */
  lemma TooManyHandles(s: State, b: nat)
    requires Exact(s) && |s.live| == 255 && b !in s.live
    ensures var t := Do(s, Acquire(b));
            && t.policy.count == 0 && |t.live| == 256
            && Do(t, Reset(b)).policy.count == 0 && |Do(t, Reset(b)).live| == 255
  {
    var t := Do(s, Acquire(b));
    assert |t.live| == |s.live| + 1;
    assert t.live - {b} == s.live;
  }
}

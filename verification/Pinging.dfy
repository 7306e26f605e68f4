/**
 One server's periodic ping.  It holds up to three suspend blockers of its own, beside any number
 held by others: for the ping in flight, for the receive window, and for a restream to come.
 */
module Pinging {
  import Blocking = SuspendBlocking
  import opened Options

  type Policy = Blocking.Policy

  datatype Holder = ForPing | ForWindow | ForRestream
  datatype Conf = Conf(interval: nat, window: nat)

  /** `start`, `window` and `restream` are the scheduled tasks, `waiting` the subscription to the
      link, `inFlight` a ping without a result, `sent` the times of all pings,
      `reported` the next service time the policy was told. */
  datatype State = State(
    now: nat, stopped: bool, start: Option<nat>, waiting: bool, inFlight: bool, window: Option<nat>, restream: bool,
    next: nat, reported: Option<nat>, sent: seq<nat>, restreams: nat, held: set<Holder>, others: nat, policy: Policy)

  datatype Step =
    | Tick(now: nat)
    | StartTask(client: bool, linked: bool, channel: bool)
    | Linked(channel: bool)
    | PingResult(ok: bool, client: bool)
    | WindowTask
    | RestreamTask(client: bool)
    | Stop
    | OtherAcquire
    | OtherRelease

  function Live(s: State): nat {
    |s.held| + s.others
  }

  /** The constructor: an early ping waits for its time, else the first ping is blocked for now. */
  function Init(now: nat, nextRx: nat, others: nat, policy: Policy): State {
    if nextRx != 0 && now < nextRx then
      State(now, false, Some(nextRx), false, false, None, false, 0, None, [], 0, {}, others, policy)
    else
      State(now, false, Some(now), false, false, None, false, 0, None, [], 0, {ForPing}, others,
            Blocking.Increment(policy))
  }

  /** Assigns a fresh blocker; one that is held is given up only after the new one is acquired. */
  function Hold(s: State, h: Holder): State {
    var p := Blocking.Increment(s.policy);
    s.(policy := if h in s.held then Blocking.Decrement(p) else p, held := s.held + {h})
  }

  function Drop(s: State, h: Holder): State {
    if h in s.held then s.(policy := Blocking.Decrement(s.policy), held := s.held - {h}) else s
  }

  function OpenRxWindow(s: State, conf: Conf): State {
    Hold(s, ForWindow).(window := Some(s.now + conf.window))
  }

  /** MakePing with its checks of the stop flag and the rescheduling that follows it. */
  function MakePing(s: State, conf: Conf, channel: bool): State {
    if s.stopped || !channel then s
    else
      var t := OpenRxWindow(Hold(s, ForPing).(inFlight := true, sent := s.sent + [s.now]), conf);
      t.(next := s.now + conf.interval, reported := Some(s.now + conf.interval), start := Some(s.now + conf.interval))
  }

  function Start(s: State, conf: Conf, client: bool, linked: bool, channel: bool): State {
    var t := s.(start := None);
    if !client then t else if linked then MakePing(t, conf, channel) else t.(waiting := true)
  }

  function ScheduleRestream(s: State): State {
    if s.stopped then s else Hold(s, ForRestream).(restream := true)
  }

  function OnPingResult(s: State, ok: bool, client: bool): State {
    Drop(if client && !ok then ScheduleRestream(s) else s, ForPing).(inFlight := false)
  }

  function DoStop(s: State): State {
    var t := s.(stopped := true, start := None, window := None, restream := false);
    Drop(Drop(Drop(t, ForPing), ForWindow), ForRestream)
  }

  /** The largest number of handles alive at any moment of a step, temporaries included. */
  function Peak(s: State, step: Step): nat {
    match step
    case StartTask(client, linked, channel) => if client && linked && channel then PingPeak(s) else Live(s)
    case Linked(channel) => if channel then PingPeak(s) else Live(s)
    case PingResult(ok, client) => if client && !ok && !s.stopped then Live(s) + 1 else Live(s)
    case OtherAcquire => Live(s) + 1
    case _ => Live(s)
  }

  function PingPeak(s: State): nat {
    if s.stopped then Live(s) else if ForPing in s.held then Live(s) + 1 else Live(s) + 2
  }

  /** A task runs once it is due.  The eight-bit count must hold all handles. */
  predicate Enabled(s: State, step: Step) {
    && Peak(s, step) < Blocking.COUNT_WRAP
    && match step
       case Tick(now) => s.now <= now
       case StartTask(_, _, _) => s.start.Some? && s.start.value <= s.now
       case Linked(_) => s.waiting
       case PingResult(_, _) => s.inFlight
       case WindowTask => s.window.Some? && s.window.value <= s.now
       case RestreamTask(_) => s.restream
       case Stop => true
       case OtherAcquire => true
       case OtherRelease => s.others > 0
  }

  function Do(s: State, conf: Conf, step: Step): State
    requires Enabled(s, step)
  {
    match step
    case Tick(now) => s.(now := now)
    case StartTask(client, linked, channel) => Start(s, conf, client, linked, channel)
    case Linked(channel) => MakePing(s.(waiting := false), conf, channel)
    case PingResult(ok, client) => OnPingResult(s, ok, client)
    case WindowTask => Drop(s.(window := None), ForWindow)
    case RestreamTask(client) =>
      Drop(s.(restream := false, restreams := if client then s.restreams + 1 else s.restreams), ForRestream)
    case Stop => DoStop(s)
    case OtherAcquire => s.(others := s.others + 1, policy := Blocking.Increment(s.policy))
    case OtherRelease => s.(others := s.others - 1, policy := Blocking.Decrement(s.policy))
  }

  ghost predicate StepAt(run: seq<State>, conf: Conf, steps: seq<Step>, i: nat)
    requires |run| == |steps| + 1 && i < |steps|
  {
    Enabled(run[i], steps[i]) && run[i + 1] == Do(run[i], conf, steps[i])
  }

  ghost predicate IsRun(run: seq<State>, conf: Conf, steps: seq<Step>) {
    && |run| == |steps| + 1
    && (exists now: nat, nextRx: nat, others: nat, fired: nat
           :: run[0] == Started(now, nextRx, others, fired) && others + 1 < Blocking.COUNT_WRAP)
    && forall i :: 0 <= i < |steps| ==> StepAt(run, conf, steps, i)
  }

  function Started(now: nat, nextRx: nat, others: nat, fired: nat): State {
    Init(now, nextRx, others, Blocking.Policy(others, others == 0, fired))
  }

  // ---------------------------------------------------------------- the policy's count

  ghost predicate Counted(s: State) {
    && s.policy.count == Live(s) < Blocking.COUNT_WRAP
    && (s.policy.canSuspend <==> Live(s) == 0)
  }

  lemma HoldCounted(s: State, h: Holder)
    requires Counted(s) && Live(s) + 1 < Blocking.COUNT_WRAP
    ensures var t := Hold(s, h);
            && Counted(t) && h in t.held && Live(t) <= Live(s) + 1 && t.policy.fired == s.policy.fired
            && t == s.(held := t.held, policy := t.policy)
  {
    if h in s.held {
      assert s.held + {h} == s.held;
      assert |s.held| > 0;
    } else {
      assert |s.held + {h}| == |s.held| + 1;
    }
  }

  lemma DropCounted(s: State, h: Holder)
    requires Counted(s)
    ensures var t := Drop(s, h);
            && Counted(t) && t.held == s.held - {h} && t == s.(held := t.held, policy := t.policy)
  {
    if h in s.held {
      assert |s.held - {h}| == |s.held| - 1;
    }
  }

  // ---------------------------------------------------------------- the invariant

  function LastSent(s: State): nat
    requires s.sent != []
  {
    s.sent[|s.sent| - 1]
  }

  /** While the ping runs, each thing it waits for is covered by a blocker, and the window task
      stands for the last ping sent. */
  ghost predicate Covered(s: State, conf: Conf) {
    && (s.inFlight ==> ForPing in s.held)
    && (s.restream ==> ForRestream in s.held)
    && (s.window.Some? ==> ForWindow in s.held && s.sent != [] && s.window.value == LastSent(s) + conf.window)
    && (s.sent != [] && s.window.None? ==> LastSent(s) + conf.window <= s.now)
  }

  ghost predicate Silent(s: State) {
    s.start.None? && s.window.None? && !s.restream && s.held == {}
  }

  ghost predicate Inv(s: State, conf: Conf) {
    && Counted(s)
    && (if s.stopped then Silent(s) else Covered(s, conf))
    && (forall k :: 0 <= k < |s.sent| ==> s.sent[k] <= s.now)
  }

  lemma InitInv(now: nat, nextRx: nat, others: nat, fired: nat, conf: Conf)
    requires others + 1 < Blocking.COUNT_WRAP
    ensures Inv(Started(now, nextRx, others, fired), conf)
  {
  }

  lemma MakePingInv(s: State, conf: Conf, channel: bool)
    requires Inv(s, conf) && (channel ==> PingPeak(s) < Blocking.COUNT_WRAP)
    ensures Inv(MakePing(s, conf, channel), conf)
    ensures s.stopped ==> MakePing(s, conf, channel) == s
  {
    if !s.stopped && channel {
      HoldCounted(s, ForPing);
      var t := Hold(s, ForPing).(inFlight := true, sent := s.sent + [s.now]);
      HoldCounted(t, ForWindow);
    }
  }

  lemma ResultInv(s: State, conf: Conf, ok: bool, client: bool)
    requires Inv(s, conf) && (client && !ok && !s.stopped ==> Live(s) + 1 < Blocking.COUNT_WRAP)
    ensures Inv(OnPingResult(s, ok, client), conf)
  {
    var t := if client && !ok then ScheduleRestream(s) else s;
    if client && !ok && !s.stopped { HoldCounted(s, ForRestream); }
    DropCounted(t, ForPing);
  }

  lemma StopInv(s: State, conf: Conf)
    requires Inv(s, conf)
    ensures Inv(DoStop(s), conf) && DoStop(s).stopped && DoStop(s).sent == s.sent
  {
    var t := s.(stopped := true, start := None, window := None, restream := false);
    DropCounted(t, ForPing);
    DropCounted(Drop(t, ForPing), ForWindow);
    DropCounted(Drop(Drop(t, ForPing), ForWindow), ForRestream);
    assert s.held <= {ForPing, ForWindow, ForRestream} by {
      forall h | h in s.held ensures h in {ForPing, ForWindow, ForRestream} {
        assert h.ForPing? || h.ForWindow? || h.ForRestream?;
      }
    }
    assert DoStop(s).held == {};
  }

  lemma StartInv(s: State, conf: Conf, step: Step)
    requires Inv(s, conf) && Enabled(s, step) && (step.StartTask? || step.Linked?)
    ensures Inv(Do(s, conf, step), conf)
  {
    if step.Linked? {
      MakePingInv(s.(waiting := false), conf, step.channel);
    } else if step.client && step.linked {
      MakePingInv(s.(start := None), conf, step.channel);
    }
  }

  lemma TaskInv(s: State, conf: Conf, step: Step)
    requires Inv(s, conf) && Enabled(s, step) && (step.WindowTask? || step.RestreamTask?)
    ensures Inv(Do(s, conf, step), conf)
  {
    if step.WindowTask? {
      DropCounted(s.(window := None), ForWindow);
    } else {
      DropCounted(s.(restream := false, restreams := Do(s, conf, step).restreams), ForRestream);
    }
  }

  lemma OtherInv(s: State, conf: Conf, step: Step)
    requires Inv(s, conf) && Enabled(s, step) && (step.Tick? || step.OtherAcquire? || step.OtherRelease?)
    ensures Inv(Do(s, conf, step), conf)
  {
  }

  lemma StepKeepsInv(s: State, conf: Conf, step: Step)
    requires Inv(s, conf) && Enabled(s, step)
    ensures Inv(Do(s, conf, step), conf)
  {
    if step.StartTask? || step.Linked? {
      StartInv(s, conf, step);
    } else if step.PingResult? {
      ResultInv(s, conf, step.ok, step.client);
    } else if step.WindowTask? || step.RestreamTask? {
      TaskInv(s, conf, step);
    } else if step.Stop? {
      StopInv(s, conf);
    } else {
      OtherInv(s, conf, step);
    }
  }

  lemma {:induction false} EveryReachableStateIsInv(run: seq<State>, conf: Conf, steps: seq<Step>, i: nat)
    requires IsRun(run, conf, steps) && i <= |steps|
    ensures Inv(run[i], conf)
  {
    if i == 0 {
      var now: nat, nextRx: nat, others: nat, fired: nat
        :| run[0] == Started(now, nextRx, others, fired) && others + 1 < Blocking.COUNT_WRAP;
      InitInv(now, nextRx, others, fired, conf);
    } else {
      EveryReachableStateIsInv(run, conf, steps, i - 1);
      assert StepAt(run, conf, steps, i - 1);
      StepKeepsInv(run[i - 1], conf, steps[i - 1]);
    }
  }

  /** Until the receive window of the last ping has passed, suspending is not allowed; nor while
      a ping is in flight. */
  lemma WindowBlocksSuspend(run: seq<State>, conf: Conf, steps: seq<Step>, i: nat)
    requires IsRun(run, conf, steps) && i <= |steps| && !run[i].stopped
    ensures run[i].sent != [] && run[i].now < LastSent(run[i]) + conf.window ==> !run[i].policy.canSuspend
    ensures run[i].inFlight ==> !run[i].policy.canSuspend
  {
    EveryReachableStateIsInv(run, conf, steps, i);
    var s := run[i];
    if ForWindow in s.held || ForPing in s.held { assert |s.held| > 0; }
  }

  lemma StoppedStep(s: State, conf: Conf, step: Step)
    requires Inv(s, conf) && Enabled(s, step) && s.stopped
    ensures Do(s, conf, step).stopped && Do(s, conf, step).sent == s.sent && Do(s, conf, step).restreams == s.restreams
  {
    if step.Stop? { StopInv(s, conf); }
    if step.PingResult? { DropCounted(s, ForPing); }
  }

  /** After Stop the ping holds no blocker in any later state, and sends and restreams nothing. */
  lemma {:induction false} StoppedIsSilent(run: seq<State>, conf: Conf, steps: seq<Step>, i: nat, j: nat)
    requires IsRun(run, conf, steps) && i <= j <= |steps| && run[i].stopped
    ensures run[j].stopped && run[j].held == {} && run[j].sent == run[i].sent && run[j].restreams == run[i].restreams
    decreases j
  {
    EveryReachableStateIsInv(run, conf, steps, j);
    if i < j {
      StoppedIsSilent(run, conf, steps, i, j - 1);
      EveryReachableStateIsInv(run, conf, steps, j - 1);
      assert StepAt(run, conf, steps, j - 1);
      StoppedStep(run[j - 1], conf, steps[j - 1]);
    }
  }

  // ---------------------------------------------------------------- one chain of pings

  /** At most one of the next start and the wait for the link is outstanding, and pings are sent
      no closer together than the interval. */
  ghost predicate Paced(s: State, conf: Conf) {
    && (s.start.Some? ==> !s.waiting)
    && (s.sent != [] ==> s.next == LastSent(s) + conf.interval && s.reported == Some(s.next))
    && (s.sent != [] && s.start.Some? ==> s.start.value >= s.next)
    && (s.sent != [] && s.waiting ==> s.next <= s.now)
    && (forall k :: 0 < k < |s.sent| ==> s.sent[k - 1] + conf.interval <= s.sent[k])
  }

  lemma MakePingPaced(s: State, conf: Conf, channel: bool)
    requires Paced(s, conf) && s.start.None? && !s.waiting && (s.sent != [] ==> s.next <= s.now)
    ensures Paced(MakePing(s, conf, channel), conf)
  {
  }

  /** Blockers have no part in the pace. */
  lemma SamePace(s: State, t: State, conf: Conf)
    requires Paced(s, conf) && t.sent == s.sent && t.next == s.next && t.reported == s.reported && t.now >= s.now
    requires t.waiting == s.waiting && (t.start == s.start || t.start.None?)
    ensures Paced(t, conf)
  {
  }

  lemma StepKeepsPaced(s: State, conf: Conf, step: Step)
    requires Paced(s, conf) && Enabled(s, step)
    ensures Paced(Do(s, conf, step), conf)
  {
    if step.StartTask? {
      StartPaced(s, conf, step.client, step.linked, step.channel);
    } else if step.Linked? {
      SamePace(s, s.(start := None), conf);
      MakePingPaced(s.(waiting := false), conf, step.channel);
    } else {
      NoPingStep(s, conf, step);
      SamePace(s, Do(s, conf, step), conf);
    }
  }

  lemma NoPingStep(s: State, conf: Conf, step: Step)
    requires Enabled(s, step) && !step.StartTask? && !step.Linked?
    ensures var t := Do(s, conf, step);
            && t.sent == s.sent && t.next == s.next && t.reported == s.reported
            && t.now >= s.now && t.waiting == s.waiting
            && (t.start == s.start || t.start.None?)
  {
    if step.PingResult? {
      ResultFrame(s, step.ok, step.client);
    } else if step.Stop? {
      var t := s.(stopped := true, start := None, window := None, restream := false);
      DropFrame(t, ForPing);
      DropFrame(Drop(t, ForPing), ForWindow);
      DropFrame(Drop(Drop(t, ForPing), ForWindow), ForRestream);
    }
  }

  lemma ResultFrame(s: State, ok: bool, client: bool)
    ensures var t := OnPingResult(s, ok, client);
            t == s.(inFlight := false, restream := t.restream, held := t.held, policy := t.policy)
  {
    DropFrame(if client && !ok then ScheduleRestream(s) else s, ForPing);
  }

  lemma DropFrame(s: State, h: Holder)
    ensures Drop(s, h) == s.(held := s.held - {h}, policy := Drop(s, h).policy)
  {
    if h !in s.held { assert s.held - {h} == s.held; }
  }

  lemma StartPaced(s: State, conf: Conf, client: bool, linked: bool, channel: bool)
    requires Paced(s, conf) && s.start.Some? && s.start.value <= s.now
    ensures Paced(Start(s, conf, client, linked, channel), conf)
  {
    var t := s.(start := None);
    SamePace(s, t, conf);
    if client && linked { MakePingPaced(t, conf, channel); }
  }

  /** Successive pings are at least one interval apart, however long a link takes to come up, and
      the policy knows when the next one is due. */
  lemma {:induction false} PingsKeepTheirDistance(run: seq<State>, conf: Conf, steps: seq<Step>, i: nat)
    requires IsRun(run, conf, steps) && i <= |steps|
    ensures Paced(run[i], conf)
  {
    if i > 0 {
      PingsKeepTheirDistance(run, conf, steps, i - 1);
      assert StepAt(run, conf, steps, i - 1);
      StepKeepsPaced(run[i - 1], conf, steps[i - 1]);
    }
  }
}

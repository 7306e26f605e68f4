/**
 What a run of a server's ping has done, told by its steps: when pings are sent and whether the next
 one is scheduled, when a restream is due, and which blockers are held.
 */
module PingHistory {
  import opened Pinging
  import opened Options

  // ---------------------------------------------------------------- sending

  /** The step has a link and a channel to send on, and the ping was not stopped. */
  predicate Sends(s: State, step: Step) {
    !s.stopped && (step == StartTask(true, true, true) || step == Linked(true))
  }

  /** A ping is sent exactly in such a step, at that time, and leaves everything set up: the next
      start one interval later, the policy told of it, the receive window, and both blockers. */
  lemma SentIff(s: State, conf: Conf, step: Step)
    requires Enabled(s, step)
    ensures var t := Do(s, conf, step);
            if Sends(s, step) then
              && t.sent == s.sent + [s.now] && t.inFlight && t.window == Some(s.now + conf.window)
              && t.start == Some(s.now + conf.interval) && t.next == s.now + conf.interval
              && t.reported == Some(s.now + conf.interval)
              && ForPing in t.held && ForWindow in t.held
            else t.sent == s.sent
  {
    if step.StartTask? {
      PingEffect(s.(start := None), conf, step.channel);
    } else if step.Linked? {
      PingEffect(s.(waiting := false), conf, step.channel);
    } else {
      NoPingStep(s, conf, step);
    }
  }

  lemma PingEffect(s: State, conf: Conf, channel: bool)
    ensures var t := MakePing(s, conf, channel);
            if !s.stopped && channel then
              && t.sent == s.sent + [s.now] && t.inFlight && t.window == Some(s.now + conf.window)
              && t.start == Some(s.now + conf.interval) && t.next == s.now + conf.interval
              && t.reported == Some(s.now + conf.interval) && t.held == s.held + {ForPing, ForWindow}
              && t == s.(sent := t.sent, inFlight := true, window := t.window, start := t.start, next := t.next,
                         reported := t.reported, held := t.held, policy := t.policy)
            else t == s
  {
    if !s.stopped && channel { assert s.held + {ForPing} + {ForWindow} == s.held + {ForPing, ForWindow}; }
  }

  /** The start found no client, or there was no channel: nothing starts it again. */
  predicate Ends(step: Step) {
    || (step.StartTask? && (!step.client || (step.linked && !step.channel)))
    || (step.Linked? && !step.channel)
  }

  ghost predicate NeverEnded(steps: seq<Step>, i: nat) {
    forall k :: 0 <= k < i <= |steps| ==> !Ends(steps[k])
  }

  /** A ping is to come: its start is scheduled, or it waits for the link. */
  predicate ToCome(s: State) {
    s.start.Some? || s.waiting
  }

  /** The next start is scheduled for one interval after the last ping, the first for `first`. */
  ghost predicate OnTime(s: State, conf: Conf, first: Option<nat>) {
    s.start.Some? ==> s.start == if s.sent == [] then first else Some(LastSent(s) + conf.interval)
  }

  lemma StepOnTime(s: State, conf: Conf, step: Step, first: Option<nat>)
    requires Enabled(s, step) && OnTime(s, conf, first)
    ensures OnTime(Do(s, conf, step), conf, first)
  {
    if step.StartTask? {
      PingOnTime(s.(start := None), conf, step.channel, first);
    } else if step.Linked? {
      PingOnTime(s.(waiting := false), conf, step.channel, first);
    } else {
      NoPingStep(s, conf, step);
    }
  }

  lemma PingOnTime(s: State, conf: Conf, channel: bool, first: Option<nat>)
    requires OnTime(s, conf, first)
    ensures OnTime(MakePing(s, conf, channel), conf, first)
  {
    PingEffect(s, conf, channel);
  }

  lemma StepToCome(s: State, conf: Conf, step: Step)
    requires Enabled(s, step) && Paced(s, conf) && !Do(s, conf, step).stopped
    ensures ToCome(Do(s, conf, step)) <==> ToCome(s) && !Ends(step)
  {
    SentIff(s, conf, step);
    if !step.StartTask? && !step.Linked? { NoPingStep(s, conf, step); KeepsStart(s, conf, step); }
  }

  lemma KeepsStart(s: State, conf: Conf, step: Step)
    requires Enabled(s, step) && !step.StartTask? && !step.Linked? && !step.Stop?
    ensures Do(s, conf, step).start == s.start && Do(s, conf, step).stopped == s.stopped
  {
    if step.PingResult? { ResultFrame(s, step.ok, step.client); }
  }

  lemma StopStays(s: State, conf: Conf, step: Step)
    requires Enabled(s, step) && s.stopped
    ensures Do(s, conf, step).stopped
  {
    if step.PingResult? { ResultFrame(s, step.ok, step.client); }
  }

  /** Until it is stopped, the ping goes on exactly as long as every start found its client and
      channel; the next start is one interval after the last ping, or the link is waited for. */
  lemma {:induction false} PingGoesOnIff(run: seq<State>, conf: Conf, steps: seq<Step>, i: nat)
    requires IsRun(run, conf, steps) && i <= |steps|
    ensures OnTime(run[i], conf, run[0].start)
    ensures !run[i].stopped ==> (ToCome(run[i]) <==> NeverEnded(steps, i))
  {
    if i > 0 {
      var s, step := run[i - 1], steps[i - 1];
      PingGoesOnIff(run, conf, steps, i - 1);
      PingsKeepTheirDistance(run, conf, steps, i - 1);
      assert StepAt(run, conf, steps, i - 1);
      StepOnTime(s, conf, step, run[0].start);
      if !run[i].stopped {
        if s.stopped { StopStays(s, conf, step); }
        StepToCome(s, conf, step);
        assert NeverEnded(steps, i) <==> NeverEnded(steps, i - 1) && !Ends(step);
      }
    }
  }

  /** The first start is at the announced time if that is yet to come, else at once and blocked. */
  lemma FirstStart(now: nat, nextRx: nat, others: nat, fired: nat)
    ensures var s := Started(now, nextRx, others, fired);
            && s.start == Some(if now < nextRx then nextRx else now)
            && (ForPing in s.held <==> nextRx <= now)
  {
  }

  ghost predicate NotBefore(s: State, first: nat) {
    if s.sent == [] then s.waiting ==> first <= s.now else first <= s.sent[0]
  }

  lemma StepNotBefore(s: State, conf: Conf, step: Step, first: nat)
    requires Enabled(s, step) && OnTime(s, conf, Some(first)) && NotBefore(s, first)
    ensures NotBefore(Do(s, conf, step), first)
  {
    SentIff(s, conf, step);
    if !step.StartTask? && !step.Linked? { NoPingStep(s, conf, step); }
  }

  /** No ping is sent before the first start. */
  lemma {:induction false} FirstPingIsNotEarly(run: seq<State>, conf: Conf, steps: seq<Step>, i: nat)
    requires IsRun(run, conf, steps) && i <= |steps|
    ensures run[0].start.Some? && NotBefore(run[i], run[0].start.value)
  {
    if i > 0 {
      FirstPingIsNotEarly(run, conf, steps, i - 1);
      PingGoesOnIff(run, conf, steps, i - 1);
      assert StepAt(run, conf, steps, i - 1);
      StepNotBefore(run[i - 1], conf, steps[i - 1], run[0].start.value);
    }
  }

  // ---------------------------------------------------------------- restreams

  /** A ping failed while there was a client, and the ping was not stopped by then. */
  predicate Fails(s: State, step: Step) {
    step == PingResult(false, true) && !s.stopped
  }

  ghost predicate DueSince(run: seq<State>, steps: seq<Step>, k: nat, i: nat)
    requires |run| == |steps| + 1 && i <= |steps|
  {
    k < i && Fails(run[k], steps[k]) && forall l :: k < l < i ==> !steps[l].RestreamTask? && !steps[l].Stop?
  }

  ghost predicate RestreamDue(run: seq<State>, steps: seq<Step>, i: nat)
    requires |run| == |steps| + 1 && i <= |steps|
  {
    exists k: nat :: DueSince(run, steps, k, i)
  }

  lemma StepRestream(s: State, conf: Conf, step: Step)
    requires Enabled(s, step)
    ensures var t := Do(s, conf, step);
            && (t.restream <==> Fails(s, step) || (s.restream && !step.RestreamTask? && !step.Stop?))
            && t.restreams == s.restreams + if step == RestreamTask(true) then 1 else 0
  {
    if step.PingResult? {
      var t := if step.client && !step.ok then ScheduleRestream(s) else s;
      DropFrame(t, ForPing);
    } else if step.Stop? {
      var t := s.(stopped := true, start := None, window := None, restream := false);
      DropFrame(t, ForPing);
      DropFrame(Drop(t, ForPing), ForWindow);
      DropFrame(Drop(Drop(t, ForPing), ForWindow), ForRestream);
    }
  }

  lemma DueStep(run: seq<State>, steps: seq<Step>, i: nat)
    requires |run| == |steps| + 1 && 0 < i <= |steps|
    ensures RestreamDue(run, steps, i) <==>
            || Fails(run[i - 1], steps[i - 1])
            || (RestreamDue(run, steps, i - 1) && !steps[i - 1].RestreamTask? && !steps[i - 1].Stop?)
  {
    if Fails(run[i - 1], steps[i - 1]) { assert DueSince(run, steps, i - 1, i); }
    var j := i - 1;
    if k: nat :| DueSince(run, steps, k, j) {
      if !steps[i - 1].RestreamTask? && !steps[i - 1].Stop? { assert DueSince(run, steps, k, i); }
    }
    if k: nat :| DueSince(run, steps, k, i) {
      if k < i - 1 { assert DueSince(run, steps, k, i - 1); }
    }
  }

  function Restreamed(steps: seq<Step>, i: nat): nat
    requires i <= |steps|
  {
    if i == 0 then 0 else Restreamed(steps, i - 1) + if steps[i - 1] == RestreamTask(true) then 1 else 0
  }

  /** A restream is queued exactly if a ping has failed since the last restream task and the stop,
      and every task that finds a client restreams once. */
  lemma {:induction false} RestreamIff(run: seq<State>, conf: Conf, steps: seq<Step>, i: nat)
    requires IsRun(run, conf, steps) && i <= |steps|
    ensures run[i].restream <==> RestreamDue(run, steps, i)
    ensures run[i].restreams == Restreamed(steps, i)
  {
    if i > 0 {
      RestreamIff(run, conf, steps, i - 1);
      assert StepAt(run, conf, steps, i - 1);
      StepRestream(run[i - 1], conf, steps[i - 1]);
      DueStep(run, steps, i);
    }
  }

  // ---------------------------------------------------------------- blockers

  /** Each blocker is held exactly as long as there is a reason: a ping in flight or the first one
      to come, an open window, a queued restream. */
  ghost predicate ExactlyHeld(s: State, first: bool) {
    && (s.inFlight ==> s.sent != [])
    && if s.stopped then s.held == {}
       else
         && (ForPing in s.held <==> s.inFlight || (first && s.sent == []))
         && (ForWindow in s.held <==> s.window.Some?)
         && (ForRestream in s.held <==> s.restream)
  }

  lemma StartExactlyHeld(s: State, conf: Conf, step: Step, first: bool)
    requires Enabled(s, step) && (step.StartTask? || step.Linked?) && ExactlyHeld(s, first)
    ensures ExactlyHeld(Do(s, conf, step), first)
  {
    PingEffect(if step.StartTask? then s.(start := None) else s.(waiting := false), conf, step.channel);
  }

  lemma ResultExactlyHeld(s: State, ok: bool, client: bool, first: bool)
    requires s.inFlight && ExactlyHeld(s, first)
    ensures ExactlyHeld(OnPingResult(s, ok, client), first)
  {
    DropFrame(if client && !ok then ScheduleRestream(s) else s, ForPing);
  }

  lemma StepExactlyHeld(s: State, conf: Conf, step: Step, first: bool)
    requires Enabled(s, step) && Inv(s, conf) && ExactlyHeld(s, first)
    ensures ExactlyHeld(Do(s, conf, step), first)
  {
    if step.StartTask? || step.Linked? {
      StartExactlyHeld(s, conf, step, first);
    } else if step.PingResult? {
      ResultExactlyHeld(s, step.ok, step.client, first);
    } else if step.Stop? {
      StopInv(s, conf);
      NoPingStep(s, conf, step);
      StopFrame(s);
    } else {
      TaskExactlyHeld(s, conf, step, first);
    }
  }

  lemma StopFrame(s: State)
    ensures DoStop(s).inFlight == s.inFlight && DoStop(s).stopped
  {
    var t := s.(stopped := true, start := None, window := None, restream := false);
    DropFrame(t, ForPing);
    DropFrame(Drop(t, ForPing), ForWindow);
    DropFrame(Drop(Drop(t, ForPing), ForWindow), ForRestream);
  }

  lemma TaskExactlyHeld(s: State, conf: Conf, step: Step, first: bool)
    requires Enabled(s, step) && Inv(s, conf) && ExactlyHeld(s, first)
    requires !step.StartTask? && !step.Linked? && !step.PingResult? && !step.Stop?
    ensures ExactlyHeld(Do(s, conf, step), first)
  {
  }

  lemma {:induction false} HeldAt(run: seq<State>, conf: Conf, steps: seq<Step>, i: nat)
    requires IsRun(run, conf, steps) && i <= |steps|
    ensures ExactlyHeld(run[i], ForPing in run[0].held)
  {
    if i > 0 {
      HeldAt(run, conf, steps, i - 1);
      EveryReachableStateIsInv(run, conf, steps, i - 1);
      assert StepAt(run, conf, steps, i - 1);
      StepExactlyHeld(run[i - 1], conf, steps[i - 1], ForPing in run[0].held);
    }
  }

  /** Suspending is allowed exactly if nobody else blocks it and the ping has no reason to. */
  lemma SuspendIff(run: seq<State>, conf: Conf, steps: seq<Step>, i: nat)
    requires IsRun(run, conf, steps) && i <= |steps|
    ensures var s := run[i];
            s.policy.canSuspend <==>
            && s.others == 0
            && (|| s.stopped
                || (!s.inFlight && s.window.None? && !s.restream && (s.sent != [] || ForPing !in run[0].held)))
  {
    HeldAt(run, conf, steps, i);
    EveryReachableStateIsInv(run, conf, steps, i);
    var s := run[i];
    assert Live(s) == 0 <==> s.others == 0 && s.held == {};
    if s.held != {} && !s.stopped {
      var h :| h in s.held;
      assert h.ForPing? || h.ForWindow? || h.ForRestream?;
    }
  }
}

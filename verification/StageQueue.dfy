/**
 The queue that runs actions one after the other.  Starting a stage may push further stages or
 stop the queue, and a stage may be finished as soon as it was started or at some later time.
 */
module StageQueue {

  datatype Phase = Idle | Starting(stage: nat) | Waiting(stage: nat)

  /** Stages are numbered in the order they are pushed.  `started`, `finished` and `dropped` list
      what became of them, `stops` the running stages that were asked to stop. */
  datatype State = State(
    queue: seq<nat>, phase: Phase, pushed: nat, started: seq<nat>, finished: seq<nat>,
    dropped: seq<nat>, stops: seq<nat>)

  /** What happens between two points where code outside the queue runs. */
  datatype Step = Push | Stop | StartReturned(unfinished: bool) | Finish

  const EMPTY: State := State([], Idle, 0, [], [], [], [])

  /** RunStage up to the next call into a stage. */
  function RunNext(s: State): State {
    if s.queue == [] then s.(phase := Idle)
    else s.(queue := s.queue[1..], phase := Starting(s.queue[0]), started := s.started + [s.queue[0]])
  }

  function DoPush(s: State): State {
    var t := s.(queue := s.queue + [s.pushed], pushed := s.pushed + 1);
    if s.phase.Idle? then RunNext(t) else t
  }

  function DoStop(s: State): State {
    s.(queue := [], dropped := s.dropped + s.queue,
       stops := if s.phase.Waiting? then s.stops + [s.phase.stage] else s.stops)
  }

  function Done(s: State): State
    requires !s.phase.Idle?
  {
    RunNext(s.(finished := s.finished + [s.phase.stage]))
  }

  predicate Enabled(s: State, step: Step) {
    match step
    case StartReturned(_) => s.phase.Starting?
    case Finish => s.phase.Waiting?
    case _ => true
  }

  function Do(s: State, step: Step): State
    requires Enabled(s, step)
  {
    match step
    case Push => DoPush(s)
    case Stop => DoStop(s)
    case StartReturned(unfinished) => if unfinished then s.(phase := Waiting(s.phase.stage)) else Done(s)
    case Finish => Done(s)
  }

  ghost predicate StepAt(run: seq<State>, steps: seq<Step>, i: nat)
    requires |run| == |steps| + 1 && i < |steps|
  {
    Enabled(run[i], steps[i]) && run[i + 1] == Do(run[i], steps[i])
  }

  ghost predicate IsRun(run: seq<State>, steps: seq<Step>) {
    && |run| == |steps| + 1
    && run[0] == EMPTY
    && forall i :: 0 <= i < |steps| ==> StepAt(run, steps, i)
  }

  // ---------------------------------------------------------------- the invariant

  ghost predicate Increasing(s: seq<nat>) {
    forall i, j :: 0 <= i < j < |s| ==> s[i] < s[j]
  }

  /** The stages that were started and are not finished. */
  function Unfinished(phase: Phase): seq<nat> {
    if phase.Idle? then [] else [phase.stage]
  }

  /** Each pushed stage is in exactly one place. */
  ghost predicate Placed(s: State, stage: nat) {
    && (stage < s.pushed <==> stage in s.started || stage in s.queue || stage in s.dropped)
    && !(stage in s.started && stage in s.queue)
    && !(stage in s.started && stage in s.dropped)
    && !(stage in s.queue && stage in s.dropped)
  }

  ghost predicate Inv(s: State) {
    && Increasing(s.started + s.queue)
    && (forall stage :: Placed(s, stage))
    && s.started == s.finished + Unfinished(s.phase)
    && (s.phase.Idle? ==> s.queue == [])
  }

  lemma RunNextInv(s: State)
    requires Increasing(s.started + s.queue) && (forall stage :: Placed(s, stage)) && s.started == s.finished
    ensures Inv(RunNext(s))
  {
    var t := RunNext(s);
    if s.queue == [] {
      SamePlaces(s, t);
    } else {
      assert t.started + t.queue == s.started + s.queue;
      assert s.queue == [s.queue[0]] + t.queue;
      forall stage ensures Placed(t, stage) {
        assert Placed(s, stage);
        assert stage in t.queue ==> stage != s.queue[0] by {
          if stage in t.queue {
            var k :| 0 <= k < |t.queue| && t.queue[k] == stage;
            assert (s.started + s.queue)[|s.started|] == s.queue[0];
            assert (s.started + s.queue)[|s.started| + k + 1] == stage;
          }
        }
      }
    }
  }

  lemma EnqueueInv(s: State, t: State)
    requires Inv(s) && t == s.(queue := s.queue + [s.pushed], pushed := s.pushed + 1)
    ensures Increasing(t.started + t.queue) && forall stage :: Placed(t, stage)
  {
    assert t.started + t.queue == (s.started + s.queue) + [s.pushed];
    forall k | 0 <= k < |s.started + s.queue| ensures (s.started + s.queue)[k] < s.pushed {
      assert Placed(s, (s.started + s.queue)[k]);
    }
    forall stage ensures Placed(t, stage) {
      assert Placed(s, stage);
    }
  }

  lemma StopInv(s: State)
    requires Inv(s)
    ensures Inv(DoStop(s))
  {
    var t := DoStop(s);
    assert t.started + t.queue == s.started;
    assert forall i :: 0 <= i < |s.started| ==> (s.started + s.queue)[i] == s.started[i];
    forall stage ensures Placed(t, stage) {
      assert Placed(s, stage);
    }
  }

  lemma StepKeepsInv(s: State, step: Step)
    requires Inv(s) && Enabled(s, step)
    ensures Inv(Do(s, step))
  {
    match step
    case Push =>
      var t := s.(queue := s.queue + [s.pushed], pushed := s.pushed + 1);
      EnqueueInv(s, t);
      if s.phase.Idle? { RunNextInv(t); }
    case Stop => StopInv(s);
    case StartReturned(unfinished) =>
      if unfinished {
        SamePlaces(s, Do(s, step));
      } else {
        DoneInv(s);
      }
    case Finish => DoneInv(s);
  }

  lemma SamePlaces(s: State, t: State)
    requires forall stage :: Placed(s, stage)
    requires t.queue == s.queue && t.started == s.started && t.dropped == s.dropped && t.pushed == s.pushed
    ensures forall stage :: Placed(t, stage)
  {
    forall stage ensures Placed(t, stage) {
      assert Placed(s, stage);
    }
  }

  lemma DoneInv(s: State)
    requires Inv(s) && !s.phase.Idle?
    ensures Inv(Done(s))
  {
    var t := s.(finished := s.finished + [s.phase.stage]);
    SamePlaces(s, t);
    RunNextInv(t);
  }

  /** In every reachable state stages have been started in push order and once each, at most the
      last of them is unfinished, nothing is queued while none runs, and what was dropped was not
      started. */
  lemma {:induction false} EveryReachableStateIsInv(run: seq<State>, steps: seq<Step>, i: nat)
    requires IsRun(run, steps) && i <= |steps|
    ensures Inv(run[i])
  {
    if i > 0 {
      EveryReachableStateIsInv(run, steps, i - 1);
      assert StepAt(run, steps, i - 1);
      StepKeepsInv(run[i - 1], steps[i - 1]);
    } else {
      forall stage ensures Placed(run[0], stage) { }
    }
  }

  lemma StepGrows(s: State, step: Step)
    requires Enabled(s, step)
    ensures var t := Do(s, step); s.started <= t.started && s.dropped <= t.dropped && s.pushed <= t.pushed
  {
  }

  lemma {:induction false} RunGrows(run: seq<State>, steps: seq<Step>, i: nat, j: nat)
    requires IsRun(run, steps) && i <= j <= |steps|
    ensures run[i].started <= run[j].started && run[i].dropped <= run[j].dropped && run[i].pushed <= run[j].pushed
    decreases j
  {
    if i < j {
      RunGrows(run, steps, i, j - 1);
      assert StepAt(run, steps, j - 1);
      StepGrows(run[j - 1], steps[j - 1]);
    }
  }

  /** A stage dropped by Stop is never started, in any later state. */
  lemma DroppedIsNeverStarted(run: seq<State>, steps: seq<Step>, i: nat, j: nat, stage: nat)
    requires IsRun(run, steps) && i <= j <= |steps| && stage in run[i].dropped
    ensures stage !in run[j].started
  {
    RunGrows(run, steps, i, j);
    EveryReachableStateIsInv(run, steps, j);
    assert stage in run[j].dropped;
    assert Placed(run[j], stage);
  }

  /** When nothing runs, everything pushed has been started and finished or was dropped. */
  lemma IdleIsComplete(run: seq<State>, steps: seq<Step>, i: nat, stage: nat)
    requires IsRun(run, steps) && i <= |steps| && run[i].phase.Idle? && stage < run[i].pushed
    ensures stage in run[i].finished <==> stage !in run[i].dropped
  {
    EveryReachableStateIsInv(run, steps, i);
    assert Placed(run[i], stage);
    assert run[i].started == run[i].finished;
  }

  // ---------------------------------------------------------------- stopping and finishing

  lemma StepDrops(s: State, step: Step, stage: nat)
    requires Enabled(s, step)
    ensures stage in Do(s, step).dropped <==> stage in s.dropped || (step.Stop? && stage in s.queue)
  {
  }

  ghost predicate QueuedAtStop(run: seq<State>, steps: seq<Step>, stage: nat, k: nat)
    requires |run| == |steps| + 1
  {
    k < |steps| && steps[k].Stop? && stage in run[k].queue
  }

  /** Exactly the stages that were queued when the queue was stopped are dropped. */
  lemma {:induction false} DroppedIff(run: seq<State>, steps: seq<Step>, i: nat, stage: nat)
    requires IsRun(run, steps) && i <= |steps|
    ensures stage in run[i].dropped <==> exists k: nat :: k < i && QueuedAtStop(run, steps, stage, k)
  {
    if i > 0 {
      DroppedIff(run, steps, i - 1, stage);
      assert StepAt(run, steps, i - 1);
      StepDrops(run[i - 1], steps[i - 1], stage);
      if steps[i - 1].Stop? && stage in run[i - 1].queue { assert QueuedAtStop(run, steps, stage, i - 1); }
      if k: nat :| k < i && QueuedAtStop(run, steps, stage, k) {
        if k < i - 1 { assert stage in run[i - 1].dropped; }
      }
    }
  }

  /** A stage pushed before a stop and not started by then is never started. */
  lemma StoppedIsNeverStarted(run: seq<State>, steps: seq<Step>, i: nat, j: nat, stage: nat)
    requires IsRun(run, steps) && i < j <= |steps| && steps[i].Stop?
    requires stage < run[i].pushed && stage !in run[i].started
    ensures stage !in run[j].started && run[i + 1].queue == []
  {
    EveryReachableStateIsInv(run, steps, i);
    assert Placed(run[i], stage);
    assert StepAt(run, steps, i);
    DroppedIsNeverStarted(run, steps, i + 1, j, stage);
  }

  /** A stage is finished exactly when it ends at once or later, and it is the one started last; a
      start that leaves it unfinished makes the queue wait; a stop asks exactly that stage to stop. */
  lemma LastStartedIsConcerned(s: State, step: Step)
    requires Inv(s) && Enabled(s, step)
    ensures var t := Do(s, step); var last := s.started[if s.started == [] then 0 else |s.started| - 1..];
            && t.finished == s.finished + (if step == Finish || step == StartReturned(false) then last else [])
            && (step == StartReturned(true) ==> t.phase.Waiting? && last == [t.phase.stage] && t.started == s.started)
            && t.stops == s.stops + (if step == Stop && s.phase.Waiting? then last else [])
            && (step == Stop ==> t.phase == s.phase)
  {
    if !s.phase.Idle? { assert s.started[|s.started| - 1..] == [s.phase.stage]; }
  }
}

/**
 ActionsQueue as an object.  A stage is what it does while it is started, and whether its action
 is finished by then.
 */
module ActionsQueue {
  import opened StageQueue
  import opened Options

  datatype Stage = Stage(script: seq<Command>, unfinished: bool)
  datatype Command = PushStage(stage: Stage) | StopQueue

  /** The states a list of steps leads through, and where it ends. */
  ghost predicate CanDo(s: State, steps: seq<Step>)
    decreases |steps|
  {
    steps == [] || (Enabled(s, steps[0]) && CanDo(Do(s, steps[0]), steps[1..]))
  }

  ghost function DoAll(s: State, steps: seq<Step>): State
    requires CanDo(s, steps)
    decreases |steps|
  {
    if steps == [] then s else DoAll(Do(s, steps[0]), steps[1..])
  }

  /** `t` follows from `s` by steps of the queue. */
  ghost predicate Follows(s: State, steps: seq<Step>, t: State) {
    CanDo(s, steps) && DoAll(s, steps) == t
  }

  lemma {:induction false} FollowsStep(s: State, steps: seq<Step>, t: State, step: Step)
    requires Follows(s, steps, t) && Enabled(t, step)
    ensures Follows(s, steps + [step], Do(t, step))
    decreases |steps|
  {
    var all := steps + [step];
    if steps == [] {
      assert all[1..] == [];
    } else {
      FollowsStep(Do(s, steps[0]), steps[1..], t, step);
      assert all[1..] == steps[1..] + [step];
    }
  }

  lemma {:induction false} FollowsInv(s: State, steps: seq<Step>, t: State)
    requires Inv(s) && Follows(s, steps, t)
    ensures Inv(t) && s.started <= t.started
    decreases |steps|
  {
    if steps != [] {
      StepKeepsInv(s, steps[0]);
      StepGrows(s, steps[0]);
      FollowsInv(Do(s, steps[0]), steps[1..], t);
    }
  }

  function Size(stage: Stage): nat
    decreases stage, 0
  {
    1 + ScriptSize(stage.script)
  }

  function ScriptSize(script: seq<Command>): nat
    decreases script, 0
  {
    if script == [] then 0 else CommandSize(script[0]) + ScriptSize(script[1..])
  }

  function CommandSize(c: Command): nat
    decreases c, 0
  {
    if c.PushStage? then Size(c.stage) else 1
  }

  function QueueSize(queue: seq<(nat, Stage)>): nat
    decreases |queue|
  {
    if queue == [] then 0 else Size(queue[0].1) + QueueSize(queue[1..])
  }

  lemma {:induction false} QueueSizeSnoc(queue: seq<(nat, Stage)>, stage: (nat, Stage))
    ensures QueueSize(queue + [stage]) == QueueSize(queue) + Size(stage.1)
    decreases |queue|
  {
    if queue == [] {
      assert (queue + [stage])[1..] == [];
    } else {
      QueueSizeSnoc(queue[1..], stage);
      assert (queue + [stage])[1..] == queue[1..] + [stage];
    }
  }

  function Numbers(queue: seq<(nat, Stage)>): (r: seq<nat>)
    ensures |r| == |queue| && forall i :: 0 <= i < |r| ==> r[i] == queue[i].0
  {
    seq(|queue|, i requires 0 <= i < |queue| => queue[i].0)
  }

  /** The object holds its stages with the numbers they were pushed under, and keeps lists of those
      it has started and of those it has asked to stop. */
  class ActionsQueue {
    var queue: seq<(nat, Stage)>
    var running: Option<(nat, Stage)>
    var pushed: nat
    var started: seq<nat>
    var stops: seq<nat>
    ghost var model: State

    /** Between calls, and while a stage is being started, the object is what the model says. */
    ghost predicate Valid()
      reads this
    {
      && Inv(model)
      && Numbers(queue) == model.queue && pushed == model.pushed
      && started == model.started && stops == model.stops
      && (running.None? <==> model.phase.Idle?)
      && (running.Some? ==> running.value.0 == model.phase.stage)
    }

    /** At the top of RunStage's loop the model is one move ahead: it has taken the first stage. */
    ghost predicate AtLoop()
      reads this
    {
      && Inv(model) && pushed == model.pushed && stops == model.stops
      && if queue == [] then model.phase.Idle? && model.queue == [] && started == model.started
         else && model.phase == Starting(queue[0].0) && Numbers(queue[1..]) == model.queue
              && started + [queue[0].0] == model.started
    }

    constructor ()
      ensures Valid() && model == EMPTY
    {
      queue, running, pushed, started, stops, model := [], None, 0, [], [], EMPTY;
      new;
      forall stage ensures Placed(model, stage) { }
    }

    /** Adds a stage and, if none is running, runs stages until one is left unfinished. */
    method Push(stage: Stage) returns (ghost steps: seq<Step>)
      requires Valid() && !model.phase.Starting?
      modifies this
      ensures Valid() && !model.phase.Starting? && Follows(old(model), steps, model)
      ensures steps != [] && steps[0] == Step.Push && (running.None? ==> queue == [])
      ensures old(started) <= started
    {
      var idle := running.None?;
      queue := queue + [(pushed, stage)];
      pushed := pushed + 1;
      StepKeepsInv(model, Step.Push);
      FollowsStep(model, [], model, Step.Push);
      model := Do(model, Step.Push);
      steps := [Step.Push];
      assert [] + [Step.Push] == steps;
      if idle {
        assert queue[1..] == [];
        steps := RunStage(old(model), steps);
      }
      FollowsInv(old(model), steps, model);
    }

    /** The loop of RunStage. */
    method RunStage(ghost from: State, ghost done: seq<Step>) returns (ghost steps: seq<Step>)
      requires AtLoop() && Follows(from, done, model)
      modifies this
      ensures Valid() && !model.phase.Starting? && Follows(from, steps, model) && done <= steps
    {
      steps := done;
      running := None;
      while queue != []
        invariant AtLoop() && Follows(from, steps, model) && done <= steps
        invariant running.None?
        decreases QueueSize(queue)
      {
        running := Some(queue[0]);
        queue := queue[1..];
        started := started + [running.value.0];
        steps := StartStage(running.value.1.script, from, steps);
        ghost var returned := StartReturned(running.value.1.unfinished);
        StepKeepsInv(model, returned);
        FollowsStep(from, steps, model, returned);
        model, steps := Do(model, returned), steps + [returned];
        if running.value.1.unfinished { break; }
        running := None;
        if queue != [] { assert Numbers(queue)[1..] == Numbers(queue[1..]); }
      }
    }

    /** The stage's own code: what it pushes is only queued, as the stage counts as running, and
        its action is not there yet to be asked to stop. */
    method StartStage(script: seq<Command>, ghost from: State, ghost done: seq<Step>) returns (ghost steps: seq<Step>)
      requires Valid() && running.Some? && model.phase.Starting? && Follows(from, done, model)
      modifies this`queue, this`pushed, this`model
      ensures Valid() && model.phase == old(model.phase) && Follows(from, steps, model) && done <= steps
      ensures QueueSize(queue) <= old(QueueSize(queue)) + ScriptSize(script)
    {
      steps := done;
      for i := 0 to |script|
        invariant Valid() && model.phase == old(model.phase) && Follows(from, steps, model) && done <= steps
        invariant QueueSize(queue) + ScriptSize(script[i..]) <= old(QueueSize(queue)) + ScriptSize(script)
      {
        assert script[i..][1..] == script[i + 1..];
        ghost var step;
        match script[i] {
          case PushStage(stage) =>
            QueueSizeSnoc(queue, (pushed, stage));
            queue := queue + [(pushed, stage)];
            pushed := pushed + 1;
            step := Step.Push;
          case StopQueue =>
            queue := [];
            step := Step.Stop;
        }
        StepKeepsInv(model, step);
        FollowsStep(from, steps, model, step);
        model, steps := Do(model, step), steps + [step];
      }
    }

    /** Drops what is queued; a running action is asked to stop and finishes in its own time. */
    method Stop()
      requires Valid() && !model.phase.Starting?
      modifies this`queue, this`stops, this`model
      ensures Valid() && model == Do(old(model), Step.Stop) && queue == []
      ensures stops == old(stops) + (if running.Some? then [running.value.0] else [])
    {
      StepKeepsInv(model, Step.Stop);
      queue := [];
      if running.Some? { stops := stops + [running.value.0]; }
      model := Do(model, Step.Stop);
    }

    /** The running action's finished event. */
    method OnFinished() returns (ghost steps: seq<Step>)
      requires Valid() && model.phase.Waiting?
      modifies this
      ensures Valid() && !model.phase.Starting? && Follows(old(model), steps, model)
      ensures steps != [] && steps[0] == Finish && (running.None? ==> queue == [])
      ensures old(started) <= started
    {
      StepKeepsInv(model, Finish);
      FollowsStep(model, [], model, Finish);
      model := Do(model, Finish);
      steps := [Finish];
      assert [] + [Finish] == steps;
      if queue != [] { assert Numbers(queue)[1..] == Numbers(queue[1..]); }
      steps := RunStage(old(model), steps);
      FollowsInv(old(model), steps, model);
    }
  }
}

/**
 The bounded registry of pending responses.  A completion takes its entry off the list, runs the
 entry's callback and only then returns the entry's slot to the pool.  The callback may create,
 resolve and evict further entries, so a run is a sequence of steps over a stack of callbacks.
 */
module PendingRegistry {
  import opened Mstream

  /** A pending response: its request, its number in creation order, and the type of its result. */
  datatype Entry = Entry(id: nat, serial: nat, ty: Ty)
  datatype Outcome = Result | Error | Evicted
  datatype Then = Nothing | Allocate(id: nat, ty: Ty)

  /** A callback that is running, and what the interrupted call does once it returns. */
  datatype Frame = Frame(serial: nat, next: Then)

  /** `serial` numbers entries in creation order.  `pool` holds the entries that occupy a slot.
      `log` lists the callbacks in the order they were called.  `failed` marks an allocation from
      an exhausted pool. */
  datatype State = State(
    cap: nat, pending: seq<Entry>, pool: set<nat>, frames: seq<Frame>, created: nat,
    log: seq<(nat, Outcome)>, failed: bool)

  datatype Step = Deliver(id: nat, outcome: Outcome) | Create(id: nat, ty: Ty) | Return

  function Start(cap: nat): State {
    State(cap, [], {}, [], 0, [], false)
  }

  /** The position of the first entry for an id, or the length of the list. */
  function Find(pending: seq<Entry>, id: nat): (i: nat)
    ensures i <= |pending|
    ensures i < |pending| ==> pending[i].id == id
    ensures forall j :: 0 <= j < i ==> pending[j].id != id
  {
    if pending == [] || pending[0].id == id then 0 else 1 + Find(pending[1..], id)
  }

  predicate Registered(pending: seq<Entry>, id: nat) {
    Find(pending, id) < |pending|
  }

  function Without(pending: seq<Entry>, i: nat): seq<Entry>
    requires i < |pending|
  {
    pending[..i] + pending[i + 1..]
  }

  /** Takes entry `i` off the list and calls it. */
  function Begin(s: State, i: nat, outcome: Outcome, next: Then): State
    requires i < |s.pending|
  {
    var serial := s.pending[i].serial;
    s.(pending := Without(s.pending, i), frames := s.frames + [Frame(serial, next)], log := s.log + [(serial, outcome)])
  }

  /** Takes a slot from the pool and appends the entry. */
  function Alloc(s: State, id: nat, ty: Ty): State {
    if |s.pool| >= s.cap then s.(failed := true)
    else s.(pending := s.pending + [Entry(id, s.created, ty)], pool := s.pool + {s.created}, created := s.created + 1)
  }

  predicate Enabled(s: State, step: Step) {
    && !s.failed
    && match step
       case Deliver(id, outcome) => Registered(s.pending, id) && !outcome.Evicted?
       case Create(_, _) => s.cap > 0
       case Return => s.frames != []
  }

  function Do(s: State, step: Step): State
    requires Enabled(s, step)
  {
    match step
    case Deliver(id, outcome) => Begin(s, Find(s.pending, id), outcome, Nothing)
    case Create(id, ty) =>
      if Registered(s.pending, id) then Begin(s, Find(s.pending, id), Evicted, Allocate(id, ty))
      else if |s.pending| >= s.cap then Begin(s, 0, Evicted, Allocate(id, ty))
      else Alloc(s, id, ty)
    case Return => DoReturn(s)
  }

  function DoReturn(s: State): State
    requires s.frames != []
  {
    var top := s.frames[|s.frames| - 1];
    var freed := s.(frames := s.frames[..|s.frames| - 1], pool := s.pool - {top.serial});
    if top.next.Allocate? then Alloc(freed, top.next.id, top.next.ty) else freed
  }

  // ---------------------------------------------------------------- runs

  ghost predicate StepAt(run: seq<State>, steps: seq<Step>, i: nat)
    requires |run| == |steps| + 1 && i < |steps|
  {
    Enabled(run[i], steps[i]) && run[i + 1] == Do(run[i], steps[i])
  }

  ghost predicate IsRun(run: seq<State>, steps: seq<Step>, cap: nat) {
    && |run| == |steps| + 1
    && run[0] == Start(cap)
    && forall i :: 0 <= i < |steps| ==> StepAt(run, steps, i)
  }

  // ---------------------------------------------------------------- the invariant

  ghost predicate Ordered(pending: seq<Entry>) {
    forall i, j :: 0 <= i < j < |pending| ==> pending[i].serial < pending[j].serial
  }

  ghost predicate IsPending(s: State, serial: nat) {
    exists i :: 0 <= i < |s.pending| && s.pending[i].serial == serial
  }

  ghost predicate IsRunning(s: State, serial: nat) {
    exists i :: 0 <= i < |s.frames| && s.frames[i].serial == serial
  }

  ghost predicate IsDone(s: State, serial: nat) {
    exists i :: 0 <= i < |s.log| && s.log[i].0 == serial
  }

  /** The entry has been called once, or it is pending, or it was never created. */
  ghost predicate Accounted(s: State, serial: nat) {
    && (serial < s.created <==> IsPending(s, serial) || IsDone(s, serial))
    && !(IsPending(s, serial) && IsDone(s, serial))
    && (IsRunning(s, serial) ==> IsDone(s, serial))
    && (serial in s.pool <==> IsPending(s, serial) || IsRunning(s, serial))
  }

  ghost predicate DistinctFrames(frames: seq<Frame>) {
    forall i, j :: 0 <= i < j < |frames| ==> frames[i].serial != frames[j].serial
  }

  ghost predicate DistinctLog(log: seq<(nat, Outcome)>) {
    forall i, j :: 0 <= i < j < |log| ==> log[i].0 != log[j].0
  }

  ghost predicate Inv(s: State) {
    && Ordered(s.pending) && DistinctFrames(s.frames) && DistinctLog(s.log)
    && (forall serial :: Accounted(s, serial))
    && |s.pool| == |s.pending| + |s.frames| <= s.cap
  }

  lemma BeginKeepsInv(s: State, i: nat, outcome: Outcome, next: Then)
    requires Inv(s) && i < |s.pending|
    ensures Inv(Begin(s, i, outcome, next))
  {
    var t := Begin(s, i, outcome, next);
    var taken := s.pending[i].serial;
    assert Accounted(s, taken) && IsPending(s, taken);
    forall serial ensures Accounted(t, serial) {
      BeginAccounts(s, i, outcome, next, serial);
    }
    forall k | 0 <= k < |s.log| ensures s.log[k].0 != taken {
      assert IsDone(s, s.log[k].0);
    }
    forall k | 0 <= k < |s.frames| ensures s.frames[k].serial != taken {
      assert Accounted(s, s.frames[k].serial) && IsRunning(s, s.frames[k].serial);
    }
  }

  lemma BeginAccounts(s: State, i: nat, outcome: Outcome, next: Then, serial: nat)
    requires Ordered(s.pending) && i < |s.pending| && Accounted(s, serial)
    ensures Accounted(Begin(s, i, outcome, next), serial)
  {
    var t := Begin(s, i, outcome, next);
    var taken := s.pending[i].serial;
    assert t.log[|s.log|].0 == taken && t.frames[|s.frames|].serial == taken;
    assert forall k :: 0 <= k < |s.log| ==> t.log[k] == s.log[k];
    assert forall k :: 0 <= k < |s.frames| ==> t.frames[k] == s.frames[k];
    assert IsDone(t, serial) <==> IsDone(s, serial) || serial == taken;
    assert IsRunning(t, serial) <==> IsRunning(s, serial) || serial == taken;
    TakenIsGone(s, i, outcome, next, serial);
    assert serial == taken ==> IsPending(s, serial);
  }

  lemma TakenIsGone(s: State, i: nat, outcome: Outcome, next: Then, serial: nat)
    requires Ordered(s.pending) && i < |s.pending|
    ensures IsPending(Begin(s, i, outcome, next), serial) <==> IsPending(s, serial) && serial != s.pending[i].serial
  {
    var t := Begin(s, i, outcome, next);
    if IsPending(s, serial) && serial != s.pending[i].serial {
      var k :| 0 <= k < |s.pending| && s.pending[k].serial == serial;
      assert t.pending[if k < i then k else k - 1].serial == serial;
    }
    if IsPending(t, serial) {
      var k :| 0 <= k < |t.pending| && t.pending[k].serial == serial;
      assert s.pending[if k < i then k else k + 1].serial == serial;
    }
  }

  lemma AllocKeepsInv(s: State, id: nat, ty: Ty)
    requires Inv(s)
    ensures Inv(Alloc(s, id, ty))
  {
    var t := Alloc(s, id, ty);
    if !t.failed || s.failed {
      assert Accounted(s, s.created);
      forall k | 0 <= k < |s.pending| ensures s.pending[k].serial < s.created {
        assert Accounted(s, s.pending[k].serial) && IsPending(s, s.pending[k].serial);
      }
    }
    forall serial ensures Accounted(t, serial) {
      AllocAccounts(s, id, ty, serial);
    }
  }

  lemma AllocAccounts(s: State, id: nat, ty: Ty, serial: nat)
    requires Accounted(s, serial) && Accounted(s, s.created)
    ensures Accounted(Alloc(s, id, ty), serial)
  {
    var t := Alloc(s, id, ty);
    if |s.pool| < s.cap {
      assert t.pending[|s.pending|].serial == s.created;
      assert forall k :: 0 <= k < |s.pending| ==> t.pending[k] == s.pending[k];
      assert IsPending(t, serial) <==> IsPending(s, serial) || serial == s.created;
    }
    assert IsDone(t, serial) <==> IsDone(s, serial);
    assert IsRunning(t, serial) <==> IsRunning(s, serial);
  }

  function Freed(s: State): State
    requires s.frames != []
  {
    var last := |s.frames| - 1;
    s.(frames := s.frames[..last], pool := s.pool - {s.frames[last].serial})
  }

  lemma FreedKeepsInv(s: State)
    requires Inv(s) && s.frames != []
    ensures Inv(Freed(s)) && |Freed(s).pool| < s.cap
  {
    var t := Freed(s);
    var last := |s.frames| - 1;
    var gone := s.frames[last].serial;
    assert Accounted(s, gone) && IsRunning(s, gone);
    forall serial ensures Accounted(t, serial) {
      assert Accounted(s, serial);
      FreedRunning(s, serial);
      assert IsPending(t, serial) <==> IsPending(s, serial);
      assert IsDone(t, serial) <==> IsDone(s, serial);
    }
  }

  lemma FreedRunning(s: State, serial: nat)
    requires DistinctFrames(s.frames) && s.frames != []
    ensures IsRunning(Freed(s), serial) <==> IsRunning(s, serial) && serial != s.frames[|s.frames| - 1].serial
  {
    var t := Freed(s);
    assert forall k :: 0 <= k < |t.frames| ==> t.frames[k] == s.frames[k];
    if IsRunning(s, serial) && serial != s.frames[|s.frames| - 1].serial {
      var k :| 0 <= k < |s.frames| && s.frames[k].serial == serial;
      assert t.frames[k].serial == serial;
    }
  }

  lemma StepKeepsInv(s: State, step: Step)
    requires Inv(s) && Enabled(s, step)
    ensures Inv(Do(s, step))
  {
    match step
    case Deliver(id, outcome) => BeginKeepsInv(s, Find(s.pending, id), outcome, Nothing);
    case Create(id, ty) =>
      if Registered(s.pending, id) {
        BeginKeepsInv(s, Find(s.pending, id), Evicted, Allocate(id, ty));
      } else if |s.pending| >= s.cap {
        BeginKeepsInv(s, 0, Evicted, Allocate(id, ty));
      } else {
        AllocKeepsInv(s, id, ty);
      }
    case Return =>
      FreedKeepsInv(s);
      var next := s.frames[|s.frames| - 1].next;
      if next.Allocate? { AllocKeepsInv(Freed(s), next.id, next.ty); }
  }

  lemma StartIsInv(cap: nat)
    ensures Inv(Start(cap))
  {
    var s := Start(cap);
    forall serial ensures Accounted(s, serial) {
      assert !IsPending(s, serial) && !IsDone(s, serial) && !IsRunning(s, serial);
    }
  }

  /** Whatever the callbacks do, entries stay in creation order, each created entry is either
      pending or has been called exactly once, and the pool holds exactly the pending entries
      and those whose callback is running. */
  lemma {:induction false} EveryReachableStateIsInv(run: seq<State>, steps: seq<Step>, cap: nat, i: nat)
    requires IsRun(run, steps, cap) && i <= |steps|
    ensures Inv(run[i])
  {
    if i == 0 {
      StartIsInv(cap);
    } else {
      EveryReachableStateIsInv(run, steps, cap, i - 1);
      assert StepAt(run, steps, i - 1);
      StepKeepsInv(run[i - 1], steps[i - 1]);
    }
  }

  /** An entry leaves the list only when its callback is called, and the call is final. */
  lemma CompletionIsFinal(s: State, step: Step, serial: nat)
    requires Inv(s) && Enabled(s, step)
    ensures IsPending(s, serial) && !IsPending(Do(s, step), serial) ==>
              Do(s, step).log[|s.log|..] != [] && Do(s, step).log[|s.log|].0 == serial
    ensures s.log <= Do(s, step).log && |Do(s, step).log| <= |s.log| + 1
    ensures IsDone(s, serial) ==> IsDone(Do(s, step), serial) && !IsPending(Do(s, step), serial)
  {
    var t := Do(s, step);
    StepKeepsInv(s, step);
    assert Accounted(s, serial) && Accounted(t, serial);
    if IsDone(s, serial) {
      var k :| 0 <= k < |s.log| && s.log[k].0 == serial;
      assert t.log[k].0 == serial;
    }
    assert t.log != s.log ==> |t.log| == |s.log| + 1;
    assert forall k :: 0 <= k < |s.log| ==> t.log[k] == s.log[k];
  }

  /** A delivery takes the first entry of its id, and no other, off the list and calls it with the
      outcome it was given. */
  lemma DeliveryIsLogged(s: State, id: nat, outcome: Outcome) returns (i: nat)
    requires Enabled(s, Deliver(id, outcome))
    ensures i < |s.pending| && s.pending[i].id == id && forall j :: 0 <= j < i ==> s.pending[j].id != id
    ensures var t := Do(s, Deliver(id, outcome));
            && t.log == s.log + [(s.pending[i].serial, outcome)]
            && t.pending == s.pending[..i] + s.pending[i + 1..]
            && t.frames == s.frames + [Frame(s.pending[i].serial, Nothing)]
            && t.pool == s.pool && t.created == s.created
  {
    i := Find(s.pending, id);
  }

  /** The step that called entry `serial`. */
  ghost predicate CalledBy(run: seq<State>, steps: seq<Step>, k: nat, serial: nat, outcome: Outcome)
    requires |run| == |steps| + 1
  {
    && k < |steps| && IsPending(run[k], serial) && !IsPending(run[k + 1], serial)
    && match steps[k]
       case Deliver(_, o) => outcome == o
       case Create(_, _) => outcome == Evicted
       case Return => false
  }

  lemma StepCalls(s: State, step: Step)
    requires Inv(s) && Enabled(s, step) && |Do(s, step).log| > |s.log|
    ensures var t := Do(s, step); var (serial, outcome) := t.log[|t.log| - 1];
            && t.log == s.log + [(serial, outcome)] && IsPending(s, serial) && !IsPending(t, serial)
            && (step.Deliver? ==> outcome == step.outcome) && (step.Create? ==> outcome == Evicted) && !step.Return?
  {
    var t := Do(s, step);
    StepKeepsInv(s, step);
    var serial := t.log[|t.log| - 1].0;
    assert Accounted(t, serial) && IsDone(t, serial);
    assert t.log != s.log;
  }

  /** Every callback in the log was called by the one step that took its entry off the list, with the
      outcome delivered, or as evicted by a creation. */
  lemma {:induction false} LogTellsOutcomes(run: seq<State>, steps: seq<Step>, cap: nat, i: nat, n: nat)
      returns (k: nat)
    requires IsRun(run, steps, cap) && i <= |steps| && n < |run[i].log|
    ensures k < i && CalledBy(run, steps, k, run[i].log[n].0, run[i].log[n].1)
    decreases i
  {
    if i == 0 { assert false; }
    var s, step := run[i - 1], steps[i - 1];
    EveryReachableStateIsInv(run, steps, cap, i - 1);
    assert StepAt(run, steps, i - 1);
    CompletionIsFinal(s, step, 0);
    if n < |s.log| {
      k := LogTellsOutcomes(run, steps, cap, i - 1, n);
    } else {
      StepCalls(s, step);
      k := i - 1;
    }
  }

  // ---------------------------------------------------------------- eviction

  /** Creating an entry evicts the one with the same id, else the oldest of a full list, else none. */
  lemma EvictionChoice(s: State, id: nat, ty: Ty)
    requires Inv(s) && Enabled(s, Create(id, ty))
    ensures var t := Do(s, Create(id, ty));
            if Registered(s.pending, id) then
              && t.log == s.log + [(s.pending[Find(s.pending, id)].serial, Evicted)]
              && t.frames[|s.frames|].next == Allocate(id, ty)
            else if |s.pending| == s.cap then
              && t.log == s.log + [(s.pending[0].serial, Evicted)]
              && t.frames[|s.frames|].next == Allocate(id, ty)
              && forall serial :: IsPending(s, serial) ==> s.pending[0].serial <= serial
            else t.log == s.log && t.frames == s.frames
  {
    if !Registered(s.pending, id) && |s.pending| == s.cap {
      forall serial | IsPending(s, serial) ensures s.pending[0].serial <= serial {
        var k :| 0 <= k < |s.pending| && s.pending[k].serial == serial;
      }
    }
  }

  // ---------------------------------------------------------------- allocation

  /** A step fails exactly when it creates an entry for an id that is not pending, the list has
      room, and callbacks in flight occupy the rest of the pool. */
  lemma AllocationFailsIff(s: State, step: Step)
    requires Inv(s) && Enabled(s, step)
    ensures Do(s, step).failed <==>
            && step.Create? && !Registered(s.pending, step.id)
            && |s.pending| < s.cap && |s.pending| + |s.frames| == s.cap
  {
    if step.Return? { FreedKeepsInv(s); }
  }

  // ---------------------------------------------------------------- distinct ids

  ghost predicate DistinctIds(pending: seq<Entry>) {
    forall i, j :: 0 <= i < j < |pending| ==> pending[i].id != pending[j].id
  }

  /** The evicted entry's callback has registered the id again that its eviction makes room for. */
  predicate Recreated(s: State, step: Step) {
    && step.Return? && s.frames != []
    && var next := s.frames[|s.frames| - 1].next;
       next.Allocate? && Registered(s.pending, next.id)
  }

  // ---------------------------------------------------------------- a whole creation

  /** The call at the bottom of the stack stays there until it returns. */
  lemma BottomStays(s: State, step: Step)
    requires Enabled(s, step) && s.frames != [] && Do(s, step).frames != []
    ensures Do(s, step).frames[0] == s.frames[0]
  {
  }

  lemma {:induction false} BottomAt(run: seq<State>, steps: seq<Step>, cap: nat, i: nat, j: nat)
    requires IsRun(run, steps, cap) && i <= j <= |steps| && forall k :: i <= k <= j ==> run[k].frames != []
    ensures run[j].frames[0] == run[i].frames[0]
    decreases j
  {
    if i < j {
      BottomAt(run, steps, cap, i, j - 1);
      assert StepAt(run, steps, j - 1);
      BottomStays(run[j - 1], steps[j - 1]);
    }
  }

  /** A return that completes a creation puts the entry at the back. */
  lemma AllocAtBack(s: State, step: Step, id: nat, ty: Ty)
    requires Inv(s) && Enabled(s, step) && !Do(s, step).failed
    requires (step == Create(id, ty) && Do(s, step).frames == s.frames) ||
             (step.Return? && s.frames[|s.frames| - 1].next == Allocate(id, ty))
    ensures Do(s, step).pending == s.pending + [Entry(id, s.created, ty)] && Do(s, step).created == s.created + 1
  {
  }

  /** A call of CreatePendingResponse from outside all callbacks, with whatever its eviction
      callback does in between: it does not fail, its entry is at the back when it is done, and
      another entry has the same id exactly if the callback has registered it. */
  lemma CreateCompletes(run: seq<State>, steps: seq<Step>, cap: nat, i: nat, j: nat)
    requires IsRun(run, steps, cap) && i < j <= |steps| && steps[i].Create?
    requires run[i].frames == run[j].frames == [] && forall k :: i < k < j ==> run[k].frames != []
    ensures var id, ty, last := steps[i].id, steps[i].ty, |run[j].pending| - 1;
            && !run[j].failed && last >= 0 && run[j].created > 0
            && run[j].pending[last] == Entry(id, run[j].created - 1, ty)
            && (Registered(run[j].pending[..last], id) <==> Recreated(run[j - 1], steps[j - 1]))
  {
    var s, step := run[j - 1], steps[j - 1];
    EveryReachableStateIsInv(run, steps, cap, i);
    EveryReachableStateIsInv(run, steps, cap, j - 1);
    assert StepAt(run, steps, i) && StepAt(run, steps, j - 1);
    AllocationFailsIff(s, step);
    if j > i + 1 {
      BottomAt(run, steps, cap, i + 1, j - 1);
      assert s.frames == [s.frames[0]];
    }
    AllocAtBack(s, step, steps[i].id, steps[i].ty);
    assert run[j].pending[..|s.pending|] == s.pending;
  }

  lemma AllocDistinct(s: State, id: nat, ty: Ty)
    requires DistinctIds(s.pending) && |s.pool| < s.cap
    ensures DistinctIds(Alloc(s, id, ty).pending) <==> !Registered(s.pending, id)
  {
    var t := Alloc(s, id, ty);
    var i := Find(s.pending, id);
    if i < |s.pending| {
      assert t.pending[i].id == t.pending[|s.pending|].id;
    }
  }

  /** A step makes two entries share an id exactly when it allocates a recreated id. */
  lemma DistinctIdsIff(s: State, step: Step)
    requires Inv(s) && Enabled(s, step) && DistinctIds(s.pending)
    ensures DistinctIds(Do(s, step).pending) <==> !Recreated(s, step)
  {
    if step.Return? {
      FreedKeepsInv(s);
      var next := s.frames[|s.frames| - 1].next;
      if next.Allocate? { AllocDistinct(Freed(s), next.id, next.ty); }
    } else if step.Create? && !Registered(s.pending, step.id) && |s.pending| < s.cap && |s.pool| < s.cap {
      AllocDistinct(s, step.id, step.ty);
    }
  }

  /** As long as no eviction callback registers the evicting id, the ids stay distinct. */
  lemma {:induction false} IdsStayDistinct(run: seq<State>, steps: seq<Step>, cap: nat, i: nat)
    requires IsRun(run, steps, cap) && i <= |steps|
    requires forall k :: 0 <= k < i ==> !Recreated(run[k], steps[k])
    ensures DistinctIds(run[i].pending)
  {
    if i > 0 {
      var j := i - 1;
      IdsStayDistinct(run, steps, cap, j);
      EveryReachableStateIsInv(run, steps, cap, j);
      assert StepAt(run, steps, j) && !Recreated(run[j], steps[j]);
      DistinctIdsIff(run[j], steps[j]);
    } else {
      assert run[0].pending == [];
    }
  }

  /** An eviction callback that subscribes its own id again leaves two entries for it. */
  lemma DuplicateIds(cap: nat, id: nat, ty: Ty)
    requires cap >= 2
    ensures var s1 := Do(Start(cap), Create(id, ty));
            var s2 := Do(s1, Create(id, ty));
            var s3 := Do(s2, Create(id, ty));
            var s4 := Do(s3, Return);
            s4.pending == [Entry(id, 1, ty), Entry(id, 2, ty)]
  {
    var s1 := Do(Start(cap), Create(id, ty));
    assert s1.pending == [Entry(id, 0, ty)];
    var s2 := Do(s1, Create(id, ty));
    assert s2.pending == [] && s2.pool == {0};
    var s3 := Do(s2, Create(id, ty));
    assert s3.pending == [Entry(id, 1, ty)] && s3.pool == {0, 1} && s3.frames == [Frame(0, Allocate(id, ty))];
    assert s3.pool - {0} == {1};
  }

  /** Completing any entry of a full list and subscribing a new id from its callback fails. */
  lemma NestedCreateFails(s: State, id: nat, outcome: Outcome, other: nat, ty: Ty)
    requires Inv(s) && Enabled(s, Deliver(id, outcome)) && |s.pending| == s.cap
    requires !Registered(s.pending, other)
    ensures var t := Do(s, Deliver(id, outcome));
            Enabled(t, Create(other, ty)) && Do(t, Create(other, ty)).failed
  {
    var t := Do(s, Deliver(id, outcome));
    StepKeepsInv(s, Deliver(id, outcome));
    assert forall e :: e in t.pending ==> e in s.pending;
    AllocationFailsIff(t, Create(other, ty));
  }

  /** The smallest case: one slot, and a result's callback that subscribes another id. */
  lemma FullPoolFails(a: nat, b: nat, ty: Ty)
    ensures var s1 := Do(Start(1), Create(a, ty));
            var s2 := Do(s1, Deliver(a, Result));
            Do(s2, Create(b, ty)).failed
  {
    var s1 := Do(Start(1), Create(a, ty));
    assert s1.pending == [Entry(a, 0, ty)] && s1.pool == {0};
    var s2 := Do(s1, Deliver(a, Result));
    assert s2.pending == [] && |s2.pool| == 1;
  }

  // ---------------------------------------------------------------- what the parser looks up

  /** The result type found for each pending id: that of its first entry. */
  function Types(pending: seq<Entry>): map<nat, Ty> {
    if pending == [] then map[] else Types(pending[1..])[pending[0].id := pending[0].ty]
  }

  lemma {:induction false} TypesAreFound(pending: seq<Entry>, id: nat)
    ensures id in Types(pending) <==> Registered(pending, id)
    ensures Registered(pending, id) ==> Types(pending)[id] == pending[Find(pending, id)].ty
  {
    if pending != [] { TypesAreFound(pending[1..], id); }
  }

  lemma {:induction false} TypesWithout(pending: seq<Entry>, i: nat, id: nat)
    requires i < |pending| && id != pending[i].id
    ensures id in Types(Without(pending, i)) <==> id in Types(pending)
    ensures id in Types(pending) ==> Types(Without(pending, i))[id] == Types(pending)[id]
  {
    if i > 0 {
      TypesWithout(pending[1..], i - 1, id);
      assert Without(pending, i)[1..] == Without(pending[1..], i - 1);
    } else {
      assert Without(pending, 0) == pending[1..];
    }
  }

  /** A completion takes exactly its own id from what the parser finds, if no other entry has it. */
  lemma DeliverForgetsId(s: State, id: nat, outcome: Outcome)
    requires Enabled(s, Deliver(id, outcome))
    ensures Types(Do(s, Deliver(id, outcome)).pending) == Types(s.pending) - {id} <==>
            !Registered(Without(s.pending, Find(s.pending, id)), id)
  {
    var i := Find(s.pending, id);
    var before, after := Types(s.pending), Types(Without(s.pending, i));
    forall other | other != id
      ensures other in after <==> other in before
      ensures other in before ==> after[other] == before[other]
    {
      TypesWithout(s.pending, i, other);
    }
    TypesAreFound(Without(s.pending, i), id);
  }
}

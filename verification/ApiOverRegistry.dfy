/**
 Packets of results and errors over the bounded registry.  Results carry no length: where one ends
 is known only from the type of the entry pending for its id at that moment, while the callbacks of
 earlier results create, complete and evict entries.
 */
module ApiOverRegistry {
  import opened Mstream
  import opened ApiProtocol
  import opened ApiRoundTrip
  import P = PendingRegistry

  /** Message k of the packet is delivered by steps[at[k]] of a run of the registry.  Until the
      parser is back for the next message, the run may go on in any way. */
  ghost predicate Delivers(
      sc: SizeCodec, run: seq<P.State>, steps: seq<P.Step>, at: seq<nat>, calls: seq<Call>, k: nat)
    requires |run| == |steps| + 1 && |at| == |calls| + 1 && k < |calls|
  {
    && at[k] < at[k + 1] <= |steps|
    && match calls[k]
       case Result(req, ty, v) =>
         && steps[at[k]] == P.Deliver(req, P.Result) && Rep(sc, REQ_TY, Num(req)) && Rep(sc, ty, v)
         && P.Registered(run[at[k]].pending, req)
         && run[at[k]].pending[P.Find(run[at[k]].pending, req)].ty == ty
       case Error(req, kind, code) =>
         && steps[at[k]] == P.Deliver(req, P.Error) && Rep(sc, REQ_TY, Num(req))
         && Rep(sc, Scalar(1), Num(kind)) && Rep(sc, Scalar(4), Num(code))
       case _ => false
  }

  /** The API that takes results and errors, as every peer extends its own with. */
  const RETURN_RESULT_API: Api := Api([Method(RESULT_ID, SendResult), Method(ERROR_ID, SendError)])

  lemma FindReturns()
    ensures Find(RETURN_RESULT_API, RESULT_ID) == Found(SendResult)
    ensures Find(RETURN_RESULT_API, ERROR_ID) == Found(SendError)
  {
    var regs := RETURN_RESULT_API.regs;
    assert FindIn(regs, RESULT_ID) == Found(SendResult);
    assert regs[1..] == [Method(ERROR_ID, SendError)];
    assert FindIn(regs[1..], ERROR_ID) == Found(SendError);
    assert FindReg(regs[0], ERROR_ID) == NotFound;
    assert FindIn(regs, ERROR_ID) == FindIn(regs[1..], ERROR_ID);
  }

  /** What the parser finds before message k, and what the run makes of it after each message. */
  ghost function Seen(run: seq<P.State>, at: seq<nat>, k: nat): Registry
    requires k < |at| && forall i :: 0 <= i < |at| ==> at[i] < |run|
  {
    Registry(Entries(run[at[k]].pending), k, Reactions(run, at))
  }

  /** The callback of message n is called with the list as the delivery left it, and from there the
      run goes on; with any other list it would leave nothing to be found. */
  ghost function Reactions(run: seq<P.State>, at: seq<nat>): (nat, seq<Response>) -> seq<Response>
    requires forall i :: 0 <= i < |at| ==> at[i] < |run|
  {
    (n: nat, pending: seq<Response>) =>
      if n + 1 < |at| && at[n] + 1 < |run| && pending == Entries(run[at[n] + 1].pending)
      then Entries(run[at[n + 1]].pending) else []
  }

  /** The entries without their numbers. */
  function Entries(pending: seq<P.Entry>): (r: seq<Response>)
    ensures |r| == |pending|
    ensures forall i :: 0 <= i < |r| ==> r[i] == Response(pending[i].id, pending[i].ty)
  {
    seq(|pending|, i requires 0 <= i < |pending| => Response(pending[i].id, pending[i].ty))
  }

  /** The parser finds what the registry finds. */
  lemma SamePosition(pending: seq<P.Entry>, req: nat)
    ensures Position(Entries(pending), req) == P.Find(pending, req)
  {
  }

  lemma ErasedAlike(pending: seq<P.Entry>, i: nat)
    requires i < |pending|
    ensures Entries(P.Without(pending, i)) == Entries(pending)[..i] + Entries(pending)[i + 1..]
  {
  }

  /** A delivery leaves the list that the parser hands to the callback. */
  lemma DeliveryErases(s: P.State, req: nat, outcome: P.Outcome)
    requires P.Enabled(s, P.Deliver(req, outcome))
    ensures var i := Position(Entries(s.pending), req);
            && i < |s.pending|
            && Entries(P.Do(s, P.Deliver(req, outcome)).pending) ==
               Entries(s.pending)[..i] + Entries(s.pending)[i + 1..]
  {
    SamePosition(s.pending, req);
    ErasedAlike(s.pending, P.Find(s.pending, req));
  }

  lemma CallbackSees(run: seq<P.State>, at: seq<nat>, k: nat)
    requires k + 1 < |at| && (forall i :: 0 <= i < |at| ==> at[i] < |run|) && at[k] + 1 < |run|
    ensures Reacted(Seen(run, at, k).(pending := Entries(run[at[k] + 1].pending))) == Seen(run, at, k + 1)
  {
  }

  lemma MessageWellFormed(
      sc: SizeCodec, run: seq<P.State>, steps: seq<P.Step>, cap: nat, at: seq<nat>, calls: seq<Call>, k: nat)
    requires P.IsRun(run, steps, cap) && |at| == |calls| + 1 && k < |calls|
    requires (forall i :: 0 <= i < |at| ==> at[i] < |run|) && Delivers(sc, run, steps, at, calls, k)
    ensures WellFormed(sc, RETURN_RESULT_API, calls[k], Seen(run, at, k))
    ensures Awaited(Seen(run, at, k), calls[k].req)
  {
    FindReturns();
    assert P.StepAt(run, steps, at[k]);
    SamePosition(run[at[k]].pending, calls[k].req);
  }

  lemma MessageAfter(
      sc: SizeCodec, run: seq<P.State>, steps: seq<P.Step>, cap: nat, at: seq<nat>, calls: seq<Call>, k: nat)
    requires P.IsRun(run, steps, cap) && |at| == |calls| + 1 && k < |calls|
    requires (forall i :: 0 <= i < |at| ==> at[i] < |run|) && Delivers(sc, run, steps, at, calls, k)
    requires Awaited(Seen(run, at, k), calls[k].req)
    ensures After(calls[k], Seen(run, at, k)) == Seen(run, at, k + 1)
  {
    assert P.StepAt(run, steps, at[k]);
    DeliveryErases(run[at[k]], calls[k].req, steps[at[k]].outcome);
    CallbackSees(run, at, k);
  }

  lemma {:induction false} AllMessagesWellFormed(
      sc: SizeCodec, run: seq<P.State>, steps: seq<P.Step>, cap: nat, at: seq<nat>, calls: seq<Call>, k: nat)
    requires P.IsRun(run, steps, cap) && |at| == |calls| + 1 && k <= |calls|
    requires forall i :: 0 <= i < |at| ==> at[i] < |run|
    requires forall i :: 0 <= i < |calls| ==> Delivers(sc, run, steps, at, calls, i)
    ensures AllWellFormed(sc, RETURN_RESULT_API, calls[k..], Seen(run, at, k))
    ensures AfterAll(calls[k..], Seen(run, at, k)) == Seen(run, at, |calls|)
    decreases |calls| - k
  {
    if k < |calls| {
      MessageWellFormed(sc, run, steps, cap, at, calls, k);
      MessageAfter(sc, run, steps, cap, at, calls, k);
      AllMessagesWellFormed(sc, run, steps, cap, at, calls, k + 1);
      assert calls[k..][0] == calls[k] && calls[k..][1..] == calls[k + 1..];
    }
  }

  /** Over any run of the bounded registry, evictions and callbacks included, a packet of results
      and errors is framed by the types pending at each message's turn: every promise gets the value
      or error written for it, in packet order, and the parser ends exactly at the end. */
  lemma ResultsAreFramed(
      sc: SizeCodec, run: seq<P.State>, steps: seq<P.Step>, cap: nat, at: seq<nat>, calls: seq<Call>)
    requires Lawful(sc) && Sane(sc) && P.IsRun(run, steps, cap) && |at| == |calls| + 1
    requires forall i :: 0 <= i < |at| ==> at[i] < |run|
    requires forall i :: 0 <= i < |calls| ==> Delivers(sc, run, steps, at, calls, i)
    ensures var packet := PackAll(sc, RETURN_RESULT_API, calls);
            var p := Parse(sc, RETURN_RESULT_API, packet, Reader(0, false), Seen(run, at, 0));
            && p.events == ExpectedAll(calls) && !p.fault && p.next.offset == |packet|
            && MatchAll(calls, p.events) && p.reg.pending == Entries(run[at[|calls|]].pending)
  {
    AllMessagesWellFormed(sc, run, steps, cap, at, calls, 0);
    assert calls[0..] == calls;
    PackThenParse(sc, RETURN_RESULT_API, calls, Seen(run, at, 0));
  }

  /** The entries completed by the messages of a packet are distinct, each the first of its id. */
  lemma MessagesCompleteDistinctEntries(
      sc: SizeCodec, run: seq<P.State>, steps: seq<P.Step>, cap: nat, at: seq<nat>, calls: seq<Call>, j: nat, k: nat)
    requires P.IsRun(run, steps, cap) && |at| == |calls| + 1 && j < k < |calls|
    requires forall i :: 0 <= i < |at| ==> at[i] < |run|
    requires forall i :: 0 <= i < |calls| ==> Delivers(sc, run, steps, at, calls, i)
    ensures CompletedBy(run, steps, at[j]) != CompletedBy(run, steps, at[k])
  {
    assert Delivers(sc, run, steps, at, calls, j) && Delivers(sc, run, steps, at, calls, k);
    Ascending(sc, run, steps, at, calls, j, k);
    assert P.StepAt(run, steps, at[j]) && P.StepAt(run, steps, at[k]);
    P.EveryReachableStateIsInv(run, steps, cap, at[j] + 1);
    P.EveryReachableStateIsInv(run, steps, cap, at[k]);
    var s, t := run[at[j] + 1], run[at[k]];
    var serial := CompletedBy(run, steps, at[j]);
    assert s.log[|s.log| - 1].0 == serial;
    DoneStays(run, steps, cap, at[j] + 1, at[k], serial);
    assert P.Accounted(t, serial);
    assert P.IsPending(t, t.pending[P.Find(t.pending, steps[at[k]].id)].serial);
  }

  /** The entry that a delivery takes off the list. */
  ghost function CompletedBy(run: seq<P.State>, steps: seq<P.Step>, i: nat): nat
  {
    if i < |run| && i < |steps| && steps[i].Deliver? && P.Registered(run[i].pending, steps[i].id) then
      run[i].pending[P.Find(run[i].pending, steps[i].id)].serial
    else 0
  }

  lemma {:induction false} Ascending(
      sc: SizeCodec, run: seq<P.State>, steps: seq<P.Step>, at: seq<nat>, calls: seq<Call>, j: nat, k: nat)
    requires |run| == |steps| + 1 && |at| == |calls| + 1 && j < k < |at|
    requires forall i :: 0 <= i < |calls| ==> Delivers(sc, run, steps, at, calls, i)
    ensures at[j] < at[k]
    decreases k
  {
    assert Delivers(sc, run, steps, at, calls, k - 1);
    if j < k - 1 { Ascending(sc, run, steps, at, calls, j, k - 1); }
  }

  lemma {:induction false} DoneStays(
      run: seq<P.State>, steps: seq<P.Step>, cap: nat, i: nat, j: nat, serial: nat)
    requires P.IsRun(run, steps, cap) && i <= j <= |steps| && P.IsDone(run[i], serial)
    ensures P.IsDone(run[j], serial)
    decreases j
  {
    if i < j {
      DoneStays(run, steps, cap, i, j - 1, serial);
      P.EveryReachableStateIsInv(run, steps, cap, j - 1);
      assert P.StepAt(run, steps, j - 1);
      P.CompletionIsFinal(run[j - 1], steps[j - 1], serial);
    }
  }
}

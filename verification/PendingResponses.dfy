/**
 The pending list and the pool of ProtocolContext as an object.  Every method is one stretch of code between two points
 where a response's callback starts or returns; the callbacks' own calls come in between.
 */
module PendingResponses {
  import opened PendingRegistry
  import opened Options
  import opened Mstream

  class ResponseRegistry {
    const cap: nat
    var pending: seq<Entry>
    var pool: set<nat>
    var frames: seq<Frame>
    var created: nat
    var log: seq<(nat, Outcome)>
    var failed: bool

    constructor (cap: nat)
      ensures this.cap == cap && View() == Start(cap) && Inv(View())
    {
      this.cap := cap;
      pending, pool, frames, created, log, failed := [], {}, [], 0, [], false;
      new;
      StartIsInv(cap);
    }

    function View(): State
      reads this
    {
      State(cap, pending, pool, frames, created, log, failed)
    }

    /** Searches from the front and erases what it finds. */
    method TakePending(id: nat) returns (found: Option<Entry>)
      modifies this`pending
      ensures found.Some? <==> Registered(old(pending), id)
      ensures found.Some? ==>
                var i := Find(old(pending), id);
                found.value == old(pending)[i] && pending == Without(old(pending), i)
      ensures found.None? ==> pending == old(pending)
    {
      var i := 0;
      while i < |pending| && pending[i].id != id
        invariant i <= |pending|
        invariant forall j :: 0 <= j < i ==> pending[j].id != id
      {
        i := i + 1;
      }
      if i == |pending| { return None; }
      assert i == Find(pending, id);
      found := Some(pending[i]);
      pending := pending[..i] + pending[i + 1..];
    }

    method TakeOldestPending() returns (oldest: Entry)
      requires pending != []
      modifies this`pending
      ensures oldest == old(pending)[0] && pending == Without(old(pending), 0)
    {
      oldest := pending[0];
      pending := pending[1..];
    }

    method Call(entry: Entry, outcome: Outcome, next: Then)
      modifies this`frames, this`log
      ensures frames == old(frames) + [Frame(entry.serial, next)]
      ensures log == old(log) + [(entry.serial, outcome)]
    {
      log := log + [(entry.serial, outcome)];
      frames := frames + [Frame(entry.serial, next)];
    }

    /** SetSendResultResponse and SetSendErrorResponse, up to the callback of the response. */
    method SetResponse(id: nat, outcome: Outcome)
      requires Inv(View()) && Enabled(View(), Deliver(id, outcome))
      modifies this
      ensures View() == Do(old(View()), Deliver(id, outcome)) && Inv(View())
    {
      StepKeepsInv(View(), Deliver(id, outcome));
      var found := TakePending(id);
      Call(found.value, outcome, Nothing);
    }

    /** CreatePendingResponse: evicts, or allocates at once where nothing has to be evicted. */
    method CreatePendingResponse(id: nat, ty: Ty)
      requires Inv(View()) && Enabled(View(), Create(id, ty))
      modifies this
      ensures View() == Do(old(View()), Create(id, ty)) && Inv(View())
      ensures failed <==> !Registered(old(pending), id) && |old(pending)| < cap <= |old(pending)| + |old(frames)|
    {
      StepKeepsInv(View(), Create(id, ty));
      AllocationFailsIff(View(), Create(id, ty));
      var found := TakePending(id);
      if found.Some? {
        Call(found.value, Evicted, Allocate(id, ty));
      } else if |pending| >= cap {
        var oldest := TakeOldestPending();
        Call(oldest, Evicted, Allocate(id, ty));
      } else {
        Append(id, ty);
      }
    }

    method Append(id: nat, ty: Ty)
      modifies this`pending, this`pool, this`created, this`failed
      ensures View() == Alloc(old(View()), id, ty)
    {
      if |pool| >= cap {
        failed := true;
      } else {
        pool := pool + {created};
        pending := pending + [Entry(id, created, ty)];
        created := created + 1;
      }
    }

    /** DestroyPending once the callback has returned, and the rest of the interrupted call. */
    method CallbackReturned()
      requires Inv(View()) && Enabled(View(), Return)
      modifies this
      ensures View() == Do(old(View()), Return) && Inv(View()) && !failed
    {
      StepKeepsInv(View(), Return);
      AllocationFailsIff(View(), Return);
      var top := frames[|frames| - 1];
      frames := frames[..|frames| - 1];
      pool := pool - {top.serial};
      if top.next.Allocate? { Append(top.next.id, top.next.ty); }
    }

    /** The destructor destroys what is still pending without calling it. */
    method Drain()
      requires Inv(View()) && frames == []
      modifies this`pending, this`pool
      ensures pending == [] && pool == {}
    {
      forall serial ensures serial in pool <==> IsPending(View(), serial) {
        assert Accounted(View(), serial) && !IsRunning(View(), serial);
      }
      while pending != []
        invariant Ordered(pending) && forall serial :: serial in pool <==> IsPending(View(), serial)
        decreases |pending|
      {
        forall serial { TakenIsGone(View(), 0, Evicted, Nothing, serial); }
        var oldest := TakeOldestPending();
        pool := pool - {oldest.serial};
      }
    }
  }
}

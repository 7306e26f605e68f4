/**
 EventHandlersList, its iterators, Event::Emit and the owning subscriptions as objects
 updated in place.  The list object carries its history as a run of EventList, so the
 theorems about runs apply to the code.  Handler behaviour is a script: what each called
 handler does, including further emissions, to any finite depth.
 */
module Events {
  import L = EventList

  datatype Act = Subscribe(owner: nat) | Unsubscribe(owner: nat) | EmitAgain(script: Script)
  datatype Handler = Handler(acts: seq<Act>)
  datatype Script = Script(calls: seq<Handler>)

  /** The emission and those nested in it are at most `room` at a time. */
  predicate ScriptFits(script: Script, room: nat)
    decreases script
  {
    room > 0 && forall k :: 0 <= k < |script.calls| ==> HandlerFits(script.calls[k], room - 1)
  }

  predicate HandlerFits(h: Handler, room: nat)
    decreases h
  {
    forall i :: 0 <= i < |h.acts| ==> (h.acts[i].EmitAgain? ==> ScriptFits(h.acts[i].script, room))
  }

  /** The erasing loop of CleanUp. */
  method TrimTail(handlers: seq<L.Node>) returns (r: seq<L.Node>)
    ensures r == L.Trimmed(handlers)
  {
    var n := |handlers|;
    assert handlers[..n] == handlers;
    while n > 0 && !handlers[n - 1].alive
      invariant 0 <= n <= |handlers|
      invariant L.AliveEnd(handlers) == L.AliveEnd(handlers[..n])
    {
      assert handlers[..n][..n - 1] == handlers[..n - 1];
      n := n - 1;
    }
    r := if n != 0 then handlers[..n] else handlers;
  }

  class EventHandlersList {
    var handlers: seq<L.Node>
    var useCounter: nat
    var nextId: nat
    ghost var run: seq<L.State>
    ghost var steps: seq<L.Step>
    ghost var nextCursor: nat

    ghost function Model(): L.State
      requires |run| > 0
      reads this
    {
      run[|run| - 1]
    }

    ghost predicate Valid()
      reads this
    {
      && L.IsRun(run, steps)
      && Model().handlers == handlers
      && Model().useCounter == useCounter
      && Model().nextId == nextId
      && (forall c :: c in Model().cursors ==> c < nextCursor)
      && (forall c :: c in Model().done ==> c < nextCursor)
    }

    constructor ()
      ensures Valid() && handlers == [] && Model() == L.EMPTY
    {
      handlers, useCounter, nextId := [], 0, 0;
      run, steps, nextCursor := [L.EMPTY], [], 0;
    }

    /** Records one step of the model. */
    ghost method Take(s: L.Step)
      requires L.IsRun(run, steps) && L.Enabled(Model(), s) && L.CounterExact(Model())
      modifies this`run, this`steps
      ensures L.IsRun(run, steps)
      ensures steps == old(steps) + [s]
      ensures run == old(run) + [L.Do(old(Model()), s)]
    {
      ghost var oldRun, oldSteps := run, steps;
      run := run + [L.Do(Model(), s)];
      steps := steps + [s];
      forall i | 0 <= i < |steps| ensures L.StepAt(run, steps, i) {
        if i < |oldSteps| {
          assert L.StepAt(oldRun, oldSteps, i);
        }
      }
    }

    lemma Reachable()
      requires L.IsRun(run, steps)
      ensures L.Inv(Model())
    {
      L.EveryReachableStateIsInv(run, steps, |run| - 1);
    }

    /** The window of an active iterator is intact. */
    lemma Window(c: nat)
      requires L.IsRun(run, steps) && c in Model().cursors
      ensures Model().cursors[c].index <= Model().cursors[c].size <= |Model().handlers|
      ensures Model().cursors[c].calling ==> Model().cursors[c].index < Model().cursors[c].size
    {
      Reachable();
      assert L.CursorOk(Model().handlers, Model().cursors[c]);
    }

    /** A finishing iterator leaves one less, and a clean-up to do if the counter reaches zero. */
    lemma Finishing(c: nat)
      requires L.IsRun(run, steps) && c in Model().cursors
      ensures |Model().cursors - {c}| == |Model().cursors| - 1
    {
      L.MapDrop(Model().cursors, c);
    }

    /** Appends a handler under the lock; the index is its position, which never changes. */
    method Insert(ghost owner: nat) returns (index: nat)
      requires Valid() && L.CounterExact(Model()) && owner !in Model().owners
      modifies this`handlers, this`nextId, this`run, this`steps
      ensures Valid()
      ensures steps == old(steps) + [L.Insert(owner)]
      ensures run == old(run) + [L.Do(old(Model()), L.Insert(owner))]
      ensures index == |old(handlers)| && handlers == old(handlers) + [L.Node(old(nextId), true)]
    {
      Take(L.Insert(owner));
      index := |handlers|;
      handlers := handlers + [L.Node(nextId, true)];
      nextId := nextId + 1;
    }

    /** Marks a handler dead under the lock. */
    method Remove(index: nat, ghost owner: nat)
      requires Valid() && L.CounterExact(Model()) && owner in Model().owners
      requires index < |handlers| && handlers[index].id == Model().owners[owner]
      modifies this`handlers, this`run, this`steps
      ensures Valid()
      ensures steps == old(steps) + [L.Remove(owner)]
      ensures run == old(run) + [L.Do(old(Model()), L.Remove(owner))]
      ensures handlers == old(handlers)[index := L.Node(old(handlers)[index].id, false)]
    {
      Reachable();
      ghost var p := L.RemoveHitsItsNode(Model(), owner);
      assert p == index;
      Take(L.Remove(owner));
      handlers := handlers[index := handlers[index].(alive := false)];
    }

    method Alive(index: nat) returns (b: bool)
      requires index < |handlers|
      ensures b == handlers[index].alive
    {
      b := handlers[index].alive;
    }

    /** Erases the trailing dead handlers unless an iterator came up meanwhile. */
    method CleanUp()
      requires Valid() && L.CounterExact(Model()) && Model().cleanUps > 0
      modifies this`handlers, this`run, this`steps
      ensures Valid()
      ensures steps == old(steps) + [L.CleanUp]
      ensures run == old(run) + [L.Do(old(Model()), L.CleanUp)]
    {
      Take(L.CleanUp);
      if useCounter != 0 {
        return;
      }
      handlers := TrimTail(handlers);
    }
  }

  /** IteratorAdapter::Iterator: a position and the end it must not pass. */
  class Iterator {
    var index: nat
    var size: nat

    constructor (list: EventHandlersList, size: nat)
      requires size <= |list.handlers|
      ensures this.size == size && index == L.Scan(list.handlers, 0, size)
    {
      var counter := 0;
      while counter < size && !list.handlers[counter].alive
        invariant 0 <= counter <= size
        invariant L.Scan(list.handlers, 0, size) == L.Scan(list.handlers, counter, size)
      {
        counter := counter + 1;
      }
      index := counter;
      this.size := size;
    }

    /** operator++ : skips dead handlers by calling itself. */
    method Next(list: EventHandlersList)
      requires index < size <= |list.handlers|
      modifies this`index
      ensures index == L.Scan(list.handlers, old(index) + 1, size)
      decreases size - index
    {
      index := index + 1;
      if index == size {
        return;
      }
      if !list.handlers[index].alive {
        Next(list);
      }
    }
  }

  ghost predicate NewCursorsOnly(s: L.Step, from: nat) {
    match s
    case Snapshot(c) => c >= from
    case Call(c) => c >= from
    case Advance(c) => c >= from
    case Finish(c) => c >= from
    case _ => true
  }

  /** An event with the subscriptions to it that are held somewhere, each the sole owner of its index. */
  class Event {
    const list: EventHandlersList
    var subscriptions: map<nat, nat>

    ghost predicate Valid()
      reads this, list
    {
      && list.Valid()
      && subscriptions.Keys == list.Model().owners.Keys
      && (forall o :: o in subscriptions ==>
            subscriptions[o] < |list.handlers| &&
            list.handlers[subscriptions[o]] == L.Node(list.Model().owners[o], true))
    }

    constructor ()
      ensures Valid() && fresh(list) && list.handlers == [] && subscriptions == map[]
    {
      list := new EventHandlersList();
      subscriptions := map[];
    }

    /** Subscription::operator= of a new handler, if the slot is free. */
    method Subscribe(owner: nat)
      requires Valid() && L.CounterExact(list.Model()) && owner !in subscriptions
      modifies this`subscriptions, list`handlers, list`nextId, list`run, list`steps
      ensures Valid() && subscriptions == old(subscriptions)[owner := |old(list.handlers)|]
      ensures list.steps == old(list.steps) + [L.Insert(owner)]
      ensures list.run == old(list.run) + [L.Do(old(list.Model()), L.Insert(owner))]
    {
      var index := list.Insert(owner);
      subscriptions := subscriptions[owner := index];
    }

    /** Subscription::Reset: an empty subscription has nothing to give up. */
    method Reset(owner: nat)
      requires Valid() && L.CounterExact(list.Model())
      modifies this`subscriptions, list`handlers, list`run, list`steps
      ensures Valid() && subscriptions == old(subscriptions) - {owner}
      ensures owner !in old(subscriptions) ==>
                list.handlers == old(list.handlers) && list.steps == old(list.steps) && list.run == old(list.run)
      ensures owner in old(subscriptions) ==>
                && list.steps == old(list.steps) + [L.Remove(owner)]
                && list.run == old(list.run) + [L.Do(old(list.Model()), L.Remove(owner))]
                && list.handlers ==
                   old(list.handlers)[old(subscriptions)[owner] := L.Node(old(list.Model()).owners[owner], false)]
    {
      if owner !in subscriptions {
        assert subscriptions - {owner} == subscriptions;
        return;
      }
      OwnIndex(owner);
      list.Remove(subscriptions[owner], owner);
      subscriptions := subscriptions - {owner};
    }

    /** No two subscriptions have the same index. */
    lemma OwnIndex(owner: nat)
      requires Valid() && owner in subscriptions
      ensures forall o :: o in subscriptions && o != owner ==> subscriptions[o] != subscriptions[owner]
    {
      list.Reachable();
      assert L.OwnersOk(list.Model().handlers, list.Model().owners);
      forall o | o in subscriptions && o != owner ensures subscriptions[o] != subscriptions[owner] {
        assert list.Model().owners[o] != list.Model().owners[owner];
      }
    }

    /** events_list->Iterator(): the snapshot taken under the lock. */
    method BeginEmission() returns (it: Iterator, ghost c: nat)
      requires Valid() && L.CounterExact(list.Model())
      modifies list`useCounter, list`nextCursor, list`run, list`steps
      ensures Valid() && fresh(it)
      ensures c == old(list.nextCursor) && list.nextCursor == c + 1
      ensures list.steps == old(list.steps) + [L.Snapshot(c)]
      ensures list.run == old(list.run) + [L.Do(old(list.Model()), L.Snapshot(c))]
      ensures it.index == L.NewCursor(list.handlers).index && it.size == L.NewCursor(list.handlers).size
    {
      it := new Iterator(list, |list.handlers| % L.WRAP);
      c := list.nextCursor;
      list.Take(L.Snapshot(c));
      list.useCounter := L.Up(list.useCounter);
      list.nextCursor := c + 1;
    }

    /** The counter decrement and, if it reached zero, the clean-up. */
    method EndEmission(ghost c: nat)
      requires Valid() && L.CounterExact(list.Model()) && L.Enabled(list.Model(), L.Finish(c))
      modifies list`useCounter, list`handlers, list`run, list`steps
      ensures Valid()
      ensures list.Model().cursors == old(list.Model().cursors) - {c}
      ensures old(list.steps) + [L.Finish(c)] <= list.steps
      ensures old(list.run) + [L.Do(old(list.Model()), L.Finish(c))] <= list.run
      ensures forall k :: |old(list.steps)| < k < |list.steps| ==> list.steps[k] == L.CleanUp
      ensures c in list.run[|old(list.steps)| + 1].done
      ensures list.run[|old(list.steps)| + 1].done[c] == old(list.Model().cursors[c])
    {
      list.Finishing(c);
      list.Take(L.Finish(c));
      list.useCounter := L.Down(list.useCounter);
      if list.useCounter == 0 {
        TrimKeepsSubscriptions();
        list.CleanUp();
      }
    }

    lemma TrimKeepsSubscriptions()
      requires Valid()
      ensures forall o :: o in subscriptions ==>
                subscriptions[o] < |L.Trimmed(list.handlers)| &&
                L.Trimmed(list.handlers)[subscriptions[o]] == list.handlers[subscriptions[o]]
    {
    }

    /** handler->Invoke: the call of the handler the iterator stands on. */
    method CallHandler(it: Iterator, ghost c: nat) returns (id: nat)
      requires Valid() && L.CounterExact(list.Model()) && c in list.Model().cursors
      requires !list.Model().cursors[c].calling && it.index == list.Model().cursors[c].index
      requires it.size == list.Model().cursors[c].size && it.index < it.size
      modifies list`run, list`steps
      ensures Valid()
      ensures list.steps == old(list.steps) + [L.Call(c)] && old(list.run) <= list.run
      ensures c in list.Model().cursors && it.index < |list.handlers|
      ensures var cur := old(list.Model()).cursors[c];
              list.Model().cursors ==
              old(list.Model()).cursors[c := cur.(calling := true, invoked := cur.invoked + [id])]
    {
      list.Window(c);
      id := list.handlers[it.index].id;
      list.Take(L.Call(c));
    }

    /** ++it */
    method AdvanceIterator(it: Iterator, ghost c: nat)
      requires Valid() && L.CounterExact(list.Model()) && c in list.Model().cursors
      requires list.Model().cursors[c].calling && it.index == list.Model().cursors[c].index
      requires it.size == list.Model().cursors[c].size
      modifies it, list`run, list`steps
      ensures Valid()
      ensures list.steps == old(list.steps) + [L.Advance(c)] && old(list.run) <= list.run
      ensures it.size == old(it.size) && old(it.index) < it.index <= it.size
      ensures c in list.Model().cursors
      ensures list.Model().cursors == old(list.Model()).cursors[c := list.Model().cursors[c]]
      ensures var cur := list.Model().cursors[c];
              && !cur.calling && cur.index == it.index && cur.size == it.size
              && cur.invoked == old(list.Model()).cursors[c].invoked
    {
      list.Window(c);
      it.Next(list);
      list.Take(L.Advance(c));
    }

    /** What a called handler does to this event. */
    method RunHandler(h: Handler, ghost room: nat)
      requires Valid() && HandlerFits(h, room) && |list.Model().cursors| + room < L.WRAP
      modifies this`subscriptions, list
      ensures Valid()
      ensures list.Model().cursors == old(list.Model().cursors)
      ensures list.nextCursor >= old(list.nextCursor)
      ensures old(list.steps) <= list.steps && old(list.run) <= list.run
      ensures forall k :: |old(list.steps)| <= k < |list.steps| ==> NewCursorsOnly(list.steps[k], old(list.nextCursor))
      decreases h, 0
    {
      for i := 0 to |h.acts|
        invariant Valid()
        invariant list.Model().cursors == old(list.Model().cursors)
        invariant list.nextCursor >= old(list.nextCursor)
        invariant old(list.steps) <= list.steps && old(list.run) <= list.run
        invariant forall k :: |old(list.steps)| <= k < |list.steps| ==>
                                NewCursorsOnly(list.steps[k], old(list.nextCursor))
      {
        RunAct(h.acts[i], room);
      }
    }

    method RunAct(act: Act, ghost room: nat)
      requires Valid() && (act.EmitAgain? ==> ScriptFits(act.script, room)) && |list.Model().cursors| + room < L.WRAP
      modifies this`subscriptions, list
      ensures Valid()
      ensures list.Model().cursors == old(list.Model().cursors)
      ensures list.nextCursor >= old(list.nextCursor)
      ensures old(list.steps) <= list.steps && old(list.run) <= list.run
      ensures forall k :: |old(list.steps)| <= k < |list.steps| ==> NewCursorsOnly(list.steps[k], old(list.nextCursor))
      decreases act, 0
    {
      match act
      case Subscribe(owner) =>
        if owner !in subscriptions { Subscribe(owner); }
      case Unsubscribe(owner) => Reset(owner);
      case EmitAgain(script) =>
        var _, _ := Emit(script, room);
    }

    /** The iterator `it` stands for cursor c, the only one besides those in `base`. */
    ghost predicate Emitting(it: Iterator, c: nat, base: map<nat, L.Cursor>, invoked: seq<nat>)
      requires |list.run| > 0
      reads this, list, it
    {
      var m := list.Model();
      && c in m.cursors && m.cursors == base[c := m.cursors[c]]
      && !m.cursors[c].calling && invoked == m.cursors[c].invoked
      && it.index == m.cursors[c].index && it.size == m.cursors[c].size && it.index <= it.size
    }

    /** One iteration: call the handler, let it act, and move on. */
    method EmitNext(it: Iterator, ghost c: nat, script: Script, k: nat, ghost room: nat,
                    ghost base: map<nat, L.Cursor>, invoked: seq<nat>) returns (calls: seq<nat>)
      requires Valid() && c < list.nextCursor && c !in base
      requires ScriptFits(script, room) && |base| + room < L.WRAP
      requires Emitting(it, c, base, invoked) && it.index < it.size
      modifies this`subscriptions, list, it
      ensures Valid() && Emitting(it, c, base, calls) && old(it.index) < it.index && it.size == old(it.size)
      ensures list.nextCursor >= old(list.nextCursor)
      ensures old(list.steps) <= list.steps && old(list.run) <= list.run
      ensures forall i :: |old(list.steps)| <= i < |list.steps| ==>
                NewCursorsOnly(list.steps[i], c) && list.steps[i] != L.Finish(c)
      decreases script, 1
    {
      L.MapAdd(base, c, list.Model().cursors[c]);
      var id := CallHandler(it, c);
      calls := invoked + [id];
      L.MapAdd(base, c, list.Model().cursors[c]);
      RunCalled(script, k, room - 1);
      AdvanceIterator(it, c);
    }

    /** The k-th handler called; one the script says nothing of does nothing. */
    method RunCalled(script: Script, k: nat, ghost room: nat)
      requires Valid() && ScriptFits(script, room + 1) && |list.Model().cursors| + room < L.WRAP
      modifies this`subscriptions, list
      ensures Valid()
      ensures list.Model().cursors == old(list.Model().cursors)
      ensures list.nextCursor >= old(list.nextCursor)
      ensures old(list.steps) <= list.steps && old(list.run) <= list.run
      ensures forall i :: |old(list.steps)| <= i < |list.steps| ==> NewCursorsOnly(list.steps[i], old(list.nextCursor))
      decreases script, 0
    {
      if k < |script.calls| { RunHandler(script.calls[k], room); }
    }

    /** The loop over the handlers. */
    method EmitLoop(it: Iterator, ghost c: nat, script: Script, ghost room: nat, ghost base: map<nat, L.Cursor>)
        returns (invoked: seq<nat>)
      requires Valid() && c < list.nextCursor && c !in base
      requires room > 0 && ScriptFits(script, room) && |base| + room < L.WRAP
      requires Emitting(it, c, base, [])
      modifies this`subscriptions, list, it
      ensures Valid() && Emitting(it, c, base, invoked) && it.index == it.size
      ensures list.nextCursor >= old(list.nextCursor)
      ensures old(list.steps) <= list.steps && old(list.run) <= list.run
      ensures forall k :: |old(list.steps)| <= k < |list.steps| ==>
                NewCursorsOnly(list.steps[k], c) && list.steps[k] != L.Finish(c)
      decreases script, 2
    {
      invoked := [];
      var k := 0;
      while it.index != it.size
        invariant Valid() && Emitting(it, c, base, invoked)
        invariant list.nextCursor >= old(list.nextCursor)
        invariant old(list.steps) <= list.steps && old(list.run) <= list.run
        invariant forall i :: |old(list.steps)| <= i < |list.steps| ==>
                    NewCursorsOnly(list.steps[i], c) && list.steps[i] != L.Finish(c)
        decreases it.size - it.index
      {
        invoked := EmitNext(it, c, script, k, room, base, invoked);
        k := k + 1;
      }
    }

    /** Invokes the handlers of this event; the k-th one called behaves as script.calls[k].
        The steps taken form an emission from the call to steps[end], so EventList.EmissionIsExact
        and EventList.EmissionBounds say which handlers are invoked. */
    method Emit(script: Script, ghost room: nat) returns (invoked: seq<nat>, ghost end: nat)
      requires Valid() && ScriptFits(script, room) && |list.Model().cursors| + room < L.WRAP
      modifies this`subscriptions, list
      ensures Valid()
      ensures list.Model().cursors == old(list.Model().cursors)
      ensures list.nextCursor >= old(list.nextCursor)
      ensures old(list.steps) <= list.steps && old(list.run) <= list.run
      ensures forall k :: |old(list.steps)| <= k < |list.steps| ==> NewCursorsOnly(list.steps[k], old(list.nextCursor))
      ensures L.Emission(list.run, list.steps, old(list.nextCursor), |old(list.steps)|, end)
      ensures old(list.nextCursor) in list.run[end + 1].done
      ensures invoked == list.run[end + 1].done[old(list.nextCursor)].invoked
      decreases script, 4
    {
      ghost var base, c := list.Model().cursors, list.nextCursor;
      invoked := EmitToEnd(script, room);
      end := |list.steps|;
      L.MapAdd(base, c, list.Model().cursors[c]);
      ghost var m := list.Model();
      EndEmission(c);
      assert base[c := m.cursors[c]] - {c} == base;
    }

    /** The emission up to the end of its iterator, which is still counted. */
    method EmitToEnd(script: Script, ghost room: nat) returns (invoked: seq<nat>)
      requires Valid() && ScriptFits(script, room) && |list.Model().cursors| + room < L.WRAP
      modifies this`subscriptions, list
      ensures Valid()
      ensures list.nextCursor > old(list.nextCursor)
      ensures var c, m := old(list.nextCursor), list.Model();
              && c !in old(list.Model().cursors) && c in m.cursors
              && m.cursors == old(list.Model().cursors)[c := m.cursors[c]]
              && L.Enabled(m, L.Finish(c)) && invoked == m.cursors[c].invoked
      ensures old(list.steps) < list.steps && old(list.run) <= list.run
      ensures list.steps[|old(list.steps)|] == L.Snapshot(old(list.nextCursor))
      ensures forall k :: |old(list.steps)| <= k < |list.steps| ==>
                NewCursorsOnly(list.steps[k], old(list.nextCursor)) && list.steps[k] != L.Finish(old(list.nextCursor))
      decreases script, 3
    {
      ghost var base := list.Model().cursors;
      var it, c := BeginEmission();
      invoked := EmitLoop(it, c, script, room, base);
    }
  }

  /** EventHandlerDeleter: the place of a handler in the list.  `id` is the identity of its node. */
  datatype Deleter = Deleter(owner: nat, index: nat, id: nat)

  predicate DistinctOwners(ds: seq<Deleter>) {
    forall i, j :: 0 <= i < j < |ds| ==> ds[i].owner != ds[j].owner
  }

  /** A set of subscriptions released together.  The event may be gone by then, and a handler may
      have been removed through another copy of its deleter. */
  class MultiSubscription {
    const event: Event
    var destroyed: bool
    var deleters: seq<Deleter>

    /** The deleter's node is still in the list, alive exactly if its subscription is held. */
    ghost predicate Held(d: Deleter)
      reads this`destroyed, event`subscriptions, event.list`handlers
    {
      destroyed ||
      (&& d.index < |event.list.handlers| && event.list.handlers[d.index].id == d.id
       && if d.owner in event.subscriptions then event.subscriptions[d.owner] == d.index
          else !event.list.handlers[d.index].alive)
    }

    ghost predicate Valid()
      reads this, event, event.list
    {
      && event.Valid()
      && (forall i :: 0 <= i < |deleters| ==> Held(deleters[i]))
      && DistinctOwners(deleters)
    }

    /** A deleter is alive while its event is there and its handler was not removed. */
    ghost predicate Live(d: Deleter)
      reads this`destroyed, event`subscriptions
    {
      !destroyed && d.owner in event.subscriptions
    }

    ghost function AliveOnes(ds: seq<Deleter>): seq<Deleter>
      reads this`destroyed, event`subscriptions
    {
      if ds == [] then []
      else AliveOnes(ds[..|ds| - 1]) + if Live(ds[|ds| - 1]) then [ds[|ds| - 1]] else []
    }

    constructor (event: Event)
      requires event.Valid()
      ensures Valid() && this.event == event && deleters == [] && !destroyed
    {
      this.event := event;
      destroyed, deleters := false, [];
    }

    /** EventHandlerDeleter::alive */
    method Alive(d: Deleter) returns (alive: bool)
      requires event.Valid() && Held(d)
      ensures alive == Live(d)
    {
      if destroyed { return false; }
      alive := event.list.Alive(d.index);
    }

    lemma {:induction false} KeptMembers(ds: seq<Deleter>)
      ensures forall d :: d in AliveOnes(ds) <==> d in ds && Live(d)
    {
      if ds != [] {
        KeptMembers(ds[..|ds| - 1]);
        assert ds == ds[..|ds| - 1] + [ds[|ds| - 1]];
      }
    }

    lemma {:induction false} KeptDistinct(ds: seq<Deleter>)
      requires DistinctOwners(ds)
      ensures DistinctOwners(AliveOnes(ds))
    {
      if ds != [] {
        var front, last := ds[..|ds| - 1], ds[|ds| - 1];
        KeptDistinct(front);
        KeptMembers(front);
        var kept := AliveOnes(front);
        forall i | 0 <= i < |kept| ensures kept[i].owner != last.owner {
          assert kept[i] in front;
          var k :| 0 <= k < |front| && front[k] == kept[i];
          assert ds[k].owner != last.owner;
        }
        assert DistinctOwners(kept + [last]);
      }
    }

    /** Exactly the deleters whose event and handler are still there are kept, in their order. */
    method CleanUp()
      requires Valid()
      modifies this`deleters
      ensures Valid() && deleters == AliveOnes(old(deleters))
      ensures forall d :: d in deleters <==> d in old(deleters) && Live(d)
    {
      KeptMembers(deleters);
      KeptDistinct(deleters);
      var kept: seq<Deleter> := [];
      for i := 0 to |deleters|
        invariant deleters == old(deleters)
        invariant kept == AliveOnes(deleters[..i])
      {
        assert deleters[..i + 1][..i] == deleters[..i];
        var alive := Alive(deleters[i]);
        if alive {
          kept := kept + [deleters[i]];
        }
      }
      assert deleters[..|deleters|] == deleters;
      deleters := kept;
      forall i | 0 <= i < |deleters| ensures Held(deleters[i]) {
        assert deleters[i] in deleters;
      }
    }

    /** operator+= : dead deleters make room for the new one. */
    method Push(d: Deleter)
      requires Valid() && Held(d) && forall i :: 0 <= i < |deleters| ==> deleters[i].owner != d.owner
      modifies this`deleters
      ensures Valid() && deleters == AliveOnes(old(deleters)) + [d]
    {
      CleanUp();
      forall i | 0 <= i < |deleters| ensures deleters[i].owner != d.owner {
        assert deleters[i] in deleters;
      }
      deleters := deleters + [d];
    }

    /** Releases the subscription of one deleter, if its handler is alive. */
    method ResetOne(d: Deleter)
      requires event.Valid() && L.CounterExact(event.list.Model()) && Held(d)
      modifies event`subscriptions, event.list`handlers, event.list`run, event.list`steps
      ensures event.Valid() && L.CounterExact(event.list.Model())
      ensures event.subscriptions ==
              if old(Live(d)) then old(event.subscriptions) - {d.owner} else old(event.subscriptions)
      ensures forall e :: old(Held(e)) && e.owner != d.owner ==> Held(e)
    {
      var alive := Alive(d);
      if alive {
        event.OwnIndex(d.owner);
        event.Reset(d.owner);
      }
    }

    /** Exactly the handlers whose deleters are held here and alive are removed. */
    method Reset()
      requires Valid() && L.CounterExact(event.list.Model())
      modifies this`deleters, event`subscriptions, event.list`handlers, event.list`run, event.list`steps
      ensures Valid() && deleters == []
      ensures destroyed ==> event.subscriptions == old(event.subscriptions)
      ensures !destroyed ==>
                forall o :: o in event.subscriptions <==>
                  o in old(event.subscriptions) && forall i :: 0 <= i < |old(deleters)| ==> old(deleters)[i].owner != o
    {
      for i := 0 to |deleters|
        invariant event.Valid() && L.CounterExact(event.list.Model()) && deleters == old(deleters)
        invariant forall j :: i <= j < |deleters| ==> Held(deleters[j])
        invariant destroyed ==> event.subscriptions == old(event.subscriptions)
        invariant !destroyed ==>
                    forall o :: o in event.subscriptions <==>
                      o in old(event.subscriptions) && forall k :: 0 <= k < i ==> deleters[k].owner != o
      {
        ResetOne(deleters[i]);
      }
      deleters := [];
    }
  }
}

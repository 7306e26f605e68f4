/**
 The handler list behind Event, shared by threads and by re-entrant emissions.

 A step is one locked section (insert, remove, snapshot, clean-up), one move of an
 iterator, one handler call, or the unlocked decrement of the use counter.  Handlers may
 subscribe, unsubscribe and emit again, and threads may do the same: both are
 interleavings of these steps.
 */
module EventList {

  /** A list node.  `id` is the identity of the node, which no other node ever gets. */
  datatype Node = Node(id: nat, alive: bool)

  /** An emission under way: the iterator's position and end, and what it has done so far.
      `snapshot` holds the nodes it covers, `wasAlive` their flags when it started, `seen`
      the flag of each passed node when its turn came, `invoked` the handlers called. */
  datatype Cursor = Cursor(
    index: nat, size: nat, calling: bool,
    snapshot: seq<nat>, wasAlive: seq<bool>, seen: seq<bool>, invoked: seq<nat>)

  /** `useCounter` is the bit pattern of the 16-bit counter.  `cleanUps` counts threads that
      brought it to zero and have not taken the lock yet.  `owners` maps each subscription
      to the node it owns; `done` keeps the finished emissions. */
  datatype State = State(
    handlers: seq<Node>,
    useCounter: nat,
    cursors: map<nat, Cursor>,
    cleanUps: nat,
    owners: map<nat, nat>,
    done: map<nat, Cursor>,
    nextId: nat)

  const WRAP: nat := 0x1_0000

  function Up(c: nat): nat { (c + 1) % WRAP }
  function Down(c: nat): nat { (c + WRAP - 1) % WRAP }

  const EMPTY: State := State([], 0, map[], 0, map[], map[], 0)

  // ---------------------------------------------------------------- iterators

  /** The first alive node in handlers[from..size], or size. */
  function Scan(handlers: seq<Node>, from: nat, size: nat): (i: nat)
    requires from <= size <= |handlers|
    ensures from <= i <= size
    ensures i < size ==> handlers[i].alive
    ensures forall p :: from <= p < i ==> !handlers[p].alive
    decreases size - from
  {
    if from == size || handlers[from].alive then from else Scan(handlers, from + 1, size)
  }

  function Ids(handlers: seq<Node>): (r: seq<nat>)
    ensures |r| == |handlers|
    ensures forall i :: 0 <= i < |r| ==> r[i] == handlers[i].id
  {
    seq(|handlers|, i requires 0 <= i < |handlers| => handlers[i].id)
  }

  function Flags(handlers: seq<Node>): (r: seq<bool>)
    ensures |r| == |handlers|
    ensures forall i :: 0 <= i < |r| ==> r[i] == handlers[i].alive
  {
    seq(|handlers|, i requires 0 <= i < |handlers| => handlers[i].alive)
  }

  /** The iterator made under the lock: it covers as many nodes as fit a 16-bit size and
      stands on the first alive one. */
  function NewCursor(handlers: seq<Node>): Cursor {
    var size := |handlers| % WRAP;
    var i := Scan(handlers, 0, size);
    Cursor(i, size, false, Ids(handlers[..size]), Flags(handlers[..size]), Flags(handlers[..i]), [])
  }

  /** The iterator after ++: the handler it stood on is passed, dead ones are skipped. */
  function Advanced(handlers: seq<Node>, c: Cursor): Cursor
    requires c.index < c.size <= |handlers|
  {
    var i := Scan(handlers, c.index + 1, c.size);
    c.(index := i, calling := false, seen := c.seen + [true] + Flags(handlers[c.index + 1..i]))
  }

  // ---------------------------------------------------------------- the list

  function Kill(handlers: seq<Node>, id: nat): (r: seq<Node>)
    ensures |r| == |handlers|
    ensures forall i :: 0 <= i < |r| ==> r[i] == if handlers[i].id == id then Node(id, false) else handlers[i]
  {
    seq(|handlers|, i requires 0 <= i < |handlers| => if handlers[i].id == id then Node(id, false) else handlers[i])
  }

  /** The length without the trailing dead nodes, 0 if no node is alive. */
  function AliveEnd(handlers: seq<Node>): (n: nat)
    ensures n <= |handlers|
    ensures n > 0 ==> handlers[n - 1].alive
    ensures forall i :: n <= i < |handlers| ==> !handlers[i].alive
  {
    if handlers == [] then 0
    else if handlers[|handlers| - 1].alive then |handlers|
    else AliveEnd(handlers[..|handlers| - 1])
  }

  /** Erases the trailing dead nodes; a list without any alive node is left as it is. */
  function Trimmed(handlers: seq<Node>): seq<Node> {
    var n := AliveEnd(handlers);
    if n == 0 then handlers else handlers[..n]
  }

  // ---------------------------------------------------------------- steps

  datatype Step =
    | Insert(owner: nat)
    | Remove(owner: nat)
    | Snapshot(c: nat)
    | Call(c: nat)
    | Advance(c: nat)
    | Finish(c: nat)
    | CleanUp

  predicate Enabled(st: State, s: Step) {
    match s
    case Insert(owner) => owner !in st.owners
    case Remove(owner) => owner in st.owners
    case Snapshot(c) => c !in st.cursors && c !in st.done
    case Call(c) => c in st.cursors && !st.cursors[c].calling && st.cursors[c].index < st.cursors[c].size
                    && st.cursors[c].index < |st.handlers|
    case Advance(c) =>
      c in st.cursors && st.cursors[c].calling && st.cursors[c].index < st.cursors[c].size <= |st.handlers|
    case Finish(c) => c in st.cursors && !st.cursors[c].calling && st.cursors[c].index == st.cursors[c].size
    case CleanUp => st.cleanUps > 0
  }

  function Do(st: State, s: Step): State
    requires Enabled(st, s)
  {
    match s
    case Insert(owner) =>
      st.(handlers := st.handlers + [Node(st.nextId, true)],
          owners := st.owners[owner := st.nextId],
          nextId := st.nextId + 1)
    case Remove(owner) =>
      st.(handlers := Kill(st.handlers, st.owners[owner]), owners := st.owners - {owner})
    case Snapshot(c) =>
      st.(cursors := st.cursors[c := NewCursor(st.handlers)], useCounter := Up(st.useCounter))
    case Call(c) =>
      var it := st.cursors[c];
      st.(cursors := st.cursors[c := it.(calling := true, invoked := it.invoked + [st.handlers[it.index].id])])
    case Advance(c) =>
      st.(cursors := st.cursors[c := Advanced(st.handlers, st.cursors[c])])
    case Finish(c) =>
      st.(cursors := st.cursors - {c}, done := st.done[c := st.cursors[c]],
          useCounter := Down(st.useCounter),
          cleanUps := st.cleanUps + if Down(st.useCounter) == 0 then 1 else 0)
    case CleanUp =>
      st.(cleanUps := st.cleanUps - 1,
          handlers := if st.useCounter == 0 then Trimmed(st.handlers) else st.handlers)
  }

  // ---------------------------------------------------------------- the invariant

  /** The handlers at the positions whose flag is set, in order. */
  function Chosen(ids: seq<nat>, flags: seq<bool>): (r: seq<nat>)
    requires |ids| == |flags|
  {
    if ids == [] then []
    else
      var front := Chosen(ids[..|ids| - 1], flags[..|flags| - 1]);
      if flags[|flags| - 1] then front + [ids[|ids| - 1]] else front
  }

  ghost predicate Increasing(handlers: seq<Node>, bound: nat) {
    && (forall i :: 0 <= i < |handlers| ==> handlers[i].id < bound)
    && (forall i, j :: 0 <= i < j < |handlers| ==> handlers[i].id < handlers[j].id)
  }

  /** The nodes an emission covers are still in the list, where they were. */
  ghost predicate WindowIntact(handlers: seq<Node>, c: Cursor) {
    && c.index <= c.size <= |handlers|
    && |c.snapshot| == |c.wasAlive| == c.size
    && |c.seen| == c.index
    && (forall p :: 0 <= p < c.size ==> handlers[p].id == c.snapshot[p])
    && (forall p :: 0 <= p < c.size && handlers[p].alive ==> c.wasAlive[p])
    && (forall p :: 0 <= p < c.index && handlers[p].alive ==> c.seen[p])
  }

  /** What an emission has done so far: it called the passed handlers that were alive at
      their turn, and those were alive from the start. */
  ghost predicate CallsRight(c: Cursor) {
    && c.index <= c.size && |c.snapshot| == |c.wasAlive| == c.size && |c.seen| == c.index
    && Ascending(c.snapshot)
    && (forall p :: 0 <= p < c.index && c.seen[p] ==> c.wasAlive[p])
    && (c.calling ==> c.index < c.size)
    && (c.index < c.size ==> c.wasAlive[c.index])
    && c.invoked == Chosen(c.snapshot[..c.index], c.seen) + if c.calling then [c.snapshot[c.index]] else []
  }

  ghost predicate Ascending(ids: seq<nat>) {
    forall i, j :: 0 <= i < j < |ids| ==> ids[i] < ids[j]
  }

  ghost predicate Owned(handlers: seq<Node>, id: nat) {
    exists p :: 0 <= p < |handlers| && handlers[p] == Node(id, true)
  }

  ghost predicate Finished(c: Cursor) {
    CallsRight(c) && c.index == c.size && !c.calling
  }

  ghost predicate CursorOk(handlers: seq<Node>, c: Cursor) {
    WindowIntact(handlers, c) && CallsRight(c)
  }

  ghost predicate CursorsOk(handlers: seq<Node>, cursors: map<nat, Cursor>) {
    forall c :: c in cursors ==> CursorOk(handlers, cursors[c])
  }

  /** Each subscription owns a node of the list that is alive, and no two own the same. */
  ghost predicate OwnersOk(handlers: seq<Node>, owners: map<nat, nat>) {
    && (forall o :: o in owners ==> Owned(handlers, owners[o]))
    && (forall o, o' :: o in owners && o' in owners && o != o' ==> owners[o] != owners[o'])
  }

  ghost predicate DoneOk(done: map<nat, Cursor>) {
    forall c :: c in done ==> Finished(done[c])
  }

  ghost predicate Inv(st: State) {
    && st.useCounter == |st.cursors| % WRAP
    && Increasing(st.handlers, st.nextId)
    && CursorsOk(st.handlers, st.cursors)
    && DoneOk(st.done)
    && OwnersOk(st.handlers, st.owners)
  }

  /** Fewer than 65536 emissions at a time, so that the counter is exact. */
  predicate CounterExact(st: State) {
    |st.cursors| < WRAP
  }

  // ---------------------------------------------------------------- every step keeps the invariant

  lemma {:induction false} ChosenAppend(ids: seq<nat>, flags: seq<bool>, more: seq<nat>, dead: seq<bool>)
    requires |ids| == |flags| && |more| == |dead|
    requires forall i :: 0 <= i < |dead| ==> !dead[i]
    ensures Chosen(ids + more, flags + dead) == Chosen(ids, flags)
    decreases |more|
  {
    var n := |more|;
    if n == 0 {
      assert ids + more == ids && flags + dead == flags;
    } else {
      ChosenAppend(ids, flags, more[..n - 1], dead[..n - 1]);
      assert (ids + more)[..|ids| + n - 1] == ids + more[..n - 1];
      assert (flags + dead)[..|ids| + n - 1] == flags + dead[..n - 1];
    }
  }

  lemma NewCursorRight(handlers: seq<Node>, bound: nat)
    requires Increasing(handlers, bound)
    ensures CursorOk(handlers, NewCursor(handlers))
  {
    var c := NewCursor(handlers);
    NoneChosen(c.snapshot[..c.index], c.seen);
  }

  lemma NoneChosen(ids: seq<nat>, dead: seq<bool>)
    requires |ids| == |dead| && forall i :: 0 <= i < |dead| ==> !dead[i]
    ensures Chosen(ids, dead) == []
  {
    ChosenAppend([], [], ids, dead);
    assert [] + ids == ids && [] + dead == dead;
  }

  lemma AdvancedSeen(handlers: seq<Node>, c: Cursor)
    requires c.index < c.size <= |handlers| && |c.seen| == c.index
    ensures var r := Advanced(handlers, c);
            && c.index < r.index <= c.size && |r.seen| == r.index
            && (forall p :: 0 <= p < c.index ==> r.seen[p] == c.seen[p])
            && r.seen[c.index]
            && (forall p :: c.index < p < r.index ==> !r.seen[p] && !handlers[p].alive)
            && r.seen == c.seen + [true] + r.seen[c.index + 1..]
            && (r.index < c.size ==> handlers[r.index].alive)
  {
    var r := Advanced(handlers, c);
    var skipped := Flags(handlers[c.index + 1..r.index]);
    forall p | c.index < p < r.index ensures !r.seen[p] && !handlers[p].alive {
      assert r.seen[p] == skipped[p - c.index - 1];
      assert skipped[p - c.index - 1] == handlers[c.index + 1..r.index][p - c.index - 1].alive;
    }
  }

  lemma AdvancedCalls(handlers: seq<Node>, c: Cursor)
    requires c.index < c.size <= |handlers| && |c.seen| == c.index && |c.snapshot| == c.size
    ensures var r := Advanced(handlers, c);
            |r.seen| == r.index <= c.size &&
            Chosen(c.snapshot[..r.index], r.seen) == Chosen(c.snapshot[..c.index], c.seen) + [c.snapshot[c.index]]
  {
    AdvancedSeen(handlers, c);
    var r := Advanced(handlers, c);
    var upto := c.snapshot[..c.index + 1];
    assert Chosen(upto, c.seen + [true]) == Chosen(c.snapshot[..c.index], c.seen) + [c.snapshot[c.index]] by {
      assert upto[..c.index] == c.snapshot[..c.index];
      assert (c.seen + [true])[..c.index] == c.seen;
    }
    assert c.snapshot[..r.index] == upto + c.snapshot[c.index + 1..r.index];
    ChosenAppend(upto, c.seen + [true], c.snapshot[c.index + 1..r.index], r.seen[c.index + 1..]);
  }

  lemma AdvancedRight(handlers: seq<Node>, c: Cursor)
    requires WindowIntact(handlers, c) && CallsRight(c) && c.calling
    ensures WindowIntact(handlers, Advanced(handlers, c)) && CallsRight(Advanced(handlers, c))
  {
    AdvancedSeen(handlers, c);
    AdvancedCalls(handlers, c);
  }

  lemma KillKeepsWindow(handlers: seq<Node>, id: nat, c: Cursor)
    requires WindowIntact(handlers, c)
    ensures WindowIntact(Kill(handlers, id), c)
  {
  }

  lemma KillKeepsOthers(handlers: seq<Node>, id: nat, other: nat)
    requires Owned(handlers, other) && other != id
    ensures Owned(Kill(handlers, id), other)
  {
    var p :| 0 <= p < |handlers| && handlers[p] == Node(other, true);
    assert Kill(handlers, id)[p] == Node(other, true);
  }

  lemma AppendKeepsOwned(handlers: seq<Node>, n: Node, id: nat)
    requires Owned(handlers, id)
    ensures Owned(handlers + [n], id)
  {
    var p :| 0 <= p < |handlers| && handlers[p] == Node(id, true);
    assert (handlers + [n])[p] == Node(id, true);
  }

  lemma TrimKeepsOwned(handlers: seq<Node>, id: nat)
    requires Owned(handlers, id)
    ensures Owned(Trimmed(handlers), id)
  {
    var p :| 0 <= p < |handlers| && handlers[p] == Node(id, true);
    assert p < AliveEnd(handlers);
    assert Trimmed(handlers)[p] == Node(id, true);
  }

  lemma AppendKeepsWindow(handlers: seq<Node>, n: Node, c: Cursor)
    requires WindowIntact(handlers, c)
    ensures WindowIntact(handlers + [n], c)
  {
  }

  lemma OwnedBelow(handlers: seq<Node>, bound: nat, id: nat)
    requires Increasing(handlers, bound) && Owned(handlers, id)
    ensures id < bound
  {
    var p :| 0 <= p < |handlers| && handlers[p] == Node(id, true);
  }

  lemma InsertKeepsInv(st: State, owner: nat)
    requires Inv(st) && Enabled(st, Insert(owner))
    ensures Inv(Do(st, Insert(owner)))
  {
    var r := Do(st, Insert(owner));
    var n := Node(st.nextId, true);
    forall c | c in st.cursors ensures CursorOk(r.handlers, r.cursors[c]) {
      assert CursorOk(st.handlers, st.cursors[c]);
      AppendKeepsWindow(st.handlers, n, st.cursors[c]);
    }
    InsertKeepsOwners(st.handlers, st.nextId, st.owners, owner);
  }

  lemma InsertKeepsOwners(handlers: seq<Node>, nextId: nat, owners: map<nat, nat>, owner: nat)
    requires Increasing(handlers, nextId) && OwnersOk(handlers, owners) && owner !in owners
    ensures OwnersOk(handlers + [Node(nextId, true)], owners[owner := nextId])
    ensures Increasing(handlers + [Node(nextId, true)], nextId + 1)
  {
    var n, all := Node(nextId, true), owners[owner := nextId];
    var more := handlers + [n];
    assert more[|handlers|] == n;
    forall o | o in all ensures Owned(more, all[o]) && (o != owner ==> all[o] < nextId) {
      if o != owner {
        OwnedBelow(handlers, nextId, owners[o]);
        AppendKeepsOwned(handlers, n, owners[o]);
      }
    }
  }

  lemma RemoveKeepsInv(st: State, owner: nat)
    requires Inv(st) && Enabled(st, Remove(owner))
    ensures Inv(Do(st, Remove(owner)))
  {
    var id := st.owners[owner];
    var r := Do(st, Remove(owner));
    forall c | c in st.cursors ensures CursorOk(r.handlers, r.cursors[c]) {
      assert CursorOk(st.handlers, st.cursors[c]);
      KillKeepsWindow(st.handlers, id, st.cursors[c]);
    }
    forall o | o in r.owners ensures Owned(r.handlers, r.owners[o]) {
      KillKeepsOthers(st.handlers, id, st.owners[o]);
    }
  }

  lemma MapAdd<V>(m: map<nat, V>, k: nat, v: V)
    requires k !in m
    ensures |m[k := v]| == |m| + 1
  {
    assert m[k := v].Keys == m.Keys + {k};
  }

  lemma MapDrop<V>(m: map<nat, V>, k: nat)
    requires k in m
    ensures |m - {k}| == |m| - 1
  {
    assert (m - {k}).Keys == m.Keys - {k};
  }

  lemma MapSet<V>(m: map<nat, V>, k: nat, v: V)
    requires k in m
    ensures |m[k := v]| == |m|
  {
    assert m[k := v].Keys == m.Keys;
  }

  lemma CounterUp(n: nat)
    ensures Up(n % WRAP) == (n + 1) % WRAP
  {
  }

  lemma CounterDown(n: nat)
    requires n > 0
    ensures Down(n % WRAP) == (n - 1) % WRAP
  {
  }

  lemma CursorSet(handlers: seq<Node>, cursors: map<nat, Cursor>, c: nat, it: Cursor)
    requires CursorsOk(handlers, cursors) && CursorOk(handlers, it)
    ensures CursorsOk(handlers, cursors[c := it])
  {
  }

  lemma CursorAddKeepsInv(st: State, c: nat, it: Cursor)
    requires Inv(st) && c !in st.cursors && CursorOk(st.handlers, it)
    ensures Inv(st.(cursors := st.cursors[c := it], useCounter := Up(st.useCounter)))
  {
    CursorSet(st.handlers, st.cursors, c, it);
    MapAdd(st.cursors, c, it);
    CounterUp(|st.cursors|);
  }

  lemma SnapshotKeepsInv(st: State, c: nat)
    requires Inv(st) && Enabled(st, Snapshot(c))
    ensures Inv(Do(st, Snapshot(c)))
  {
    NewCursorRight(st.handlers, st.nextId);
    CursorAddKeepsInv(st, c, NewCursor(st.handlers));
  }

  /** Replacing one cursor by a right one keeps the invariant. */
  lemma CursorUpdateKeepsInv(st: State, c: nat, it: Cursor)
    requires Inv(st) && c in st.cursors
    requires WindowIntact(st.handlers, it) && CallsRight(it)
    ensures Inv(st.(cursors := st.cursors[c := it]))
  {
    MapSet(st.cursors, c, it);
    CursorSet(st.handlers, st.cursors, c, it);
  }

  lemma CallKeepsInv(st: State, c: nat)
    requires Inv(st) && Enabled(st, Call(c))
    ensures Inv(Do(st, Call(c)))
  {
    var it := st.cursors[c];
    assert CursorOk(st.handlers, it);
    CursorUpdateKeepsInv(st, c, it.(calling := true, invoked := it.invoked + [st.handlers[it.index].id]));
  }

  lemma AdvanceKeepsInv(st: State, c: nat)
    requires Inv(st) && Enabled(st, Advance(c))
    ensures Inv(Do(st, Advance(c)))
  {
    var it := st.cursors[c];
    assert CursorOk(st.handlers, it);
    AdvancedRight(st.handlers, it);
    CursorUpdateKeepsInv(st, c, Advanced(st.handlers, it));
  }

  lemma FinishKeepsInv(st: State, c: nat)
    requires Inv(st) && Enabled(st, Finish(c))
    ensures Inv(Do(st, Finish(c)))
  {
    MapDrop(st.cursors, c);
    CounterDown(|st.cursors|);
  }

  lemma SmallModWrap(n: nat)
    ensures n % WRAP == n <==> n < WRAP
    ensures n == WRAP ==> n % WRAP == 0
  {
  }

  /** An exact counter is zero exactly without active iterators. */
  lemma CounterZero(cursors: map<nat, Cursor>, useCounter: nat)
    requires useCounter == |cursors| % WRAP && |cursors| < WRAP
    ensures useCounter == 0 <==> cursors == map[]
  {
    SmallModWrap(|cursors|);
    if cursors != map[] { NonEmptyMap(cursors); }
  }

  lemma NonEmptyMap(m: map<nat, Cursor>)
    requires m != map[]
    ensures |m| > 0
  {
    var k :| k in m;
    assert k in m.Keys;
  }

  lemma TrimKeepsOwners(handlers: seq<Node>, owners: map<nat, nat>)
    requires OwnersOk(handlers, owners)
    ensures OwnersOk(Trimmed(handlers), owners)
  {
    forall o | o in owners ensures Owned(Trimmed(handlers), owners[o]) {
      TrimKeepsOwned(handlers, owners[o]);
    }
  }

  lemma TrimKeepsIncreasing(handlers: seq<Node>, bound: nat)
    requires Increasing(handlers, bound)
    ensures Increasing(Trimmed(handlers), bound)
  {
  }

  lemma CleanUpKeepsInv(st: State)
    requires Inv(st) && CounterExact(st) && Enabled(st, CleanUp)
    ensures Inv(Do(st, CleanUp))
  {
    CounterZero(st.cursors, st.useCounter);
    TrimKeepsOwners(st.handlers, st.owners);
    TrimKeepsIncreasing(st.handlers, st.nextId);
  }

  lemma StepKeepsInv(st: State, s: Step)
    requires Inv(st) && CounterExact(st) && Enabled(st, s)
    ensures Inv(Do(st, s))
  {
    match s
    case Insert(owner) => InsertKeepsInv(st, owner);
    case Remove(owner) => RemoveKeepsInv(st, owner);
    case Snapshot(c) => SnapshotKeepsInv(st, c);
    case Call(c) => CallKeepsInv(st, c);
    case Advance(c) => AdvanceKeepsInv(st, c);
    case Finish(c) => FinishKeepsInv(st, c);
    case CleanUp => CleanUpKeepsInv(st);
  }

  // ---------------------------------------------------------------- runs

  /** A run: any interleaving of steps, with fewer than 65536 emissions at a time. */
  ghost predicate IsRun(run: seq<State>, steps: seq<Step>) {
    && |run| == |steps| + 1
    && run[0] == EMPTY
    && (forall i :: 0 <= i < |steps| ==> StepAt(run, steps, i))
  }

  ghost predicate StepAt(run: seq<State>, steps: seq<Step>, i: nat)
    requires |run| == |steps| + 1 && i < |steps|
  {
    Enabled(run[i], steps[i]) && run[i + 1] == Do(run[i], steps[i]) && CounterExact(run[i])
  }

  lemma {:induction false} EveryReachableStateIsInv(run: seq<State>, steps: seq<Step>, i: nat)
    requires IsRun(run, steps) && i < |run|
    ensures Inv(run[i])
  {
    if i > 0 {
      var j := i - 1;
      EveryReachableStateIsInv(run, steps, j);
      assert StepAt(run, steps, j);
      StepKeepsInv(run[j], steps[j]);
    } else {
      EmptyIsInv();
    }
  }

  lemma EmptyIsInv()
    ensures Inv(EMPTY)
  {
  }

  /** How std::int16_t reads the bit pattern of the counter. */
  function AsInt16(c: nat): int {
    if c < WRAP / 2 then c else c - WRAP
  }

  /** The use counter holds the number of active iterators exactly if those are fewer than 65536,
      though as a signed number it reads so only below 32768; what the code asks of it is whether
      it is zero.  With 65536 iterators it is, and a clean-up would erase under them. */
  lemma UseCounterIsExact(st: State)
    requires Inv(st)
    ensures st.useCounter == |st.cursors| <==> |st.cursors| < 0x1_0000
    ensures AsInt16(st.useCounter) == |st.cursors| <==> |st.cursors| < 0x8000
    ensures |st.cursors| < 0x1_0000 ==> (AsInt16(st.useCounter) == 0 <==> st.cursors == map[])
    ensures |st.cursors| == 0x1_0000 ==> AsInt16(st.useCounter) == 0
  {
    SmallModWrap(|st.cursors|);
    if CounterExact(st) { CounterZero(st.cursors, st.useCounter); }
  }

  ghost predicate Present(handlers: seq<Node>, id: nat) {
    exists p :: 0 <= p < |handlers| && handlers[p].id == id
  }

  lemma KillKeepsPresent(handlers: seq<Node>, dead: nat, id: nat)
    requires Present(handlers, id)
    ensures Present(Kill(handlers, dead), id)
  {
    var p :| 0 <= p < |handlers| && handlers[p].id == id;
    assert Kill(handlers, dead)[p].id == id;
  }

  lemma AppendKeepsPresent(handlers: seq<Node>, n: Node, id: nat)
    requires Present(handlers, id)
    ensures Present(handlers + [n], id)
  {
    var p :| 0 <= p < |handlers| && handlers[p].id == id;
    assert (handlers + [n])[p].id == id;
  }

  /** Trimming keeps every alive node. */
  lemma TrimKeepsAlive(handlers: seq<Node>, p: nat)
    requires p < |handlers| && handlers[p].alive
    ensures Present(Trimmed(handlers), handlers[p].id)
  {
    assert Trimmed(handlers)[p].id == handlers[p].id;
  }

  /** Only a clean-up without active iterators can erase. */
  lemma OnlyCleanUpErases(st: State, s: Step, id: nat)
    requires st.useCounter == |st.cursors| % WRAP && CounterExact(st) && Enabled(st, s) && Present(st.handlers, id)
    requires s != CleanUp || st.cursors != map[]
    ensures Present(Do(st, s).handlers, id)
  {
    match s
    case Insert(owner) => AppendKeepsPresent(st.handlers, Node(st.nextId, true), id);
    case Remove(owner) => KillKeepsPresent(st.handlers, st.owners[owner], id);
    case CleanUp => CounterZero(st.cursors, st.useCounter);
    case _ =>
  }

  /** A node is erased only by a clean-up with no iterator active, and only if it is dead and
      no subscription refers to it.  In particular no node in an iterator's window is erased. */
  lemma ErasedNodesAreUnused(st: State, s: Step, id: nat)
    requires Inv(st) && CounterExact(st) && Enabled(st, s)
    requires Present(st.handlers, id) && !Present(Do(st, s).handlers, id)
    ensures s == CleanUp && st.cursors == map[]
    ensures !Owned(st.handlers, id)
    ensures forall o :: o in st.owners ==> st.owners[o] != id
  {
    if s != CleanUp || st.cursors != map[] {
      OnlyCleanUpErases(st, s, id);
    }
    forall p | 0 <= p < |st.handlers| && st.handlers[p].alive ensures st.handlers[p].id != id {
      TrimKeepsAlive(st.handlers, p);
    }
  }

  ghost predicate SomeAlive(handlers: seq<Node>) {
    exists p :: 0 <= p < |handlers| && handlers[p].alive
  }

  /** A clean-up with no iterator active erases every node behind the last alive one and no other; it
      erases nothing if no node is alive, or while an iterator is active. */
  lemma CleanUpEndsAlive(st: State)
    requires Inv(st) && CounterExact(st) && Enabled(st, CleanUp)
    ensures var t := Do(st, CleanUp);
            if st.cursors == map[] && SomeAlive(st.handlers) then
              && t.handlers != [] && t.handlers[|t.handlers| - 1].alive
              && t.handlers <= st.handlers
              && forall p :: |t.handlers| <= p < |st.handlers| ==> !st.handlers[p].alive
            else t.handlers == st.handlers
  {
    CounterZero(st.cursors, st.useCounter);
    var n := AliveEnd(st.handlers);
    if n > 0 { assert st.handlers[n - 1].alive; }
  }

  /** A clean-up comes up exactly when the last active iterator ends, and stays until it has run. */
  lemma LastEmissionCleansUp(st: State, s: Step)
    requires Inv(st) && CounterExact(st) && Enabled(st, s)
    ensures Do(st, s).cleanUps ==
            st.cleanUps + (if s.Finish? && |st.cursors| == 1 then 1 else 0) - (if s.CleanUp? then 1 else 0)
  {
    if s.Finish? {
      UseCounterIsExact(st);
      MapDrop(st.cursors, s.c);
      DownToZero(|st.cursors|);
    }
  }

  lemma DownToZero(n: nat)
    requires 0 < n < WRAP
    ensures Down(n) == 0 <==> n == 1
  {
    assert n + WRAP - 1 >= WRAP;
    assert (n + WRAP - 1) % WRAP == n - 1;
  }

  lemma KillHitsOne(handlers: seq<Node>, bound: nat, id: nat) returns (p: nat)
    requires Increasing(handlers, bound) && Owned(handlers, id)
    ensures p < |handlers| && handlers[p] == Node(id, true)
    ensures Kill(handlers, id) == handlers[p := Node(id, false)]
  {
    p :| 0 <= p < |handlers| && handlers[p] == Node(id, true);
  }

  /** Removing by subscription hits exactly its own node, which is in the list and alive. */
  lemma RemoveHitsItsNode(st: State, owner: nat) returns (p: nat)
    requires Inv(st) && owner in st.owners
    ensures p < |st.handlers| && st.handlers[p] == Node(st.owners[owner], true)
    ensures Do(st, Remove(owner)).handlers == st.handlers[p := Node(st.owners[owner], false)]
  {
    p := KillHitsOne(st.handlers, st.nextId, st.owners[owner]);
  }

  // ---------------------------------------------------------------- one emission

  /** An id is chosen exactly if its flag is set; the order of the ids is kept. */
  lemma {:induction false} ChosenProperties(ids: seq<nat>, flags: seq<bool>)
    requires |ids| == |flags| && Ascending(ids)
    ensures Ascending(Chosen(ids, flags))
    ensures forall x :: x in Chosen(ids, flags) ==> x in ids
    ensures forall p :: 0 <= p < |ids| ==> (ids[p] in Chosen(ids, flags) <==> flags[p])
  {
    if ids != [] {
      var n := |ids| - 1;
      var front := Chosen(ids[..n], flags[..n]);
      ChosenProperties(ids[..n], flags[..n]);
      forall i | 0 <= i < |front| ensures front[i] < ids[n] {
        assert front[i] in ids[..n];
      }
      forall p | 0 <= p < n ensures ids[p] in front <==> flags[p] {
        assert ids[..n][p] == ids[p] && flags[..n][p] == flags[p];
      }
    }
  }

  /** The cursor of an emission that no step of its own has moved. */
  lemma OtherStepsKeepCursor(st: State, s: Step, c: nat)
    requires Enabled(st, s) && c in st.cursors
    requires s != Call(c) && s != Advance(c) && s != Finish(c)
    ensures c in Do(st, s).cursors && Do(st, s).cursors[c] == st.cursors[c]
  {
  }

  /** steps[i] starts the emission c and steps[j] ends it. */
  ghost predicate Emission(run: seq<State>, steps: seq<Step>, c: nat, i: nat, j: nat) {
    && IsRun(run, steps)
    && i < j < |steps|
    && steps[i] == Snapshot(c)
    && steps[j] == Finish(c)
    && forall k :: i < k < j ==> steps[k] != Finish(c)
  }

  lemma {:induction false} CursorThroughEmission(run: seq<State>, steps: seq<Step>, c: nat, i: nat, j: nat, k: nat)
    requires Emission(run, steps, c, i, j) && i < k <= j
    ensures c in run[k].cursors
    ensures run[k].cursors[c].snapshot == NewCursor(run[i].handlers).snapshot
    ensures run[k].cursors[c].wasAlive == NewCursor(run[i].handlers).wasAlive
    ensures run[k].cursors[c].size == NewCursor(run[i].handlers).size
  {
    assert StepAt(run, steps, k - 1);
    if k > i + 1 {
      CursorThroughEmission(run, steps, c, i, j, k - 1);
      if steps[k - 1] != Call(c) && steps[k - 1] != Advance(c) {
        OtherStepsKeepCursor(run[k - 1], steps[k - 1], c);
      }
    }
  }

  /** The cursor of an emission under way is in order; it covers what the list held at the start. */
  lemma CursorAt(run: seq<State>, steps: seq<Step>, c: nat, i: nat, j: nat, k: nat)
    requires Emission(run, steps, c, i, j) && i < k <= j
    ensures c in run[k].cursors && CursorOk(run[k].handlers, run[k].cursors[c])
    ensures run[k].cursors[c].size == |run[i].handlers| % WRAP
    ensures run[k].cursors[c].snapshot == Ids(run[i].handlers[..|run[i].handlers| % WRAP])
    ensures run[k].cursors[c].wasAlive == Flags(run[i].handlers[..|run[i].handlers| % WRAP])
  {
    CursorThroughEmission(run, steps, c, i, j, k);
    EveryReachableStateIsInv(run, steps, k);
  }

  /** What a finished emission has called. */
  lemma FinishedCalls(it: Cursor)
    requires Finished(it)
    ensures Ascending(it.invoked)
    ensures forall x :: x in it.invoked ==> x in it.snapshot
    ensures forall p :: 0 <= p < it.size ==> (it.snapshot[p] in it.invoked <==> it.seen[p])
  {
    assert it.snapshot[..it.index] == it.snapshot;
    ChosenProperties(it.snapshot, it.seen);
  }

  /** The flag an emission read at position p, once its iterator has come that far. */
  ghost function TurnFlag(it: Cursor, p: nat): bool {
    if p < |it.seen| then it.seen[p] else true
  }

  /** One step either keeps the flag read at p or is the one that reads it. */
  lemma TurnStep(st: State, s: Step, c: nat, p: nat)
    requires Enabled(st, s) && c in st.cursors && c in Do(st, s).cursors
    requires WindowIntact(st.handlers, st.cursors[c])
    requires p <= Do(st, s).cursors[c].index && p < st.cursors[c].size
    ensures p <= st.cursors[c].index ==> TurnFlag(Do(st, s).cursors[c], p) == TurnFlag(st.cursors[c], p)
    ensures p > st.cursors[c].index ==> s == Advance(c) && st.handlers[p].alive == TurnFlag(Do(st, s).cursors[c], p)
  {
    if s == Advance(c) {
      AdvancedSeen(st.handlers, st.cursors[c]);
    } else if s != Call(c) {
      OtherStepsKeepCursor(st, s, c);
    }
  }

  lemma FirstTurn(run: seq<State>, steps: seq<Step>, c: nat, i: nat, j: nat, p: nat)
    requires Emission(run, steps, c, i, j)
    requires c in run[i + 1].cursors
    requires p <= run[i + 1].cursors[c].index && p < run[i + 1].cursors[c].size
    ensures p < |run[i].handlers| && run[i].handlers[p].alive == TurnFlag(run[i + 1].cursors[c], p)
  {
    assert StepAt(run, steps, i);
  }

  lemma LaterTurn(run: seq<State>, steps: seq<Step>, c: nat, i: nat, j: nat, k: nat, p: nat)
    requires Emission(run, steps, c, i, j) && i + 1 < k <= j
    requires c in run[k].cursors
    requires p <= run[k].cursors[c].index && p < run[k].cursors[c].size
    ensures c in run[k - 1].cursors && p < run[k - 1].cursors[c].size <= |run[k - 1].handlers|
    ensures p <= run[k - 1].cursors[c].index ==> TurnFlag(run[k].cursors[c], p) == TurnFlag(run[k - 1].cursors[c], p)
    ensures p > run[k - 1].cursors[c].index ==>
              steps[k - 1] == Advance(c) && run[k - 1].handlers[p].alive == TurnFlag(run[k].cursors[c], p)
  {
    CursorAt(run, steps, c, i, j, k - 1);
    CursorAt(run, steps, c, i, j, k);
    assert StepAt(run, steps, k - 1);
    TurnStep(run[k - 1], steps[k - 1], c, p);
  }

  /** The turn of position p: steps[t] makes or advances the iterator onto p or past it. */
  ghost predicate IsTurn(run: seq<State>, steps: seq<Step>, c: nat, i: nat, t: nat, p: nat)
    requires |run| == |steps| + 1
  {
    && i <= t < |steps| && p < |run[t].handlers|
    && c in run[t + 1].cursors && p <= run[t + 1].cursors[c].index
    && if t == i then steps[t] == Snapshot(c)
       else steps[t] == Advance(c) && c in run[t].cursors && run[t].cursors[c].index < p
  }

  ghost predicate HasTurn(run: seq<State>, steps: seq<Step>, c: nat, i: nat, j: nat, p: nat)
    requires |run| == |steps| + 1
  {
    exists t: nat :: t < j && IsTurn(run, steps, c, i, t, p)
  }

  /** Every covered position has its turn, and the flag read then is the one the node had in that
      very state. */
  lemma {:induction false} TurnOf(run: seq<State>, steps: seq<Step>, c: nat, i: nat, j: nat, k: nat, p: nat)
      returns (t: nat)
    requires Emission(run, steps, c, i, j) && i < k <= j
    requires c in run[k].cursors
    requires p <= run[k].cursors[c].index && p < run[k].cursors[c].size
    ensures t < k && IsTurn(run, steps, c, i, t, p)
    ensures run[t].handlers[p].alive == TurnFlag(run[k].cursors[c], p)
    decreases k
  {
    if k == i + 1 {
      t := i;
      FirstTurn(run, steps, c, i, j, p);
    } else {
      LaterTurn(run, steps, c, i, j, k, p);
      if p <= run[k - 1].cursors[c].index {
        t := TurnOf(run, steps, c, i, j, k - 1, p);
      } else {
        t := k - 1;
      }
    }
  }

  /** The iterator of an emission never goes back. */
  lemma {:induction false} IndexGrows(run: seq<State>, steps: seq<Step>, c: nat, i: nat, j: nat, k: nat, l: nat)
    requires Emission(run, steps, c, i, j) && i < k <= l <= j
    ensures c in run[k].cursors && c in run[l].cursors && run[k].cursors[c].index <= run[l].cursors[c].index
    decreases l
  {
    CursorThroughEmission(run, steps, c, i, j, k);
    if k < l {
      IndexGrows(run, steps, c, i, j, k, l - 1);
      CursorThroughEmission(run, steps, c, i, j, l);
      assert StepAt(run, steps, l - 1);
      if steps[l - 1] != Call(c) && steps[l - 1] != Advance(c) {
        OtherStepsKeepCursor(run[l - 1], steps[l - 1], c);
      }
    }
  }

  /** A position has at most one turn. */
  lemma TurnIsUnique(run: seq<State>, steps: seq<Step>, c: nat, i: nat, j: nat, p: nat, t: nat, u: nat)
    requires Emission(run, steps, c, i, j) && t <= u < j
    requires IsTurn(run, steps, c, i, t, p) && IsTurn(run, steps, c, i, u, p)
    ensures t == u
  {
    if t < u { IndexGrows(run, steps, c, i, j, t + 1, u); }
  }

  /** The main theorem on emissions.  Handlers and other threads may have done anything meanwhile. */
  lemma EmissionIsExact(run: seq<State>, steps: seq<Step>, c: nat, i: nat, j: nat)
    requires Emission(run, steps, c, i, j)
    requires |run[i].handlers| < WRAP
    ensures c in run[j + 1].done
    // the calls follow the subscription order, so no handler is called twice,
    ensures Ascending(run[j + 1].done[c].invoked)
    // only handlers present at the start are called,
    ensures forall x :: x in run[j + 1].done[c].invoked ==> x in Ids(run[i].handlers)
    // each of them has one turn,
    ensures forall p :: 0 <= p < |run[i].handlers| ==> HasTurn(run, steps, c, i, j, p)
    // and it is called exactly if it is alive then.
    ensures forall p: nat, t: nat :: p < |run[i].handlers| && t < j && IsTurn(run, steps, c, i, t, p) ==>
              (run[i].handlers[p].id in run[j + 1].done[c].invoked <==> run[t].handlers[p].alive)
  {
    assert StepAt(run, steps, j);
    CursorAt(run, steps, c, i, j, j);
    var it := run[j].cursors[c];
    assert run[j + 1].done[c] == it && Finished(it);
    assert run[i].handlers[..|run[i].handlers|] == run[i].handlers;
    FinishedCalls(it);
    forall p | 0 <= p < |run[i].handlers| ensures HasTurn(run, steps, c, i, j, p) {
      var t := TurnOf(run, steps, c, i, j, j, p);
    }
    forall p: nat, t: nat | p < |run[i].handlers| && t < j && IsTurn(run, steps, c, i, t, p)
      ensures run[i].handlers[p].id in it.invoked <==> run[t].handlers[p].alive
    {
      var u := TurnOf(run, steps, c, i, j, j, p);
      if t <= u { TurnIsUnique(run, steps, c, i, j, p, t, u); } else { TurnIsUnique(run, steps, c, i, j, p, u, t); }
      assert it.snapshot[p] == run[i].handlers[p].id;
    }
  }

  /** A handler alive all through an emission is called in it; one dead before is not. */
  lemma EmissionBounds(run: seq<State>, steps: seq<Step>, c: nat, i: nat, j: nat, p: nat)
    requires Emission(run, steps, c, i, j)
    requires |run[i].handlers| < WRAP && p < |run[i].handlers|
    ensures c in run[j + 1].done
    ensures !run[i].handlers[p].alive ==> run[i].handlers[p].id !in run[j + 1].done[c].invoked
    ensures p < |run[j].handlers| && run[j].handlers[p].id == run[i].handlers[p].id
    ensures run[j].handlers[p].alive ==> run[i].handlers[p].id in run[j + 1].done[c].invoked
  {
    assert StepAt(run, steps, j);
    CursorAt(run, steps, c, i, j, j);
    var it := run[j].cursors[c];
    assert run[j + 1].done[c] == it && Finished(it);
    assert run[i].handlers[..|run[i].handlers|] == run[i].handlers;
    FinishedCalls(it);
    assert it.snapshot[p] == run[i].handlers[p].id && it.wasAlive[p] == run[i].handlers[p].alive;
  }

  /** The iterator's 16-bit size covers the whole list exactly if it has fewer than 65536 nodes. */
  lemma SnapshotCoversList(handlers: seq<Node>)
    ensures NewCursor(handlers).snapshot == Ids(handlers) <==> |handlers| < 0x1_0000
  {
    assert |NewCursor(handlers).snapshot| == |handlers| % WRAP;
    if |handlers| < WRAP {
      assert handlers[..|handlers|] == handlers;
    }
  }

  /** An emission over exactly 65536 handlers calls nobody, though all of them may be alive. */
  lemma FullListCallsNobody(run: seq<State>, steps: seq<Step>, c: nat, i: nat, j: nat)
    requires Emission(run, steps, c, i, j) && |run[i].handlers| == 0x1_0000
    ensures c in run[j + 1].done && run[j + 1].done[c].invoked == []
  {
    assert StepAt(run, steps, j);
    SmallModWrap(|run[i].handlers|);
    CursorAt(run, steps, c, i, j, j);
    var it := run[j].cursors[c];
    assert CallsRight(it) && it.size == 0 && it.snapshot[..0] == [];
  }
}

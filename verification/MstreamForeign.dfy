/**
 Input that the client's own writers never make: stray tags, maps with a key twice, and elements that
 end too early.  And how values reach the buffer, one write call after the other.
 */
module MstreamForeign {
  import opened Mstream
  import R = MstreamRoundTrip

  /** What is made of bytes that no value is written as: a truth value other than one is false; an
      optional's tag other than one is an absent value and nothing more is read; a variant's tag 255
      is the default, one without alternative a failure. */
  lemma StrayTags(sc: SizeCodec, elem: Ty, alts: seq<Ty>, data: seq<byte>, r: Reader)
    requires r.offset < |data|
    ensures var b, next := data[r.offset], Reader(r.offset + 1, true);
            && (b > 1 ==> Decode(sc, Bool, data, r) == Got(Flag(false), next))
            && (b > 1 ==> Decode(sc, Opt(elem), data, r) == Got(Absent, next))
            && (b == 255 ==> Decode(sc, Variant(alts), data, r) == Got(Default(Variant(alts)), next))
            && (|alts| <= b < 255 ==> !Decode(sc, Variant(alts), data, r).next.ok)
  {
  }

  // ---------------------------------------------------------------- keys that come twice

  /** Row i is the first with its key. */
  ghost predicate FirstRow(rows: seq<(Val, Val)>, i: nat) {
    i < |rows| && forall j :: 0 <= j < i ==> rows[j].0 != rows[i].0
  }

  /** `kept` holds the first row of each key of `rows`. */
  ghost predicate KeepsFirst(kept: seq<(Val, Val)>, rows: seq<(Val, Val)>) {
    && Distinct(kept)
    && (forall i :: 0 <= i < |rows| ==> HasKey(kept, rows[i].0))
    && (forall k :: 0 <= k < |kept| ==> FromFirst(rows, kept[k]))
  }

  ghost predicate FromFirst(rows: seq<(Val, Val)>, row: (Val, Val)) {
    exists i: nat :: FirstRow(rows, i) && rows[i] == row
  }

  lemma FirstStays(rows: seq<(Val, Val)>, row: (Val, Val), next: (Val, Val))
    requires FromFirst(rows, row)
    ensures FromFirst(rows + [next], row)
  {
    var i: nat :| FirstRow(rows, i) && rows[i] == row;
    assert FirstRow(rows + [next], i);
  }

  lemma OneMoreRow(kept: seq<(Val, Val)>, rows: seq<(Val, Val)>, next: (Val, Val))
    requires KeepsFirst(kept, rows)
    ensures KeepsFirst(if HasKey(kept, next.0) then kept else kept + [next], rows + [next])
  {
    var all := rows + [next];
    var now := if HasKey(kept, next.0) then kept else kept + [next];
    forall k | 0 <= k < |now| ensures FromFirst(all, now[k]) {
      if k < |kept| {
        FirstStays(rows, kept[k], next);
      } else {
        NewKey(kept, rows, next);
      }
    }
    forall i | 0 <= i < |all| ensures HasKey(now, all[i].0) {
      if i < |rows| { StillThere(kept, next, rows[i].0); } else if |now| > |kept| { assert now[|kept|].0 == next.0; }
    }
  }

  lemma StillThere(kept: seq<(Val, Val)>, next: (Val, Val), key: Val)
    requires HasKey(kept, key)
    ensures HasKey(kept + [next], key)
  {
    var i :| 0 <= i < |kept| && kept[i].0 == key;
    assert (kept + [next])[i].0 == key;
  }

  lemma NewKey(kept: seq<(Val, Val)>, rows: seq<(Val, Val)>, next: (Val, Val))
    requires KeepsFirst(kept, rows) && !HasKey(kept, next.0)
    ensures FromFirst(rows + [next], next)
  {
    var all := rows + [next];
    forall j | 0 <= j < |rows| ensures all[j].0 != next.0 {
      assert HasKey(kept, rows[j].0);
    }
    assert FirstRow(all, |rows|);
  }

  /** One turn of the loop. */
  lemma RowTaken(
      sc: SizeCodec, ty: Ty, acc: seq<(Val, Val)>, rows: seq<(Val, Val)>, data: seq<byte>, r: Reader)
      returns (next: Reader)
    requires ty.Map? && Lawful(sc) && r.ok && rows != []
    requires Rep(sc, ty.key, rows[0].0) && Rep(sc, ty.val, rows[0].1)
    requires Holds(data, r.offset, Flatten(ChunksRows(sc, ty, rows)))
    ensures next.ok && Holds(data, next.offset, Flatten(ChunksRows(sc, ty, rows[1..])))
    ensures next.offset + |Flatten(ChunksRows(sc, ty, rows[1..]))| == r.offset + |Flatten(ChunksRows(sc, ty, rows))|
    ensures DecodeRows(sc, ty, |rows|, data, r, acc) ==
            DecodeRows(sc, ty, |rows| - 1, data, next, if HasKey(acc, rows[0].0) then acc else acc + [rows[0]])
  {
    R.RowHeld(sc, ty, rows, data, r.offset);
    R.RowRead(sc, ty, rows[0], data, r);
    next := Decode(sc, ty.val, data, Decode(sc, ty.key, data, r).next).next;
    assert rows[0] == (rows[0].0, rows[0].1);
  }

  function Kept(acc: seq<(Val, Val)>, rows: seq<(Val, Val)>): seq<(Val, Val)>
    decreases |rows|
  {
    if rows == [] then acc else Kept(if HasKey(acc, rows[0].0) then acc else acc + [rows[0]], rows[1..])
  }

  lemma Regroup(seen: seq<(Val, Val)>, rows: seq<(Val, Val)>)
    requires rows != []
    ensures (seen + [rows[0]]) + rows[1..] == seen + rows
  {
  }

  lemma {:induction false} KeptKeepsFirst(seen: seq<(Val, Val)>, acc: seq<(Val, Val)>, rows: seq<(Val, Val)>)
    requires KeepsFirst(acc, seen)
    ensures KeepsFirst(Kept(acc, rows), seen + rows)
    decreases |rows|
  {
    if rows == [] {
      assert seen + rows == seen;
    } else {
      var next := if HasKey(acc, rows[0].0) then acc else acc + [rows[0]];
      assert KeepsFirst(next, seen + [rows[0]]) by { OneMoreRow(acc, seen, rows[0]); }
      assert KeepsFirst(Kept(next, rows[1..]), (seen + [rows[0]]) + rows[1..]) by {
        KeptKeepsFirst(seen + [rows[0]], next, rows[1..]);
      }
      Regroup(seen, rows);
    }
  }

  lemma {:induction false} RowsKept(
      sc: SizeCodec, ty: Ty, acc: seq<(Val, Val)>, rows: seq<(Val, Val)>, data: seq<byte>, r: Reader)
    requires ty.Map? && Lawful(sc) && r.ok && RepRows(sc, ty, rows)
    requires Holds(data, r.offset, Flatten(ChunksRows(sc, ty, rows)))
    ensures DecodeRows(sc, ty, |rows|, data, r, acc) ==
            GotRows(Kept(acc, rows), Reader(r.offset + |Flatten(ChunksRows(sc, ty, rows))|, true))
    decreases |rows|
  {
    if rows != [] {
      var next := RowTaken(sc, ty, acc, rows, data, r);
      RowsKept(sc, ty, if HasKey(acc, rows[0].0) then acc else acc + [rows[0]], rows[1..], data, next);
    }
  }

  /** Whatever rows stand on the wire, with keys that come twice, exactly the first row of each key is
      kept, and the reader stands behind all of them. */
  lemma RepeatedKeys(sc: SizeCodec, ty: Ty, rows: seq<(Val, Val)>, data: seq<byte>, r: Reader)
    requires ty.Map? && Lawful(sc) && RepRows(sc, ty, rows) && |rows| < sc.limit
    requires Holds(data, r.offset, Encode(sc, ty, Table(rows)))
    ensures var g := Decode(sc, ty, data, r);
            && g.v.Table? && KeepsFirst(g.v.rows, rows)
            && g.next == Reader(r.offset + |Encode(sc, ty, Table(rows))|, true)
  {
    var next := R.SizeHeld(sc, |rows|, ChunksRows(sc, ty, rows), data, r);
    RowsKept(sc, ty, [], rows, data, next);
    KeptKeepsFirst([], [], rows);
    assert [] + rows == rows;
  }

  predicate RepRows(sc: SizeCodec, ty: Ty, rows: seq<(Val, Val)>)
    requires ty.Map?
  {
    forall i :: 0 <= i < |rows| ==> Rep(sc, ty.key, rows[i].0) && Rep(sc, ty.val, rows[i].1)
  }

  // ---------------------------------------------------------------- elements that end too early

  /** The element loop of a list drops what it could not read, the others keep their size; either way
      the elements in front of the failure are those read. */
  lemma {:induction false} EarlyEnd(
      sc: SizeCodec, elem: Ty, n: nat, data: seq<byte>, r: Reader, kind: Container)
    ensures var g, k := DecodeEach(sc, elem, n, data, r, kind), Reached(sc, elem, n, data, r);
            && |g.vs| == (if kind.List? then k else n)
            && Elements(sc, elem, k, data, r) <= g.vs
            && (n > 0 ==> (g.next.ok <==> k == n))
    decreases n
  {
    if n > 0 && Decode(sc, elem, data, r).next.ok {
      var g := Decode(sc, elem, data, r);
      EarlyEnd(sc, elem, n - 1, data, g.next, kind);
      OneMoreElement(sc, elem, n, data, r, kind);
      SamePrefix(g.v, Elements(sc, elem, Reached(sc, elem, n - 1, data, g.next), data, g.next),
                 DecodeEach(sc, elem, n - 1, data, g.next, kind).vs);
    }
  }

  lemma OneMoreElement(sc: SizeCodec, elem: Ty, n: nat, data: seq<byte>, r: Reader, kind: Container)
    requires n > 0 && Decode(sc, elem, data, r).next.ok
    ensures var g := Decode(sc, elem, data, r); var k := Reached(sc, elem, n - 1, data, g.next);
            var h := DecodeEach(sc, elem, n - 1, data, g.next, kind);
            && Reached(sc, elem, n, data, r) == 1 + k
            && DecodeEach(sc, elem, n, data, r, kind) == GotMany([g.v] + h.vs, h.next)
            && Elements(sc, elem, 1 + k, data, r) == [g.v] + Elements(sc, elem, k, data, g.next)
  {
  }

  lemma SamePrefix(x: Val, a: seq<Val>, b: seq<Val>)
    requires a <= b
    ensures [x] + a <= [x] + b
  {
  }

  /** How many elements can be read. */
  function Reached(sc: SizeCodec, elem: Ty, n: nat, data: seq<byte>, r: Reader): (k: nat)
    ensures k <= n
    decreases n
  {
    if n == 0 || !Decode(sc, elem, data, r).next.ok then 0
    else 1 + Reached(sc, elem, n - 1, data, Decode(sc, elem, data, r).next)
  }

  function Elements(sc: SizeCodec, elem: Ty, k: nat, data: seq<byte>, r: Reader): (vs: seq<Val>)
    ensures |vs| == k
    decreases k
  {
    if k == 0 then []
    else [Decode(sc, elem, data, r).v] + Elements(sc, elem, k - 1, data, Decode(sc, elem, data, r).next)
  }

  // ---------------------------------------------------------------- write calls

  /** A block of scalars is one write call behind that of its size, other elements are written one by
      one; strings are their size and their bytes. */
  lemma BlockIsOneCall(sc: SizeCodec, elem: Ty, v: Val, s: seq<byte>)
    requires v.Many?
    ensures IsScalar(elem) ==>
              && |Chunks(sc, Seq(Vector, elem), v)| == |sc.write(|v.vs|)| + 1
              && |Chunks(sc, Array(elem, |v.vs|), v)| == 1
    ensures |Chunks(sc, Str, Text(s))| == |sc.write(|s|)| + 1
    ensures IsScalar(elem) && (forall i :: 0 <= i < |v.vs| ==> |Chunks(sc, elem, v.vs[i])| == 1) ==>
              |Chunks(sc, Seq(Deque, elem), v)| == |sc.write(|v.vs|)| + |v.vs|
  {
    if IsScalar(elem) && (forall i :: 0 <= i < |v.vs| ==> |Chunks(sc, elem, v.vs[i])| == 1) {
      OneCallEach(sc, elem, v.vs);
    }
  }

  lemma {:induction false} OneCallEach(sc: SizeCodec, elem: Ty, vs: seq<Val>)
    requires forall i :: 0 <= i < |vs| ==> |Chunks(sc, elem, vs[i])| == 1
    ensures |ChunksEach(sc, elem, vs)| == |vs|
  {
    if vs != [] { OneCallEach(sc, elem, vs[1..]); }
  }
}

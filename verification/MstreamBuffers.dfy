/**
 The buffers of the codec as objects updated in place, the operators as methods looping over
 containers, and the size-limited writer.
 */
module MstreamBuffers {
  import opened Mstream

  // ---------------------------------------------------------------- writers

  class VectorWriter {
    var data: seq<byte>

    constructor (data: seq<byte>)
      ensures this.data == data
    {
      this.data := data;
    }

    method Write(chunk: seq<byte>)
      modifies this
      ensures data == old(data) + chunk
    {
      data := data + chunk;
    }
  }

  /** The state of a size-limited writer. */
  datatype Limited = Limited(data: seq<byte>, limit: nat, end: bool)

  function LimitWrite(s: Limited, chunk: seq<byte>): Limited {
    if s.end || |s.data| + |chunk| >= s.limit then s.(end := true)
    else s.(data := s.data + chunk)
  }

  function LimitRun(s: Limited, chunks: seq<seq<byte>>): Limited
    decreases |chunks|
  {
    if chunks == [] then s else LimitRun(LimitWrite(s, chunks[0]), chunks[1..])
  }

  class LimitVectorWriter {
    var data: seq<byte>
    const limit: nat
    var end: bool

    function View(): Limited
      reads this
    {
      Limited(data, limit, end)
    }

    constructor (data: seq<byte>, limit: nat)
      ensures View() == Limited(data, limit, false)
    {
      this.data, this.limit, end := data, limit, false;
    }

    method Write(chunk: seq<byte>) returns (written: nat)
      modifies this
      ensures View() == LimitWrite(old(View()), chunk)
      ensures written == if end then 0 else |chunk|
    {
      if end || |data| + |chunk| >= limit {
        end := true;
        return 0;
      }
      data := data + chunk;
      return |chunk|;
    }
  }

  lemma {:induction false} StoppedStaysStopped(s: Limited, chunks: seq<seq<byte>>)
    requires s.end
    ensures LimitRun(s, chunks) == s
    decreases |chunks|
  {
    if chunks != [] { StoppedStaysStopped(LimitWrite(s, chunks[0]), chunks[1..]); }
  }

  /** How many of the chunks a limited writer takes. */
  function Taken(s: Limited, chunks: seq<seq<byte>>): (k: nat)
    ensures k <= |chunks|
    decreases |chunks|
  {
    if chunks == [] || LimitWrite(s, chunks[0]).end then 0
    else 1 + Taken(LimitWrite(s, chunks[0]), chunks[1..])
  }

  /** The limited writer holds the longest prefix of the write calls whose total stays below the
      limit, and it has stopped exactly if a call was left out. */
  lemma {:induction false} LongestPrefixBelowLimit(s: Limited, chunks: seq<seq<byte>>)
    requires !s.end
    ensures var k := Taken(s, chunks);
            && LimitRun(s, chunks) == Limited(s.data + Flatten(chunks[..k]), s.limit, k < |chunks|)
            && (k > 0 ==> |s.data| + |Flatten(chunks[..k])| < s.limit)
            && (k < |chunks| ==> |s.data| + |Flatten(chunks[..k + 1])| >= s.limit)
    decreases |chunks|
  {
    if chunks != [] {
      var s1 := LimitWrite(s, chunks[0]);
      var rest := chunks[1..];
      if s1.end {
        StoppedStaysStopped(s1, rest);
        assert chunks[..1] == [chunks[0]];
        FlattenOne(chunks[0]);
      } else {
        LongestPrefixBelowLimit(s1, rest);
        var k := Taken(s1, rest);
        PrefixStep(chunks, k);
        if k < |rest| { PrefixStep(chunks, k + 1); }
        assert (s.data + chunks[0]) + Flatten(rest[..k]) == s.data + (chunks[0] + Flatten(rest[..k]));
      }
    }
  }

  lemma PrefixStep(chunks: seq<seq<byte>>, k: nat)
    requires k + 1 <= |chunks|
    ensures Flatten(chunks[..k + 1]) == chunks[0] + Flatten(chunks[1..][..k])
  {
    assert chunks[..k + 1][1..] == chunks[1..][..k];
  }

  lemma {:induction false} FlattenPrefix(chunks: seq<seq<byte>>, k: nat)
    requires k <= |chunks|
    ensures Flatten(chunks[..k]) <= Flatten(chunks)
  {
    assert chunks == chunks[..k] + chunks[k..];
    FlattenConcat(chunks[..k], chunks[k..]);
  }

  /** Hence it holds a prefix of what an unlimited writer would hold, whatever was written. */
  lemma LimitedIsPrefixOfUnlimited(s: Limited, chunks: seq<seq<byte>>)
    requires !s.end
    ensures LimitRun(s, chunks).data <= s.data + Flatten(chunks)
    ensures LimitRun(s, chunks).data == s.data + Flatten(chunks) <== !LimitRun(s, chunks).end
  {
    LongestPrefixBelowLimit(s, chunks);
    FlattenPrefix(chunks, Taken(s, chunks));
    assert !LimitRun(s, chunks).end ==> chunks[..|chunks|] == chunks;
  }

  /** Writing in several goes is writing the calls one after the other. */
  lemma {:induction false} LimitRunConcat(s: Limited, a: seq<seq<byte>>, b: seq<seq<byte>>)
    ensures LimitRun(LimitRun(s, a), b) == LimitRun(s, a + b)
    decreases |a|
  {
    if a == [] {
      assert a + b == b;
    } else {
      LimitRunConcat(LimitWrite(s, a[0]), a[1..], b);
      assert (a + b)[1..] == a[1..] + b;
    }
  }

  // ---------------------------------------------------------------- the output stream

  /** The buffer an omstream is made over. */
  datatype Buffer = Unlimited(vector: VectorWriter) | Limit(limited: LimitVectorWriter)

  /** omstream: every operator ends in calls of its write(), which goes to the buffer.  `calls` are
      the bytes of these calls in order, `start` and `startLimited` what the buffer held before. */
  class OutStream {
    const buffer: Buffer
    ghost const start: seq<byte>
    ghost const startLimited: Limited
    ghost var calls: seq<seq<byte>>

    function Sink(): object {
      if buffer.Unlimited? then buffer.vector else buffer.limited
    }

    ghost predicate Valid()
      reads this, Sink()
    {
      if buffer.Unlimited? then buffer.vector.data == start + Flatten(calls)
      else buffer.limited.View() == LimitRun(startLimited, calls)
    }

    constructor Over(w: VectorWriter)
      ensures buffer == Unlimited(w) && start == w.data && calls == [] && Valid()
    {
      buffer := Unlimited(w);
      start, startLimited, calls := w.data, Limited([], 0, false), [];
    }

    constructor OverLimited(w: LimitVectorWriter)
      ensures buffer == Limit(w) && startLimited == w.View() && calls == [] && Valid()
    {
      buffer := Limit(w);
      start, startLimited, calls := [], w.View(), [];
    }

    method Write(chunk: seq<byte>)
      requires Valid()
      modifies this, Sink()
      ensures Valid() && calls == old(calls) + [chunk]
    {
      match buffer
      case Unlimited(w) =>
        FlattenConcat(calls, [chunk]);
        FlattenOne(chunk);
        w.Write(chunk);
        calls := calls + [chunk];
      case Limit(w) =>
        LimitRunConcat(startLimited, calls, [chunk]);
        LimitRunOne(LimitRun(startLimited, calls), chunk);
        var written := w.Write(chunk);
        calls := calls + [chunk];
    }

    method WriteAll(chunks: seq<seq<byte>>)
      requires Valid()
      modifies this, Sink()
      ensures Valid() && calls == old(calls) + chunks
    {
      ghost var was := calls;
      for i := 0 to |chunks|
        invariant Valid() && calls == was + chunks[..i]
      {
        Write(chunks[i]);
        assert chunks[..i + 1] == chunks[..i] + [chunks[i]];
      }
      assert chunks[..|chunks|] == chunks;
    }
  }

  lemma LimitRunOne(s: Limited, chunk: seq<byte>)
    ensures LimitRun(s, [chunk]) == LimitWrite(s, chunk)
  {
    assert [chunk][1..] == [];
  }

  // ---------------------------------------------------------------- operator<<

  /** A value of the C++ type: its parts are there, and nothing is said of their sizes. */
  predicate Shaped(ty: Ty, v: Val)
    decreases ty, 1
  {
    match ty
    case Scalar(_) => v.Num?
    case Bool => v.Flag?
    case Str => v.Text?
    case Seq(_, elem) => v.Many? && forall i :: 0 <= i < |v.vs| ==> Shaped(elem, v.vs[i])
    case Array(elem, size) => v.Many? && |v.vs| == size && forall i :: 0 <= i < |v.vs| ==> Shaped(elem, v.vs[i])
    case Map(key, val) =>
      v.Table? && forall i :: 0 <= i < |v.rows| ==> Shaped(key, v.rows[i].0) && Shaped(val, v.rows[i].1)
    case Pair(a, b) => v.Both? && Shaped(a, v.first) && Shaped(b, v.second)
    case Struct(fields) =>
      v.Many? && |v.vs| == |fields| && forall i :: 0 <= i < |fields| ==> Shaped(fields[i], v.vs[i])
    case Nullable(members) =>
      v.Many? && |v.vs| == |members| && forall i :: 0 <= i < |members| ==> ShapedMember(members[i], v.vs[i])
    case Opt(elem) => v.Absent? || (v.Present? && Shaped(elem, v.v))
    case Variant(alts) => v.Valueless? || (v.Alt? && v.i < |alts| && Shaped(alts[v.i], v.v))
    case Duration(_) => v.Ticks?
    case TimePoint(_) => v.Ticks?
    case Pointer(elem) => v.NullPtr? || (v.To? && Shaped(elem, v.v))
  }

  predicate ShapedMember(member: Field, v: Val)
    decreases member, 0
  {
    match member
    case Plain(ty) => Shaped(ty, v)
    case Optional(ty) => v.Absent? || (v.Present? && Shaped(ty, v.v))
  }

  /** Values that survive the trip are values of their type. */
  lemma {:induction false} RepIsShaped(sc: SizeCodec, ty: Ty, v: Val)
    requires Rep(sc, ty, v)
    ensures Shaped(ty, v)
    decreases ty, 1
  {
    match ty
    case Seq(_, elem) => forall i | 0 <= i < |v.vs| ensures Shaped(elem, v.vs[i]) { RepIsShaped(sc, elem, v.vs[i]); }
    case Array(elem, _) => forall i | 0 <= i < |v.vs| ensures Shaped(elem, v.vs[i]) { RepIsShaped(sc, elem, v.vs[i]); }
    case Map(key, val) =>
      forall i | 0 <= i < |v.rows| ensures Shaped(key, v.rows[i].0) && Shaped(val, v.rows[i].1) {
        RepIsShaped(sc, key, v.rows[i].0);
        RepIsShaped(sc, val, v.rows[i].1);
      }
    case Pair(a, b) =>
      RepIsShaped(sc, a, v.first);
      RepIsShaped(sc, b, v.second);
    case Struct(fields) =>
      forall i | 0 <= i < |fields| ensures Shaped(fields[i], v.vs[i]) { RepIsShaped(sc, fields[i], v.vs[i]); }
    case Nullable(members) =>
      forall i | 0 <= i < |members| ensures ShapedMember(members[i], v.vs[i]) {
        RepMemberIsShaped(sc, members[i], v.vs[i]);
      }
    case Opt(elem) => if v.Present? { RepIsShaped(sc, elem, v.v); }
    case Variant(alts) => RepIsShaped(sc, alts[v.i], v.v);
    case Pointer(elem) => RepIsShaped(sc, elem, v.v);
    case _ =>
  }

  lemma {:induction false} RepMemberIsShaped(sc: SizeCodec, member: Field, v: Val)
    requires RepMember(sc, member, v)
    ensures ShapedMember(member, v)
    decreases member, 0
  {
    match member
    case Plain(ty) => RepIsShaped(sc, ty, v);
    case Optional(ty) => if v.Present? { RepIsShaped(sc, ty, v.v); }
  }

  lemma {:induction false} EachSnoc(sc: SizeCodec, elem: Ty, vs: seq<Val>, i: nat)
    requires i < |vs|
    ensures ChunksEach(sc, elem, vs[..i + 1]) == ChunksEach(sc, elem, vs[..i]) + Chunks(sc, elem, vs[i])
    decreases i
  {
    if i == 0 {
      assert vs[..1][1..] == [] && vs[..0] == [];
    } else {
      EachSnoc(sc, elem, vs[1..], i - 1);
      assert vs[..i + 1][1..] == vs[1..][..i];
      assert vs[..i][1..] == vs[1..][..i - 1];
    }
  }

  lemma {:induction false} RowsSnoc(sc: SizeCodec, ty: Ty, rows: seq<(Val, Val)>, i: nat)
    requires ty.Map? && i < |rows|
    ensures ChunksRows(sc, ty, rows[..i + 1]) ==
            ChunksRows(sc, ty, rows[..i]) + (Chunks(sc, ty.key, rows[i].0) + Chunks(sc, ty.val, rows[i].1))
    decreases i
  {
    if i == 0 {
      assert rows[..1][1..] == [] && rows[..0] == [];
    } else {
      RowsSnoc(sc, ty, rows[1..], i - 1);
      assert rows[..i + 1][1..] == rows[1..][..i];
      assert rows[..i][1..] == rows[1..][..i - 1];
    }
  }

  lemma {:induction false} FieldsSnoc(sc: SizeCodec, fields: seq<Ty>, vs: seq<Val>, i: nat)
    requires i < |fields| && i < |vs|
    ensures ChunksFields(sc, fields[..i + 1], vs[..i + 1]) ==
            ChunksFields(sc, fields[..i], vs[..i]) + Chunks(sc, fields[i], vs[i])
    decreases i
  {
    if i == 0 {
      assert fields[..1][1..] == [] && fields[..0] == [];
    } else {
      FieldsSnoc(sc, fields[1..], vs[1..], i - 1);
      assert fields[..i + 1][1..] == fields[1..][..i] && vs[..i + 1][1..] == vs[1..][..i];
      assert fields[..i][1..] == fields[1..][..i - 1] && vs[..i][1..] == vs[1..][..i - 1];
    }
  }

  lemma {:induction false} MembersSnoc(sc: SizeCodec, members: seq<Field>, vs: seq<Val>, i: nat)
    requires i < |members| && i < |vs|
    ensures ChunksMembers(sc, members[..i + 1], vs[..i + 1]) ==
            ChunksMembers(sc, members[..i], vs[..i]) + ChunksMember(sc, members[i], vs[i])
    decreases i
  {
    if i == 0 {
      assert members[..1][1..] == [] && members[..0] == [];
    } else {
      MembersSnoc(sc, members[1..], vs[1..], i - 1);
      assert members[..i + 1][1..] == members[1..][..i] && vs[..i + 1][1..] == vs[1..][..i];
      assert members[..i][1..] == members[1..][..i - 1] && vs[..i][1..] == vs[1..][..i - 1];
    }
  }

  /** `stream << v`: exactly the write() calls of the value, for any value of the type, those that
      do not survive the trip included. */
  method Save(o: OutStream, sc: SizeCodec, ty: Ty, v: Val)
    requires o.Valid() && Shaped(ty, v)
    modifies o, o.Sink()
    ensures o.Valid() && o.calls == old(o.calls) + Chunks(sc, ty, v)
    decreases ty, 1
  {
    match ty
    case Scalar(_) => SaveBasic(o, sc, ty, v);
    case Bool => SaveBasic(o, sc, ty, v);
    case Str => SaveBasic(o, sc, ty, v);
    case Seq(_, _) => SaveSeq(o, sc, ty, v);
    case Array(_, _) => SaveArray(o, sc, ty, v);
    case Map(_, _) => SaveMap(o, sc, ty, v);
    case Pair(a, b) => SavePair(o, sc, ty, a, b, v.first, v.second);
    case Struct(fields) => SaveFields(o, sc, fields, v.vs);
    case Nullable(_) => SaveNullable(o, sc, ty, v);
    case Opt(_) => SaveOpt(o, sc, ty, v);
    case Variant(_) => SaveVariant(o, sc, ty, v);
    case Duration(_) => SaveTime(o, sc, ty, v);
    case TimePoint(_) => SaveTime(o, sc, ty, v);
    case Pointer(elem) => if v.To? { Save(o, sc, elem, v.v); }
  }

  method SaveBasic(o: OutStream, sc: SizeCodec, ty: Ty, v: Val)
    requires o.Valid() && (IsScalar(ty) || ty.Str?) && Shaped(ty, v)
    modifies o, o.Sink()
    ensures o.Valid() && o.calls == old(o.calls) + Chunks(sc, ty, v)
  {
    match ty
    case Scalar(width) => o.Write(LittleEndian(width, v.n));
    case Bool => if v.b { o.Write([1]); } else { o.Write([0]); }
    case Str =>
      o.WriteAll(sc.write(|v.s|));
      o.Write(v.s);
  }

  method SaveTime(o: OutStream, sc: SizeCodec, ty: Ty, v: Val)
    requires o.Valid() && (ty.Duration? || ty.TimePoint?) && Shaped(ty, v)
    modifies o, o.Sink()
    ensures o.Valid() && o.calls == old(o.calls) + Chunks(sc, ty, v)
  {
    var width := if ty.Duration? then 4 else 8;
    o.Write(LittleEndian(width, Cast(width, ToMicros(ty.period, v.t))));
  }

  method SaveArray(o: OutStream, sc: SizeCodec, ty: Ty, v: Val)
    requires o.Valid() && ty.Array? && Shaped(ty, v)
    modifies o, o.Sink()
    ensures o.Valid() && o.calls == old(o.calls) + Chunks(sc, ty, v)
    decreases ty, 0
  {
    if IsScalar(ty.elem) {
      o.Write(Flatten(ChunksEach(sc, ty.elem, v.vs)));
    } else {
      SaveEach(o, sc, ty.elem, v.vs);
    }
  }

  method SaveMap(o: OutStream, sc: SizeCodec, ty: Ty, v: Val)
    requires o.Valid() && ty.Map? && Shaped(ty, v)
    modifies o, o.Sink()
    ensures o.Valid() && o.calls == old(o.calls) + Chunks(sc, ty, v)
    decreases ty, 0, 2
  {
    o.WriteAll(sc.write(|v.rows|));
    SaveRows(o, sc, ty, v.rows);
  }

  method SavePair(o: OutStream, sc: SizeCodec, ghost ty: Ty, a: Ty, b: Ty, x: Val, y: Val)
    requires o.Valid() && Shaped(a, x) && Shaped(b, y)
    requires ty == Pair(a, b) || ty == Map(a, b)
    modifies o, o.Sink()
    ensures o.Valid() && o.calls == old(o.calls) + (Chunks(sc, a, x) + Chunks(sc, b, y))
    decreases ty, 0, 0, 0
  {
    Save(o, sc, a, x);
    Save(o, sc, b, y);
  }

  method SaveNullable(o: OutStream, sc: SizeCodec, ty: Ty, v: Val)
    requires o.Valid() && ty.Nullable? && Shaped(ty, v)
    modifies o, o.Sink()
    ensures o.Valid() && o.calls == old(o.calls) + Chunks(sc, ty, v)
    decreases ty, 0
  {
    SaveMasked(o, sc, ty.members, v.vs);
  }

  method SaveMasked(o: OutStream, sc: SizeCodec, members: seq<Field>, vs: seq<Val>)
    requires o.Valid() && |vs| == |members| && forall i :: 0 <= i < |members| ==> ShapedMember(members[i], vs[i])
    modifies o, o.Sink()
    ensures o.Valid()
    ensures o.calls == old(o.calls) + ([LittleEndian(1, Mask(members, vs))] + ChunksMembers(sc, members, vs))
    decreases members, 1
  {
    o.Write(LittleEndian(1, Mask(members, vs)));
    SaveMembers(o, sc, members, vs);
  }

  method SaveOpt(o: OutStream, sc: SizeCodec, ty: Ty, v: Val)
    requires o.Valid() && ty.Opt? && Shaped(ty, v)
    modifies o, o.Sink()
    ensures o.Valid() && o.calls == old(o.calls) + Chunks(sc, ty, v)
    decreases ty, 0
  {
    if v.Present? {
      o.Write([1]);
      Save(o, sc, ty.elem, v.v);
    } else {
      o.Write([0]);
    }
  }

  method SaveVariant(o: OutStream, sc: SizeCodec, ty: Ty, v: Val)
    requires o.Valid() && ty.Variant? && Shaped(ty, v)
    modifies o, o.Sink()
    ensures o.Valid() && o.calls == old(o.calls) + Chunks(sc, ty, v)
    decreases ty, 0
  {
    if v.Valueless? {
      o.Write([255]);
      return;
    }
    o.Write(LittleEndian(1, v.i));
    Save(o, sc, ty.alts[v.i], v.v);
  }

  method SaveSeq(o: OutStream, sc: SizeCodec, ty: Ty, v: Val)
    requires o.Valid() && ty.Seq? && Shaped(ty, v)
    modifies o, o.Sink()
    ensures o.Valid() && o.calls == old(o.calls) + Chunks(sc, ty, v)
    decreases ty, 0
  {
    o.WriteAll(sc.write(|v.vs|));
    if ty.kind.Vector? && IsScalar(ty.elem) {
      o.Write(Flatten(ChunksEach(sc, ty.elem, v.vs)));
    } else {
      SaveEach(o, sc, ty.elem, v.vs);
    }
  }

  method SaveEach(o: OutStream, sc: SizeCodec, elem: Ty, vs: seq<Val>)
    requires o.Valid() && forall i :: 0 <= i < |vs| ==> Shaped(elem, vs[i])
    modifies o, o.Sink()
    ensures o.Valid() && o.calls == old(o.calls) + ChunksEach(sc, elem, vs)
    decreases elem, 2
  {
    ghost var was := o.calls;
    for i := 0 to |vs|
      invariant o.Valid() && o.calls == was + ChunksEach(sc, elem, vs[..i])
    {
      EachSnoc(sc, elem, vs, i);
      Save(o, sc, elem, vs[i]);
    }
    assert vs[..|vs|] == vs;
  }

  lemma CallsAssoc(a: seq<seq<byte>>, b: seq<seq<byte>>, c: seq<seq<byte>>)
    ensures a + b + c == a + (b + c)
  {
  }

  method SaveRows(o: OutStream, sc: SizeCodec, ty: Ty, rows: seq<(Val, Val)>)
    requires o.Valid() && ty.Map?
    requires forall i :: 0 <= i < |rows| ==> Shaped(ty.key, rows[i].0) && Shaped(ty.val, rows[i].1)
    modifies o, o.Sink()
    ensures o.Valid() && o.calls == old(o.calls) + ChunksRows(sc, ty, rows)
    decreases ty, 0, 0, 1
  {
    ghost var was := o.calls;
    for i := 0 to |rows|
      invariant o.Valid() && o.calls == was + ChunksRows(sc, ty, rows[..i])
    {
      RowsSnoc(sc, ty, rows, i);
      CallsAssoc(was, ChunksRows(sc, ty, rows[..i]),
                 Chunks(sc, ty.key, rows[i].0) + Chunks(sc, ty.val, rows[i].1));
      SavePair(o, sc, ty, ty.key, ty.val, rows[i].0, rows[i].1);
    }
    assert rows[..|rows|] == rows;
  }

  method SaveFields(o: OutStream, sc: SizeCodec, fields: seq<Ty>, vs: seq<Val>)
    requires o.Valid() && |vs| == |fields| && forall i :: 0 <= i < |fields| ==> Shaped(fields[i], vs[i])
    modifies o, o.Sink()
    ensures o.Valid() && o.calls == old(o.calls) + ChunksFields(sc, fields, vs)
    decreases fields, 0
  {
    ghost var was := o.calls;
    for i := 0 to |fields|
      invariant o.Valid() && o.calls == was + ChunksFields(sc, fields[..i], vs[..i])
    {
      FieldsSnoc(sc, fields, vs, i);
      Save(o, sc, fields[i], vs[i]);
    }
    assert fields[..|fields|] == fields && vs[..|vs|] == vs;
  }

  method SaveMembers(o: OutStream, sc: SizeCodec, members: seq<Field>, vs: seq<Val>)
    requires o.Valid() && |vs| == |members| && forall i :: 0 <= i < |members| ==> ShapedMember(members[i], vs[i])
    modifies o, o.Sink()
    ensures o.Valid() && o.calls == old(o.calls) + ChunksMembers(sc, members, vs)
    decreases members, 0
  {
    ghost var was := o.calls;
    for i := 0 to |members|
      invariant o.Valid() && o.calls == was + ChunksMembers(sc, members[..i], vs[..i])
    {
      MembersSnoc(sc, members, vs, i);
      SaveMember(o, sc, members[i], vs[i]);
    }
    assert members[..|members|] == members && vs[..|vs|] == vs;
  }

  method SaveMember(o: OutStream, sc: SizeCodec, member: Field, v: Val)
    requires o.Valid() && ShapedMember(member, v)
    modifies o, o.Sink()
    ensures o.Valid() && o.calls == old(o.calls) + ChunksMember(sc, member, v)
    decreases member, 0
  {
    match member
    case Plain(ty) => Save(o, sc, ty, v);
    case Optional(ty) => if v.Present? { Save(o, sc, ty, v.v); }
  }

  /** A value written into an unlimited buffer appends its encoding. */
  method SaveInto(w: VectorWriter, sc: SizeCodec, ty: Ty, v: Val)
    requires Shaped(ty, v)
    modifies w
    ensures w.data == old(w.data) + Encode(sc, ty, v)
  {
    var o := new OutStream.Over(w);
    Save(o, sc, ty, v);
    assert [] + Chunks(sc, ty, v) == Chunks(sc, ty, v);
  }

  /** Values written into a limited buffer leave the longest prefix of their write() calls whose
      total size stays below the limit. */
  method SaveLimited(w: LimitVectorWriter, sc: SizeCodec, ty: Ty, vs: seq<Val>)
    requires !w.end && forall i :: 0 <= i < |vs| ==> Shaped(ty, vs[i])
    modifies w
    ensures var calls := ChunksEach(sc, ty, vs);
            var k := Taken(old(w.View()), calls);
            && k <= |calls|
            && w.data == old(w.data) + Flatten(calls[..k])
            && w.end == (k < |calls|)
            && (k > 0 ==> |w.data| < w.limit)
            && (k < |calls| ==> |old(w.data)| + |Flatten(calls[..k + 1])| >= w.limit)
  {
    var o := new OutStream.OverLimited(w);
    SaveEach(o, sc, ty, vs);
    ghost var calls := ChunksEach(sc, ty, vs);
    assert [] + calls == calls;
    LongestPrefixBelowLimit(o.startLimited, calls);
  }

  // ---------------------------------------------------------------- operator>>

  class VectorReader {
    const data: seq<byte>
    var offset: nat
    var result: bool

    function View(): Reader
      reads this
    {
      Reader(offset, result)
    }

    constructor (data: seq<byte>)
      ensures this.data == data && View() == Reader(0, false)
    {
      this.data, offset, result := data, 0, false;
    }

    method ReadBytes(n: nat) returns (bytes: seq<byte>)
      modifies this
      ensures Raw(bytes, View()) == Read(data, old(View()), n)
    {
      bytes := seq(n, _ => 0);
      if offset + n > |data| {
        result := false;
        return;
      }
      bytes := data[offset..offset + n];
      offset := offset + n;
      result := true;
    }

    method ReadSize(sc: SizeCodec) returns (size: nat)
      modifies this
      ensures SizeRead(size, View()) == sc.read(data, old(View()))
    {
      var sr := sc.read(data, View());
      size := sr.size;
      offset, result := sr.next.offset, sr.next.ok;
    }
  }

  /** `stream >> v` into a value-initialised v. */
  method Load(r: VectorReader, sc: SizeCodec, ty: Ty) returns (v: Val)
    modifies r
    ensures Got(v, r.View()) == Decode(sc, ty, r.data, old(r.View()))
    decreases ty, 1
  {
    match ty
    case Scalar(w) => var bytes := r.ReadBytes(w); v := Num(FromLittleEndian(bytes));
    case Bool => var bytes := r.ReadBytes(1); v := Flag(bytes[0] == 1);
    case Str =>
      var size := r.ReadSize(sc);
      if !r.result { return Text([]); }
      var bytes := r.ReadBytes(size);
      v := Text(bytes);
    case Seq(_, _) => v := LoadSeq(r, sc, ty);
    case Array(elem, size) =>
      var vs;
      if IsScalar(elem) { vs := LoadBlock(r, elem, size); } else { vs := LoadEach(r, sc, elem, size, Vector); }
      v := Many(vs);
    case Map(_, _) =>
      var size := r.ReadSize(sc);
      if !r.result { return Table([]); }
      var rows := LoadRows(r, sc, ty, size);
      v := Table(rows);
    case Pair(a, b) =>
      var x := Load(r, sc, a);
      var y := Load(r, sc, b);
      v := Both(x, y);
    case Struct(fields) => var vs := LoadFields(r, sc, fields); v := Many(vs);
    case Nullable(members) =>
      var mask := r.ReadBytes(1);
      var vs := LoadMembers(r, sc, members, mask[0]);
      v := Many(vs);
    case Opt(elem) => v := LoadOpt(r, sc, ty);
    case Variant(_) => v := LoadVariant(r, sc, ty);
    case Duration(p) => var bytes := r.ReadBytes(4); v := Ticks(FromMicros(p, FromLittleEndian(bytes)));
    case TimePoint(p) =>
      var bytes := r.ReadBytes(8);
      if !r.result { return Ticks(0); }
      v := Ticks(FromMicros(p, Signed(8, FromLittleEndian(bytes))));
    case Pointer(elem) => var x := Load(r, sc, elem); v := To(x);
  }

  method LoadBlock(r: VectorReader, ty: Ty, n: nat) returns (vs: seq<Val>)
    requires IsScalar(ty)
    modifies r
    ensures GotMany(vs, r.View()) == ReadBlock(ty, n, r.data, old(r.View()))
  {
    var bytes := r.ReadBytes(n * ScalarWidth(ty));
    vs := Split(ty, n, bytes);
  }

  method LoadSeq(r: VectorReader, sc: SizeCodec, ty: Ty) returns (v: Val)
    requires ty.Seq?
    modifies r
    ensures Got(v, r.View()) == Decode(sc, ty, r.data, old(r.View()))
    decreases ty, 0
  {
    var size := r.ReadSize(sc);
    if !r.result { return Many([]); }
    var vs;
    if ty.kind.Vector? && IsScalar(ty.elem) {
      vs := LoadBlock(r, ty.elem, size);
    } else {
      vs := LoadEach(r, sc, ty.elem, size, ty.kind);
    }
    v := Many(vs);
  }

  method LoadOpt(r: VectorReader, sc: SizeCodec, ty: Ty) returns (v: Val)
    requires ty.Opt?
    modifies r
    ensures Got(v, r.View()) == Decode(sc, ty, r.data, old(r.View()))
    decreases ty, 0
  {
    v := Absent;
    var bytes := r.ReadBytes(1);
    if !r.result { return; }
    if bytes[0] == 1 {
      var x := Load(r, sc, ty.elem);
      if r.result { v := Present(x); }
    }
  }

  method LoadVariant(r: VectorReader, sc: SizeCodec, ty: Ty) returns (v: Val)
    requires ty.Variant?
    modifies r
    ensures Got(v, r.View()) == Decode(sc, ty, r.data, old(r.View()))
    decreases ty, 0
  {
    v := Default(ty);
    var bytes := r.ReadBytes(1);
    var tag := bytes[0];
    if !r.result || tag == 255 { return; }
    if tag >= |ty.alts| {
      r.result := false;
      return;
    }
    var x := Load(r, sc, ty.alts[tag]);
    v := Alt(tag, x);
  }

  method LoadEach(r: VectorReader, sc: SizeCodec, elem: Ty, n: nat, kind: Container) returns (vs: seq<Val>)
    modifies r
    ensures GotMany(vs, r.View()) == DecodeEach(sc, elem, n, r.data, old(r.View()), kind)
    decreases elem, 3
  {
    if kind.List? { vs := LoadList(r, sc, elem, n); } else { vs := LoadResized(r, sc, elem, n, kind); }
  }

  /** std::list: what could be read is appended. */
  method LoadList(r: VectorReader, sc: SizeCodec, elem: Ty, n: nat) returns (vs: seq<Val>)
    modifies r
    ensures GotMany(vs, r.View()) == DecodeEach(sc, elem, n, r.data, old(r.View()), List)
    decreases elem, 2
  {
    ghost var all := DecodeEach(sc, elem, n, r.data, r.View(), List);
    vs := [];
    for i := 0 to n
      invariant var rest := DecodeEach(sc, elem, n - i, r.data, r.View(), List);
                all == GotMany(vs + rest.vs, rest.next)
    {
      ListStep(sc, elem, n - i, r.data, r.View(), vs);
      var x := Load(r, sc, elem);
      if !r.result { return; }
      vs := vs + [x];
    }
  }

  /** Reading one element of a list, with others read before it. */
  lemma ListStep(sc: SizeCodec, elem: Ty, n: nat, data: seq<byte>, r: Reader, vs: seq<Val>)
    requires n > 0
    ensures var rest := DecodeEach(sc, elem, n, data, r, List);
            var g := Decode(sc, elem, data, r);
            if !g.next.ok then vs + rest.vs == vs && rest.next == g.next
            else var more := DecodeEach(sc, elem, n - 1, data, g.next, List);
                 vs + rest.vs == (vs + [g.v]) + more.vs && rest.next == more.next
  {
  }

  lemma FilledPrefix(vs: seq<Val>, i: nat, x: Val, elem: Ty, tail: seq<Val>)
    requires i < |vs| && forall j :: i < j < |vs| ==> vs[j] == Default(elem)
    ensures vs[i := x][..i + 1] == vs[..i] + [x]
    ensures vs[..i] + ([x] + Defaults(elem, |vs| - i - 1)) == vs[i := x]
    ensures vs[..i] + ([x] + tail) == vs[i := x][..i + 1] + tail
  {
  }

  /** Reading one element in place, with others read before it and defaults behind it. */
  lemma ResizedStep(sc: SizeCodec, elem: Ty, i: nat, data: seq<byte>, r: Reader, kind: Container, vs: seq<Val>)
    requires i < |vs| && !kind.List? && forall j :: i < j < |vs| ==> vs[j] == Default(elem)
    ensures var rest := DecodeEach(sc, elem, |vs| - i, data, r, kind);
            var g := Decode(sc, elem, data, r);
            if !g.next.ok then vs[..i] + rest.vs == vs[i := g.v] && rest.next == g.next
            else var more := DecodeEach(sc, elem, |vs| - i - 1, data, g.next, kind);
                 vs[..i] + rest.vs == vs[i := g.v][..i + 1] + more.vs && rest.next == more.next
  {
    var g := Decode(sc, elem, data, r);
    FilledPrefix(vs, i, g.v, elem, if g.next.ok then DecodeEach(sc, elem, |vs| - i - 1, data, g.next, kind).vs else []);
  }

  method LoadResized(r: VectorReader, sc: SizeCodec, elem: Ty, n: nat, kind: Container) returns (vs: seq<Val>)
    requires !kind.List?
    modifies r
    ensures GotMany(vs, r.View()) == DecodeEach(sc, elem, n, r.data, old(r.View()), kind)
    decreases elem, 2
  {
    ghost var all := DecodeEach(sc, elem, n, r.data, r.View(), kind);
    vs := Defaults(elem, n);
    for i := 0 to n
      invariant |vs| == n && forall j :: i <= j < n ==> vs[j] == Default(elem)
      invariant var rest := DecodeEach(sc, elem, n - i, r.data, r.View(), kind);
                all == GotMany(vs[..i] + rest.vs, rest.next)
    {
      ResizedStep(sc, elem, i, r.data, r.View(), kind, vs);
      var x := Load(r, sc, elem);
      vs := vs[i := x];
      if !r.result { return; }
    }
    assert vs[..n] == vs;
  }

  method LoadRows(r: VectorReader, sc: SizeCodec, ty: Ty, n: nat) returns (rows: seq<(Val, Val)>)
    requires ty.Map?
    modifies r
    ensures GotRows(rows, r.View()) == DecodeRows(sc, ty, n, r.data, old(r.View()), [])
    decreases ty, 0
  {
    ghost var all := DecodeRows(sc, ty, n, r.data, r.View(), []);
    rows := [];
    for i := 0 to n
      invariant DecodeRows(sc, ty, n - i, r.data, r.View(), rows) == all
    {
      var k := Load(r, sc, ty.key);
      var v := Load(r, sc, ty.val);
      if !r.result { return; }
      if !HasKey(rows, k) {
        rows := rows + [(k, v)];
      }
    }
  }

  method LoadFields(r: VectorReader, sc: SizeCodec, fields: seq<Ty>) returns (vs: seq<Val>)
    modifies r
    ensures GotMany(vs, r.View()) == DecodeFields(sc, fields, r.data, old(r.View()))
    decreases fields, 0
  {
    ghost var all := DecodeFields(sc, fields, r.data, r.View());
    vs := [];
    for i := 0 to |fields|
      invariant var rest := DecodeFields(sc, fields[i..], r.data, r.View());
                all == GotMany(vs + rest.vs, rest.next)
    {
      assert fields[i..][1..] == fields[i + 1..];
      var x := Load(r, sc, fields[i]);
      vs := vs + [x];
    }
  }

  method LoadMembers(r: VectorReader, sc: SizeCodec, members: seq<Field>, mask: nat) returns (vs: seq<Val>)
    modifies r
    ensures GotMany(vs, r.View()) == DecodeMembers(sc, members, mask, r.data, old(r.View()))
    decreases members, 0
  {
    ghost var all := DecodeMembers(sc, members, mask, r.data, r.View());
    vs := [];
    var bits := mask;
    for i := 0 to |members|
      invariant var rest := DecodeMembers(sc, members[i..], bits, r.data, r.View());
                all == GotMany(vs + rest.vs, rest.next)
    {
      assert members[i..][1..] == members[i + 1..];
      var x := LoadMember(r, sc, members[i], bits % 2 == 1);
      vs := vs + [x];
      bits := bits / 2;
    }
  }

  method LoadMember(r: VectorReader, sc: SizeCodec, member: Field, absent: bool) returns (v: Val)
    modifies r
    ensures Got(v, r.View()) == DecodeMember(sc, member, absent, r.data, old(r.View()))
    decreases member, 0
  {
    match member
    case Plain(ty) => v := Load(r, sc, ty);
    case Optional(ty) =>
      if absent { return Absent; }
      var x := Load(r, sc, ty);
      v := Present(x);
  }
}

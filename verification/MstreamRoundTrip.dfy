/**
 Reading back what was written yields the value written and stops exactly behind it,
 for every type of the codec and every representable value.
 */
module MstreamRoundTrip {
  import opened Mstream

  // ---------------------------------------------------------------- bytes in place

  lemma HoldsSplit(data: seq<byte>, offset: nat, a: seq<byte>, b: seq<byte>)
    requires Holds(data, offset, a + b)
    ensures Holds(data, offset, a) && Holds(data, offset + |a|, b)
  {
    var ab := data[offset..offset + |a| + |b|];
    assert ab == a + b;
    assert ab[..|a|] == a && ab[|a|..] == b;
    assert data[offset..offset + |a|] == ab[..|a|];
    assert data[offset + |a|..offset + |a| + |b|] == ab[|a|..];
  }

  lemma HoldsJoin(pre: seq<byte>, bytes: seq<byte>, rest: seq<byte>)
    ensures Holds(pre + bytes + rest, |pre|, bytes)
  {
  }

  lemma ReadHeld(data: seq<byte>, r: Reader, bytes: seq<byte>)
    requires Holds(data, r.offset, bytes)
    ensures Read(data, r, |bytes|) == Raw(bytes, Reader(r.offset + |bytes|, true))
  {
  }

  /** Two groups of writes held one after the other. */
  lemma SplitChunks(data: seq<byte>, offset: nat, a: seq<seq<byte>>, b: seq<seq<byte>>)
    requires Holds(data, offset, Flatten(a + b))
    ensures Holds(data, offset, Flatten(a))
    ensures Holds(data, offset + |Flatten(a)|, Flatten(b))
    ensures |Flatten(a + b)| == |Flatten(a)| + |Flatten(b)|
  {
    FlattenConcat(a, b);
    HoldsSplit(data, offset, Flatten(a), Flatten(b));
  }

  lemma {:induction false} Uint32IsLawful()
    ensures Lawful(UINT32)
  {
    forall n: nat, data: seq<byte>, r: Reader |
      n < UINT32.limit && Holds(data, r.offset, Flatten(UINT32.write(n)))
      ensures UINT32.read(data, r) == SizeRead(n, Reader(r.offset + |Flatten(UINT32.write(n))|, true))
    {
      FlattenOne(LittleEndian(4, n));
      ReadHeld(data, r, LittleEndian(4, n));
      assert Pow256(4) == 0x1_0000_0000;
      LittleEndianRoundTrip(4, n);
    }
  }

  // ---------------------------------------------------------------- types without reads

  /** A type without reads has one representable value, its default, and writes nothing. */
  lemma {:induction false} NoReadIsDefault(sc: SizeCodec, ty: Ty, v: Val)
    requires NoRead(ty) && Rep(sc, ty, v)
    ensures v == Default(ty) && Chunks(sc, ty, v) == []
    decreases ty, 1
  {
    match ty
    case Array(elem, size) =>
      NoReadEach(sc, elem, v.vs, size);
    case Pair(a, b) =>
      NoReadIsDefault(sc, a, v.first);
      NoReadIsDefault(sc, b, v.second);
    case Struct(fields) =>
      NoReadFields(sc, fields, v.vs);
    case Pointer(elem) =>
      NoReadIsDefault(sc, elem, v.v);
    case _ =>
  }

  lemma {:induction false} NoReadEach(sc: SizeCodec, elem: Ty, vs: seq<Val>, n: nat)
    requires |vs| == n && (n == 0 || NoRead(elem))
    requires forall i :: 0 <= i < n ==> Rep(sc, elem, vs[i])
    ensures vs == Defaults(elem, n) && ChunksEach(sc, elem, vs) == []
    decreases elem, 2, n
  {
    if n > 0 {
      NoReadIsDefault(sc, elem, vs[0]);
      NoReadEach(sc, elem, vs[1..], n - 1);
      assert vs == [vs[0]] + vs[1..];
    }
  }

  lemma {:induction false} NoReadFields(sc: SizeCodec, fields: seq<Ty>, vs: seq<Val>)
    requires |vs| == |fields|
    requires forall i :: 0 <= i < |fields| ==> NoRead(fields[i]) && Rep(sc, fields[i], vs[i])
    ensures forall i :: 0 <= i < |fields| ==> vs[i] == Default(fields[i])
    ensures ChunksFields(sc, fields, vs) == []
    decreases fields, 0
  {
    forall i | 0 <= i < |fields| ensures vs[i] == Default(fields[i]) && Chunks(sc, fields[i], vs[i]) == [] {
      NoReadIsDefault(sc, fields[i], vs[i]);
    }
    NothingWritten(sc, fields, vs);
  }

  lemma {:induction false} NothingWritten(sc: SizeCodec, fields: seq<Ty>, vs: seq<Val>)
    requires |vs| == |fields| && forall i :: 0 <= i < |fields| ==> Chunks(sc, fields[i], vs[i]) == []
    ensures ChunksFields(sc, fields, vs) == []
  {
    if fields != [] { NothingWritten(sc, fields[1..], vs[1..]); }
  }

  // ---------------------------------------------------------------- scalars and times

  lemma ScalarEncode(sc: SizeCodec, ty: Ty, v: Val)
    requires IsScalar(ty) && Rep(sc, ty, v)
    ensures |Encode(sc, ty, v)| == ScalarWidth(ty)
    ensures ScalarValue(ty, Encode(sc, ty, v)) == v
  {
    FlattenOne(Chunks(sc, ty, v)[0]);
    if ty.Scalar? {
      LittleEndianRoundTrip(ty.width, v.n);
    }
  }

  lemma ScalarRoundTrip(sc: SizeCodec, ty: Ty, v: Val, data: seq<byte>, r: Reader)
    requires IsScalar(ty) && Rep(sc, ty, v) && Holds(data, r.offset, Encode(sc, ty, v))
    ensures Decode(sc, ty, data, r) == Got(v, Reader(r.offset + |Encode(sc, ty, v)|, true))
  {
    ScalarEncode(sc, ty, v);
    ReadHeld(data, r, Encode(sc, ty, v));
  }

  lemma OneMoreWidth(n: nat, w: nat)
    requires n > 0
    ensures n * w == w + (n - 1) * w
  {
  }

  /** A block is its first scalar and the block of the others. */
  lemma SplitFirst(ty: Ty, n: nat, head: seq<byte>, tail: seq<byte>)
    requires IsScalar(ty) && n > 0 && |head| == ScalarWidth(ty) && |tail| == (n - 1) * ScalarWidth(ty)
    ensures |head + tail| == n * ScalarWidth(ty)
    ensures Split(ty, n, head + tail) == [ScalarValue(ty, head)] + Split(ty, n - 1, tail)
  {
    OneMoreWidth(n, ScalarWidth(ty));
    var w := ScalarWidth(ty);
    assert (head + tail)[..w] == head && (head + tail)[w..] == tail;
  }

  lemma {:induction false} BlockSplit(sc: SizeCodec, ty: Ty, vs: seq<Val>)
    requires IsScalar(ty) && forall i :: 0 <= i < |vs| ==> Rep(sc, ty, vs[i])
    ensures |Flatten(ChunksEach(sc, ty, vs))| == |vs| * ScalarWidth(ty)
    ensures Split(ty, |vs|, Flatten(ChunksEach(sc, ty, vs))) == vs
    decreases |vs|
  {
    if vs != [] {
      ScalarEncode(sc, ty, vs[0]);
      BlockSplit(sc, ty, vs[1..]);
      FlattenConcat(Chunks(sc, ty, vs[0]), ChunksEach(sc, ty, vs[1..]));
      SplitFirst(ty, |vs|, Encode(sc, ty, vs[0]), Flatten(ChunksEach(sc, ty, vs[1..])));
      assert vs == [vs[0]] + vs[1..];
    }
  }

  lemma BlockRoundTrip(sc: SizeCodec, ty: Ty, vs: seq<Val>, data: seq<byte>, r: Reader)
    requires IsScalar(ty) && forall i :: 0 <= i < |vs| ==> Rep(sc, ty, vs[i])
    requires Holds(data, r.offset, Flatten(ChunksEach(sc, ty, vs)))
    ensures ReadBlock(ty, |vs|, data, r) ==
            GotMany(vs, Reader(r.offset + |Flatten(ChunksEach(sc, ty, vs))|, true))
  {
    BlockSplit(sc, ty, vs);
    ReadHeld(data, r, Flatten(ChunksEach(sc, ty, vs)));
  }

  lemma MulBound(k: nat, d: int)
    requires k > 0
    ensures d >= 1 ==> k * d >= k
    ensures d <= -1 ==> k * d + k <= 0
  {
  }

  lemma UniqueQuotient(x: int, k: nat, q: int, r: nat)
    requires k > 0 && x == k * q + r && r < k
    ensures x / k == q && x % k == r
  {
    var q2, r2 := x / k, x % k;
    assert x == k * q2 + r2;
    assert k * (q - q2) == k * q - k * q2;
    MulBound(k, q - q2);
  }

  lemma MultipleDivided(t: int, k: nat)
    requires k > 0
    ensures t * k / k == t && t * k % k == 0 && Truncated(t * k, k) == t
    ensures t >= 0 <==> t * k >= 0
  {
    assert t * k == k * t && (-t) * k == -(t * k) == k * (-t);
    UniqueQuotient(t * k, k, t, 0);
    UniqueQuotient(-(t * k), k, -t, 0);
    MulBound(k, t);
  }

  lemma WholeMultiple(t: int, k: nat)
    requires k > 0 && t % k == 0
    ensures t / k * k == t
    ensures t >= 0 <==> t / k >= 0
  {
    assert t == k * (t / k) + t % k;
    assert t / k * k == k * (t / k);
    MultipleDivided(t / k, k);
  }

  lemma CastSmall(w: nat, n: int)
    ensures 0 <= Cast(w, n) < Pow256(w)
    ensures 0 <= n < Pow256(w) ==> Cast(w, n) == n
  {
    PowPositive(w);
    if 0 <= n < Pow256(w) {
      UniqueQuotient(n, Pow256(w), 0, n);
    }
  }

  /** The signed reading of a cast number is the number exactly within the signed range. */
  lemma SignedCast(w: nat, n: int)
    requires w > 0
    ensures var h := Pow256(w) / 2;
            && -h <= Signed(w, Cast(w, n)) < h
            && (-h <= n < h ==> Signed(w, Cast(w, n)) == n)
  {
    var h := Pow256(w) / 2;
    assert Pow256(w) == 256 * Pow256(w - 1) == 2 * h;
    CastSmall(w, n);
    if -h <= n < 0 {
      UniqueQuotient(n, Pow256(w), -1, n + Pow256(w));
    }
  }

  /** Ticks finer than microseconds: what comes back is `m` microseconds, and `m` is the number
      written exactly if that was in range. */
  lemma FinerTimeIff(k: nat, t: int, m: int, low: int, high: int)
    requires k > 0 && low <= m < high && (low <= Truncated(t, k) < high ==> m == Truncated(t, k))
    ensures m * k == t <==> t % k == 0 && low <= t / k < high
  {
    if m * k == t {
      MultipleDivided(m, k);
    }
    if t % k == 0 && low <= t / k < high {
      WholeMultiple(t, k);
      MultipleDivided(t / k, k);
    }
  }

  lemma TruncatedBelow(c: int, k: nat)
    requires k > 0
    ensures c >= 0 ==> 0 <= Truncated(c, k) * k <= c
    ensures c < 0 ==> c <= Truncated(c, k) * k <= 0
  {
    var n := if c >= 0 then c else -c;
    assert n == k * (n / k) + n % k;
    assert n / k * k == k * (n / k) && (-(n / k)) * k == -(n / k * k);
  }

  lemma CoarserTimeIff(k: nat, t: int, m: int, low: int, high: int)
    requires k > 0 && low <= 0 < high && low <= m < high
    requires low <= t * k < high ==> m == t * k
    ensures Truncated(m, k) == t <==> low <= t * k < high
  {
    TruncatedBelow(m, k);
    if low <= t * k < high {
      MultipleDivided(t, k);
    }
  }

  /** What the reader of a duration makes of what its writer has written. */
  function DurationTrip(p: Period, t: int): int {
    FromMicros(p, Cast(4, ToMicros(p, t)))
  }

  function TimePointTrip(p: Period, t: int): int {
    FromMicros(p, Signed(8, Cast(8, ToMicros(p, t))))
  }

  /** A duration survives the trip exactly if it is a whole, non-negative number of microseconds
      below 2^32. */
  lemma DurationRoundTripIff(p: Period, t: int)
    requires p.k > 0
    ensures DurationTrip(p, t) == t <==> DurationFits(p, t)
  {
    CastSmall(4, ToMicros(p, t));
    var m := Cast(4, ToMicros(p, t));
    match p
    case TicksPerMicro(k) => FinerTimeIff(k, t, m, 0, Pow256(4));
    case MicrosPerTick(k) => CoarserTimeIff(k, t, m, 0, Pow256(4));
  }

  /** A time point survives the trip exactly if it is a whole number of microseconds from -2^63
      up to but not including 2^63, before the epoch or after it. */
  lemma TimePointRoundTripIff(p: Period, t: int)
    requires p.k > 0
    ensures TimePointTrip(p, t) == t <==> TimePointFits(p, t)
  {
    SignedCast(8, ToMicros(p, t));
    var m, h := Signed(8, Cast(8, ToMicros(p, t))), Pow256(8) / 2;
    match p
    case TicksPerMicro(k) => FinerTimeIff(k, t, m, -h, h);
    case MicrosPerTick(k) => CoarserTimeIff(k, t, m, -h, h);
  }

  /** A millisecond before the epoch, in nanoseconds: lost as a duration, kept as a time point. */
  lemma BeforeTheEpoch()
    ensures DurationTrip(TicksPerMicro(1000), -1_000_000) != -1_000_000
    ensures TimePointTrip(TicksPerMicro(1000), -1_000_000) == -1_000_000
  {
    assert Pow256(8) == 0x1_0000_0000_0000_0000;
    DurationRoundTripIff(TicksPerMicro(1000), -1_000_000);
    TimePointRoundTripIff(TicksPerMicro(1000), -1_000_000);
  }

  lemma TimeRoundTrip(sc: SizeCodec, ty: Ty, v: Val, data: seq<byte>, r: Reader)
    requires ty.Duration? || ty.TimePoint?
    requires Rep(sc, ty, v) && Holds(data, r.offset, Encode(sc, ty, v))
    ensures Decode(sc, ty, data, r) == Got(v, Reader(r.offset + |Encode(sc, ty, v)|, true))
  {
    var w := if ty.Duration? then 4 else 8;
    var c := Cast(w, ToMicros(ty.period, v.t));
    FlattenOne(LittleEndian(w, c));
    ReadHeld(data, r, LittleEndian(w, c));
    CastSmall(w, ToMicros(ty.period, v.t));
    LittleEndianRoundTrip(w, c);
    if ty.Duration? { DurationRoundTripIff(ty.period, v.t); } else { TimePointRoundTripIff(ty.period, v.t); }
  }

  // ---------------------------------------------------------------- sizes

  /** A size followed by more writes. */
  lemma SizeHeld(sc: SizeCodec, n: nat, more: seq<seq<byte>>, data: seq<byte>, r: Reader) returns (next: Reader)
    requires Lawful(sc) && n < sc.limit && Holds(data, r.offset, Flatten(sc.write(n) + more))
    ensures next.ok && sc.read(data, r) == SizeRead(n, next)
    ensures Holds(data, next.offset, Flatten(more))
    ensures next.offset + |Flatten(more)| == r.offset + |Flatten(sc.write(n) + more)|
  {
    SplitChunks(data, r.offset, sc.write(n), more);
    next := Reader(r.offset + |Flatten(sc.write(n))|, true);
  }

  /** One tag byte followed by more writes. */
  lemma ByteHeld(b: byte, more: seq<seq<byte>>, data: seq<byte>, r: Reader) returns (next: Reader)
    requires Holds(data, r.offset, Flatten([[b]] + more))
    ensures next.ok && Read(data, r, 1) == Raw([b], next)
    ensures Holds(data, next.offset, Flatten(more))
    ensures next.offset + |Flatten(more)| == r.offset + |Flatten([[b]] + more)|
  {
    SplitChunks(data, r.offset, [[b]], more);
    FlattenOne([b]);
    ReadHeld(data, r, [b]);
    next := Reader(r.offset + 1, true);
  }

  // ---------------------------------------------------------------- the theorem

  /** For every type and every representable value: reading yields the value written, leaves the
      offset right behind it, and reports success unless nothing had to be read. */
  lemma {:induction false} RoundTrip(sc: SizeCodec, ty: Ty, v: Val, data: seq<byte>, r: Reader)
    requires Lawful(sc) && Rep(sc, ty, v) && Holds(data, r.offset, Encode(sc, ty, v))
    ensures Decode(sc, ty, data, r) == Got(v, Reader(r.offset + |Encode(sc, ty, v)|, r.ok || !NoRead(ty)))
    decreases ty, 1
  {
    match ty
    case Scalar(_) => ScalarRoundTrip(sc, ty, v, data, r);
    case Bool => ScalarRoundTrip(sc, ty, v, data, r);
    case Str => StringRoundTrip(sc, v, data, r);
    case Seq(_, _) => SeqRoundTrip(sc, ty, v, data, r);
    case Array(_, _) => ArrayRoundTrip(sc, ty, v, data, r);
    case Map(_, _) => MapRoundTrip(sc, ty, v, data, r);
    case Pair(a, b) =>
      SplitChunks(data, r.offset, Chunks(sc, a, v.first), Chunks(sc, b, v.second));
      RoundTrip(sc, a, v.first, data, r);
      RoundTrip(sc, b, v.second, data, Decode(sc, a, data, r).next);
    case Struct(fields) => FieldsRoundTrip(sc, fields, v.vs, data, r);
    case Nullable(_) => NullableRoundTrip(sc, ty, v, data, r);
    case Opt(_) => OptRoundTrip(sc, ty, v, data, r);
    case Variant(_) => VariantRoundTrip(sc, ty, v, data, r);
    case Duration(_) => TimeRoundTrip(sc, ty, v, data, r);
    case TimePoint(_) => TimeRoundTrip(sc, ty, v, data, r);
    case Pointer(elem) => RoundTrip(sc, elem, v.v, data, r);
  }

  lemma StringRoundTrip(sc: SizeCodec, v: Val, data: seq<byte>, r: Reader)
    requires Lawful(sc) && Rep(sc, Str, v) && Holds(data, r.offset, Encode(sc, Str, v))
    ensures Decode(sc, Str, data, r) == Got(v, Reader(r.offset + |Encode(sc, Str, v)|, true))
  {
    var next := SizeHeld(sc, |v.s|, [v.s], data, r);
    FlattenOne(v.s);
    ReadHeld(data, next, v.s);
  }

  lemma {:induction false} SeqRoundTrip(sc: SizeCodec, ty: Ty, v: Val, data: seq<byte>, r: Reader)
    requires ty.Seq? && Lawful(sc) && Rep(sc, ty, v) && Holds(data, r.offset, Encode(sc, ty, v))
    ensures Decode(sc, ty, data, r) == Got(v, Reader(r.offset + |Encode(sc, ty, v)|, true))
    decreases ty, 0
  {
    var each := ChunksEach(sc, ty.elem, v.vs);
    if ty.kind.Vector? && IsScalar(ty.elem) {
      var next := SizeHeld(sc, |v.vs|, [Flatten(each)], data, r);
      FlattenOne(Flatten(each));
      BlockRoundTrip(sc, ty.elem, v.vs, data, next);
    } else {
      var next := SizeHeld(sc, |v.vs|, each, data, r);
      EachRoundTrip(sc, ty.elem, v.vs, data, next, ty.kind);
    }
  }

  lemma {:induction false} ArrayRoundTrip(sc: SizeCodec, ty: Ty, v: Val, data: seq<byte>, r: Reader)
    requires ty.Array? && Lawful(sc) && Rep(sc, ty, v) && Holds(data, r.offset, Encode(sc, ty, v))
    ensures Decode(sc, ty, data, r) == Got(v, Reader(r.offset + |Encode(sc, ty, v)|, r.ok || !NoRead(ty)))
    decreases ty, 0
  {
    if IsScalar(ty.elem) {
      FlattenOne(Flatten(ChunksEach(sc, ty.elem, v.vs)));
      BlockRoundTrip(sc, ty.elem, v.vs, data, r);
    } else {
      EachRoundTrip(sc, ty.elem, v.vs, data, r, Vector);
    }
  }

  /** Where the first of several elements lies, and the others behind it. */
  lemma FirstHeld(sc: SizeCodec, elem: Ty, vs: seq<Val>, data: seq<byte>, offset: nat)
    requires vs != [] && Holds(data, offset, Flatten(ChunksEach(sc, elem, vs)))
    ensures var first, rest := Encode(sc, elem, vs[0]), Flatten(ChunksEach(sc, elem, vs[1..]));
            && Holds(data, offset, first) && Holds(data, offset + |first|, rest)
            && |Flatten(ChunksEach(sc, elem, vs))| == |first| + |rest|
  {
    SplitChunks(data, offset, Chunks(sc, elem, vs[0]), ChunksEach(sc, elem, vs[1..]));
  }

  /** The first of several elements is read back, and the reader stands at the others. */
  lemma FirstRead(sc: SizeCodec, elem: Ty, vs: seq<Val>, data: seq<byte>, r: Reader)
    requires Lawful(sc) && vs != [] && Rep(sc, elem, vs[0])
    requires Holds(data, r.offset, Flatten(ChunksEach(sc, elem, vs)))
    ensures var g := Decode(sc, elem, data, r);
            var rest := Flatten(ChunksEach(sc, elem, vs[1..]));
            && g.v == vs[0] && g.next.ok == (r.ok || !NoRead(elem))
            && Holds(data, g.next.offset, rest)
            && g.next.offset + |rest| == r.offset + |Flatten(ChunksEach(sc, elem, vs))|
    decreases elem, 2, |vs|, 0
  {
    FirstHeld(sc, elem, vs, data, r.offset);
    OneRead(sc, elem, vs[0], data, r, Flatten(ChunksEach(sc, elem, vs[1..])));
  }

  lemma EachUnfolded(sc: SizeCodec, elem: Ty, n: nat, m: nat, data: seq<byte>, r: Reader, kind: Container)
    requires n == m + 1
    ensures var g := Decode(sc, elem, data, r);
            DecodeEach(sc, elem, n, data, r, kind) ==
            if !g.next.ok then GotMany(if kind.List? then [] else [g.v] + Defaults(elem, m), g.next)
            else var h := DecodeEach(sc, elem, m, data, g.next, kind); GotMany([g.v] + h.vs, h.next)
  {
  }

  lemma OneRead(sc: SizeCodec, elem: Ty, v: Val, data: seq<byte>, r: Reader, rest: seq<byte>)
    requires Lawful(sc) && Rep(sc, elem, v) && Holds(data, r.offset, Encode(sc, elem, v))
    requires Holds(data, r.offset + |Encode(sc, elem, v)|, rest)
    ensures var g := Decode(sc, elem, data, r);
            && g.v == v && g.next.ok == (r.ok || !NoRead(elem))
            && g.next.offset == r.offset + |Encode(sc, elem, v)| && Holds(data, g.next.offset, rest)
    decreases elem, 2, 0
  {
    RoundTrip(sc, elem, v, data, r);
  }

  /** The element loops; with nothing read so far only elements without reads may precede. */
  lemma {:induction false} EachRoundTrip(
      sc: SizeCodec, elem: Ty, vs: seq<Val>, data: seq<byte>, r: Reader, kind: Container)
    requires Lawful(sc) && (forall i :: 0 <= i < |vs| ==> Rep(sc, elem, vs[i]))
    requires Holds(data, r.offset, Flatten(ChunksEach(sc, elem, vs)))
    requires kind.List? ==> r.ok
    ensures DecodeEach(sc, elem, |vs|, data, r, kind) ==
            GotMany(vs, Reader(r.offset + |Flatten(ChunksEach(sc, elem, vs))|, r.ok || (vs != [] && !NoRead(elem))))
    decreases elem, 2, |vs|, 1
  {
    if vs != [] {
      var rest := vs[1..];
      FirstRead(sc, elem, vs, data, r);
      var g := Decode(sc, elem, data, r);
      if g.next.ok {
        EachRoundTrip(sc, elem, rest, data, g.next, kind);
      } else {
        NoReadEach(sc, elem, rest, |rest|);
      }
      EachUnfolded(sc, elem, |vs|, |rest|, data, r, kind);
      assert vs == [vs[0]] + rest;
    }
  }

  lemma {:induction false} MapRoundTrip(sc: SizeCodec, ty: Ty, v: Val, data: seq<byte>, r: Reader)
    requires ty.Map? && Lawful(sc) && Rep(sc, ty, v) && Holds(data, r.offset, Encode(sc, ty, v))
    ensures Decode(sc, ty, data, r) == Got(v, Reader(r.offset + |Encode(sc, ty, v)|, true))
    decreases ty, 0, |v.rows| + 2
  {
    var next := SizeHeld(sc, |v.rows|, ChunksRows(sc, ty, v.rows), data, r);
    assert [] + v.rows == v.rows;
    RowsRoundTrip(sc, ty, [], v.rows, data, next);
  }

  /** One row: its key and its value are read back. */
  lemma RowRead(sc: SizeCodec, ty: Ty, row: (Val, Val), data: seq<byte>, r: Reader)
    requires ty.Map? && Lawful(sc) && r.ok && Rep(sc, ty.key, row.0) && Rep(sc, ty.val, row.1)
    requires var k, v := Encode(sc, ty.key, row.0), Encode(sc, ty.val, row.1);
             Holds(data, r.offset, k) && Holds(data, r.offset + |k|, v)
    ensures var k, v := Encode(sc, ty.key, row.0), Encode(sc, ty.val, row.1);
            var next := Reader(r.offset + |k|, true);
            && Decode(sc, ty.key, data, r) == Got(row.0, next)
            && Decode(sc, ty.val, data, next) == Got(row.1, Reader(r.offset + |k| + |v|, true))
    decreases ty, 0, 0
  {
    RoundTrip(sc, ty.key, row.0, data, r);
    RoundTrip(sc, ty.val, row.1, data, Reader(r.offset + |Encode(sc, ty.key, row.0)|, true));
  }

  lemma RowHeld(sc: SizeCodec, ty: Ty, rows: seq<(Val, Val)>, data: seq<byte>, offset: nat)
    requires ty.Map? && rows != [] && Holds(data, offset, Flatten(ChunksRows(sc, ty, rows)))
    ensures var k, v := Encode(sc, ty.key, rows[0].0), Encode(sc, ty.val, rows[0].1);
            var rest := Flatten(ChunksRows(sc, ty, rows[1..]));
            && Holds(data, offset, k) && Holds(data, offset + |k|, v) && Holds(data, offset + |k| + |v|, rest)
            && |Flatten(ChunksRows(sc, ty, rows))| == |k| + |v| + |rest|
  {
    SplitThree(data, offset,
               Chunks(sc, ty.key, rows[0].0), Chunks(sc, ty.val, rows[0].1), ChunksRows(sc, ty, rows[1..]));
  }

  lemma SplitThree(data: seq<byte>, offset: nat, a: seq<seq<byte>>, b: seq<seq<byte>>, c: seq<seq<byte>>)
    requires Holds(data, offset, Flatten(a + b + c))
    ensures Holds(data, offset, Flatten(a))
    ensures Holds(data, offset + |Flatten(a)|, Flatten(b))
    ensures Holds(data, offset + |Flatten(a)| + |Flatten(b)|, Flatten(c))
    ensures |Flatten(a + b + c)| == |Flatten(a)| + |Flatten(b)| + |Flatten(c)|
  {
    SplitChunks(data, offset, a + b, c);
    SplitChunks(data, offset, a, b);
  }

  lemma KeyIsNew(acc: seq<(Val, Val)>, rows: seq<(Val, Val)>)
    requires rows != [] && Distinct(acc + rows)
    ensures !HasKey(acc, rows[0].0) && (acc + [rows[0]]) + rows[1..] == acc + rows
  {
    var all := acc + rows;
    forall i | 0 <= i < |acc| ensures acc[i].0 != rows[0].0 {
      assert all[i].0 != all[|acc|].0;
    }
  }

  lemma {:induction false} RowsRoundTrip(
      sc: SizeCodec, ty: Ty, acc: seq<(Val, Val)>, rows: seq<(Val, Val)>, data: seq<byte>, r: Reader)
    requires ty.Map? && Lawful(sc) && r.ok && Distinct(acc + rows)
    requires forall i :: 0 <= i < |rows| ==> Rep(sc, ty.key, rows[i].0) && Rep(sc, ty.val, rows[i].1)
    requires Holds(data, r.offset, Flatten(ChunksRows(sc, ty, rows)))
    ensures DecodeRows(sc, ty, |rows|, data, r, acc) ==
            GotRows(acc + rows, Reader(r.offset + |Flatten(ChunksRows(sc, ty, rows))|, true))
    decreases ty, 0, |rows| + 1
  {
    if rows == [] {
      assert acc + rows == acc;
    } else {
      RowHeld(sc, ty, rows, data, r.offset);
      RowRead(sc, ty, rows[0], data, r);
      KeyIsNew(acc, rows);
      var h := Decode(sc, ty.val, data, Decode(sc, ty.key, data, r).next);
      RowsRoundTrip(sc, ty, acc + [rows[0]], rows[1..], data, h.next);
    }
  }

  lemma SomeRead(fields: seq<Ty>)
    requires fields != []
    ensures (exists i :: 0 <= i < |fields| && !NoRead(fields[i])) <==>
            !NoRead(fields[0]) || exists i :: 0 <= i < |fields[1..]| && !NoRead(fields[1..][i])
  {
    var tys := fields[1..];
    if i :| 0 <= i < |tys| && !NoRead(tys[i]) { assert fields[i + 1] == tys[i]; }
    if i :| 0 < i < |fields| && !NoRead(fields[i]) { assert tys[i - 1] == fields[i]; }
  }

  lemma FieldHeld(sc: SizeCodec, fields: seq<Ty>, vs: seq<Val>, data: seq<byte>, offset: nat)
    requires fields != [] && vs != [] && Holds(data, offset, Flatten(ChunksFields(sc, fields, vs)))
    ensures var first, rest := Encode(sc, fields[0], vs[0]), Flatten(ChunksFields(sc, fields[1..], vs[1..]));
            && Holds(data, offset, first) && Holds(data, offset + |first|, rest)
            && |Flatten(ChunksFields(sc, fields, vs))| == |first| + |rest|
  {
    SplitChunks(data, offset, Chunks(sc, fields[0], vs[0]), ChunksFields(sc, fields[1..], vs[1..]));
  }

  lemma {:induction false} FieldsRoundTrip(
      sc: SizeCodec, fields: seq<Ty>, vs: seq<Val>, data: seq<byte>, r: Reader)
    requires Lawful(sc) && |vs| == |fields| && (forall i :: 0 <= i < |fields| ==> Rep(sc, fields[i], vs[i]))
    requires Holds(data, r.offset, Flatten(ChunksFields(sc, fields, vs)))
    ensures DecodeFields(sc, fields, data, r) ==
            GotMany(vs, Reader(r.offset + |Flatten(ChunksFields(sc, fields, vs))|,
                               r.ok || exists i :: 0 <= i < |fields| && !NoRead(fields[i])))
    decreases fields, 0
  {
    if fields != [] {
      var tys, rest := fields[1..], vs[1..];
      assert vs == [vs[0]] + rest;
      FieldHeld(sc, fields, vs, data, r.offset);
      RoundTrip(sc, fields[0], vs[0], data, r);
      FieldsRoundTrip(sc, tys, rest, data, Decode(sc, fields[0], data, r).next);
      SomeRead(fields);
    }
  }

  lemma {:induction false} OptRoundTrip(sc: SizeCodec, ty: Ty, v: Val, data: seq<byte>, r: Reader)
    requires ty.Opt? && Lawful(sc) && Rep(sc, ty, v) && Holds(data, r.offset, Encode(sc, ty, v))
    ensures Decode(sc, ty, data, r) == Got(v, Reader(r.offset + |Encode(sc, ty, v)|, true))
    decreases ty, 0
  {
    if v.Present? {
      var next := ByteHeld(1, Chunks(sc, ty.elem, v.v), data, r);
      RoundTrip(sc, ty.elem, v.v, data, next);
    } else {
      assert [[0]] + [] == [[0]];
      var next := ByteHeld(0, [], data, r);
    }
  }

  lemma {:induction false} VariantRoundTrip(sc: SizeCodec, ty: Ty, v: Val, data: seq<byte>, r: Reader)
    requires ty.Variant? && Lawful(sc) && Rep(sc, ty, v) && Holds(data, r.offset, Encode(sc, ty, v))
    ensures Decode(sc, ty, data, r) == Got(v, Reader(r.offset + |Encode(sc, ty, v)|, true))
    decreases ty, 0
  {
    assert LittleEndian(1, v.i) == [v.i];
    var next := ByteHeld(v.i, Chunks(sc, ty.alts[v.i], v.v), data, r);
    RoundTrip(sc, ty.alts[v.i], v.v, data, next);
  }

  lemma {:induction false} NullableRoundTrip(sc: SizeCodec, ty: Ty, v: Val, data: seq<byte>, r: Reader)
    requires ty.Nullable? && Lawful(sc) && Rep(sc, ty, v) && Holds(data, r.offset, Encode(sc, ty, v))
    ensures Decode(sc, ty, data, r) == Got(v, Reader(r.offset + |Encode(sc, ty, v)|, true))
    decreases ty, 0
  {
    var mask := Mask(ty.members, v.vs);
    MaskFits(ty.members, v.vs, 8);
    assert Pow2(8) == 256;
    assert LittleEndian(1, mask) == [mask];
    var next := ByteHeld(mask, ChunksMembers(sc, ty.members, v.vs), data, r);
    MembersRoundTrip(sc, ty.members, v.vs, data, next);
  }

  function Pow2(n: nat): nat {
    if n == 0 then 1 else 2 * Pow2(n - 1)
  }

  lemma {:induction false} MaskFits(members: seq<Field>, vs: seq<Val>, n: nat)
    requires |members| <= n
    ensures Mask(members, vs) < Pow2(n)
  {
    if members != [] && vs != [] {
      MaskFits(members[1..], vs[1..], n - 1);
    } else {
      Pow2Positive(n);
    }
  }

  lemma {:induction false} Pow2Positive(n: nat)
    ensures Pow2(n) > 0
  {
    if n > 0 { Pow2Positive(n - 1); }
  }

  lemma {:induction false} MembersRoundTrip(
      sc: SizeCodec, members: seq<Field>, vs: seq<Val>, data: seq<byte>, r: Reader)
    requires Lawful(sc) && r.ok && |vs| == |members|
    requires forall i :: 0 <= i < |members| ==> RepMember(sc, members[i], vs[i])
    requires Holds(data, r.offset, Flatten(ChunksMembers(sc, members, vs)))
    ensures DecodeMembers(sc, members, Mask(members, vs), data, r) ==
            GotMany(vs, Reader(r.offset + |Flatten(ChunksMembers(sc, members, vs))|, true))
    decreases members, 0
  {
    if members != [] {
      var ms, rest := members[1..], vs[1..];
      assert vs == [vs[0]] + rest;
      SplitChunks(data, r.offset, ChunksMember(sc, members[0], vs[0]), ChunksMembers(sc, ms, rest));
      MemberRoundTrip(sc, members[0], vs[0], data, r);
      var absent := members[0].Optional? && vs[0].Absent?;
      var mask := Mask(members, vs);
      assert mask % 2 == (if absent then 1 else 0) && mask / 2 == Mask(ms, rest);
      MembersRoundTrip(sc, ms, rest, data, DecodeMember(sc, members[0], absent, data, r).next);
    }
  }

  lemma {:induction false} MemberRoundTrip(sc: SizeCodec, member: Field, v: Val, data: seq<byte>, r: Reader)
    requires Lawful(sc) && r.ok && RepMember(sc, member, v)
    requires Holds(data, r.offset, Flatten(ChunksMember(sc, member, v)))
    ensures DecodeMember(sc, member, member.Optional? && v.Absent?, data, r) ==
            Got(v, Reader(r.offset + |Flatten(ChunksMember(sc, member, v))|, true))
    decreases member, 0
  {
    match member
    case Plain(ty) => RoundTrip(sc, ty, v, data, r);
    case Optional(ty) => if v.Present? { RoundTrip(sc, ty, v.v, data, r); }
  }

  /** The theorem as stated in terms of a whole buffer. */
  lemma ReadBackWhatWasWritten(sc: SizeCodec, ty: Ty, v: Val, before: seq<byte>, rest: seq<byte>, ok: bool)
    requires Lawful(sc) && Rep(sc, ty, v)
    ensures var g := Decode(sc, ty, before + Encode(sc, ty, v) + rest, Reader(|before|, ok));
            g.v == v && g.next.offset == |before + Encode(sc, ty, v)|
  {
    HoldsJoin(before, Encode(sc, ty, v), rest);
    RoundTrip(sc, ty, v, before + Encode(sc, ty, v) + rest, Reader(|before|, ok));
  }
}

/**
 Reading an input that ends too early.  Readers that stop at the first failed read report it;
 pairs and structures go on reading, and what they report is the fate of their last read.
 */
module MstreamTruncation {
  import opened Mstream
  import R = MstreamRoundTrip

  /** The data end inside `bytes`, which start at `offset`. */
  ghost predicate Cut(data: seq<byte>, offset: nat, bytes: seq<byte>) {
    offset <= |data| < offset + |bytes| && data[offset..] == bytes[..|data| - offset]
  }

  /** Of two parts either the first is cut, or it is there and the second is cut. */
  lemma CutSplit(data: seq<byte>, offset: nat, a: seq<byte>, b: seq<byte>) returns (first: bool)
    requires Cut(data, offset, a + b)
    ensures first ==> Cut(data, offset, a)
    ensures !first ==> Holds(data, offset, a) && Cut(data, offset + |a|, b)
  {
    var here := data[offset..];
    first := |here| < |a|;
    if first {
      assert (a + b)[..|here|] == a[..|here|];
    } else {
      assert here == (a + b)[..|here|] == a + b[..|here| - |a|];
      assert data[offset..offset + |a|] == here[..|a|] == a;
      assert data[offset + |a|..] == here[|a|..] == b[..|here| - |a|];
    }
  }

  lemma CutChunks(data: seq<byte>, offset: nat, a: seq<seq<byte>>, b: seq<seq<byte>>) returns (first: bool)
    requires Cut(data, offset, Flatten(a + b))
    ensures first ==> Cut(data, offset, Flatten(a))
    ensures !first ==> Holds(data, offset, Flatten(a)) && Cut(data, offset + |Flatten(a)|, Flatten(b))
  {
    FlattenConcat(a, b);
    first := CutSplit(data, offset, Flatten(a), Flatten(b));
  }

  /** The size type reports an input that ends inside a size. */
  ghost predicate NoticesSize(sc: SizeCodec) {
    forall n: nat, data: seq<byte>, r: Reader ::
      n < sc.limit && Cut(data, r.offset, Flatten(sc.write(n))) ==> !sc.read(data, r).next.ok
  }

  lemma Uint32Notices()
    ensures NoticesSize(UINT32)
  {
    forall n: nat, data: seq<byte>, r: Reader | n < UINT32.limit && Cut(data, r.offset, Flatten(UINT32.write(n)))
      ensures !UINT32.read(data, r).next.ok
    {
      FlattenOne(LittleEndian(4, n));
    }
  }

  // ---------------------------------------------------------------- readers that stop

  /** Types whose readers stop at the first failed read, all the way down. */
  predicate Stops(ty: Ty) {
    match ty
    case Seq(_, elem) => Stops(elem)
    case Array(elem, _) => Stops(elem)
    case Opt(elem) => Stops(elem)
    case Pointer(elem) => Stops(elem)
    case Variant(alts) => forall i :: 0 <= i < |alts| ==> Stops(alts[i])
    case Map(_, _) => false
    case Pair(_, _) => false
    case Struct(_) => false
    case Nullable(_) => false
    case _ => true
  }

  /** A size in front of more writes: the cut is in the size, or the size is read. */
  lemma SizeCut(sc: SizeCodec, n: nat, more: seq<seq<byte>>, data: seq<byte>, r: Reader)
    requires Lawful(sc) && NoticesSize(sc) && n < sc.limit && Cut(data, r.offset, Flatten(sc.write(n) + more))
    ensures var sr := sc.read(data, r);
            !sr.next.ok || (sr.size == n && Cut(data, sr.next.offset, Flatten(more)))
  {
    var inSize := CutChunks(data, r.offset, sc.write(n), more);
  }

  lemma BlockCut(sc: SizeCodec, elem: Ty, vs: seq<Val>, data: seq<byte>, r: Reader)
    requires IsScalar(elem) && (forall i :: 0 <= i < |vs| ==> Rep(sc, elem, vs[i]))
    requires Cut(data, r.offset, Flatten(ChunksEach(sc, elem, vs)))
    ensures !ReadBlock(elem, |vs|, data, r).next.ok
  {
    R.BlockSplit(sc, elem, vs);
  }

  lemma {:induction false} EachCut(
      sc: SizeCodec, elem: Ty, vs: seq<Val>, data: seq<byte>, r: Reader, kind: Container)
    requires Lawful(sc) && NoticesSize(sc) && Stops(elem) && (forall i :: 0 <= i < |vs| ==> Rep(sc, elem, vs[i]))
    requires Cut(data, r.offset, Flatten(ChunksEach(sc, elem, vs)))
    ensures !DecodeEach(sc, elem, |vs|, data, r, kind).next.ok
    decreases elem, 2, |vs|
  {
    var inFirst := FirstOrRestCut(sc, elem, vs, data, r);
    if inFirst {
      TruncationIsNoticed(sc, elem, vs[0], data, r);
    } else {
      var next := Decode(sc, elem, data, r).next;
      if next.ok { EachCut(sc, elem, vs[1..], data, next, kind); }
    }
    EachFails(sc, elem, |vs|, data, r, kind);
  }

  lemma StandsBehind(sc: SizeCodec, ty: Ty, v: Val, data: seq<byte>, r: Reader)
    requires Lawful(sc) && Rep(sc, ty, v) && Holds(data, r.offset, Encode(sc, ty, v))
    ensures Decode(sc, ty, data, r).next.offset == r.offset + |Encode(sc, ty, v)|
  {
    R.RoundTrip(sc, ty, v, data, r);
  }

  /** The input ends in the first element, or in the others behind where the reader then stands. */
  lemma FirstOrRestCut(sc: SizeCodec, elem: Ty, vs: seq<Val>, data: seq<byte>, r: Reader) returns (first: bool)
    requires Lawful(sc) && (forall i :: 0 <= i < |vs| ==> Rep(sc, elem, vs[i]))
    requires Cut(data, r.offset, Flatten(ChunksEach(sc, elem, vs)))
    ensures vs != []
    ensures first ==> Cut(data, r.offset, Encode(sc, elem, vs[0]))
    ensures !first ==>
              Cut(data, Decode(sc, elem, data, r).next.offset, Flatten(ChunksEach(sc, elem, vs[1..])))
  {
    first := FirstCut(sc, elem, vs, data, r.offset);
    if !first { StandsBehind(sc, elem, vs[0], data, r); }
  }

  /** The element loop fails if its first element does, or else the rest of it. */
  lemma EachFails(sc: SizeCodec, elem: Ty, n: nat, data: seq<byte>, r: Reader, kind: Container)
    requires n > 0
    requires var next := Decode(sc, elem, data, r).next;
             next.ok ==> !DecodeEach(sc, elem, n - 1, data, next, kind).next.ok
    ensures !DecodeEach(sc, elem, n, data, r, kind).next.ok
  {
  }

  lemma FirstCut(sc: SizeCodec, elem: Ty, vs: seq<Val>, data: seq<byte>, offset: nat) returns (first: bool)
    requires Cut(data, offset, Flatten(ChunksEach(sc, elem, vs)))
    ensures vs != []
    ensures first ==> Cut(data, offset, Encode(sc, elem, vs[0]))
    ensures !first ==>
              && Holds(data, offset, Encode(sc, elem, vs[0]))
              && Cut(data, offset + |Encode(sc, elem, vs[0])|, Flatten(ChunksEach(sc, elem, vs[1..])))
  {
    first := CutChunks(data, offset, Chunks(sc, elem, vs[0]), ChunksEach(sc, elem, vs[1..]));
  }

  lemma {:induction false} SeqCut(sc: SizeCodec, ty: Ty, v: Val, data: seq<byte>, r: Reader)
    requires ty.Seq? && Lawful(sc) && NoticesSize(sc) && Stops(ty) && Rep(sc, ty, v)
    requires Cut(data, r.offset, Encode(sc, ty, v))
    ensures !Decode(sc, ty, data, r).next.ok
    decreases ty, 0
  {
    var each := ChunksEach(sc, ty.elem, v.vs);
    if ty.kind.Vector? && IsScalar(ty.elem) {
      SizeCut(sc, |v.vs|, [Flatten(each)], data, r);
      FlattenOne(Flatten(each));
      if sc.read(data, r).next.ok { BlockCut(sc, ty.elem, v.vs, data, sc.read(data, r).next); }
    } else {
      SizeCut(sc, |v.vs|, each, data, r);
      if sc.read(data, r).next.ok { EachCut(sc, ty.elem, v.vs, data, sc.read(data, r).next, ty.kind); }
    }
  }

  lemma {:induction false} ArrayCut(sc: SizeCodec, ty: Ty, v: Val, data: seq<byte>, r: Reader)
    requires ty.Array? && Lawful(sc) && NoticesSize(sc) && Stops(ty) && Rep(sc, ty, v)
    requires Cut(data, r.offset, Encode(sc, ty, v))
    ensures !Decode(sc, ty, data, r).next.ok
    decreases ty, 0
  {
    if IsScalar(ty.elem) {
      FlattenOne(Flatten(ChunksEach(sc, ty.elem, v.vs)));
      BlockCut(sc, ty.elem, v.vs, data, r);
    } else {
      EachCut(sc, ty.elem, v.vs, data, r, Vector);
    }
  }

  /** A tag byte in front of more writes: there is no byte, or it is read and the rest is cut. */
  lemma TagCut(b: byte, more: seq<seq<byte>>, data: seq<byte>, r: Reader)
    requires Cut(data, r.offset, Flatten([[b]] + more))
    ensures var raw := Read(data, r, 1);
            !raw.next.ok || (raw.bytes == [b] && Cut(data, raw.next.offset, Flatten(more)))
  {
    var inTag := CutChunks(data, r.offset, [[b]], more);
    FlattenOne([b]);
    if !inTag { R.ReadHeld(data, r, [b]); }
  }

  lemma {:induction false} OptCut(sc: SizeCodec, ty: Ty, v: Val, data: seq<byte>, r: Reader)
    requires ty.Opt? && Lawful(sc) && NoticesSize(sc) && Stops(ty) && Rep(sc, ty, v)
    requires Cut(data, r.offset, Encode(sc, ty, v))
    ensures !Decode(sc, ty, data, r).next.ok
    decreases ty, 0
  {
    if v.Present? {
      TagCut(1, Chunks(sc, ty.elem, v.v), data, r);
      if Read(data, r, 1).next.ok { TruncationIsNoticed(sc, ty.elem, v.v, data, Read(data, r, 1).next); }
    } else {
      FlattenOne([0]);
    }
  }

  lemma {:induction false} VariantCut(sc: SizeCodec, ty: Ty, v: Val, data: seq<byte>, r: Reader)
    requires ty.Variant? && Lawful(sc) && NoticesSize(sc) && Stops(ty) && Rep(sc, ty, v)
    requires Cut(data, r.offset, Encode(sc, ty, v))
    ensures !Decode(sc, ty, data, r).next.ok
    decreases ty, 0
  {
    assert LittleEndian(1, v.i) == [v.i] by { assert LittleEndian(0, v.i / 256) == []; }
    TagCut(v.i, Chunks(sc, ty.alts[v.i], v.v), data, r);
    if Read(data, r, 1).next.ok { TruncationIsNoticed(sc, ty.alts[v.i], v.v, data, Read(data, r, 1).next); }
  }

  lemma StringCut(sc: SizeCodec, v: Val, data: seq<byte>, r: Reader)
    requires Lawful(sc) && NoticesSize(sc) && Rep(sc, Str, v) && Cut(data, r.offset, Encode(sc, Str, v))
    ensures !Decode(sc, Str, data, r).next.ok
  {
    SizeCut(sc, |v.s|, [v.s], data, r);
    FlattenOne(v.s);
  }

  lemma FixedCut(sc: SizeCodec, ty: Ty, v: Val, data: seq<byte>, r: Reader)
    requires (IsScalar(ty) || ty.Duration? || ty.TimePoint?) && Rep(sc, ty, v)
    requires Cut(data, r.offset, Encode(sc, ty, v))
    ensures !Decode(sc, ty, data, r).next.ok
  {
    FlattenOne(Chunks(sc, ty, v)[0]);
  }

  /** For every type whose readers stop, reading any strict prefix of an encoding reports failure. */
  lemma {:induction false} TruncationIsNoticed(sc: SizeCodec, ty: Ty, v: Val, data: seq<byte>, r: Reader)
    requires Lawful(sc) && NoticesSize(sc) && Stops(ty) && Rep(sc, ty, v)
    requires Cut(data, r.offset, Encode(sc, ty, v))
    ensures !Decode(sc, ty, data, r).next.ok
    decreases ty, 1
  {
    match ty
    case Str => StringCut(sc, v, data, r);
    case Seq(_, _) => SeqCut(sc, ty, v, data, r);
    case Array(_, _) => ArrayCut(sc, ty, v, data, r);
    case Opt(_) => OptCut(sc, ty, v, data, r);
    case Variant(_) => VariantCut(sc, ty, v, data, r);
    case Pointer(elem) => TruncationIsNoticed(sc, elem, v.v, data, r);
    case Scalar(_) => FixedCut(sc, ty, v, data, r);
    case Bool => FixedCut(sc, ty, v, data, r);
    case Duration(_) => FixedCut(sc, ty, v, data, r);
    case TimePoint(_) => FixedCut(sc, ty, v, data, r);
    case _ =>
  }

  // ---------------------------------------------------------------- readers that go on

  function Scalars(widths: seq<nat>): (tys: seq<Ty>)
    ensures |tys| == |widths|
  {
    seq(|widths|, i requires 0 <= i < |widths| => Scalar(widths[i]))
  }

  /** The bytes left when each number is read if there are enough bytes for it, and else skipped. */
  function LeftOver(widths: seq<nat>, bytes: nat): nat {
    if widths == [] then bytes
    else LeftOver(widths[1..], if widths[0] <= bytes then bytes - widths[0] else bytes)
  }

  /** The last number finds enough bytes. */
  predicate LastFits(widths: seq<nat>, bytes: nat)
    requires widths != []
  {
    widths[|widths| - 1] <= LeftOver(widths[..|widths| - 1], bytes)
  }

  lemma {:induction false} FieldsOnAnyInput(sc: SizeCodec, widths: seq<nat>, data: seq<byte>, r: Reader)
    requires r.offset <= |data|
    ensures var g := DecodeFields(sc, Scalars(widths), data, r);
            && g.next.offset == |data| - LeftOver(widths, |data| - r.offset) <= |data|
            && g.next.ok == if widths == [] then r.ok else LastFits(widths, |data| - r.offset)
    decreases |widths|
  {
    if widths != [] {
      var tys, rest := Scalars(widths), widths[1..];
      assert tys[1..] == Scalars(rest);
      var next := Decode(sc, tys[0], data, r).next;
      FieldsOnAnyInput(sc, rest, data, next);
      if rest != [] {
        assert widths[..|widths| - 1][1..] == rest[..|rest| - 1];
      } else {
        assert widths[..|widths| - 1] == [];
      }
    }
  }

  /** Whatever the input, a structure of numbers reports success exactly if its last number finds
      enough bytes once those before it have taken or skipped theirs. */
  lemma StructNoticesIff(sc: SizeCodec, widths: seq<nat>, data: seq<byte>)
    requires widths != []
    ensures Decode(sc, Struct(Scalars(widths)), data, Reader(0, false)).next.ok <==> LastFits(widths, |data|)
  {
    FieldsOnAnyInput(sc, widths, data, Reader(0, false));
  }

  /** A pair of numbers lets a truncation pass exactly if the second fits and the first does not. */
  lemma PairNoticesIff(sc: SizeCodec, m: nat, n: nat, data: seq<byte>)
    requires |data| < m + n
    ensures Decode(sc, Pair(Scalar(m), Scalar(n)), data, Reader(0, false)).next.ok <==> n <= |data| < m
  {
  }

  /** So it notices every truncation exactly if its second number is no narrower than its first. */
  lemma PairAlwaysNoticesIff(sc: SizeCodec, m: nat, n: nat)
    ensures (forall data: seq<byte> :: |data| < m + n ==>
               !Decode(sc, Pair(Scalar(m), Scalar(n)), data, Reader(0, false)).next.ok) <==> m <= n
  {
    forall data: seq<byte> | |data| < m + n
      ensures Decode(sc, Pair(Scalar(m), Scalar(n)), data, Reader(0, false)).next.ok <==> n <= |data| < m
    {
      PairNoticesIff(sc, m, n, data);
    }
    if m > n {
      var data: seq<byte> := seq(n, _ => 0);
      PairNoticesIff(sc, m, n, data);
    }
  }

  /** One byte of five: the four-byte number fails, the byte behind it is read in its place. */
  lemma TruncationCanGoUnnoticed()
    ensures Decode(UINT32, Pair(Scalar(4), Scalar(1)), [7], Reader(0, false)) ==
            Got(Both(Num(0), Num(7)), Reader(1, true))
  {
    var data: seq<byte> := [7];
    var r1 := Read(data, Reader(0, false), 4);
    assert r1.next == Reader(0, false);
    assert FromLittleEndian(r1.bytes) == 0 by { ZerosAreZero(r1.bytes); }
    assert data[0..1] == [7];
    assert FromLittleEndian([7]) == 7 by { assert [7][1..] == []; }
  }

  lemma {:induction false} ZerosAreZero(s: seq<byte>)
    requires forall i :: 0 <= i < |s| ==> s[i] == 0
    ensures FromLittleEndian(s) == 0
  {
    if s != [] { ZerosAreZero(s[1..]); }
  }
}

/**
 The wire format of the codec, byte by byte, for the default 32-bit size type.  It is written down
 apart from the operators: numbers by their digits, sizes in four bytes, tags as they are.
 */
module MstreamWire {
  import opened Mstream
  import R = MstreamRoundTrip

  // ---------------------------------------------------------------- the format

  /** Digit i of a number in base 256; a negative number is in two's complement. */
  function Digit(n: int, i: nat): byte {
    PowPositive(i);
    n / Pow256(i) % 256
  }

  function Digits(w: nat, n: int): (r: seq<byte>)
    ensures |r| == w
  {
    seq(w, i requires 0 <= i < w => Digit(n, i))
  }

  /** Member i is one that may be absent, and it is. */
  function Bit(members: seq<Field>, vs: seq<Val>, i: nat): nat {
    if i < |members| && i < |vs| && members[i].Optional? && vs[i].Absent? then 1 else 0
  }

  function FourBits(members: seq<Field>, vs: seq<Val>, i: nat): nat {
    Bit(members, vs, i) + 2 * Bit(members, vs, i + 1) + 4 * Bit(members, vs, i + 2) + 8 * Bit(members, vs, i + 3)
  }

  function MaskByte(members: seq<Field>, vs: seq<Val>): nat {
    FourBits(members, vs, 0) + 16 * FourBits(members, vs, 4)
  }

  /** The bytes of a value. */
  function Wire(ty: Ty, v: Val): seq<byte>
    decreases ty, 1
  {
    match ty
    case Scalar(w) => if v.Num? then Digits(w, v.n) else []
    case Bool => if v.Flag? then [if v.b then 1 else 0] else []
    case Str => if v.Text? then Digits(4, |v.s|) + v.s else []
    case Seq(_, elem) => if v.Many? then Digits(4, |v.vs|) + WireEach(elem, v.vs) else []
    case Array(elem, _) => if v.Many? then WireEach(elem, v.vs) else []
    case Map(_, _) => if v.Table? then Digits(4, |v.rows|) + WireRows(ty, v.rows) else []
    case Pair(a, b) => if v.Both? then Wire(a, v.first) + Wire(b, v.second) else []
    case Struct(fields) => if v.Many? then WireFields(fields, v.vs) else []
    case Nullable(members) =>
      if v.Many? then Digits(1, MaskByte(members, v.vs)) + WireMembers(members, v.vs) else []
    case Opt(elem) => if v.Present? then [1] + Wire(elem, v.v) else [0]
    case Variant(alts) =>
      if !v.Alt? then [255] else if v.i < |alts| then Digits(1, v.i) + Wire(alts[v.i], v.v) else []
    case Duration(p) => if v.Ticks? then Digits(4, ToMicros(p, v.t)) else []
    case TimePoint(p) => if v.Ticks? then Digits(8, ToMicros(p, v.t)) else []
    case Pointer(elem) => if v.To? then Wire(elem, v.v) else []
  }

  function WireEach(elem: Ty, vs: seq<Val>): seq<byte>
    decreases elem, 2, |vs|
  {
    if vs == [] then [] else Wire(elem, vs[0]) + WireEach(elem, vs[1..])
  }

  function WireRows(ty: Ty, rows: seq<(Val, Val)>): seq<byte>
    requires ty.Map?
    decreases ty, 0, |rows|
  {
    if rows == [] then [] else Wire(ty.key, rows[0].0) + Wire(ty.val, rows[0].1) + WireRows(ty, rows[1..])
  }

  function WireFields(fields: seq<Ty>, vs: seq<Val>): seq<byte>
    decreases fields, 0
  {
    if fields == [] || vs == [] then [] else Wire(fields[0], vs[0]) + WireFields(fields[1..], vs[1..])
  }

  function WireMembers(members: seq<Field>, vs: seq<Val>): seq<byte>
    decreases members, 0
  {
    if members == [] || vs == [] then []
    else WireMember(members[0], vs[0]) + WireMembers(members[1..], vs[1..])
  }

  function WireMember(member: Field, v: Val): seq<byte>
    decreases member, 0
  {
    match member
    case Plain(ty) => Wire(ty, v)
    case Optional(ty) => if v.Present? then Wire(ty, v.v) else []
  }

  // ---------------------------------------------------------------- digits

  lemma DivDiv(n: int, p: nat)
    requires p > 0
    ensures n / 256 / p == n / (256 * p)
  {
    var q := n / 256;
    var low, high := n % 256, q % p;
    assert n == 256 * q + low && q == p * (q / p) + high;
    assert 256 * (p * (q / p)) == (256 * p) * (q / p);
    R.UniqueQuotient(n, 256 * p, q / p, 256 * high + low);
  }

  lemma DigitUp(n: int, i: nat)
    ensures Digit(n, i + 1) == Digit(n / 256, i)
  {
    PowPositive(i);
    DivDiv(n, Pow256(i));
  }

  lemma DigitsUp(w: nat, n: int)
    requires w > 0
    ensures Digits(w, n) == [n % 256] + Digits(w - 1, n / 256)
  {
    forall i | 0 <= i < w ensures Digits(w, n)[i] == ([n % 256] + Digits(w - 1, n / 256))[i] {
      if i > 0 { DigitUp(n, i - 1); }
    }
  }

  /** Byte i of a written number is its digit i. */
  lemma {:induction false} LittleEndianDigits(w: nat, n: nat)
    ensures LittleEndian(w, n) == Digits(w, n)
  {
    if w > 0 {
      LittleEndianDigits(w - 1, n / 256);
      DigitsUp(w, n);
    }
  }

  lemma CastStep(w: nat, m: int)
    requires w > 0
    ensures Cast(w, m) % 256 == m % 256 && Cast(w, m) / 256 == Cast(w - 1, m / 256)
  {
    var p := Pow256(w - 1);
    PowPositive(w - 1);
    var a, b := m / 256, m % 256;
    var c := a % p;
    assert m == 256 * a + b && a == p * (a / p) + c;
    assert 256 * (p * (a / p)) == (256 * p) * (a / p);
    R.UniqueQuotient(m, 256 * p, a / p, 256 * c + b);
    R.UniqueQuotient(256 * c + b, 256, c, b);
  }

  /** A number cast to w bytes, negative ones included. */
  lemma {:induction false} CastDigits(w: nat, m: int)
    ensures LittleEndian(w, Cast(w, m)) == Digits(w, m)
  {
    if w > 0 {
      CastStep(w, m);
      CastDigits(w - 1, m / 256);
      DigitsUp(w, m);
    }
  }

  /** The default size type: four bytes, least significant first, for all sizes below 2^32. */
  lemma Uint32OnWire(n: nat)
    ensures Flatten(UINT32.write(n)) == Digits(4, n)
    ensures n < 0x1_0000_0000 ==>
              Flatten(UINT32.write(n)) == [n % 256, n / 256 % 256, n / 65536 % 256, n / 16777216]
    ensures UINT32.limit == 0x1_0000_0000
  {
    FlattenOne(LittleEndian(4, n));
    LittleEndianDigits(4, n);
    if n < 0x1_0000_0000 {
      FourDigits(n);
      LastDigit(n);
    }
  }

  lemma Powers()
    ensures Pow256(0) == 1 && Pow256(1) == 256 && Pow256(2) == 65536 && Pow256(3) == 16777216
  {
  }

  lemma FourDigits(n: nat)
    ensures Digits(4, n) == [n % 256, n / 256 % 256, n / 65536 % 256, n / 16777216 % 256]
  {
    Powers();
    assert Digit(n, 0) == n / 1 % 256 == n % 256;
    assert Digit(n, 1) == n / 256 % 256;
    assert Digit(n, 2) == n / 65536 % 256;
    assert Digit(n, 3) == n / 16777216 % 256;
  }

  lemma LastDigit(n: nat)
    requires n < 0x1_0000_0000
    ensures n / 16777216 % 256 == n / 16777216
  {
  }

  // ---------------------------------------------------------------- the mask

  lemma MaskStep(members: seq<Field>, vs: seq<Val>, i: nat)
    requires i < |members| && i < |vs|
    ensures Mask(members[i..], vs[i..]) == Bit(members, vs, i) + 2 * Mask(members[i + 1..], vs[i + 1..])
  {
    assert members[i..][0] == members[i] && members[i..][1..] == members[i + 1..];
    assert vs[i..][0] == vs[i] && vs[i..][1..] == vs[i + 1..];
  }

  /** The mask from member i on. */
  function MaskFrom(members: seq<Field>, vs: seq<Val>, i: nat): nat {
    if i < |members| && i < |vs| then Mask(members[i..], vs[i..]) else 0
  }

  lemma MaskFromStep(members: seq<Field>, vs: seq<Val>, i: nat)
    ensures MaskFrom(members, vs, i) == Bit(members, vs, i) + 2 * MaskFrom(members, vs, i + 1)
  {
    if i < |members| && i < |vs| { MaskStep(members, vs, i); }
  }

  lemma MaskIsFrom(members: seq<Field>, vs: seq<Val>)
    ensures Mask(members, vs) == MaskFrom(members, vs, 0)
  {
    assert members[0..] == members && vs[0..] == vs;
  }

  lemma MaskHalf(members: seq<Field>, vs: seq<Val>, i: nat)
    ensures MaskFrom(members, vs, i) == FourBits(members, vs, i) + 16 * MaskFrom(members, vs, i + 4)
  {
    MaskFromStep(members, vs, i);
    MaskFromStep(members, vs, i + 1);
    MaskFromStep(members, vs, i + 2);
    MaskFromStep(members, vs, i + 3);
  }

  lemma MaskSum(members: seq<Field>, vs: seq<Val>)
    ensures Mask(members, vs) == MaskByte(members, vs) + 256 * MaskFrom(members, vs, 8)
  {
    MaskIsFrom(members, vs);
    MaskHalf(members, vs, 0);
    MaskHalf(members, vs, 4);
  }

  lemma LowByte(n: nat, low: nat, high: nat)
    requires n == low + 256 * high
    ensures LittleEndian(1, n) == Digits(1, low)
  {
    SameLow(n, low, high);
    LowDigit(n);
    LowDigit(low);
    LittleEndianDigits(1, n);
  }

  lemma LowDigit(n: nat)
    ensures Digits(1, n) == [n % 256]
  {
    DigitsUp(1, n);
  }

  lemma SameLow(n: nat, low: nat, high: nat)
    requires n == low + 256 * high
    ensures n % 256 == low % 256
  {
  }

  /** Bit i of the mask tells whether member i is absent. */
  lemma MaskOnWire(members: seq<Field>, vs: seq<Val>)
    ensures LittleEndian(1, Mask(members, vs)) == Digits(1, MaskByte(members, vs))
    ensures |members| <= 8 ==> Mask(members, vs) == MaskByte(members, vs)
  {
    MaskSum(members, vs);
    LowByte(Mask(members, vs), MaskByte(members, vs), MaskFrom(members, vs, 8));
  }

  // ---------------------------------------------------------------- times

  /** Ticks finer than microseconds are cut towards zero: the microseconds written are as near to
      the time as whole ones from zero can be; coarser ones are exact. */
  lemma MicrosAreTruncated(p: Period, t: int)
    requires p.k > 0
    ensures p.MicrosPerTick? ==> ToMicros(p, t) == t * p.k
    ensures p.TicksPerMicro? && t >= 0 ==> ToMicros(p, t) * p.k <= t < (ToMicros(p, t) + 1) * p.k
    ensures p.TicksPerMicro? && t <= 0 ==> (ToMicros(p, t) - 1) * p.k < t <= ToMicros(p, t) * p.k
  {
    if p.TicksPerMicro? {
      var k, n := p.k, if t >= 0 then t else -t;
      var q := n / k;
      assert n == k * q + n % k;
      assert q * k == k * q && (q + 1) * k == k * q + k;
      assert (-q) * k == -(k * q) && (-q - 1) * k == -(k * q) - k;
    }
  }

  // ---------------------------------------------------------------- the theorem

  /** What the operators write is the format, for every type and every value. */
  lemma {:induction false} EncodingIsWire(ty: Ty, v: Val)
    ensures Encode(UINT32, ty, v) == Wire(ty, v)
    decreases ty, 1
  {
    match ty
    case Scalar(w) =>
      if v.Num? { LittleEndianDigits(w, v.n); FlattenOne(LittleEndian(w, v.n)); }
    case Bool =>
      if v.Flag? { FlattenOne([if v.b then 1 else 0]); }
    case Str =>
      if v.Text? { SizeThen(|v.s|, [v.s]); FlattenOne(v.s); }
    case Seq(_, _) => SeqIsWire(ty, v);
    case Array(elem, _) =>
      if v.Many? { EachIsWire(elem, v.vs); FlattenOne(Flatten(ChunksEach(UINT32, elem, v.vs))); }
    case Map(_, _) =>
      if v.Table? { SizeThen(|v.rows|, ChunksRows(UINT32, ty, v.rows)); RowsAreWire(ty, v.rows); }
    case Pair(a, b) =>
      if v.Both? {
        FlattenConcat(Chunks(UINT32, a, v.first), Chunks(UINT32, b, v.second));
        EncodingIsWire(a, v.first);
        EncodingIsWire(b, v.second);
      }
    case Struct(fields) =>
      if v.Many? { FieldsAreWire(fields, v.vs); }
    case Nullable(members) =>
      if v.Many? {
        MaskOnWire(members, v.vs);
        MembersAreWire(members, v.vs);
        ByteThen(LittleEndian(1, Mask(members, v.vs)), ChunksMembers(UINT32, members, v.vs));
      }
    case Opt(elem) => OptIsWire(ty, v);
    case Variant(alts) => VariantIsWire(ty, v);
    case Duration(p) =>
      if v.Ticks? { CastDigits(4, ToMicros(p, v.t)); FlattenOne(LittleEndian(4, Cast(4, ToMicros(p, v.t)))); }
    case TimePoint(p) =>
      if v.Ticks? { CastDigits(8, ToMicros(p, v.t)); FlattenOne(LittleEndian(8, Cast(8, ToMicros(p, v.t)))); }
    case Pointer(elem) =>
      if v.To? { EncodingIsWire(elem, v.v); }
  }

  lemma ByteThen(first: seq<byte>, more: seq<seq<byte>>)
    ensures Flatten([first] + more) == first + Flatten(more)
  {
    assert ([first] + more)[1..] == more;
  }

  lemma SizeThen(n: nat, more: seq<seq<byte>>)
    ensures Flatten(UINT32.write(n) + more) == Digits(4, n) + Flatten(more)
  {
    FlattenConcat(UINT32.write(n), more);
    Uint32OnWire(n);
  }

  lemma {:induction false} SeqIsWire(ty: Ty, v: Val)
    requires ty.Seq?
    ensures Encode(UINT32, ty, v) == Wire(ty, v)
    decreases ty, 0
  {
    if v.Many? {
      var each := ChunksEach(UINT32, ty.elem, v.vs);
      EachIsWire(ty.elem, v.vs);
      SizeThen(|v.vs|, each);
      SizeThen(|v.vs|, [Flatten(each)]);
      FlattenOne(Flatten(each));
    }
  }

  lemma {:induction false} OptIsWire(ty: Ty, v: Val)
    requires ty.Opt?
    ensures Encode(UINT32, ty, v) == Wire(ty, v)
    decreases ty, 0
  {
    if v.Present? {
      EncodingIsWire(ty.elem, v.v);
      ByteThen([1], Chunks(UINT32, ty.elem, v.v));
    } else {
      FlattenOne([0]);
    }
  }

  lemma {:induction false} VariantIsWire(ty: Ty, v: Val)
    requires ty.Variant?
    ensures Encode(UINT32, ty, v) == Wire(ty, v)
    decreases ty, 0
  {
    if v.Alt? && v.i < |ty.alts| {
      EncodingIsWire(ty.alts[v.i], v.v);
      ByteThen(LittleEndian(1, v.i), Chunks(UINT32, ty.alts[v.i], v.v));
      LittleEndianDigits(1, v.i);
    } else if !v.Alt? {
      FlattenOne([255]);
    }
  }

  lemma {:induction false} EachIsWire(elem: Ty, vs: seq<Val>)
    ensures Flatten(ChunksEach(UINT32, elem, vs)) == WireEach(elem, vs)
    decreases elem, 2, |vs|
  {
    if vs != [] {
      FlattenConcat(Chunks(UINT32, elem, vs[0]), ChunksEach(UINT32, elem, vs[1..]));
      EncodingIsWire(elem, vs[0]);
      EachIsWire(elem, vs[1..]);
    }
  }

  lemma {:induction false} RowsAreWire(ty: Ty, rows: seq<(Val, Val)>)
    requires ty.Map?
    ensures Flatten(ChunksRows(UINT32, ty, rows)) == WireRows(ty, rows)
    decreases ty, 0, |rows|
  {
    if rows != [] {
      var k, v := Chunks(UINT32, ty.key, rows[0].0), Chunks(UINT32, ty.val, rows[0].1);
      FlattenConcat(k, v);
      FlattenConcat(k + v, ChunksRows(UINT32, ty, rows[1..]));
      EncodingIsWire(ty.key, rows[0].0);
      EncodingIsWire(ty.val, rows[0].1);
      RowsAreWire(ty, rows[1..]);
    }
  }

  lemma {:induction false} FieldsAreWire(fields: seq<Ty>, vs: seq<Val>)
    ensures Flatten(ChunksFields(UINT32, fields, vs)) == WireFields(fields, vs)
    decreases fields, 0
  {
    if fields != [] && vs != [] {
      FlattenConcat(Chunks(UINT32, fields[0], vs[0]), ChunksFields(UINT32, fields[1..], vs[1..]));
      EncodingIsWire(fields[0], vs[0]);
      FieldsAreWire(fields[1..], vs[1..]);
    }
  }

  lemma {:induction false} MembersAreWire(members: seq<Field>, vs: seq<Val>)
    ensures Flatten(ChunksMembers(UINT32, members, vs)) == WireMembers(members, vs)
    decreases members, 0
  {
    if members != [] && vs != [] {
      FlattenConcat(ChunksMember(UINT32, members[0], vs[0]), ChunksMembers(UINT32, members[1..], vs[1..]));
      MemberIsWire(members[0], vs[0]);
      MembersAreWire(members[1..], vs[1..]);
    }
  }

  lemma {:induction false} MemberIsWire(member: Field, v: Val)
    ensures Flatten(ChunksMember(UINT32, member, v)) == WireMember(member, v)
    decreases member, 0
  {
    match member
    case Plain(ty) => EncodingIsWire(ty, v);
    case Optional(ty) =>
      if v.Present? { EncodingIsWire(ty, v.v); }
  }

  /** The theorem of the codec on the format itself: every representable value is read back from
      its bytes on the wire, wherever they lie. */
  lemma WireIsRead(ty: Ty, v: Val, data: seq<byte>, r: Reader)
    requires Rep(UINT32, ty, v) && Holds(data, r.offset, Wire(ty, v))
    ensures Decode(UINT32, ty, data, r) == Got(v, Reader(r.offset + |Wire(ty, v)|, r.ok || !NoRead(ty)))
  {
    EncodingIsWire(ty, v);
    R.Uint32IsLawful();
    R.RoundTrip(UINT32, ty, v, data, r);
  }
}

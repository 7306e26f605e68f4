/**
 The mstream codec: operator<< and operator>> for every type they are defined for.

 A type is a value of Ty, a value of that type a value of Val.  Writing yields the list of
 write() calls it makes; reading follows the stream state of VectorReader: an offset and the
 result of the last read, which a later successful read sets again.
 */
module Mstream {

  type byte = n: nat | n < 256

  // ---------------------------------------------------------------- bytes

  function Pow256(w: nat): nat {
    if w == 0 then 1 else 256 * Pow256(w - 1)
  }

  /** The low w bytes of n, least significant first. */
  function LittleEndian(w: nat, n: nat): (r: seq<byte>)
    ensures |r| == w
  {
    if w == 0 then [] else [n % 256] + LittleEndian(w - 1, n / 256)
  }

  function FromLittleEndian(s: seq<byte>): (n: nat) {
    if s == [] then 0 else s[0] + 256 * FromLittleEndian(s[1..])
  }

  lemma {:induction false} LittleEndianRoundTrip(w: nat, n: nat)
    requires n < Pow256(w)
    ensures FromLittleEndian(LittleEndian(w, n)) == n
  {
    if w > 0 {
      LittleEndianRoundTrip(w - 1, n / 256);
      assert LittleEndian(w, n)[1..] == LittleEndian(w - 1, n / 256);
    }
  }

  function Flatten(chunks: seq<seq<byte>>): seq<byte> {
    if chunks == [] then [] else chunks[0] + Flatten(chunks[1..])
  }

  lemma {:induction false} FlattenConcat(a: seq<seq<byte>>, b: seq<seq<byte>>)
    ensures Flatten(a + b) == Flatten(a) + Flatten(b)
  {
    if a == [] {
      assert a + b == b;
    } else {
      FlattenConcat(a[1..], b);
      assert (a + b)[0] == a[0] && (a + b)[1..] == a[1..] + b;
      var x, y, z := a[0], Flatten(a[1..]), Flatten(b);
      assert x + (y + z) == (x + y) + z;
    }
  }

  lemma FlattenOne(c: seq<byte>)
    ensures Flatten([c]) == c
  {
    assert [c][1..] == [];
  }

  // ---------------------------------------------------------------- the stream

  /** VectorReader: offset_ and result_. */
  datatype Reader = Reader(offset: nat, ok: bool)

  datatype Raw = Raw(bytes: seq<byte>, next: Reader)

  /** VectorReader::read into n zero bytes; a failed read leaves them as they are. */
  function Read(data: seq<byte>, r: Reader, n: nat): (raw: Raw)
    ensures |raw.bytes| == n
  {
    if r.offset + n > |data| then Raw(seq(n, _ => 0), r.(ok := false))
    else Raw(data[r.offset..r.offset + n], Reader(r.offset + n, true))
  }

  datatype SizeRead = SizeRead(size: nat, next: Reader)

  /** The codec of the stream's size_type: its write() calls, its reader, and the first size it
      cannot represent. */
  datatype SizeCodec = SizeCodec(
    write: nat -> seq<seq<byte>>,
    read: (seq<byte>, Reader) -> SizeRead,
    limit: nat)

  /** `bytes` stands in `data` at `offset`. */
  ghost predicate Holds(data: seq<byte>, offset: nat, bytes: seq<byte>) {
    offset + |bytes| <= |data| && data[offset..offset + |bytes|] == bytes
  }

  ghost predicate Lawful(sc: SizeCodec) {
    forall n: nat, data: seq<byte>, r: Reader ::
      n < sc.limit && Holds(data, r.offset, Flatten(sc.write(n))) ==>
        sc.read(data, r) == SizeRead(n, Reader(r.offset + |Flatten(sc.write(n))|, true))
  }

  /** std::uint32_t, the default size_type. */
  const UINT32: SizeCodec := SizeCodec(
    (n: nat) => [LittleEndian(4, n)],
    (data: seq<byte>, r: Reader) =>
      var raw := Read(data, r, 4); SizeRead(FromLittleEndian(raw.bytes), raw.next),
    0x1_0000_0000)

  // ---------------------------------------------------------------- types and values

  /** Vector resizes and reads in place, a block at once if its elements are scalar; Deque resizes
      and reads one by one; List appends what it could read. */
  datatype Container = Vector | Deque | List

  /** Clock ticks against microseconds. */
  datatype Period = TicksPerMicro(k: nat) | MicrosPerTick(k: nat)

  datatype Field = Plain(ty: Ty) | Optional(ty: Ty)

  datatype Ty =
    | Scalar(width: nat)
    | Bool
    | Str
    | Seq(kind: Container, elem: Ty)
    | Array(elem: Ty, size: nat)
    | Map(key: Ty, val: Ty)
    | Pair(fst: Ty, snd: Ty)
    | Struct(fields: seq<Ty>)
    | Nullable(members: seq<Field>)
    | Opt(elem: Ty)
    | Variant(alts: seq<Ty>)
    | Duration(period: Period)
    | TimePoint(period: Period)
    | Pointer(elem: Ty)

  datatype Val =
    | Num(n: nat)
    | Flag(b: bool)
    | Text(s: seq<byte>)
    | Many(vs: seq<Val>)
    | Table(rows: seq<(Val, Val)>)
    | Both(first: Val, second: Val)
    | Absent
    | Present(v: Val)
    | Alt(i: nat, v: Val)
    | Valueless
    | Ticks(t: int)
    | NullPtr
    | To(v: Val)

  predicate IsScalar(ty: Ty) { ty.Scalar? || ty.Bool? }

  /** A value-initialised object of the type, as the readers create it. */
  function Default(ty: Ty): Val {
    match ty
    case Scalar(_) => Num(0)
    case Bool => Flag(false)
    case Str => Text([])
    case Seq(_, _) => Many([])
    case Array(elem, size) => Many(seq(size, _ => Default(elem)))
    case Map(_, _) => Table([])
    case Pair(a, b) => Both(Default(a), Default(b))
    case Struct(fields) => Many(seq(|fields|, i requires 0 <= i < |fields| => Default(fields[i])))
    case Nullable(members) => Many(seq(|members|, i requires 0 <= i < |members| =>
                                  if members[i].Plain? then Default(members[i].ty) else Absent))
    case Opt(_) => Absent
    case Variant(alts) => if alts == [] then Valueless else Alt(0, Default(alts[0]))
    case Duration(_) => Ticks(0)
    case TimePoint(_) => Ticks(0)
    case Pointer(elem) => To(Default(elem))
  }

  // ---------------------------------------------------------------- time

  /** Integer division towards zero, as std::chrono::duration_cast does it. */
  function Truncated(t: int, k: nat): int
    requires k > 0
  {
    if t >= 0 then t / k else -((-t) / k)
  }

  function ToMicros(p: Period, t: int): int {
    match p
    case TicksPerMicro(k) => if k == 0 then 0 else Truncated(t, k)
    case MicrosPerTick(k) => t * k
  }

  function FromMicros(p: Period, m: int): int {
    match p
    case TicksPerMicro(k) => m * k
    case MicrosPerTick(k) => if k == 0 then 0 else Truncated(m, k)
  }

  /** static_cast to an unsigned type of w bytes. */
  function Cast(w: nat, n: int): nat
  {
    assert Pow256(w) > 0 by { PowPositive(w); }
    n % Pow256(w)
  }

  lemma {:induction false} PowPositive(w: nat)
    ensures Pow256(w) > 0
  {
    if w > 0 { PowPositive(w - 1); }
  }

  /** The signed reading of w bytes, as std::chrono::microseconds takes an unsigned count. */
  function Signed(w: nat, n: nat): int {
    if n < Pow256(w) / 2 then n else n - Pow256(w)
  }

  /** A whole number of microseconds from `low` up to but not including `high`. */
  predicate WholeMicros(p: Period, t: int, low: int, high: int) {
    match p
    case TicksPerMicro(k) => k > 0 && t % k == 0 && low <= t / k < high
    case MicrosPerTick(k) => k > 0 && low <= t * k < high
  }

  /** A duration is written as 32 bits without sign. */
  predicate DurationFits(p: Period, t: int) {
    WholeMicros(p, t, 0, Pow256(4))
  }

  /** A time point is written as 64 bits that are read back with their sign. */
  predicate TimePointFits(p: Period, t: int) {
    WholeMicros(p, t, -(Pow256(8) / 2), Pow256(8) / 2)
  }

  // ---------------------------------------------------------------- writing

  /** The presence mask of a nullable struct: bit i is set if optional member i is absent. */
  function Mask(members: seq<Field>, vs: seq<Val>): nat {
    if members == [] || vs == [] then 0
    else (if members[0].Optional? && vs[0].Absent? then 1 else 0) + 2 * Mask(members[1..], vs[1..])
  }

  /** The write() calls that `stream << v` makes. */
  function Chunks(sc: SizeCodec, ty: Ty, v: Val): seq<seq<byte>>
    decreases ty, 1
  {
    match ty
    case Scalar(w) => if v.Num? then [LittleEndian(w, v.n)] else []
    case Bool => if v.Flag? then [[if v.b then 1 else 0]] else []
    case Str => if v.Text? then sc.write(|v.s|) + [v.s] else []
    case Seq(kind, elem) =>
      if !v.Many? then []
      else if kind.Vector? && IsScalar(elem) then sc.write(|v.vs|) + [Flatten(ChunksEach(sc, elem, v.vs))]
      else sc.write(|v.vs|) + ChunksEach(sc, elem, v.vs)
    case Array(elem, _) =>
      if !v.Many? then []
      else if IsScalar(elem) then [Flatten(ChunksEach(sc, elem, v.vs))]
      else ChunksEach(sc, elem, v.vs)
    case Map(_, _) => if v.Table? then sc.write(|v.rows|) + ChunksRows(sc, ty, v.rows) else []
    case Pair(a, b) => if v.Both? then Chunks(sc, a, v.first) + Chunks(sc, b, v.second) else []
    case Struct(fields) => if v.Many? then ChunksFields(sc, fields, v.vs) else []
    case Nullable(members) =>
      if v.Many? then [LittleEndian(1, Mask(members, v.vs))] + ChunksMembers(sc, members, v.vs) else []
    case Opt(elem) =>
      (match v
       case Present(x) => [[1]] + Chunks(sc, elem, x)
       case _ => [[0]])
    case Variant(alts) =>
      (match v
       case Alt(i, x) => if i < |alts| then [LittleEndian(1, i)] + Chunks(sc, alts[i], x) else []
       case _ => [[255]])
    case Duration(p) => if v.Ticks? then [LittleEndian(4, Cast(4, ToMicros(p, v.t)))] else []
    case TimePoint(p) => if v.Ticks? then [LittleEndian(8, Cast(8, ToMicros(p, v.t)))] else []
    case Pointer(elem) => if v.To? then Chunks(sc, elem, v.v) else []
  }

  function ChunksEach(sc: SizeCodec, elem: Ty, vs: seq<Val>): seq<seq<byte>>
    decreases elem, 2, |vs|
  {
    if vs == [] then [] else Chunks(sc, elem, vs[0]) + ChunksEach(sc, elem, vs[1..])
  }

  function ChunksRows(sc: SizeCodec, ty: Ty, rows: seq<(Val, Val)>): seq<seq<byte>>
    requires ty.Map?
    decreases ty, 0, |rows|
  {
    if rows == [] then []
    else Chunks(sc, ty.key, rows[0].0) + Chunks(sc, ty.val, rows[0].1) + ChunksRows(sc, ty, rows[1..])
  }

  function ChunksFields(sc: SizeCodec, fields: seq<Ty>, vs: seq<Val>): seq<seq<byte>>
    decreases fields, 0
  {
    if fields == [] || vs == [] then []
    else Chunks(sc, fields[0], vs[0]) + ChunksFields(sc, fields[1..], vs[1..])
  }

  function ChunksMembers(sc: SizeCodec, members: seq<Field>, vs: seq<Val>): seq<seq<byte>>
    decreases members, 0
  {
    if members == [] || vs == [] then []
    else
      ChunksMember(sc, members[0], vs[0]) + ChunksMembers(sc, members[1..], vs[1..])
  }

  function ChunksMember(sc: SizeCodec, member: Field, v: Val): seq<seq<byte>>
    decreases member, 0
  {
    match member
    case Plain(ty) => Chunks(sc, ty, v)
    case Optional(ty) => if v.Present? then Chunks(sc, ty, v.v) else []
  }

  function Encode(sc: SizeCodec, ty: Ty, v: Val): seq<byte> {
    Flatten(Chunks(sc, ty, v))
  }

  // ---------------------------------------------------------------- reading

  datatype Got = Got(v: Val, next: Reader)
  datatype GotMany = GotMany(vs: seq<Val>, next: Reader)
  datatype GotRows = GotRows(rows: seq<(Val, Val)>, next: Reader)

  function ScalarWidth(ty: Ty): nat
    requires IsScalar(ty)
  {
    if ty.Scalar? then ty.width else 1
  }

  function ScalarValue(ty: Ty, bytes: seq<byte>): Val
    requires IsScalar(ty) && |bytes| == ScalarWidth(ty)
  {
    if ty.Scalar? then Num(FromLittleEndian(bytes)) else Flag(bytes[0] == 1)
  }

  /** The n scalars lying one after the other in a block. */
  function Split(ty: Ty, n: nat, bytes: seq<byte>): seq<Val>
    requires IsScalar(ty) && |bytes| == n * ScalarWidth(ty)
    decreases n
  {
    if n == 0 then []
    else
      var w := ScalarWidth(ty);
      assert |bytes| == w + (n - 1) * w;
      [ScalarValue(ty, bytes[..w])] + Split(ty, n - 1, bytes[w..])
  }

  function ReadBlock(ty: Ty, n: nat, data: seq<byte>, r: Reader): GotMany
    requires IsScalar(ty)
  {
    var raw := Read(data, r, n * ScalarWidth(ty));
    GotMany(Split(ty, n, raw.bytes), raw.next)
  }

  /** `stream >> v` into a value-initialised v. */
  function Decode(sc: SizeCodec, ty: Ty, data: seq<byte>, r: Reader): Got
    decreases ty, 1
  {
    match ty
    case Scalar(w) => var raw := Read(data, r, w); Got(Num(FromLittleEndian(raw.bytes)), raw.next)
    case Bool => var raw := Read(data, r, 1); Got(Flag(raw.bytes[0] == 1), raw.next)
    case Str =>
      var sr := sc.read(data, r);
      if !sr.next.ok then Got(Text([]), sr.next)
      else var raw := Read(data, sr.next, sr.size); Got(Text(raw.bytes), raw.next)
    case Seq(kind, elem) =>
      var sr := sc.read(data, r);
      if !sr.next.ok then Got(Many([]), sr.next)
      else
        var g := if kind.Vector? && IsScalar(elem) then ReadBlock(elem, sr.size, data, sr.next)
                 else DecodeEach(sc, elem, sr.size, data, sr.next, kind);
        Got(Many(g.vs), g.next)
    case Array(elem, size) =>
      var g := if IsScalar(elem) then ReadBlock(elem, size, data, r)
               else DecodeEach(sc, elem, size, data, r, Vector);
      Got(Many(g.vs), g.next)
    case Map(_, _) =>
      var sr := sc.read(data, r);
      if !sr.next.ok then Got(Table([]), sr.next)
      else var g := DecodeRows(sc, ty, sr.size, data, sr.next, []); Got(Table(g.rows), g.next)
    case Pair(a, b) =>
      var g := Decode(sc, a, data, r);
      var h := Decode(sc, b, data, g.next);
      Got(Both(g.v, h.v), h.next)
    case Struct(fields) => var g := DecodeFields(sc, fields, data, r); Got(Many(g.vs), g.next)
    case Nullable(members) =>
      var raw := Read(data, r, 1);
      var g := DecodeMembers(sc, members, raw.bytes[0], data, raw.next);
      Got(Many(g.vs), g.next)
    case Opt(elem) =>
      var raw := Read(data, r, 1);
      if !raw.next.ok || raw.bytes[0] != 1 then Got(Absent, raw.next)
      else
        var g := Decode(sc, elem, data, raw.next);
        if g.next.ok then Got(Present(g.v), g.next) else Got(Absent, g.next)
    case Variant(alts) =>
      var raw := Read(data, r, 1);
      var tag := raw.bytes[0];
      if !raw.next.ok || tag == 255 then Got(Default(ty), raw.next)
      else if tag >= |alts| then Got(Default(ty), raw.next.(ok := false))
      else var g := Decode(sc, alts[tag], data, raw.next); Got(Alt(tag, g.v), g.next)
    case Duration(p) =>
      var raw := Read(data, r, 4);
      Got(Ticks(FromMicros(p, FromLittleEndian(raw.bytes))), raw.next)
    case TimePoint(p) =>
      var raw := Read(data, r, 8);
      if !raw.next.ok then Got(Ticks(0), raw.next)
      else Got(Ticks(FromMicros(p, Signed(8, FromLittleEndian(raw.bytes)))), raw.next)
    case Pointer(elem) => var g := Decode(sc, elem, data, r); Got(To(g.v), g.next)
  }

  function Defaults(elem: Ty, n: nat): (vs: seq<Val>)
    ensures |vs| == n
  {
    seq(n, _ => Default(elem))
  }

  /** The element loops: they stop at the first failed read. */
  function DecodeEach(sc: SizeCodec, elem: Ty, n: nat, data: seq<byte>, r: Reader, kind: Container): GotMany
    decreases elem, 2, n
  {
    if n == 0 then GotMany([], r)
    else
      var g := Decode(sc, elem, data, r);
      if !g.next.ok then GotMany(if kind.List? then [] else [g.v] + Defaults(elem, n - 1), g.next)
      else var h := DecodeEach(sc, elem, n - 1, data, g.next, kind); GotMany([g.v] + h.vs, h.next)
  }

  predicate HasKey(rows: seq<(Val, Val)>, k: Val) {
    exists i :: 0 <= i < |rows| && rows[i].0 == k
  }

  /** The map loop: emplace keeps the first value of a key.  Rows stand in iteration order. */
  function DecodeRows(sc: SizeCodec, ty: Ty, n: nat, data: seq<byte>, r: Reader, acc: seq<(Val, Val)>): GotRows
    requires ty.Map?
    decreases ty, 0, n
  {
    if n == 0 then GotRows(acc, r)
    else
      var k := Decode(sc, ty.key, data, r);
      var v := Decode(sc, ty.val, data, k.next);
      if !v.next.ok then GotRows(acc, v.next)
      else DecodeRows(sc, ty, n - 1, data, v.next, if HasKey(acc, k.v) then acc else acc + [(k.v, v.v)])
  }

  function DecodeFields(sc: SizeCodec, fields: seq<Ty>, data: seq<byte>, r: Reader): (g: GotMany)
    ensures |g.vs| == |fields|
    decreases fields, 0
  {
    if fields == [] then GotMany([], r)
    else
      var g := Decode(sc, fields[0], data, r);
      var h := DecodeFields(sc, fields[1..], data, g.next);
      GotMany([g.v] + h.vs, h.next)
  }

  function DecodeMember(sc: SizeCodec, member: Field, absent: bool, data: seq<byte>, r: Reader): Got
    decreases member, 0
  {
    match member
    case Plain(ty) => Decode(sc, ty, data, r)
    case Optional(ty) =>
      if absent then Got(Absent, r)
      else var g := Decode(sc, ty, data, r); Got(Present(g.v), g.next)
  }

  function DecodeMembers(sc: SizeCodec, members: seq<Field>, mask: nat, data: seq<byte>, r: Reader): GotMany
    decreases members, 0
  {
    if members == [] then GotMany([], r)
    else
      var g := DecodeMember(sc, members[0], mask % 2 == 1, data, r);
      var h := DecodeMembers(sc, members[1..], mask / 2, data, g.next);
      GotMany([g.v] + h.vs, h.next)
  }

  // ---------------------------------------------------------------- representable values

  predicate Distinct(rows: seq<(Val, Val)>) {
    forall i, j :: 0 <= i < j < |rows| ==> rows[i].0 != rows[j].0
  }

  /** The values a round trip preserves: sizes within size_type, whole microseconds that fit,
      no valueless variant, no null pointer, at most 255 alternatives and 8 nullable members. */
  predicate Rep(sc: SizeCodec, ty: Ty, v: Val)
    decreases ty, 1
  {
    match ty
    case Scalar(w) => v.Num? && v.n < Pow256(w)
    case Bool => v.Flag?
    case Str => v.Text? && |v.s| < sc.limit
    case Seq(_, elem) => v.Many? && |v.vs| < sc.limit && forall i :: 0 <= i < |v.vs| ==> Rep(sc, elem, v.vs[i])
    case Array(elem, size) => v.Many? && |v.vs| == size && forall i :: 0 <= i < |v.vs| ==> Rep(sc, elem, v.vs[i])
    case Map(key, val) =>
      && v.Table? && |v.rows| < sc.limit && Distinct(v.rows)
      && forall i :: 0 <= i < |v.rows| ==> Rep(sc, key, v.rows[i].0) && Rep(sc, val, v.rows[i].1)
    case Pair(a, b) => v.Both? && Rep(sc, a, v.first) && Rep(sc, b, v.second)
    case Struct(fields) =>
      v.Many? && |v.vs| == |fields| && forall i :: 0 <= i < |fields| ==> Rep(sc, fields[i], v.vs[i])
    case Nullable(members) =>
      && v.Many? && |v.vs| == |members| <= 8
      && forall i :: 0 <= i < |members| ==> RepMember(sc, members[i], v.vs[i])
    case Opt(elem) => v.Absent? || (v.Present? && Rep(sc, elem, v.v))
    case Variant(alts) => v.Alt? && v.i < |alts| <= 255 && Rep(sc, alts[v.i], v.v)
    case Duration(p) => v.Ticks? && DurationFits(p, v.t)
    case TimePoint(p) => v.Ticks? && TimePointFits(p, v.t)
    case Pointer(elem) => v.To? && Rep(sc, elem, v.v)
  }

  predicate RepMember(sc: SizeCodec, member: Field, v: Val)
    decreases member, 0
  {
    match member
    case Plain(ty) => Rep(sc, ty, v)
    case Optional(ty) => v.Absent? || (v.Present? && Rep(sc, ty, v.v))
  }

  /** Types whose reader performs no read at all, such as empty structs. */
  predicate NoRead(ty: Ty) {
    match ty
    case Array(elem, size) => !IsScalar(elem) && (size == 0 || NoRead(elem))
    case Pair(a, b) => NoRead(a) && NoRead(b)
    case Struct(fields) => forall i :: 0 <= i < |fields| ==> NoRead(fields[i])
    case Pointer(elem) => NoRead(elem)
    case _ => false
  }
}

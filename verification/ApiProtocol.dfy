/**
 The RPC wire protocol: packing a tree of API calls, results and errors into one packet and
 dispatching it again.  Calls nest as length-prefixed sub-packets; results carry no length, so
 the parser finds their end only through the type the pending registry holds for their id.
 */
module ApiProtocol {
  import opened Mstream

  // ---------------------------------------------------------------- APIs

  datatype Sig =
    | Plain(args: seq<Ty>)
    | Promise(args: seq<Ty>)
    | Sub(args: seq<Ty>, api: Api)
    | SendResult
    | SendError

  /** An entry of an API's method list: a method with its message id, or an extension API. */
  datatype Reg = Method(id: byte, sig: Sig) | Ext(api: Api)
  datatype Api = Api(regs: seq<Reg>)

  datatype Found = NotFound | Found(sig: Sig)

  function ApiSize(api: Api): nat
    decreases api, 0
  {
    1 + RegsSize(api.regs)
  }

  function RegsSize(regs: seq<Reg>): nat
    decreases regs, 0
  {
    if regs == [] then 0 else RegSize(regs[0]) + RegsSize(regs[1..])
  }

  function RegSize(reg: Reg): nat
    decreases reg, 0
  {
    match reg
    case Method(_, sig) => SigSize(sig)
    case Ext(api) => ApiSize(api)
  }

  function SigSize(sig: Sig): nat
    decreases sig, 0
  {
    if sig.Sub? then 1 + ApiSize(sig.api) else 0
  }

  /** The method loaded for a message id: the first in the list, extensions included. */
  function Find(api: Api, id: byte): (f: Found)
    ensures f.Found? ==> SigSize(f.sig) < ApiSize(api)
    decreases api, 0
  {
    FindIn(api.regs, id)
  }

  function FindIn(regs: seq<Reg>, id: byte): (f: Found)
    ensures f.Found? ==> SigSize(f.sig) <= RegsSize(regs)
    decreases regs, 0
  {
    if regs == [] then NotFound
    else
      var f := FindReg(regs[0], id);
      if f.Found? then f else FindIn(regs[1..], id)
  }

  function FindReg(reg: Reg, id: byte): (f: Found)
    ensures f.Found? ==> SigSize(f.sig) <= RegSize(reg)
    decreases reg, 0
  {
    match reg
    case Method(mid, sig) => if mid == id then Found(sig) else NotFound
    case Ext(api) => Find(api, id)
  }

  const RESULT_ID: byte := 0
  const ERROR_ID: byte := 1

  /** All methods of an API in lookup order. */
  function Flat(api: Api): seq<(byte, Sig)>
    decreases api, 0
  {
    FlatRegs(api.regs)
  }

  function FlatRegs(regs: seq<Reg>): seq<(byte, Sig)>
    decreases regs, 0
  {
    if regs == [] then [] else FlatReg(regs[0]) + FlatRegs(regs[1..])
  }

  function FlatReg(reg: Reg): seq<(byte, Sig)>
    decreases reg, 0
  {
    match reg
    case Method(id, sig) => [(id, sig)]
    case Ext(api) => Flat(api)
  }

  // ---------------------------------------------------------------- calls and events

  /** What a client puts into a packet. */
  datatype Call =
    | Invoke(id: byte, args: seq<Val>)
    | Ask(id: byte, req: nat, args: seq<Val>)
    | Enter(id: byte, args: seq<Val>, child: seq<Call>)
    | Result(req: nat, ty: Ty, v: Val)
    | Error(req: nat, kind: byte, code: nat)

  /** What the receiver does: call methods, and complete promises with a value or with the type and
      code of an error. */
  datatype Event =
    | Called(id: byte, args: seq<Val>)
    | Asked(id: byte, req: nat, args: seq<Val>)
    | Entered(id: byte, args: seq<Val>, inner: seq<Event>)
    | Resolved(req: nat, v: Val)
    | Rejected(req: nat, kind: nat, code: int)

  /** static_cast<std::int32_t> of an unsigned error code. */
  function ToInt32(n: nat): int {
    var m := n % 0x1_0000_0000;
    if m < 0x8000_0000 then m else m - 0x1_0000_0000
  }

  function Expected(c: Call): Event
    decreases c, 0
  {
    match c
    case Invoke(id, args) => Called(id, args)
    case Ask(id, req, args) => Asked(id, req, args)
    case Enter(id, args, child) => Entered(id, args, ExpectedAll(child))
    case Result(req, _, v) => Resolved(req, v)
    case Error(req, kind, code) => Rejected(req, kind, ToInt32(code))
  }

  function ExpectedAll(calls: seq<Call>): seq<Event>
    decreases calls, 0
  {
    if calls == [] then [] else [Expected(calls[0])] + ExpectedAll(calls[1..])
  }

  // ---------------------------------------------------------------- packing

  const BYTES_TY: Ty := Seq(Vector, Scalar(1))
  const REQ_TY: Ty := Scalar(4)

  function BytesVal(s: seq<byte>): Val {
    Many(seq(|s|, i requires 0 <= i < |s| => Num(s[i])))
  }

  function ToBytes(v: Val): seq<byte> {
    if v.Many? then seq(|v.vs|, i requires 0 <= i < |v.vs| => if v.vs[i].Num? then v.vs[i].n % 256 else 0) else []
  }

  function FieldTypes(sig: Sig): seq<Ty> {
    match sig
    case Plain(args) => args
    case Promise(args) => [REQ_TY] + args
    case Sub(args, _) => args
    case SendResult => [REQ_TY]
    case SendError => [REQ_TY, Scalar(1), Scalar(4)]
  }

  function MessageId(c: Call): byte {
    match c
    case Result(_, _, _) => RESULT_ID
    case Error(_, _, _) => ERROR_ID
    case _ => c.id
  }

  function Fields(c: Call): seq<Val> {
    match c
    case Invoke(_, args) => args
    case Ask(_, req, args) => [Num(req)] + args
    case Enter(_, args, _) => args
    case Result(req, _, _) => [Num(req)]
    case Error(req, kind, code) => [Num(req), Num(kind), Num(code)]
  }

  function FieldBytes(sc: SizeCodec, sig: Sig, c: Call): seq<byte> {
    Flatten(ChunksFields(sc, FieldTypes(sig), Fields(c)))
  }

  /** The bytes behind the fields: a sub-packet with its length, or a result as it is. */
  function PayloadBytes(sc: SizeCodec, sig: Sig, c: Call): seq<byte>
    decreases c, 0
  {
    match c
    case Enter(_, _, child) =>
      if sig.Sub? then Encode(sc, BYTES_TY, BytesVal(PackAll(sc, sig.api, child))) else []
    case Result(_, ty, v) => Encode(sc, ty, v)
    case _ => []
  }

  function PackCall(sc: SizeCodec, api: Api, c: Call): seq<byte>
    decreases c, 1
  {
    var f := Find(api, MessageId(c));
    if f.Found? then [MessageId(c)] + FieldBytes(sc, f.sig, c) + PayloadBytes(sc, f.sig, c) else []
  }

  function PackAll(sc: SizeCodec, api: Api, calls: seq<Call>): seq<byte>
    decreases calls, 2
  {
    if calls == [] then [] else PackCall(sc, api, calls[0]) + PackAll(sc, api, calls[1..])
  }

  // ---------------------------------------------------------------- parsing

  /** The reader of the size type never moves back. */
  ghost predicate Sane(sc: SizeCodec) {
    forall data: seq<byte>, r: Reader :: sc.read(data, r).next.offset >= r.offset
  }

  /** A pending response as the parser sees it: its request and the type of its result. */
  datatype Response = Response(id: nat, ty: Ty)

  /** The pending responses in the order of the list.  `react` is what the code called with the n-th
      message does to them, be it the method of a call or the callback of a promise: it may register,
      complete and evict any requests. */
  datatype Registry = Registry(pending: seq<Response>, turn: nat, react: (nat, seq<Response>) -> seq<Response>)

  /** The position of the first response for a request, or the length of the list. */
  function Position(pending: seq<Response>, req: nat): (i: nat)
    ensures i <= |pending| && (i < |pending| ==> pending[i].id == req)
    ensures forall j :: 0 <= j < i ==> pending[j].id != req
  {
    if pending == [] || pending[0].id == req then 0 else 1 + Position(pending[1..], req)
  }

  predicate Awaited(reg: Registry, req: nat) {
    Position(reg.pending, req) < |reg.pending|
  }

  function ResultType(reg: Registry, req: nat): Ty
    requires Awaited(reg, req)
  {
    reg.pending[Position(reg.pending, req)].ty
  }

  function Reacted(reg: Registry): Registry {
    reg.(pending := reg.react(reg.turn, reg.pending), turn := reg.turn + 1)
  }

  /** The first response for the request is taken off the list before its callback is called. */
  function Completed(reg: Registry, req: nat): Registry
    requires Awaited(reg, req)
  {
    var i := Position(reg.pending, req);
    Reacted(reg.(pending := reg.pending[..i] + reg.pending[i + 1..]))
  }

  /** `fault` marks the use of a null response for an unknown request id. */
  datatype Parsed = Parsed(events: seq<Event>, reg: Registry, next: Reader, fault: bool)

  function NumOf(v: Val): nat {
    if v.Num? then v.n else 0
  }

  /** ApiParser::Parse: messages until the end of the data; an unknown id cancels the rest. */
  ghost function Parse(sc: SizeCodec, api: Api, data: seq<byte>, r: Reader, reg: Registry): Parsed
    requires Sane(sc)
    decreases ApiSize(api), 1, |data| - r.offset
  {
    if r.offset >= |data| then Parsed([], reg, r, false)
    else
      match Find(api, data[r.offset])
      case NotFound => Parsed([], reg, Reader(|data|, true), false)
      case Found(sig) =>
        var one := NextMessage(sc, api, data, r, reg);
        if one.fault then one
        else
          MessageMonotone(sc, sig, data[r.offset], data, Reader(r.offset + 1, true), reg);
          var rest := Parse(sc, api, data, one.next, one.reg);
          Parsed(one.events + rest.events, rest.reg, rest.next, rest.fault)
  }

  /** The message at the reader: its id and what the method of that id makes of the rest. */
  ghost function NextMessage(sc: SizeCodec, api: Api, data: seq<byte>, r: Reader, reg: Registry): Parsed
    requires Sane(sc) && r.offset < |data| && Find(api, data[r.offset]).Found?
    decreases ApiSize(api), 0
  {
    var id := data[r.offset];
    ParseMessage(sc, Find(api, id).sig, id, data, Reader(r.offset + 1, true), reg)
  }

  /** LoadSelector::Load and MethodInvoke::Invoke for the found method. */
  ghost function ParseMessage(
      sc: SizeCodec, sig: Sig, id: byte, data: seq<byte>, r: Reader, reg: Registry): Parsed
    requires Sane(sc)
    decreases SigSize(sig), 2
  {
    var f := DecodeFields(sc, FieldTypes(sig), data, r);
    match sig
    case Plain(_) => Parsed([Called(id, f.vs)], Reacted(reg), f.next, false)
    case Promise(_) => Parsed([Asked(id, NumOf(f.vs[0]), f.vs[1..])], Reacted(reg), f.next, false)
    case Sub(_, api) =>
      var g := Decode(sc, BYTES_TY, data, f.next);
      var inner := Parse(sc, api, ToBytes(g.v), Reader(0, false), reg);
      Parsed([Entered(id, f.vs, inner.events)],
             if inner.fault then inner.reg else Reacted(inner.reg), g.next, inner.fault)
    case SendResult =>
      var req := NumOf(f.vs[0]);
      if !Awaited(reg, req) then Parsed([], reg, f.next, true)
      else
        var g := Decode(sc, ResultType(reg, req), data, f.next);
        Parsed([Resolved(req, g.v)], Completed(reg, req), g.next, false)
    case SendError =>
      var req := NumOf(f.vs[0]);
      if !Awaited(reg, req) then Parsed([], reg, f.next, true)
      else
        Parsed([Rejected(req, NumOf(f.vs[1]), ToInt32(NumOf(f.vs[2])))], Completed(reg, req), f.next, false)
  }

  lemma MessageMonotone(sc: SizeCodec, sig: Sig, id: byte, data: seq<byte>, r: Reader, reg: Registry)
    requires Sane(sc)
    ensures ParseMessage(sc, sig, id, data, r, reg).next.offset >= r.offset
    decreases SigSize(sig), 3
  {
    FieldsMonotone(sc, FieldTypes(sig), data, r);
    var f := DecodeFields(sc, FieldTypes(sig), data, r);
    match sig
    case Sub(_, api) => DecodeMonotone(sc, BYTES_TY, data, f.next);
    case SendResult =>
      var req := NumOf(f.vs[0]);
      if Awaited(reg, req) { DecodeMonotone(sc, ResultType(reg, req), data, f.next); }
    case _ =>
  }

  lemma {:induction false} DecodeMonotone(sc: SizeCodec, ty: Ty, data: seq<byte>, r: Reader)
    requires Sane(sc)
    ensures Decode(sc, ty, data, r).next.offset >= r.offset
    decreases ty, 1
  {
    match ty
    case Seq(kind, elem) =>
      var sr := sc.read(data, r);
      EachMonotone(sc, elem, sr.size, data, sr.next, kind);
    case Array(elem, size) => EachMonotone(sc, elem, size, data, r, Vector);
    case Map(_, _) =>
      var sr := sc.read(data, r);
      RowsMonotone(sc, ty, sr.size, data, sr.next, []);
    case Pair(a, b) =>
      DecodeMonotone(sc, a, data, r);
      DecodeMonotone(sc, b, data, Decode(sc, a, data, r).next);
    case Struct(fields) => FieldsMonotone(sc, fields, data, r);
    case Nullable(members) =>
      var raw := Read(data, r, 1);
      MembersMonotone(sc, members, raw.bytes[0], data, raw.next);
    case Opt(elem) => DecodeMonotone(sc, elem, data, Read(data, r, 1).next);
    case Variant(alts) =>
      var raw := Read(data, r, 1);
      if raw.bytes[0] < |alts| { DecodeMonotone(sc, alts[raw.bytes[0]], data, raw.next); }
    case Pointer(elem) => DecodeMonotone(sc, elem, data, r);
    case _ =>
  }

  lemma {:induction false} EachMonotone(
      sc: SizeCodec, elem: Ty, n: nat, data: seq<byte>, r: Reader, kind: Container)
    requires Sane(sc)
    ensures DecodeEach(sc, elem, n, data, r, kind).next.offset >= r.offset
    decreases elem, 2, n
  {
    if n > 0 {
      DecodeMonotone(sc, elem, data, r);
      EachMonotone(sc, elem, n - 1, data, Decode(sc, elem, data, r).next, kind);
    }
  }

  lemma {:induction false} RowsMonotone(
      sc: SizeCodec, ty: Ty, n: nat, data: seq<byte>, r: Reader, acc: seq<(Val, Val)>)
    requires Sane(sc) && ty.Map?
    ensures DecodeRows(sc, ty, n, data, r, acc).next.offset >= r.offset
    decreases ty, 0, n
  {
    if n > 0 {
      DecodeMonotone(sc, ty.key, data, r);
      var k := Decode(sc, ty.key, data, r);
      DecodeMonotone(sc, ty.val, data, k.next);
      var v := Decode(sc, ty.val, data, k.next);
      RowsMonotone(sc, ty, n - 1, data, v.next, if HasKey(acc, k.v) then acc else acc + [(k.v, v.v)]);
    }
  }

  lemma {:induction false} FieldsMonotone(sc: SizeCodec, fields: seq<Ty>, data: seq<byte>, r: Reader)
    requires Sane(sc)
    ensures DecodeFields(sc, fields, data, r).next.offset >= r.offset
    decreases fields, 0
  {
    if fields != [] {
      DecodeMonotone(sc, fields[0], data, r);
      FieldsMonotone(sc, fields[1..], data, Decode(sc, fields[0], data, r).next);
    }
  }

  lemma {:induction false} MembersMonotone(
      sc: SizeCodec, members: seq<Field>, mask: nat, data: seq<byte>, r: Reader)
    requires Sane(sc)
    ensures DecodeMembers(sc, members, mask, data, r).next.offset >= r.offset
    decreases members, 0
  {
    if members != [] {
      MemberMonotone(sc, members[0], mask % 2 == 1, data, r);
      MembersMonotone(sc, members[1..], mask / 2, data, DecodeMember(sc, members[0], mask % 2 == 1, data, r).next);
    }
  }

  lemma {:induction false} MemberMonotone(sc: SizeCodec, member: Field, absent: bool, data: seq<byte>, r: Reader)
    requires Sane(sc)
    ensures DecodeMember(sc, member, absent, data, r).next.offset >= r.offset
    decreases member, 0
  {
    DecodeMonotone(sc, member.ty, data, r);
  }
}

/**
 ApiPacker and ApiParser at work: buffers filled and consumed in loops, with the context's
 bounded stacks of active packers and parsers.
 */
module ApiPackParser {
  import opened Mstream
  import opened ApiProtocol
  import opened ApiRoundTrip
  import opened Options
  import B = MstreamBuffers

  // ---------------------------------------------------------------- how deep parsing goes

  function Max(a: nat, b: nat): nat {
    if a > b then a else b
  }

  /** How many more parsers are active at once while the rest of a packet is parsed. */
  ghost function InnerDepth(sc: SizeCodec, api: Api, data: seq<byte>, r: Reader, reg: Registry): nat
    requires Sane(sc)
    decreases ApiSize(api), 1, |data| - r.offset
  {
    if r.offset >= |data| || Find(api, data[r.offset]).NotFound? then 0
    else
      var id, next := data[r.offset], Reader(r.offset + 1, true);
      var one := NextMessage(sc, api, data, r, reg);
      var here := MessageDepth(sc, Find(api, id).sig, data, next, reg);
      if one.fault then here
      else
        MessageMonotone(sc, Find(api, id).sig, id, data, next, reg);
        Max(here, InnerDepth(sc, api, data, one.next, one.reg))
  }

  /** A sub-API's method parses its packet with a parser of its own. */
  ghost function MessageDepth(sc: SizeCodec, sig: Sig, data: seq<byte>, r: Reader, reg: Registry): nat
    requires Sane(sc)
    decreases SigSize(sig), 2
  {
    if sig.Sub? then 1 + InnerDepth(sc, sig.api, SubPacket(sc, sig, data, r), Reader(0, false), reg) else 0
  }

  /** The bytes of the child packet behind the fields of a message. */
  ghost function SubPacket(sc: SizeCodec, sig: Sig, data: seq<byte>, r: Reader): seq<byte> {
    ToBytes(Decode(sc, BYTES_TY, data, DecodeFields(sc, FieldTypes(sig), data, r).next).v)
  }

  /** How deep an API itself is nested. */
  function RegsDepth(regs: seq<Reg>): nat
    decreases regs, 0
  {
    if regs == [] then 0 else Max(RegDepth(regs[0]), RegsDepth(regs[1..]))
  }

  function RegDepth(reg: Reg): nat
    decreases reg, 0
  {
    match reg
    case Method(_, sig) => SigDepth(sig)
    case Ext(api) => RegsDepth(api.regs)
  }

  function SigDepth(sig: Sig): nat
    decreases sig, 0
  {
    if sig.Sub? then 1 + RegsDepth(sig.api.regs) else 0
  }

  lemma {:induction false} FoundDepth(regs: seq<Reg>, id: byte)
    ensures FindIn(regs, id).Found? ==> SigDepth(FindIn(regs, id).sig) <= RegsDepth(regs)
    decreases regs, 0
  {
    if regs != [] {
      FoundRegDepth(regs[0], id);
      FoundDepth(regs[1..], id);
    }
  }

  lemma {:induction false} FoundRegDepth(reg: Reg, id: byte)
    ensures FindReg(reg, id).Found? ==> SigDepth(FindReg(reg, id).sig) <= RegDepth(reg)
    decreases reg, 0
  {
    if reg.Ext? { FoundDepth(reg.api.regs, id); }
  }

  lemma NextMoves(sc: SizeCodec, api: Api, data: seq<byte>, r: Reader, reg: Registry)
    requires Sane(sc) && r.offset < |data| && Find(api, data[r.offset]).Found?
    ensures r.offset < NextMessage(sc, api, data, r, reg).next.offset
  {
    var id := data[r.offset];
    MessageMonotone(sc, Find(api, id).sig, id, data, Reader(r.offset + 1, true), reg);
  }

  lemma {:induction false} DepthStep(
      sc: SizeCodec, api: Api, data: seq<byte>, r: Reader, reg: Registry, bound: nat)
    requires Sane(sc) && r.offset < |data| && Find(api, data[r.offset]).Found?
    requires MessageDepth(sc, Find(api, data[r.offset]).sig, data, Reader(r.offset + 1, true), reg) <= bound
    requires var one := NextMessage(sc, api, data, r, reg);
             one.fault || InnerDepth(sc, api, data, one.next, one.reg) <= bound
    ensures InnerDepth(sc, api, data, r, reg) <= bound
  {
    NextMoves(sc, api, data, r, reg);
  }

  /** No packet makes parsing go deeper than the API is nested, whatever its bytes. */
  lemma {:induction false} DepthIsBounded(sc: SizeCodec, api: Api, data: seq<byte>, r: Reader, reg: Registry)
    requires Sane(sc)
    ensures InnerDepth(sc, api, data, r, reg) <= RegsDepth(api.regs)
    decreases ApiSize(api), 1, |data| - r.offset
  {
    if r.offset < |data| && Find(api, data[r.offset]).Found? {
      FoundDepth(api.regs, data[r.offset]);
      MessageDepthIsBounded(sc, Find(api, data[r.offset]).sig, data, Reader(r.offset + 1, true), reg);
      NextMoves(sc, api, data, r, reg);
      var one := NextMessage(sc, api, data, r, reg);
      if !one.fault { DepthIsBounded(sc, api, data, one.next, one.reg); }
      DepthStep(sc, api, data, r, reg, RegsDepth(api.regs));
    }
  }

  lemma {:induction false} MessageDepthIsBounded(sc: SizeCodec, sig: Sig, data: seq<byte>, r: Reader, reg: Registry)
    requires Sane(sc)
    ensures MessageDepth(sc, sig, data, r, reg) <= SigDepth(sig)
    decreases SigSize(sig), 2
  {
    if sig.Sub? { DepthIsBounded(sc, sig.api, SubPacket(sc, sig, data, r), Reader(0, false), reg); }
  }

  // ---------------------------------------------------------------- the context

  const MAX_PACKET_STACKS: nat := 4

  /** The messages of one packet, in the order their methods were called. */
  class PacketStack {
    var packets: seq<Call>

    constructor ()
      ensures packets == []
    {
      packets := [];
    }

    method Push(c: Call)
      modifies this
      ensures packets == old(packets) + [c]
    {
      packets := packets + [c];
    }
  }

  class ProtocolContext {
    var packers: nat
    var parsers: nat
    var packetStacks: seq<PacketStack>
    var pending: seq<Response>
    var turn: nat
    const react: (nat, seq<Response>) -> seq<Response>

    /** The pending responses as the parser sees them. */
    function Responses(): Registry
      reads this
    {
      Registry(pending, turn, react)
    }

    constructor (react: (nat, seq<Response>) -> seq<Response>)
      ensures packers == parsers == 0 && packetStacks == [] && Responses() == Registry([], 0, react)
    {
      packers, parsers, packetStacks, pending, turn := 0, 0, [], [], 0;
      this.react := react;
    }

    /** What the code called with a message does to the pending responses. */
    method React()
      modifies this`pending, this`turn
      ensures Responses() == Reacted(old(Responses()))
    {
      pending, turn := react(turn, pending), turn + 1;
    }

    method PushPacketStack(stack: PacketStack)
      requires |packetStacks| < MAX_PACKET_STACKS
      modifies this`packetStacks
      ensures packetStacks == old(packetStacks) + [stack]
    {
      packetStacks := packetStacks + [stack];
    }

    method PopPacketStack()
      requires packetStacks != []
      modifies this`packetStacks
      ensures packetStacks == old(packetStacks)[..|old(packetStacks)| - 1]
    {
      packetStacks := packetStacks[..|packetStacks| - 1];
    }

    method PushPacker()
      requires packers < MAX_DEPTH
      modifies this`packers
      ensures packers == old(packers) + 1
    {
      packers := packers + 1;
    }

    method PopPacker()
      requires packers > 0
      modifies this`packers
      ensures packers == old(packers) - 1
    {
      packers := packers - 1;
    }

    method PushParser()
      requires parsers < MAX_DEPTH
      modifies this`parsers
      ensures parsers == old(parsers) + 1
    {
      parsers := parsers + 1;
    }

    method PopParser()
      requires parsers > 0
      modifies this`parsers
      ensures parsers == old(parsers) - 1
    {
      parsers := parsers - 1;
    }
  }

  // ---------------------------------------------------------------- packing

  lemma Assoc(a: seq<byte>, b: seq<byte>, c: seq<byte>)
    ensures a + (b + c) == (a + b) + c
  {
  }

  lemma {:induction false} PackSnoc(sc: SizeCodec, api: Api, calls: seq<Call>, i: nat)
    requires i < |calls|
    ensures PackAll(sc, api, calls[..i + 1]) == PackAll(sc, api, calls[..i]) + PackCall(sc, api, calls[i])
    decreases i
  {
    if i == 0 {
      assert calls[..1][1..] == [] && calls[..0] == [];
    } else {
      PackSnoc(sc, api, calls[1..], i - 1);
      assert calls[..i + 1][1..] == calls[1..][..i];
      assert calls[..i][1..] == calls[1..][..i - 1];
      Assoc(PackCall(sc, api, calls[0]), PackAll(sc, api, calls[1..][..i - 1]), PackCall(sc, api, calls[i]));
    }
  }

  lemma {:induction false} CallAt(
      sc: SizeCodec, api: Api, calls: seq<Call>, reg: Registry, active: nat, i: nat)
      returns (here: Registry)
    requires AllWellFormed(sc, api, calls, reg) && ChildrenPackable(calls, active) && i < |calls|
    ensures WellFormed(sc, api, calls[i], here)
    ensures calls[i].Enter? ==> Packable(calls[i].child, active)
    decreases i
  {
    if i == 0 {
      here := reg;
    } else {
      here := CallAt(sc, api, calls[1..], After(calls[0], reg), active, i - 1);
    }
  }

  /** The bytes written through a stream so far. */
  ghost function Bytes(o: B.OutStream): seq<byte>
    reads o
  {
    Flatten(o.calls)
  }

  lemma Appended(before: seq<seq<byte>>, more: seq<seq<byte>>)
    ensures Flatten(before + more) == Flatten(before) + Flatten(more)
  {
    FlattenConcat(before, more);
  }

  /** A new packer writes the calls one after the other; it is gone when the packet is done. */
  method PackPacket(ctx: ProtocolContext, sc: SizeCodec, api: Api, calls: seq<Call>, ghost reg: Registry)
      returns (data: seq<byte>)
    requires AllWellFormed(sc, api, calls, reg) && Packable(calls, ctx.packers)
    modifies ctx`packers
    ensures data == PackAll(sc, api, calls)
    ensures ctx.packers == old(ctx.packers)
    decreases calls, 3
  {
    var w := new B.VectorWriter([]);
    var o := new B.OutStream.Over(w);
    ctx.PushPacker();
    for i := 0 to |calls|
      invariant ctx.packers == old(ctx.packers) + 1
      invariant fresh(w) && fresh(o) && o.buffer == B.Unlimited(w) && o.start == [] && o.Valid()
      invariant Bytes(o) == PackAll(sc, api, calls[..i])
    {
      PackSnoc(sc, api, calls, i);
      ghost var here := CallAt(sc, api, calls, reg, ctx.packers, i);
      PackMessage(ctx, o, sc, api, calls[i], here);
    }
    assert calls[..|calls|] == calls;
    ctx.PopPacker();
    data := w.data;
  }

  /** ApiPacker::Pack: the id, the fields and what comes behind them. */
  method PackMessage(ctx: ProtocolContext, o: B.OutStream, sc: SizeCodec, api: Api, c: Call, ghost reg: Registry)
    requires o.Valid() && WellFormed(sc, api, c, reg)
    requires c.Enter? ==> Packable(c.child, ctx.packers)
    modifies ctx`packers, o, o.Sink()
    ensures o.Valid() && Bytes(o) == old(Bytes(o)) + PackCall(sc, api, c)
    ensures ctx.packers == old(ctx.packers)
    decreases c, 2
  {
    PackFound(ctx, o, sc, Find(api, MessageId(c)).sig, c, reg);
  }

  method PackFound(ctx: ProtocolContext, o: B.OutStream, sc: SizeCodec, sig: Sig, c: Call, ghost reg: Registry)
    requires o.Valid() && |Fields(c)| == |FieldTypes(sig)|
    requires forall i :: 0 <= i < |Fields(c)| ==> Rep(sc, FieldTypes(sig)[i], Fields(c)[i])
    requires c.Enter? ==> && sig.Sub? && AllWellFormed(sc, sig.api, c.child, reg)
                          && |PackAll(sc, sig.api, c.child)| < sc.limit && Packable(c.child, ctx.packers)
    requires c.Result? ==> Rep(sc, c.ty, c.v)
    modifies ctx`packers, o, o.Sink()
    ensures o.Valid()
    ensures Bytes(o) == old(Bytes(o)) + ([MessageId(c)] + FieldBytes(sc, sig, c) + PayloadBytes(sc, sig, c))
    ensures ctx.packers == old(ctx.packers)
    decreases c, 1
  {
    ghost var was := Bytes(o);
    PackHead(o, sc, sig, c);
    PackPayload(ctx, o, sc, sig, c, reg);
    Assoc(was, [MessageId(c)] + FieldBytes(sc, sig, c), PayloadBytes(sc, sig, c));
  }

  /** The id and the fields of a message. */
  method PackHead(o: B.OutStream, sc: SizeCodec, sig: Sig, c: Call)
    requires o.Valid() && |Fields(c)| == |FieldTypes(sig)|
    requires forall i :: 0 <= i < |Fields(c)| ==> Rep(sc, FieldTypes(sig)[i], Fields(c)[i])
    modifies o, o.Sink()
    ensures o.Valid() && Bytes(o) == old(Bytes(o)) + ([MessageId(c)] + FieldBytes(sc, sig, c))
  {
    ghost var was := o.calls;
    forall i | 0 <= i < |Fields(c)| ensures B.Shaped(FieldTypes(sig)[i], Fields(c)[i]) {
      B.RepIsShaped(sc, FieldTypes(sig)[i], Fields(c)[i]);
    }
    o.Write([MessageId(c)]);
    B.SaveFields(o, sc, FieldTypes(sig), Fields(c));
    Appended(was, [[MessageId(c)]]);
    FlattenOne([MessageId(c)]);
    Appended(was + [[MessageId(c)]], ChunksFields(sc, FieldTypes(sig), Fields(c)));
    Assoc(Flatten(was), [MessageId(c)], FieldBytes(sc, sig, c));
  }

  /** A sub-API's calls are packed with their length, by a packer of their own. */
  method PackPayload(ctx: ProtocolContext, o: B.OutStream, sc: SizeCodec, sig: Sig, c: Call, ghost reg: Registry)
    requires o.Valid()
    requires c.Enter? ==> && sig.Sub? && AllWellFormed(sc, sig.api, c.child, reg)
                          && |PackAll(sc, sig.api, c.child)| < sc.limit && Packable(c.child, ctx.packers)
    requires c.Result? ==> Rep(sc, c.ty, c.v)
    modifies ctx`packers, o, o.Sink()
    ensures o.Valid() && Bytes(o) == old(Bytes(o)) + PayloadBytes(sc, sig, c)
    ensures ctx.packers == old(ctx.packers)
    decreases c, 0
  {
    if c.Enter? {
      var data := PackPacket(ctx, sc, sig.api, c.child, reg);
      BytesRoundTrip(sc, data);
      PackValue(o, sc, BYTES_TY, BytesVal(data));
    } else if c.Result? {
      PackValue(o, sc, c.ty, c.v);
    }
  }

  method PackValue(o: B.OutStream, sc: SizeCodec, ty: Ty, v: Val)
    requires o.Valid() && Rep(sc, ty, v)
    modifies o, o.Sink()
    ensures o.Valid() && Bytes(o) == old(Bytes(o)) + Encode(sc, ty, v)
  {
    B.RepIsShaped(sc, ty, v);
    Appended(o.calls, Chunks(sc, ty, v));
    B.Save(o, sc, ty, v);
  }

  /** The calls made in one context form one packet. */
  class ApiContext {
    const context: ProtocolContext
    const stack: PacketStack

    constructor (context: ProtocolContext)
      ensures this.context == context && fresh(stack) && stack.packets == []
    {
      this.context := context;
      stack := new PacketStack();
    }

    /** A method called through the proxy: it pushes its message on the stack on top, which is
        this context's, and the proxy takes the stack off again. */
    method CallMethod(c: Call)
      requires |context.packetStacks| < MAX_PACKET_STACKS
      modifies context`packetStacks, stack
      ensures stack.packets == old(stack.packets) + [c]
      ensures context.packetStacks == old(context.packetStacks)
    {
      context.PushPacketStack(stack);
      var top := context.packetStacks[|context.packetStacks| - 1];
      top.Push(c);
      context.PopPacketStack();
    }

    method Pack(sc: SizeCodec, api: Api, ghost reg: Registry) returns (data: seq<byte>)
      requires AllWellFormed(sc, api, stack.packets, reg) && Packable(stack.packets, context.packers)
      modifies context`packers, stack
      ensures data == PackAll(sc, api, old(stack.packets)) && stack.packets == []
      ensures context.packers == old(context.packers)
    {
      data := PackPacket(context, sc, api, stack.packets, reg);
      stack.packets := [];
    }
  }

  // ---------------------------------------------------------------- parsing

  /** What is left to be parsed, and how deep that goes; nothing after a fault. */
  ghost function Rest(sc: SizeCodec, api: Api, data: seq<byte>, r: Reader, reg: Registry, fault: bool): Parsed
    requires Sane(sc)
  {
    if fault then Parsed([], reg, r, true) else Parse(sc, api, data, r, reg)
  }

  /** The turn of the loop for a message that is known. */
  lemma KnownMessage(sc: SizeCodec, api: Api, data: seq<byte>, r: Reader, reg: Registry)
    requires Sane(sc) && r.offset < |data| && Find(api, data[r.offset]).Found?
    ensures var one := NextMessage(sc, api, data, r, reg);
            Parse(sc, api, data, r, reg) == Behind(one.events, Rest(sc, api, data, one.next, one.reg, one.fault))
  {
    var one := NextMessage(sc, api, data, r, reg);
    if one.fault {
      ParseStops(sc, api, data, r, reg, one);
      assert one.events + [] == one.events;
    } else {
      ParseStep(sc, api, data, r, reg, one);
    }
  }

  lemma KnownDepth(sc: SizeCodec, api: Api, data: seq<byte>, r: Reader, reg: Registry)
    requires Sane(sc) && r.offset < |data| && Find(api, data[r.offset]).Found?
    ensures var one := NextMessage(sc, api, data, r, reg);
            && (!one.fault ==>
                  InnerDepth(sc, api, data, one.next, one.reg) <= InnerDepth(sc, api, data, r, reg))
            && MessageDepth(sc, Find(api, data[r.offset]).sig, data, Reader(r.offset + 1, true), reg)
               <= InnerDepth(sc, api, data, r, reg)
  {
    NextMoves(sc, api, data, r, reg);
  }

  /** A new parser dispatches messages until its data is used up; it is gone afterwards. */
  method ParsePacket(ctx: ProtocolContext, sc: SizeCodec, api: Api, data: seq<byte>)
      returns (events: seq<Event>, fault: bool, ghost last: Reader)
    requires Sane(sc)
    requires ctx.parsers + 1 + InnerDepth(sc, api, data, Reader(0, false), ctx.Responses()) <= MAX_DEPTH
    modifies ctx`parsers, ctx`pending, ctx`turn
    ensures Parsed(events, ctx.Responses(), last, fault) == Parse(sc, api, data, Reader(0, false), old(ctx.Responses()))
    ensures ctx.parsers == old(ctx.parsers)
    decreases ApiSize(api), 1
  {
    var r := new B.VectorReader(data);
    ctx.PushParser();
    ghost var all := Parse(sc, api, data, r.View(), ctx.Responses());
    events, fault := [], false;
    while r.offset < |data| && !fault
      invariant fresh(r) && r.data == data && ctx.parsers == old(ctx.parsers) + 1
      invariant all == Behind(events, Rest(sc, api, data, r.View(), ctx.Responses(), fault))
      invariant !fault ==> ctx.parsers + InnerDepth(sc, api, data, r.View(), ctx.Responses()) <= MAX_DEPTH
      decreases |data| - r.offset, !fault
    {
      var more;
      more, fault := ParseNext(ctx, r, sc, api);
      BehindBoth(events, more, Rest(sc, api, data, r.View(), ctx.Responses(), fault));
      events := events + more;
    }
    ctx.PopParser();
    last := r.View();
  }

  /** One message: its id selects the method; an unknown id cancels the rest of the packet. */
  method ParseNext(ctx: ProtocolContext, r: B.VectorReader, sc: SizeCodec, api: Api)
      returns (events: seq<Event>, fault: bool)
    requires Sane(sc) && r.offset < |r.data|
    requires ctx.parsers + InnerDepth(sc, api, r.data, r.View(), ctx.Responses()) <= MAX_DEPTH
    modifies ctx`parsers, ctx`pending, ctx`turn, r
    ensures ctx.parsers == old(ctx.parsers)
    ensures r.offset > old(r.offset)
    ensures Parse(sc, api, r.data, old(r.View()), old(ctx.Responses())) ==
            Behind(events, Rest(sc, api, r.data, r.View(), ctx.Responses(), fault))
    ensures !fault ==> ctx.parsers + InnerDepth(sc, api, r.data, r.View(), ctx.Responses()) <= MAX_DEPTH
    decreases ApiSize(api), 0
  {
    ghost var start, reg := r.View(), ctx.Responses();
    var id := r.ReadBytes(1);
    var f := Find(api, id[0]);
    if f.NotFound? {
      r.offset := |r.data|;
      return [], false;
    }
    KnownMessage(sc, api, r.data, start, reg);
    KnownDepth(sc, api, r.data, start, reg);
    MessageMonotone(sc, f.sig, id[0], r.data, r.View(), reg);
    events, fault := LoadMethod(ctx, r, sc, f.sig, id[0]);
  }

  method LoadMethod(ctx: ProtocolContext, r: B.VectorReader, sc: SizeCodec, sig: Sig, id: byte)
      returns (events: seq<Event>, fault: bool)
    requires Sane(sc) && ctx.parsers + MessageDepth(sc, sig, r.data, r.View(), ctx.Responses()) <= MAX_DEPTH
    modifies ctx`parsers, ctx`pending, ctx`turn, r
    ensures ctx.parsers == old(ctx.parsers)
    ensures Parsed(events, ctx.Responses(), r.View(), fault) ==
            ParseMessage(sc, sig, id, r.data, old(r.View()), old(ctx.Responses()))
    decreases SigSize(sig), 2
  {
    var fields := B.LoadFields(r, sc, FieldTypes(sig));
    fault := false;
    match sig
    case Plain(_) =>
      events := [Called(id, fields)];
      ctx.React();
    case Promise(_) =>
      events := [Asked(id, NumOf(fields[0]), fields[1..])];
      ctx.React();
    case Sub(_, api) =>
      var bytes := B.Load(r, sc, BYTES_TY);
      var inner;
      ghost var last;
      inner, fault, last := ParsePacket(ctx, sc, api, ToBytes(bytes));
      events := [Entered(id, fields, inner)];
      if !fault { ctx.React(); }
    case SendResult =>
      events, fault := SetSendResultResponse(ctx, r, sc, NumOf(fields[0]));
    case SendError =>
      events, fault := SetSendErrorResponse(ctx, NumOf(fields[0]), NumOf(fields[1]), NumOf(fields[2]));
  }

  /** The first entry of the id is found and erased, as TakePending does. */
  method TakePending(ctx: ProtocolContext, req: nat) returns (ty: Option<Ty>)
    modifies ctx`pending
    ensures ty.Some? <==> exists i :: 0 <= i < |old(ctx.pending)| && old(ctx.pending)[i].id == req
    ensures ty.Some? <==> old(Awaited(ctx.Responses(), req))
    ensures ty.None? ==> ctx.pending == old(ctx.pending)
    ensures ty.Some? ==>
              var i := Position(old(ctx.pending), req);
              && ty.value == old(ResultType(ctx.Responses(), req))
              && ctx.pending == old(ctx.pending)[..i] + old(ctx.pending)[i + 1..]
  {
    var i := 0;
    while i < |ctx.pending| && ctx.pending[i].id != req
      invariant i <= |ctx.pending| && ctx.pending == old(ctx.pending)
      invariant forall j :: 0 <= j < i ==> ctx.pending[j].id != req
    {
      i := i + 1;
    }
    if i == |ctx.pending| { return None; }
    assert i == Position(ctx.pending, req);
    ty := Some(ctx.pending[i].ty);
    ctx.pending := ctx.pending[..i] + ctx.pending[i + 1..];
  }

  /** The entry registered for the id extracts a value of its own type from the parser; its
      callback finds the entry off the list. */
  method SetSendResultResponse(ctx: ProtocolContext, r: B.VectorReader, sc: SizeCodec, req: nat)
      returns (events: seq<Event>, fault: bool)
    modifies ctx`pending, ctx`turn, r
    ensures if !old(Awaited(ctx.Responses(), req))
            then fault && events == [] && ctx.Responses() == old(ctx.Responses()) && r.View() == old(r.View())
            else var g := Decode(sc, old(ResultType(ctx.Responses(), req)), r.data, old(r.View()));
                 && !fault && events == [Resolved(req, g.v)]
                 && ctx.Responses() == Completed(old(ctx.Responses()), req) && r.View() == g.next
  {
    var ty := TakePending(ctx, req);
    if ty.None? { return [], true; }
    var v := B.Load(r, sc, ty.value);
    ctx.React();
    return [Resolved(req, v)], false;
  }

  method SetSendErrorResponse(ctx: ProtocolContext, req: nat, kind: nat, code: nat)
      returns (events: seq<Event>, fault: bool)
    modifies ctx`pending, ctx`turn
    ensures if !old(Awaited(ctx.Responses(), req))
            then fault && events == [] && ctx.Responses() == old(ctx.Responses())
            else && !fault && |events| == 1 && events[0] == Rejected(req, kind, ToInt32(code))
                 && SameBits(events[0].code, code)
                 && ctx.Responses() == Completed(old(ctx.Responses()), req)
  {
    var ty := TakePending(ctx, req);
    if ty.None? { return [], true; }
    ctx.React();
    ErrorCodeIsExact(code);
    return [Rejected(req, kind, ToInt32(code))], false;
  }
}

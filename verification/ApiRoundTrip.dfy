/**
 Parsing a packed tree of calls, results and errors dispatches exactly what was packed.
 */
module ApiRoundTrip {
  import opened Mstream
  import opened ApiProtocol
  import R = MstreamRoundTrip

  // ---------------------------------------------------------------- method lookup

  /** The signatures registered under an id, in lookup order. */
  function Pick(list: seq<(byte, Sig)>, id: byte): Found {
    if list == [] then NotFound else if list[0].0 == id then Found(list[0].1) else Pick(list[1..], id)
  }

  lemma {:induction false} PickConcat(a: seq<(byte, Sig)>, b: seq<(byte, Sig)>, id: byte)
    ensures Pick(a + b, id) == if Pick(a, id).Found? then Pick(a, id) else Pick(b, id)
  {
    if a == [] {
      assert a + b == b;
    } else {
      assert (a + b)[1..] == a[1..] + b;
      PickConcat(a[1..], b, id);
    }
  }

  /** Lookup goes through the flattened list. */
  lemma {:induction false} FindIsPick(api: Api, id: byte)
    ensures Find(api, id) == Pick(Flat(api), id)
    decreases api, 0
  {
    FindInIsPick(api.regs, id);
  }

  lemma {:induction false} FindInIsPick(regs: seq<Reg>, id: byte)
    ensures FindIn(regs, id) == Pick(FlatRegs(regs), id)
    decreases regs, 0
  {
    if regs != [] {
      FindRegIsPick(regs[0], id);
      FindInIsPick(regs[1..], id);
      PickConcat(FlatReg(regs[0]), FlatRegs(regs[1..]), id);
    }
  }

  lemma {:induction false} FindRegIsPick(reg: Reg, id: byte)
    ensures FindReg(reg, id) == Pick(FlatReg(reg), id)
    decreases reg, 0
  {
    if reg.Ext? { FindIsPick(reg.api, id); }
  }

  ghost predicate DistinctIds(list: seq<(byte, Sig)>) {
    forall i, j :: 0 <= i < j < |list| ==> list[i].0 != list[j].0
  }

  lemma {:induction false} PickAt(list: seq<(byte, Sig)>, k: nat)
    requires k < |list| && DistinctIds(list)
    ensures Pick(list, list[k].0) == Found(list[k].1)
  {
    if k > 0 {
      PickAt(list[1..], k - 1);
    }
  }

  /** With distinct ids every registered method, of the API or of its extensions, is found. */
  lemma EveryMethodIsFound(api: Api, k: nat)
    requires DistinctIds(Flat(api)) && k < |Flat(api)|
    ensures Find(api, Flat(api)[k].0) == Found(Flat(api)[k].1)
  {
    FindIsPick(api, Flat(api)[k].0);
    PickAt(Flat(api), k);
  }

  // ---------------------------------------------------------------- well-formed packets

  /** The registry after a call has been dispatched: a result or an error completes its request,
      and then the code called with the message does what it does. */
  function After(c: Call, reg: Registry): Registry
    decreases c, 0
  {
    match c
    case Enter(_, _, child) => Reacted(AfterAll(child, reg))
    case Result(req, _, _) => if Awaited(reg, req) then Completed(reg, req) else reg
    case Error(req, _, _) => if Awaited(reg, req) then Completed(reg, req) else reg
    case _ => Reacted(reg)
  }

  function AfterAll(calls: seq<Call>, reg: Registry): Registry
    decreases calls, 0
  {
    if calls == [] then reg else AfterAll(calls[1..], After(calls[0], reg))
  }

  /** The call goes to a method of the API, its arguments are representable, and a result or an
      error is for a request that is pending when it is reached. */
  predicate WellFormed(sc: SizeCodec, api: Api, c: Call, reg: Registry)
    decreases c, 0
  {
    var f := Find(api, MessageId(c));
    && f.Found?
    && |Fields(c)| == |FieldTypes(f.sig)|
    && (forall i :: 0 <= i < |Fields(c)| ==> Rep(sc, FieldTypes(f.sig)[i], Fields(c)[i]))
    && match c
       case Invoke(_, _) => f.sig.Plain?
       case Ask(_, _, _) => f.sig.Promise?
       case Enter(_, _, child) =>
         f.sig.Sub? && AllWellFormed(sc, f.sig.api, child, reg) && |PackAll(sc, f.sig.api, child)| < sc.limit
       case Result(req, ty, v) => f.sig.SendResult? && Awaited(reg, req) && ResultType(reg, req) == ty && Rep(sc, ty, v)
       case Error(req, _, _) => f.sig.SendError? && Awaited(reg, req)
  }

  predicate AllWellFormed(sc: SizeCodec, api: Api, calls: seq<Call>, reg: Registry)
    decreases calls, 0
  {
    calls == [] ||
    (WellFormed(sc, api, calls[0], reg) && AllWellFormed(sc, api, calls[1..], After(calls[0], reg)))
  }

  // ---------------------------------------------------------------- what a call becomes

  /** The number whose 32 bits in two's complement are those of an unsigned one. */
  predicate SameBits(n: int, bits: nat) {
    -0x8000_0000 <= n < 0x8000_0000 && (n - bits) % 0x1_0000_0000 == 0
  }

  /** The event is the call as it was made. */
  predicate Matches(c: Call, e: Event)
    decreases c, 0
  {
    match c
    case Invoke(id, args) => e == Called(id, args)
    case Ask(id, req, args) => e == Asked(id, req, args)
    case Enter(id, args, child) => e.Entered? && e.id == id && e.args == args && MatchAll(child, e.inner)
    case Result(req, _, v) => e == Resolved(req, v)
    case Error(req, kind, code) => e.Rejected? && e.req == req && e.kind == kind && SameBits(e.code, code)
  }

  predicate MatchAll(calls: seq<Call>, events: seq<Event>)
    decreases calls, 0
  {
    |calls| == |events| && forall i :: 0 <= i < |calls| ==> Matches(calls[i], events[i])
  }

  /** The error code a promise gets has the bits of the one written, and is that one below 2^31. */
  lemma ErrorCodeIsExact(code: nat)
    ensures SameBits(ToInt32(code), code)
    ensures code < 0x8000_0000 ==> ToInt32(code) == code
  {
    var m := code % 0x1_0000_0000;
    assert code == 0x1_0000_0000 * (code / 0x1_0000_0000) + m;
    SameRest(ToInt32(code) - code, -(code / 0x1_0000_0000) - if m < 0x8000_0000 then 0 else 1);
  }

  lemma SameRest(d: int, q: int)
    requires d == 0x1_0000_0000 * q
    ensures d % 0x1_0000_0000 == 0
  {
  }

  lemma {:induction false} ExpectedMatches(calls: seq<Call>)
    ensures MatchAll(calls, ExpectedAll(calls))
    decreases calls, 0
  {
    if calls != [] {
      OneMatches(calls[0]);
      ExpectedMatches(calls[1..]);
      forall i | 0 <= i < |calls| ensures Matches(calls[i], ExpectedAll(calls)[i]) {
        if i > 0 { assert calls[i] == calls[1..][i - 1]; }
      }
    }
  }

  lemma {:induction false} OneMatches(c: Call)
    ensures Matches(c, Expected(c))
    decreases c, 0
  {
    if c.Enter? { ExpectedMatches(c.child); }
    if c.Error? { ErrorCodeIsExact(c.code); }
  }

  // ---------------------------------------------------------------- the theorem

  lemma BytesRoundTrip(sc: SizeCodec, s: seq<byte>)
    requires |s| < sc.limit
    ensures Rep(sc, BYTES_TY, BytesVal(s)) && ToBytes(BytesVal(s)) == s
  {
    assert Pow256(1) == 256;
  }

  /** The fields of a call are read back, and the reader stands at its payload. */
  lemma FieldsRead(sc: SizeCodec, sig: Sig, c: Call, data: seq<byte>, r: Reader, payload: seq<byte>)
    requires Lawful(sc) && |Fields(c)| == |FieldTypes(sig)|
    requires forall i :: 0 <= i < |Fields(c)| ==> Rep(sc, FieldTypes(sig)[i], Fields(c)[i])
    requires Holds(data, r.offset, FieldBytes(sc, sig, c) + payload)
    ensures var f := DecodeFields(sc, FieldTypes(sig), data, r);
            f.vs == Fields(c) && f.next.offset == r.offset + |FieldBytes(sc, sig, c)|
            && Holds(data, f.next.offset, payload)
  {
    R.HoldsSplit(data, r.offset, FieldBytes(sc, sig, c), payload);
    R.FieldsRoundTrip(sc, FieldTypes(sig), Fields(c), data, r);
  }

  /** A message that was dispatched as it was meant, with the reader at its end. */
  ghost predicate Delivered(p: Parsed, c: Call, reg: Registry, end: nat) {
    p.events == [Expected(c)] && p.reg == After(c, reg) && !p.fault && p.next.offset == end
  }

  lemma {:induction false} EnterRead(
      sc: SizeCodec, sig: Sig, c: Call, data: seq<byte>, r: Reader, reg: Registry)
    requires Lawful(sc) && Sane(sc) && c.Enter? && sig.Sub?
    requires AllWellFormed(sc, sig.api, c.child, reg) && |PackAll(sc, sig.api, c.child)| < sc.limit
    requires var f := DecodeFields(sc, FieldTypes(sig), data, r);
             f.vs == Fields(c) && Holds(data, f.next.offset, PayloadBytes(sc, sig, c))
    ensures var f := DecodeFields(sc, FieldTypes(sig), data, r);
            Delivered(ParseMessage(sc, sig, c.id, data, r, reg), c, reg,
                      f.next.offset + |PayloadBytes(sc, sig, c)|)
    decreases c, 0
  {
    var packed := PackAll(sc, sig.api, c.child);
    BytesRoundTrip(sc, packed);
    R.RoundTrip(sc, BYTES_TY, BytesVal(packed), data, DecodeFields(sc, FieldTypes(sig), data, r).next);
    assert packed[0..|packed|] == packed;
    PacketRead(sc, sig.api, c.child, packed, Reader(0, false), reg);
  }

  lemma ResultRead(sc: SizeCodec, c: Call, data: seq<byte>, r: Reader, reg: Registry)
    requires Lawful(sc) && Sane(sc) && c.Result? && Rep(sc, c.ty, c.v)
    requires Awaited(reg, c.req) && ResultType(reg, c.req) == c.ty
    requires var f := DecodeFields(sc, FieldTypes(SendResult), data, r);
             f.vs == Fields(c) && Holds(data, f.next.offset, Encode(sc, c.ty, c.v))
    ensures var f := DecodeFields(sc, FieldTypes(SendResult), data, r);
            Delivered(ParseMessage(sc, SendResult, RESULT_ID, data, r, reg), c, reg,
                      f.next.offset + |Encode(sc, c.ty, c.v)|)
  {
    R.RoundTrip(sc, c.ty, c.v, data, DecodeFields(sc, FieldTypes(SendResult), data, r).next);
  }

  lemma PlainRead(sc: SizeCodec, sig: Sig, c: Call, data: seq<byte>, r: Reader, reg: Registry)
    requires Sane(sc)
    requires || (c.Invoke? && sig.Plain?)
             || (c.Ask? && sig.Promise?)
             || (c.Error? && sig.SendError? && Awaited(reg, c.req))
    requires DecodeFields(sc, FieldTypes(sig), data, r).vs == Fields(c)
    ensures Delivered(ParseMessage(sc, sig, MessageId(c), data, r, reg), c, reg,
                      DecodeFields(sc, FieldTypes(sig), data, r).next.offset)
  {
  }

  lemma {:induction false} MessageRead(
      sc: SizeCodec, api: Api, c: Call, data: seq<byte>, r: Reader, reg: Registry)
    requires Lawful(sc) && Sane(sc) && WellFormed(sc, api, c, reg)
    requires var sig := Find(api, MessageId(c)).sig;
             Holds(data, r.offset, FieldBytes(sc, sig, c) + PayloadBytes(sc, sig, c))
    ensures var sig := Find(api, MessageId(c)).sig;
            Delivered(ParseMessage(sc, sig, MessageId(c), data, r, reg), c, reg,
                      r.offset + |FieldBytes(sc, sig, c)| + |PayloadBytes(sc, sig, c)|)
    decreases c, 1
  {
    var sig := Find(api, MessageId(c)).sig;
    FieldsRead(sc, sig, c, data, r, PayloadBytes(sc, sig, c));
    if c.Enter? {
      EnterRead(sc, sig, c, data, r, reg);
    } else if c.Result? {
      ResultRead(sc, c, data, r, reg);
    } else {
      PlainRead(sc, sig, c, data, r, reg);
    }
  }

  /** A parse with some events before it. */
  function Behind(events: seq<Event>, p: Parsed): Parsed {
    p.(events := events + p.events)
  }

  lemma BehindBoth(a: seq<Event>, b: seq<Event>, p: Parsed)
    ensures Behind(a, Behind(b, p)) == Behind(a + b, p)
  {
    assert a + (b + p.events) == (a + b) + p.events;
  }

  lemma BehindNothing(p: Parsed)
    ensures Behind([], p) == p
  {
    assert [] + p.events == p.events;
  }

  /** One turn of the parser's loop. */
  lemma ParseStep(sc: SizeCodec, api: Api, data: seq<byte>, r: Reader, reg: Registry, one: Parsed)
    requires Sane(sc) && r.offset < |data| && Find(api, data[r.offset]).Found?
    requires one == NextMessage(sc, api, data, r, reg) && !one.fault
    ensures Parse(sc, api, data, r, reg) == Behind(one.events, Parse(sc, api, data, one.next, one.reg))
  {
  }

  lemma ParseStops(sc: SizeCodec, api: Api, data: seq<byte>, r: Reader, reg: Registry, one: Parsed)
    requires Sane(sc) && r.offset < |data| && Find(api, data[r.offset]).Found?
    requires one == NextMessage(sc, api, data, r, reg) && one.fault
    ensures Parse(sc, api, data, r, reg) == one
  {
  }

  lemma HoldsMessage(data: seq<byte>, offset: nat, id: byte, a: seq<byte>, b: seq<byte>, rest: seq<byte>)
    requires Holds(data, offset, [id] + a + b + rest)
    ensures offset < |data| && data[offset] == id
    ensures Holds(data, offset + 1, a + b) && Holds(data, offset + 1 + |a + b|, rest)
  {
    assert [id] + a + b + rest == [id] + (a + b + rest);
    R.HoldsSplit(data, offset, [id], a + b + rest);
    assert data[offset..offset + 1][0] == id;
    R.HoldsSplit(data, offset + 1, a + b, rest);
  }

  /** Where the first message of a packet lies. */
  lemma FirstMessage(sc: SizeCodec, api: Api, c: Call, rest: seq<byte>, data: seq<byte>, offset: nat)
    requires Find(api, MessageId(c)).Found?
    requires Holds(data, offset, PackCall(sc, api, c) + rest)
    ensures offset < |data| && data[offset] == MessageId(c)
    ensures var sig := Find(api, MessageId(c)).sig;
            var body := FieldBytes(sc, sig, c) + PayloadBytes(sc, sig, c);
            && |PackCall(sc, api, c)| == 1 + |body|
            && Holds(data, offset + 1, body) && Holds(data, offset + 1 + |body|, rest)
  {
    var sig := Find(api, MessageId(c)).sig;
    HoldsMessage(data, offset, MessageId(c), FieldBytes(sc, sig, c), PayloadBytes(sc, sig, c), rest);
  }

  /** The first message of a packet is delivered ... */
  lemma {:induction false} FirstDelivered(
      sc: SizeCodec, api: Api, c: Call, rest: seq<byte>, data: seq<byte>, r: Reader, reg: Registry)
    requires Lawful(sc) && Sane(sc) && WellFormed(sc, api, c, reg)
    requires Holds(data, r.offset, PackCall(sc, api, c) + rest)
    ensures r.offset < |data| && Find(api, data[r.offset]).Found?
    ensures Delivered(NextMessage(sc, api, data, r, reg), c, reg, r.offset + |PackCall(sc, api, c)|)
    decreases c, 2
  {
    FirstMessage(sc, api, c, rest, data, r.offset);
    MessageRead(sc, api, c, data, Reader(r.offset + 1, true), reg);
  }

  /** ... and the parser goes on with the others. */
  lemma ThenTheRest(
      sc: SizeCodec, api: Api, c: Call, data: seq<byte>, r: Reader, reg: Registry, one: Parsed, end: nat)
    requires Sane(sc) && r.offset < |data| && Find(api, data[r.offset]).Found?
    requires one == NextMessage(sc, api, data, r, reg) && Delivered(one, c, reg, end)
    ensures Parse(sc, api, data, r, reg) == Behind([Expected(c)], Parse(sc, api, data, one.next, After(c, reg)))
  {
    ParseStep(sc, api, data, r, reg, one);
  }

  lemma RestHeld(data: seq<byte>, offset: nat, packed: seq<byte>, rest: seq<byte>)
    requires Holds(data, offset, packed + rest)
    ensures Holds(data, offset + |packed|, rest)
  {
    R.HoldsSplit(data, offset, packed, rest);
  }

  lemma {:induction false} FirstTurn(
      sc: SizeCodec, api: Api, c: Call, rest: seq<byte>, data: seq<byte>, r: Reader, reg: Registry)
      returns (next: Reader)
    requires Lawful(sc) && Sane(sc) && WellFormed(sc, api, c, reg)
    requires Holds(data, r.offset, PackCall(sc, api, c) + rest)
    ensures next.offset == r.offset + |PackCall(sc, api, c)|
    ensures Parse(sc, api, data, r, reg) == Behind([Expected(c)], Parse(sc, api, data, next, After(c, reg)))
    decreases c, 3
  {
    FirstDelivered(sc, api, c, rest, data, r, reg);
    var one := NextMessage(sc, api, data, r, reg);
    ThenTheRest(sc, api, c, data, r, reg, one, r.offset + |PackCall(sc, api, c)|);
    next := one.next;
  }

  lemma {:induction false} FirstStep(
      sc: SizeCodec, api: Api, c: Call, rest: seq<byte>, data: seq<byte>, r: Reader, reg: Registry)
      returns (next: Reader)
    requires Lawful(sc) && Sane(sc) && WellFormed(sc, api, c, reg)
    requires Holds(data, r.offset, PackCall(sc, api, c) + rest)
    ensures next.offset == r.offset + |PackCall(sc, api, c)| && Holds(data, next.offset, rest)
    ensures Parse(sc, api, data, r, reg) == Behind([Expected(c)], Parse(sc, api, data, next, After(c, reg)))
    decreases c, 4
  {
    next := FirstTurn(sc, api, c, rest, data, r, reg);
    assert Holds(data, next.offset, rest) by { RestHeld(data, r.offset, PackCall(sc, api, c), rest); }
  }

  /** Wherever a packet stands, parsing it dispatches its calls, and then the parser goes on behind
      it, although results carry no length. */
  lemma {:induction false} PrefixRead(
      sc: SizeCodec, api: Api, calls: seq<Call>, data: seq<byte>, r: Reader, reg: Registry)
      returns (next: Reader)
    requires Lawful(sc) && Sane(sc) && AllWellFormed(sc, api, calls, reg)
    requires Holds(data, r.offset, PackAll(sc, api, calls))
    ensures next.offset == r.offset + |PackAll(sc, api, calls)|
    ensures Parse(sc, api, data, r, reg) ==
            Behind(ExpectedAll(calls), Parse(sc, api, data, next, AfterAll(calls, reg)))
    decreases calls, 5
  {
    if calls == [] {
      next := r;
      BehindNothing(Parse(sc, api, data, r, reg));
    } else {
      var c, rest := calls[0], PackAll(sc, api, calls[1..]);
      var second := FirstStep(sc, api, c, rest, data, r, reg);
      next := PrefixRead(sc, api, calls[1..], data, second, After(c, reg));
      BehindBoth([Expected(c)], ExpectedAll(calls[1..]), Parse(sc, api, data, next, AfterAll(calls, reg)));
    }
  }

  /** Parsing a packet that ends the data dispatches the same calls with the same arguments in the
      same order and nesting, delivers to each promise the value or error written for it, and stops
      exactly at the end. */
  lemma {:induction false} PacketRead(
      sc: SizeCodec, api: Api, calls: seq<Call>, data: seq<byte>, r: Reader, reg: Registry)
    requires Lawful(sc) && Sane(sc) && AllWellFormed(sc, api, calls, reg)
    requires Holds(data, r.offset, PackAll(sc, api, calls))
    requires r.offset + |PackAll(sc, api, calls)| == |data|
    ensures var p := Parse(sc, api, data, r, reg);
            p.events == ExpectedAll(calls) && p.reg == AfterAll(calls, reg) && !p.fault
            && p.next.offset == |data| && MatchAll(calls, p.events)
    decreases calls, 6
  {
    var next := PrefixRead(sc, api, calls, data, r, reg);
    assert ExpectedAll(calls) + [] == ExpectedAll(calls);
    ExpectedMatches(calls);
  }

  /** The theorem for a whole packet, with any size type that reads back what it wrote and never
      moves back, whatever methods and promise callbacks do to the registry meanwhile. */
  lemma PackThenParse(sc: SizeCodec, api: Api, calls: seq<Call>, reg: Registry)
    requires Lawful(sc) && Sane(sc) && AllWellFormed(sc, api, calls, reg)
    ensures var packet := PackAll(sc, api, calls);
            var p := Parse(sc, api, packet, Reader(0, false), reg);
            p.events == ExpectedAll(calls) && p.reg == AfterAll(calls, reg) && !p.fault
            && p.next.offset == |packet| && MatchAll(calls, p.events)
  {
    var packet := PackAll(sc, api, calls);
    assert packet[0..|packet|] == packet;
    PacketRead(sc, api, calls, packet, Reader(0, false), reg);
  }

  lemma BothHeld(a: seq<byte>, b: seq<byte>)
    ensures Holds(a + b, 0, a) && Holds(a + b, |a|, b)
  {
  }

  /** An unknown id behind a packet cancels what follows: its calls are dispatched, nothing else is,
      and the reader is at the end. */
  lemma UnknownIdCancels(sc: SizeCodec, api: Api, calls: seq<Call>, id: byte, junk: seq<byte>, reg: Registry)
    requires Lawful(sc) && Sane(sc) && AllWellFormed(sc, api, calls, reg) && Find(api, id).NotFound?
    ensures var data := PackAll(sc, api, calls) + ([id] + junk);
            var p := Parse(sc, api, data, Reader(0, false), reg);
            && MatchAll(calls, p.events) && p.reg == AfterAll(calls, reg) && !p.fault
            && p.next.offset == |data|
  {
    var packet := PackAll(sc, api, calls);
    var data := packet + ([id] + junk);
    BothHeld(packet, [id] + junk);
    assert data[|packet|] == id;
    var next := PrefixRead(sc, api, calls, data, Reader(0, false), reg);
    assert ExpectedAll(calls) + [] == ExpectedAll(calls);
    ExpectedMatches(calls);
  }

  /** A result or an error that the API takes, whether or not its request is pending. */
  predicate Answers(sc: SizeCodec, api: Api, c: Call) {
    || (c.Result? && Find(api, RESULT_ID) == Found(SendResult) && Rep(sc, REQ_TY, Num(c.req)))
    || (c.Error? && Find(api, ERROR_ID) == Found(SendError) && Rep(sc, REQ_TY, Num(c.req))
        && Rep(sc, Scalar(1), Num(c.kind)) && Rep(sc, Scalar(4), Num(c.code)))
  }

  lemma FaultRead(sc: SizeCodec, api: Api, c: Call, data: seq<byte>, r: Reader, reg: Registry)
    requires Lawful(sc) && Sane(sc) && Answers(sc, api, c) && !Awaited(reg, c.req)
    requires var sig := Find(api, MessageId(c)).sig;
             Holds(data, r.offset, FieldBytes(sc, sig, c) + PayloadBytes(sc, sig, c))
    ensures var sig := Find(api, MessageId(c)).sig;
            var p := ParseMessage(sc, sig, MessageId(c), data, r, reg);
            p.fault && p.events == [] && p.reg == reg
  {
    var sig := Find(api, MessageId(c)).sig;
    FieldsRead(sc, sig, c, data, r, PayloadBytes(sc, sig, c));
  }

  lemma FaultHere(sc: SizeCodec, api: Api, c: Call, junk: seq<byte>, data: seq<byte>, r: Reader, reg: Registry)
    requires Lawful(sc) && Sane(sc) && Answers(sc, api, c) && !Awaited(reg, c.req)
    requires Holds(data, r.offset, PackCall(sc, api, c) + junk)
    ensures var p := Parse(sc, api, data, r, reg); p.fault && p.events == [] && p.reg == reg
  {
    FirstMessage(sc, api, c, junk, data, r.offset);
    FaultRead(sc, api, c, data, Reader(r.offset + 1, true), reg);
    ParseStops(sc, api, data, r, reg, NextMessage(sc, api, data, r, reg));
  }

  /** A result or an error for a request that is not pending: the calls before it are dispatched,
      and the parser then uses a response that is not there. */
  lemma UnknownRequestFaults(sc: SizeCodec, api: Api, calls: seq<Call>, c: Call, junk: seq<byte>, reg: Registry)
    requires Lawful(sc) && Sane(sc) && AllWellFormed(sc, api, calls, reg)
    requires Answers(sc, api, c) && !Awaited(AfterAll(calls, reg), c.req)
    ensures var data := PackAll(sc, api, calls) + (PackCall(sc, api, c) + junk);
            var p := Parse(sc, api, data, Reader(0, false), reg);
            p.fault && MatchAll(calls, p.events) && p.reg == AfterAll(calls, reg)
  {
    var packet, rest := PackAll(sc, api, calls), PackCall(sc, api, c) + junk;
    var data := packet + rest;
    BothHeld(packet, rest);
    var next := PrefixRead(sc, api, calls, data, Reader(0, false), reg);
    FaultHere(sc, api, c, junk, data, next, AfterAll(calls, reg));
    assert ExpectedAll(calls) + [] == ExpectedAll(calls);
    ExpectedMatches(calls);
  }

  /** The default size type is such a type. */
  lemma Uint32Qualifies()
    ensures Lawful(UINT32) && Sane(UINT32)
  {
    R.Uint32IsLawful();
  }

  // ---------------------------------------------------------------- stack depth

  const MAX_DEPTH: nat := 4

  /** How many packers are active at once while the calls are packed. */
  function Depth(calls: seq<Call>): (d: nat)
    ensures d > 0
    decreases calls, 0
  {
    1 + Deepest(calls)
  }

  function Deepest(calls: seq<Call>): nat
    decreases calls, -1
  {
    if calls == [] then 0
    else
      var d := if calls[0].Enter? then Depth(calls[0].child) else 0;
      var e := Deepest(calls[1..]);
      if d > e then d else e
  }

  /** Packing with `active` packers on the stack never pushes onto a full stack. */
  predicate Packable(calls: seq<Call>, active: nat)
    decreases calls, 0
  {
    active < MAX_DEPTH && ChildrenPackable(calls, active + 1)
  }

  predicate ChildrenPackable(calls: seq<Call>, active: nat)
    decreases calls, -1
  {
    calls == [] ||
    ((calls[0].Enter? ==> Packable(calls[0].child, active)) && ChildrenPackable(calls[1..], active))
  }

  /** The stacks of depth 4 suffice exactly for calls nested at most that deep. */
  lemma {:induction false} PackableIff(calls: seq<Call>, active: nat)
    requires active <= MAX_DEPTH
    ensures Packable(calls, active) <==> active + Depth(calls) <= 4
    decreases calls, 0
  {
    if active < MAX_DEPTH { ChildrenPackableIff(calls, active + 1); }
  }

  lemma {:induction false} ChildrenPackableIff(calls: seq<Call>, active: nat)
    requires active <= MAX_DEPTH
    ensures ChildrenPackable(calls, active) <==> active + Deepest(calls) <= MAX_DEPTH
    decreases calls, -1
  {
    if calls != [] {
      if calls[0].Enter? { PackableIff(calls[0].child, active); }
      ChildrenPackableIff(calls[1..], active);
    }
  }
}

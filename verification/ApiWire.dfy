/**
 The messages of the RPC layer, byte by byte: the id of the method, a request id in four bytes where
 there is one, the arguments, and behind them the sub-packet or the result.
 */
module ApiWire {
  import opened Mstream
  import opened MstreamWire
  import opened ApiProtocol

  /** The arguments one after the other. */
  function ArgBytes(sc: SizeCodec, types: seq<Ty>, args: seq<Val>): seq<byte> {
    if types == [] || args == [] then []
    else Encode(sc, types[0], args[0]) + ArgBytes(sc, types[1..], args[1..])
  }

  lemma {:induction false} FieldsAreArgs(sc: SizeCodec, types: seq<Ty>, args: seq<Val>)
    ensures Flatten(ChunksFields(sc, types, args)) == ArgBytes(sc, types, args)
  {
    if types != [] && args != [] {
      FlattenConcat(Chunks(sc, types[0], args[0]), ChunksFields(sc, types[1..], args[1..]));
      FieldsAreArgs(sc, types[1..], args[1..]);
    }
  }

  lemma NumberOnWire(sc: SizeCodec, w: nat, n: nat)
    ensures Encode(sc, Scalar(w), Num(n)) == Digits(w, n)
  {
    LittleEndianDigits(w, n);
    FlattenOne(LittleEndian(w, n));
  }

  lemma RequestThenArgs(sc: SizeCodec, req: nat, types: seq<Ty>, args: seq<Val>)
    ensures Flatten(ChunksFields(sc, [Scalar(4)] + types, [Num(req)] + args)) ==
            Digits(4, req) + ArgBytes(sc, types, args)
  {
    var ts, vs := [Scalar(4)] + types, [Num(req)] + args;
    FieldsAreArgs(sc, ts, vs);
    NumberOnWire(sc, 4, req);
    assert ts[1..] == types && vs[1..] == args;
  }

  lemma NoPayload(a: seq<byte>, b: seq<byte>, c: seq<byte>)
    ensures a + (b + c) + [] == a + b + c
  {
  }

  /** A call of a method without result. */
  lemma InvokeOnWire(sc: SizeCodec, api: Api, id: byte, types: seq<Ty>, args: seq<Val>)
    requires Find(api, id) == Found(Sig.Plain(types))
    ensures PackCall(sc, api, Invoke(id, args)) == [id] + ArgBytes(sc, types, args)
  {
    FieldsAreArgs(sc, types, args);
    assert [id] + ArgBytes(sc, types, args) + [] == [id] + ArgBytes(sc, types, args);
  }

  /** A call whose result is awaited carries the id of the request before its arguments. */
  lemma AskOnWire(sc: SizeCodec, api: Api, id: byte, req: nat, types: seq<Ty>, args: seq<Val>)
    requires Find(api, id) == Found(Promise(types))
    ensures PackCall(sc, api, Ask(id, req, args)) == [id] + Digits(4, req) + ArgBytes(sc, types, args)
  {
    RequestThenArgs(sc, req, types, args);
    assert FieldTypes(Promise(types)) == [Scalar(4)] + types;
    NoPayload([id], Digits(4, req), ArgBytes(sc, types, args));
  }

  /** The calls of a sub-API stand behind its arguments with their length before them. */
  lemma EnterOnWire(sc: SizeCodec, api: Api, id: byte, types: seq<Ty>, sub: Api, args: seq<Val>, child: seq<Call>)
    requires Find(api, id) == Found(Sub(types, sub))
    ensures var inner := PackAll(sc, sub, child);
            PackCall(sc, api, Enter(id, args, child)) ==
            [id] + ArgBytes(sc, types, args) + (Flatten(sc.write(|inner|)) + inner)
  {
    FieldsAreArgs(sc, types, args);
    BytesOnWire(sc, PackAll(sc, sub, child));
  }

  /** Bytes are written as they are, with their number before them. */
  lemma BytesOnWire(sc: SizeCodec, s: seq<byte>)
    ensures Encode(sc, BYTES_TY, BytesVal(s)) == Flatten(sc.write(|s|)) + s
  {
    var each := ChunksEach(sc, Scalar(1), BytesVal(s).vs);
    EachByte(sc, s);
    FlattenConcat(sc.write(|s|), [Flatten(each)]);
    FlattenOne(Flatten(each));
  }

  lemma {:induction false} EachByte(sc: SizeCodec, s: seq<byte>)
    ensures Flatten(ChunksEach(sc, Scalar(1), BytesVal(s).vs)) == s
  {
    if s != [] {
      assert BytesVal(s).vs[1..] == BytesVal(s[1..]).vs;
      EachByte(sc, s[1..]);
      assert LittleEndian(1, s[0]) == [s[0]];
      ByteThen([s[0]], ChunksEach(sc, Scalar(1), BytesVal(s[1..]).vs));
      assert s == [s[0]] + s[1..];
    }
  }

  /** A result: message 0, the id of its request, and the value without its length. */
  lemma ResultOnWire(sc: SizeCodec, api: Api, req: nat, ty: Ty, v: Val)
    requires Find(api, 0) == Found(SendResult)
    ensures PackCall(sc, api, Result(req, ty, v)) == [0] + Digits(4, req) + Encode(sc, ty, v)
  {
    RequestThenArgs(sc, req, [], []);
    assert [Scalar(4)] + [] == [Scalar(4)] && [Num(req)] + [] == [Num(req)];
    assert Digits(4, req) + [] == Digits(4, req);
  }

  /** An error: message 1, the id of its request, its type in one byte and its code in four. */
  lemma ErrorOnWire(sc: SizeCodec, api: Api, req: nat, kind: byte, code: nat)
    requires Find(api, 1) == Found(SendError)
    ensures PackCall(sc, api, Error(req, kind, code)) == [1] + Digits(4, req) + [kind] + Digits(4, code)
  {
    KindThenCode(sc, kind, code);
    RequestThenArgs(sc, req, [Scalar(1), Scalar(4)], [Num(kind), Num(code)]);
    var fields := Digits(4, req) + ([kind] + Digits(4, code));
    assert [Scalar(4)] + [Scalar(1), Scalar(4)] == FieldTypes(SendError);
    assert [Num(req)] + [Num(kind), Num(code)] == Fields(Error(req, kind, code));
    assert [1] + fields + [] == [1] + Digits(4, req) + [kind] + Digits(4, code);
  }

  lemma KindThenCode(sc: SizeCodec, kind: byte, code: nat)
    ensures ArgBytes(sc, [Scalar(1), Scalar(4)], [Num(kind), Num(code)]) == [kind] + Digits(4, code)
  {
    var types, args := [Scalar(1), Scalar(4)], [Num(kind), Num(code)];
    NumberOnWire(sc, 1, kind);
    LowDigit(kind);
    NumberOnWire(sc, 4, code);
    assert types[1..] == [Scalar(4)] && args[1..] == [Num(code)];
    assert types[1..][1..] == [];
    assert ArgBytes(sc, types[1..], args[1..]) == Digits(4, code) + [];
  }
}

/** MLXDR slots: decoding and classifying them, and aggregating their payloads into the one
    `ChannelOperation` the channel contract takes. */
module Mlxdr {
  import opened Wrappers
  import opened ScVals

  datatype OperationKind = Create | Spend | Deposit | Withdraw

  datatype MlxdrError = Base64 | TooShort | MissingPrefix | UnknownTypeByte(b: byte) | Xdr | BadShape

  datatype DecodedOperation = DecodedOperation(kind: OperationKind, utxo: seq<byte>, amount: i128)

  /** One list per operation kind, as in `Classified` and in the four vectors of the aggregators. */
  datatype Buckets<T> = Buckets(create: seq<T>, spend: seq<T>, deposit: seq<T>, withdraw: seq<T>) {
    function Of(k: OperationKind): seq<T> {
      match k
      case Create => create
      case Spend => spend
      case Deposit => deposit
      case Withdraw => withdraw
    }

    function Push(k: OperationKind, x: T): Buckets<T> {
      match k
      case Create => this.(create := create + [x])
      case Spend => this.(spend := spend + [x])
      case Deposit => this.(deposit := deposit + [x])
      case Withdraw => this.(withdraw := withdraw + [x])
    }
  }

  function KindOf(b: byte): Result<OperationKind, MlxdrError> {
    if b == 0x04 then Ok(Create)
    else if b == 0x05 then Ok(Spend)
    else if b == 0x06 then Ok(Deposit)
    else if b == 0x07 then Ok(Withdraw)
    else Err(UnknownTypeByte(b))
  }

  function TypeByte(k: OperationKind): byte {
    match k
    case Create => 0x04
    case Spend => 0x05
    case Deposit => 0x06
    case Withdraw => 0x07
  }

  /** base64, `ML` prefix, type byte: the opening that every walk over the slots repeats. */
  function Frame(c: Codec, s: string): Result<(OperationKind, seq<byte>), MlxdrError> {
    match c.b64Decode(s)
    case None => Err(Base64)
    case Some(bytes) =>
      if |bytes| < 3 then Err(TooShort)
      else if bytes[0] != 0x30 || bytes[1] != 0xb0 then Err(MissingPrefix)
      else
        var kind :- KindOf(bytes[2]);
        Ok((kind, bytes[3..]))
  }

  /** The outer `ScVal::Vec([operation, signature])`. */
  function Outer(c: Codec, body: seq<byte>): Result<seq<ScVal>, MlxdrError> {
    match c.fromXdr(body)
    case None => Err(Xdr)
    case Some(ScVec(Some(items))) => Ok(items)
    case Some(_) => Err(BadShape)
  }

  function Encode(c: Codec, k: OperationKind, outer: seq<ScVal>): Result<string, MlxdrError> {
    match c.toXdr(VecOf(outer))
    case None => Err(Xdr)
    case Some(xdr) => Ok(c.b64Encode([0x30, 0xb0, TypeByte(k)] + xdr))
  }

  /** What is encoded is read back frame by frame. */
  lemma EncodeThenRead(c: Codec, k: OperationKind, outer: seq<ScVal>)
    requires RoundTrips(c) && Encode(c, k, outer).Ok?
    ensures var f := Frame(c, Encode(c, k, outer).value);
      f.Ok? && f.value.0 == k && Outer(c, f.value.1) == Ok(outer)
  {
    var xdr := c.toXdr(VecOf(outer)).value;
    assert ([0x30, 0xb0, TypeByte(k)] + xdr)[3..] == xdr;
  }

  /** Utxo and amount of an operation payload, by kind. */
  function DecodePayload(k: OperationKind, payload: seq<ScVal>): Result<DecodedOperation, MlxdrError> {
    match k
    case Create =>
      if |payload| != 2 || !payload[0].ScBytes? || !payload[1].ScI128? then Err(BadShape)
      else Ok(DecodedOperation(k, payload[0].bytes, Join(payload[1].hi, payload[1].lo)))
    case Spend =>
      if |payload| == 0 || !payload[0].ScBytes? then Err(BadShape)
      else Ok(DecodedOperation(k, payload[0].bytes, 0))
    case _ =>
      if |payload| < 2 || !payload[1].ScI128? then Err(BadShape)
      else Ok(DecodedOperation(k, [], Join(payload[1].hi, payload[1].lo)))
  }

  function DecodeOp(k: OperationKind, op: ScVal): Result<DecodedOperation, MlxdrError> {
    if op.ScVec? && op.items.Some? then DecodePayload(k, op.items.value) else Err(BadShape)
  }

  function Decode(c: Codec, s: string): Result<DecodedOperation, MlxdrError> {
    var frame :- Frame(c, s);
    var outer :- Outer(c, frame.1);
    if outer == [] then Err(BadShape) else DecodeOp(frame.0, outer[0])
  }

  /** Kind and operation payload of a slot, all the aggregators ask for. */
  function Payload(c: Codec, s: string): Result<(OperationKind, ScVal), MlxdrError> {
    var frame :- Frame(c, s);
    var outer :- Outer(c, frame.1);
    if outer == [] then Err(BadShape) else Ok((frame.0, outer[0]))
  }

  // ---- the slot format ----

  /** `s` is base64 of `ML` in its two bytes, the type byte, and XDR of a vector of these. */
  ghost predicate IsSlot(c: Codec, s: string, k: OperationKind, outer: seq<ScVal>) {
    exists body, n: byte ::
      && n == (match k case Create => 4 case Spend => 5 case Deposit => 6 case Withdraw => 7)
      && c.b64Decode(s) == Some([0x30, 0xb0, n] + body) && c.fromXdr(body) == Some(ScVec(Some(outer)))
  }

  /** Slots are read exactly when they have that format. */
  lemma ReadsExactlyWhen(c: Codec, s: string, k: OperationKind, outer: seq<ScVal>)
    ensures IsSlot(c, s, k, outer) <==>
              Frame(c, s).Ok? && Frame(c, s).value.0 == k && Outer(c, Frame(c, s).value.1) == Ok(outer)
  {
    if IsSlot(c, s, k, outer) {
      var body, n: byte :|
        && n == (match k case Create => 4 case Spend => 5 case Deposit => 6 case Withdraw => 7)
        && c.b64Decode(s) == Some([0x30, 0xb0, n] + body) && c.fromXdr(body) == Some(ScVec(Some(outer)));
      assert ([0x30, 0xb0, n] + body)[3..] == body;
    } else if Frame(c, s).Ok? {
      var bytes := c.b64Decode(s).value;
      assert bytes == [0x30, 0xb0, bytes[2]] + bytes[3..];
    }
  }

  /** Why a slot's frame is refused. */
  lemma FrameErrors(c: Codec, s: string)
    ensures Frame(c, s) == Err(Base64) <==> c.b64Decode(s) == None
    ensures Frame(c, s) == Err(TooShort) <==> c.b64Decode(s).Some? && |c.b64Decode(s).value| < 3
    ensures Frame(c, s) == Err(MissingPrefix) <==>
              c.b64Decode(s).Some? && |c.b64Decode(s).value| >= 3 && c.b64Decode(s).value[..2] != [0x30, 0xb0]
    ensures forall b :: Frame(c, s) == Err(UnknownTypeByte(b)) <==>
              && c.b64Decode(s).Some? && |c.b64Decode(s).value| >= 3
              && c.b64Decode(s).value[..3] == [0x30, 0xb0, b] && !(4 <= b <= 7)
  {
    if c.b64Decode(s).Some? && |c.b64Decode(s).value| >= 3 {
      var bytes := c.b64Decode(s).value;
      assert bytes[..2] == [bytes[0], bytes[1]] && bytes[..3] == [bytes[0], bytes[1], bytes[2]];
    }
  }

  /** What an operation payload says, by kind: a Create has exactly its UTXO and an amount, a Spend begins with
      its UTXO, a Deposit or Withdraw has an amount second. */
  ghost predicate Says(payload: seq<ScVal>, d: DecodedOperation) {
    match d.kind
    case Create =>
      exists hi: i64, lo: u64 ::
        payload == [ScBytes(d.utxo), ScI128(hi, lo)] && d.amount == hi * 0x1_0000_0000_0000_0000 + lo
    case Spend => payload != [] && payload[0] == ScBytes(d.utxo) && d.amount == 0
    case _ =>
      |payload| >= 2 && d.utxo == []
      && exists hi: i64, lo: u64 :: payload[1] == ScI128(hi, lo) && d.amount == hi * 0x1_0000_0000_0000_0000 + lo
  }

  /** A slot decodes to an operation exactly when it has the format and its payload says so. */
  lemma DecodesExactlyWhen(c: Codec, s: string, d: DecodedOperation)
    ensures Decode(c, s) == Ok(d) <==>
              exists payload, rest :: IsSlot(c, s, d.kind, [VecOf(payload)] + rest) && Says(payload, d)
  {
    if Decode(c, s) == Ok(d) {
      var outer := Outer(c, Frame(c, s).value.1).value;
      var payload := outer[0].items.value;
      ReadsExactlyWhen(c, s, d.kind, outer);
      assert outer == [VecOf(payload)] + outer[1..];
      assert IsSlot(c, s, d.kind, [VecOf(payload)] + outer[1..]) && Says(payload, d);
    }
    if exists payload, rest :: IsSlot(c, s, d.kind, [VecOf(payload)] + rest) && Says(payload, d) {
      var payload, rest :| IsSlot(c, s, d.kind, [VecOf(payload)] + rest) && Says(payload, d);
      ReadsExactlyWhen(c, s, d.kind, [VecOf(payload)] + rest);
    }
  }

  // ---- the two walks, slot by slot, stopping at the first error ----

  function Classified(c: Codec, slots: seq<string>): Result<Buckets<DecodedOperation>, MlxdrError> {
    if slots == [] then Ok(Buckets([], [], [], []))
    else
      var before :- Classified(c, slots[..|slots| - 1]);
      var op :- Decode(c, slots[|slots| - 1]);
      Ok(before.Push(op.kind, op))
  }

  function Aggregated(c: Codec, slots: seq<string>): Result<Buckets<ScVal>, MlxdrError> {
    if slots == [] then Ok(Buckets([], [], [], []))
    else
      var before :- Aggregated(c, slots[..|slots| - 1]);
      var op :- Payload(c, slots[|slots| - 1]);
      Ok(before.Push(op.0, op.1))
  }

  method Classify(c: Codec, slots: seq<string>) returns (out: Result<Buckets<DecodedOperation>, MlxdrError>)
    ensures out == Classified(c, slots)
  {
    var buckets := Buckets([], [], [], []);
    for i := 0 to |slots|
      invariant Classified(c, slots[..i]) == Ok(buckets)
    {
      assert slots[..i + 1][..i] == slots[..i];
      var op := Decode(c, slots[i]);
      if op.Err? {
        FirstErrorWins(c, slots, i);
        return Err(op.error);
      }
      buckets := buckets.Push(op.value.kind, op.value);
    }
    assert slots[..|slots|] == slots;
    return Ok(buckets);
  }

  lemma {:induction false} FirstErrorWins(c: Codec, slots: seq<string>, i: nat)
    requires i < |slots| && Classified(c, slots[..i]).Ok? && Decode(c, slots[i]).Err?
    ensures Classified(c, slots) == Err(Decode(c, slots[i]).error)
    decreases |slots|
  {
    var front := slots[..|slots| - 1];
    if i == |slots| - 1 {
      assert front == slots[..i];
    } else {
      assert front[..i] == slots[..i];
      FirstErrorWins(c, front, i);
    }
  }

  lemma {:induction false} FirstBadPayloadWins(c: Codec, slots: seq<string>, i: nat)
    requires i < |slots| && Aggregated(c, slots[..i]).Ok? && Payload(c, slots[i]).Err?
    ensures Aggregated(c, slots) == Err(Payload(c, slots[i]).error)
    decreases |slots|
  {
    var front := slots[..|slots| - 1];
    if i == |slots| - 1 {
      assert front == slots[..i];
    } else {
      assert front[..i] == slots[..i];
      FirstBadPayloadWins(c, front, i);
    }
  }

  // ---- the ChannelOperation struct ----

  /** A `#[contracttype]` struct: a map from field symbols, in alphabetic order. */
  function ChannelOperation(b: Buckets<ScVal>): ScVal {
    ScMap(Some([
      ScMapEntry(ScSymbol("create"), VecOf(b.create)),
      ScMapEntry(ScSymbol("deposit"), VecOf(b.deposit)),
      ScMapEntry(ScSymbol("spend"), VecOf(b.spend)),
      ScMapEntry(ScSymbol("withdraw"), VecOf(b.withdraw))]))
  }

  method Aggregate(c: Codec, slots: seq<string>, extraCreate: Option<ScVal>) returns (out: Result<ScVal, MlxdrError>)
    ensures match Aggregated(c, slots)
      case Err(e) => out == Err(e)
      case Ok(b) => out == Ok(ChannelOperation(if extraCreate.Some? then b.Push(Create, extraCreate.value) else b))
  {
    var buckets := Buckets([], [], [], []);
    for i := 0 to |slots|
      invariant Aggregated(c, slots[..i]) == Ok(buckets)
    {
      assert slots[..i + 1][..i] == slots[..i];
      var op := Payload(c, slots[i]);
      if op.Err? {
        FirstBadPayloadWins(c, slots, i);
        return Err(op.error);
      }
      buckets := buckets.Push(op.value.0, op.value.1);
    }
    assert slots[..|slots|] == slots;
    if extraCreate.Some? {
      buckets := buckets.Push(Create, extraCreate.value);
    }
    return Ok(ChannelOperation(buckets));
  }

  /** The value of a struct field, found by its symbol as the contract finds it. */
  function Field(entries: seq<ScMapEntry>, name: string): Option<seq<ScVal>> {
    if entries == [] then None
    else if entries[0].key == ScSymbol(name) then
      if entries[0].val.ScVec? then entries[0].val.items else None
    else Field(entries[1..], name)
  }

  /** What the contract reads out of its argument. */
  function ReadOperation(v: ScVal): Option<Buckets<ScVal>> {
    if !v.ScMap? || v.entries.None? then None
    else
      match (Field(v.entries.value, "create"), Field(v.entries.value, "spend"),
             Field(v.entries.value, "deposit"), Field(v.entries.value, "withdraw"))
      case (Some(a), Some(b), Some(d), Some(w)) => Some(Buckets(a, b, d, w))
      case _ => None
  }

  lemma ReadBack(b: Buckets<ScVal>)
    ensures ReadOperation(ChannelOperation(b)) == Some(b)
  {
    var es := ChannelOperation(b).entries.value;
    assert "create" != "deposit" && "create" != "spend" && "create" != "withdraw" by {
      assert "create"[0] == 'c' && "deposit"[0] == 'd' && "spend"[0] == 's' && "withdraw"[0] == 'w';
    }
    assert "deposit" != "spend" && "deposit" != "withdraw" && "spend" != "withdraw" by {
      assert "deposit"[0] == 'd' && "spend"[0] == 's' && "withdraw"[0] == 'w';
    }
    assert Field(es[3..], "withdraw") == Some(b.withdraw);
    assert es[2..][1..] == es[3..] && es[1..][1..] == es[2..];
    assert Field(es[2..], "spend") == Some(b.spend) && Field(es[2..], "withdraw") == Some(b.withdraw);
    assert Field(es[1..], "spend") == Some(b.spend) && Field(es[1..], "withdraw") == Some(b.withdraw);
    assert Field(es[1..], "deposit") == Some(b.deposit);
  }

  // ---- the two walks agree ----

  /** The aggregated operations of a kind are, one for one and in order, the classified ones. */
  ghost predicate SameOperations(ops: Buckets<ScVal>, cl: Buckets<DecodedOperation>) {
    forall k: OperationKind :: |ops.Of(k)| == |cl.Of(k)| &&
      forall i :: 0 <= i < |ops.Of(k)| ==> DecodeOp(k, ops.Of(k)[i]) == Ok(cl.Of(k)[i])
  }

  /** Whatever `classify` accepts the aggregators accept, with the same operations in order. */
  lemma {:induction false} AggregateMatchesClassify(c: Codec, slots: seq<string>)
    requires Classified(c, slots).Ok?
    ensures Aggregated(c, slots).Ok? && SameOperations(Aggregated(c, slots).value, Classified(c, slots).value)
  {
    if slots != [] {
      var front, last := slots[..|slots| - 1], slots[|slots| - 1];
      AggregateMatchesClassify(c, front);
      PushKeepsSame(
        Aggregated(c, front).value, Classified(c, front).value, Payload(c, last).value.1, Decode(c, last).value);
    }
  }

  lemma PushKeepsSame(ops: Buckets<ScVal>, cl: Buckets<DecodedOperation>, op: ScVal, d: DecodedOperation)
    requires SameOperations(ops, cl) && DecodeOp(d.kind, op) == Ok(d)
    ensures SameOperations(ops.Push(d.kind, op), cl.Push(d.kind, d))
  {
    var ops', cl' := ops.Push(d.kind, op), cl.Push(d.kind, d);
    forall k: OperationKind ensures |ops'.Of(k)| == |cl'.Of(k)| &&
      forall i :: 0 <= i < |ops'.Of(k)| ==> DecodeOp(k, ops'.Of(k)[i]) == Ok(cl'.Of(k)[i]) {
      assert |ops.Of(k)| == |cl.Of(k)|;
    }
  }
}

/** Signatures on Spend slots: reading them out, finding the unsigned ones, signing one. */
module SpendSlots {
  import opened Wrappers
  import opened ScVals
  import opened Mlxdr

  datatype SpendSignature = SpendSignature(utxo: seq<byte>, sig: seq<byte>, exp: u32)

  /** The P256 signature one slot carries, if it is a Spend with a well-formed one. */
  function SignatureOf(c: Codec, s: string): Result<Option<SpendSignature>, MlxdrError> {
    var frame :- Frame(c, s);
    if !frame.0.Spend? then Ok(None)
    else
      var outer :- Outer(c, frame.1);
      if |outer| < 2 || !outer[1].ScVec? || outer[1].items.None? then Ok(None)
      else
        var wrapper := outer[1].items.value;
        if |wrapper| < 2 || !wrapper[0].ScI128? || !wrapper[1].ScBytes? || |wrapper[1].bytes| != 64 then Ok(None)
        else if !outer[0].ScVec? || outer[0].items.None? then Err(BadShape)
        else
          var payload := outer[0].items.value;
          if |payload| == 0 || !payload[0].ScBytes? || |payload[0].bytes| != 65 then Ok(None)
          else Ok(Some(SpendSignature(payload[0].bytes, wrapper[1].bytes, wrapper[0].lo % TWO_32)))
  }

  /** The slots' signatures in slot order, or the first error. */
  function Signatures(c: Codec, slots: seq<string>): Result<seq<SpendSignature>, MlxdrError> {
    if slots == [] then Ok([])
    else
      var before :- Signatures(c, slots[..|slots| - 1]);
      var sig :- SignatureOf(c, slots[|slots| - 1]);
      Ok(if sig.Some? then before + [sig.value] else before)
  }

  method ExtractSpendSignatures(c: Codec, slots: seq<string>) returns (out: Result<seq<SpendSignature>, MlxdrError>)
    ensures out == Signatures(c, slots)
  {
    var found: seq<SpendSignature> := [];
    for i := 0 to |slots|
      invariant Signatures(c, slots[..i]) == Ok(found)
    {
      assert slots[..i + 1][..i] == slots[..i];
      var sig := SignatureOf(c, slots[i]);
      if sig.Err? {
        FirstBadSlotWins(c, slots, i);
        return Err(sig.error);
      }
      if sig.value.Some? {
        found := found + [sig.value.value];
      }
    }
    assert slots[..|slots|] == slots;
    return Ok(found);
  }

  lemma {:induction false} FirstBadSlotWins(c: Codec, slots: seq<string>, i: nat)
    requires i < |slots| && Signatures(c, slots[..i]).Ok? && SignatureOf(c, slots[i]).Err?
    ensures Signatures(c, slots) == Err(SignatureOf(c, slots[i]).error)
    decreases |slots|
  {
    var front := slots[..|slots| - 1];
    if i == |slots| - 1 {
      assert front == slots[..i];
    } else {
      assert front[..i] == slots[..i];
      FirstBadSlotWins(c, front, i);
    }
  }

  /** The 65-byte UTXO key of a Spend slot whose signature wrapper is missing or empty. */
  function UnsignedSpendUtxo(c: Codec, s: string): Result<Option<seq<byte>>, MlxdrError> {
    var frame :- Frame(c, s);
    if !frame.0.Spend? then Ok(None)
    else
      var outer :- Outer(c, frame.1);
      if !(|outer| < 2 || (outer[1].ScVec? && outer[1].items.Some? && outer[1].items.value == [])) then Ok(None)
      else if outer == [] || !outer[0].ScVec? || outer[0].items.None? then Err(BadShape)
      else
        var payload := outer[0].items.value;
        if payload == [] || !payload[0].ScBytes? || |payload[0].bytes| != 65 then Err(BadShape)
        else Ok(Some(payload[0].bytes))
  }

  /** A wrapper with an expiration in its first element and 64 bytes in its second. */
  ghost predicate Wraps(wrapper: ScVal, sig: SpendSignature) {
    exists hi: i64, lo: u64, rest :: wrapper == VecOf([ScI128(hi, lo), ScBytes(sig.sig)] + rest)
      && |sig.sig| == 64 && sig.exp == lo % 0x1_0000_0000
  }

  /** The slot is a Spend of this 65-byte UTXO; `rest` is what follows the operation. */
  ghost predicate SpendsUtxo(c: Codec, s: string, utxo: seq<byte>, rest: seq<ScVal>) {
    |utxo| == 65 && exists more :: IsSlot(c, s, Spend, [VecOf([ScBytes(utxo)] + more)] + rest)
  }

  lemma SpendIsRead(c: Codec, s: string, utxo: seq<byte>, rest: seq<ScVal>)
    ensures SpendsUtxo(c, s, utxo, rest) <==>
      (&& |utxo| == 65 && Frame(c, s).Ok? && Frame(c, s).value.0.Spend?
       && var outer := Outer(c, Frame(c, s).value.1);
         && outer.Ok? && outer.value != [] && outer.value[1..] == rest
         && outer.value[0].ScVec? && outer.value[0].items.Some?
         && outer.value[0].items.value != [] && outer.value[0].items.value[0] == ScBytes(utxo))
  {
    if SpendsUtxo(c, s, utxo, rest) {
      var more :| IsSlot(c, s, Spend, [VecOf([ScBytes(utxo)] + more)] + rest);
      ReadsExactlyWhen(c, s, Spend, [VecOf([ScBytes(utxo)] + more)] + rest);
      assert ([VecOf([ScBytes(utxo)] + more)] + rest)[1..] == rest;
    } else if Frame(c, s).Ok? && Outer(c, Frame(c, s).value.1).Ok? {
      var outer := Outer(c, Frame(c, s).value.1).value;
      if outer != [] && outer[0].ScVec? && outer[0].items.Some? && outer[0].items.value != [] {
        var payload := outer[0].items.value;
        ReadsExactlyWhen(c, s, Frame(c, s).value.0, outer);
        assert payload == [payload[0]] + payload[1..] && outer == [VecOf([payload[0]] + payload[1..])] + outer[1..];
      }
    }
  }

  lemma WrappedIsRead(c: Codec, s: string, sig: SpendSignature, wrapper: ScVal, rest: seq<ScVal>)
    requires SpendsUtxo(c, s, sig.utxo, [wrapper] + rest) && Wraps(wrapper, sig)
    ensures SignatureOf(c, s) == Ok(Some(sig))
  {
    SpendIsRead(c, s, sig.utxo, [wrapper] + rest);
    var outer := Outer(c, Frame(c, s).value.1).value;
    assert outer[1] == outer[1..][0] == wrapper;
  }

  lemma ReadIsWrapped(c: Codec, s: string, sig: SpendSignature) returns (wrapper: ScVal, rest: seq<ScVal>)
    requires SignatureOf(c, s) == Ok(Some(sig))
    ensures SpendsUtxo(c, s, sig.utxo, [wrapper] + rest) && Wraps(wrapper, sig)
  {
    var outer := Outer(c, Frame(c, s).value.1).value;
    var w := outer[1].items.value;
    wrapper, rest := outer[1], outer[2..];
    SpendIsRead(c, s, sig.utxo, outer[1..]);
    assert outer[1..] == [wrapper] + rest;
    assert w == [ScI128(w[0].hi, w[0].lo), ScBytes(sig.sig)] + w[2..];
  }

  /** A slot carries a signature exactly when it is a Spend followed by such a wrapper. */
  lemma CarriesExactlyWhen(c: Codec, s: string, sig: SpendSignature)
    ensures SignatureOf(c, s) == Ok(Some(sig)) <==>
              exists wrapper, rest :: SpendsUtxo(c, s, sig.utxo, [wrapper] + rest) && Wraps(wrapper, sig)
  {
    if SignatureOf(c, s) == Ok(Some(sig)) { var wrapper, rest := ReadIsWrapped(c, s, sig); }
    forall wrapper, rest | SpendsUtxo(c, s, sig.utxo, [wrapper] + rest) && Wraps(wrapper, sig)
      ensures SignatureOf(c, s) == Ok(Some(sig)) {
      WrappedIsRead(c, s, sig, wrapper, rest);
    }
  }

  lemma UnsignedIsRead(c: Codec, s: string, utxo: seq<byte>, rest: seq<ScVal>)
    requires SpendsUtxo(c, s, utxo, rest) && (rest != [] ==> rest[0] == VecOf([]))
    ensures UnsignedSpendUtxo(c, s) == Ok(Some(utxo))
  {
    SpendIsRead(c, s, utxo, rest);
    var outer := Outer(c, Frame(c, s).value.1).value;
    assert |outer| >= 2 ==> outer[1] == outer[1..][0];
  }

  /** A slot is an unsigned spend exactly when nothing, or an empty wrapper, follows the Spend. */
  lemma UnsignedExactlyWhen(c: Codec, s: string, utxo: seq<byte>)
    ensures UnsignedSpendUtxo(c, s) == Ok(Some(utxo)) <==>
              exists rest :: SpendsUtxo(c, s, utxo, rest) && (rest != [] ==> rest[0] == VecOf([]))
  {
    if UnsignedSpendUtxo(c, s) == Ok(Some(utxo)) {
      var outer := Outer(c, Frame(c, s).value.1).value;
      SpendIsRead(c, s, utxo, outer[1..]);
      assert |outer| >= 2 ==> outer[1] == outer[1..][0];
    }
    forall rest | SpendsUtxo(c, s, utxo, rest) && (rest != [] ==> rest[0] == VecOf([]))
      ensures UnsignedSpendUtxo(c, s) == Ok(Some(utxo)) {
      UnsignedIsRead(c, s, utxo, rest);
    }
  }

  /** It is passed over exactly when it is of another kind, or followed by something else. */
  lemma PassedOverExactlyWhen(c: Codec, s: string)
    ensures UnsignedSpendUtxo(c, s) == Ok(None) <==>
              || (Frame(c, s).Ok? && !Frame(c, s).value.0.Spend?)
              || exists outer :: IsSlot(c, s, Spend, outer) && |outer| >= 2 && outer[1] != VecOf([])
  {
    forall outer ensures IsSlot(c, s, Spend, outer) <==>
      Frame(c, s).Ok? && Frame(c, s).value.0.Spend? && Outer(c, Frame(c, s).value.1) == Ok(outer) {
      ReadsExactlyWhen(c, s, Spend, outer);
    }
    if Frame(c, s).Ok? && Outer(c, Frame(c, s).value.1).Ok? {
      var outer := Outer(c, Frame(c, s).value.1).value;
      assert Frame(c, s).value.0.Spend? ==> IsSlot(c, s, Spend, outer);
    }
  }

  /** `to_le_bytes` of a u32. */
  function LittleEndian(n: u32): seq<byte> {
    [(n % 256) as byte, (n / 256 % 256) as byte, (n / 65536 % 256) as byte, (n / 16777216) as byte]
  }

  /** What is signed: contract strkey bytes, XDR of the conditions, expiration ledger. */
  function AuthPayloadPreimage(channel: seq<byte>, conditionsXdr: seq<byte>, exp: u32): seq<byte> {
    channel + conditionsXdr + LittleEndian(exp)
  }

  /** A signing key by its derivation index, over a preimage. */
  type Signer = (nat, seq<byte>) -> seq<byte>

  /** The conditions a Spend slot carries, with their XDR. */
  function Conditions(c: Codec, s: string): Result<seq<byte>, MlxdrError> {
    var frame :- Frame(c, s);
    if !frame.0.Spend? then Err(BadShape)
    else
      var outer :- Outer(c, frame.1);
      if outer == [] || !outer[0].ScVec? || outer[0].items.None? then Err(BadShape)
      else
        var payload := outer[0].items.value;
        if |payload| < 2 || !payload[1].ScVec? || payload[1].items.None? then Err(BadShape)
        else if payload[1].items.value == [] then Err(BadShape)
        else
          match c.toXdr(payload[1])
          case None => Err(Xdr)
          case Some(xdr) => Ok(xdr)
  }

  function SignSpendSlot(c: Codec, s: string, channel: seq<byte>, exp: u32, signer: Signer, key: nat)
    : Result<string, MlxdrError>
  {
    var xdr :- Conditions(c, s);
    var frame :- Frame(c, s);
    var outer :- Outer(c, frame.1);
    if outer == [] then Err(BadShape)
    else
      var sig := signer(key, AuthPayloadPreimage(channel, xdr, exp));
      Encode(c, Spend, [outer[0], VecOf([ScI128(0, exp), ScBytes(sig)])])
  }

  ghost predicate SignsIn64Bytes(signer: Signer) { forall key, pre :: |signer(key, pre)| == 64 }

  /** The XDR of element 1 of the slot's own operation payload, its conditions. */
  ghost predicate CarriesConditions(c: Codec, s: string, xdr: seq<byte>) {
    && Frame(c, s).Ok? && Frame(c, s).value.0.Spend?
    && var outer := Outer(c, Frame(c, s).value.1);
      && outer.Ok? && outer.value != [] && outer.value[0].ScVec? && outer.value[0].items.Some?
      && |outer.value[0].items.value| >= 2
      && c.toXdr(outer.value[0].items.value[1]) == Some(xdr)
  }

  /** `pre` is the channel, the slot's conditions in XDR, and the expiration in four bytes, least first. */
  ghost predicate CommitsTo(c: Codec, s: string, channel: seq<byte>, exp: u32, pre: seq<byte>) {
    && |channel| + 4 <= |pre| && pre[..|channel|] == channel
    && CarriesConditions(c, s, pre[|channel|..|pre| - 4])
    && var last := pre[|pre| - 4..];
      exp == last[0] as int + 256 * last[1] as int + 65536 * last[2] as int + 16777216 * last[3] as int
  }

  /** `s` is a Spend whose payload has these conditions, at least one, second. */
  ghost predicate SpendsOn(
      c: Codec, s: string, conditions: seq<ScVal>, first: ScVal, rest: seq<ScVal>, more: seq<ScVal>)
  {
    conditions != [] && IsSlot(c, s, Spend, [VecOf([first, VecOf(conditions)] + rest)] + more)
  }

  /** A slot has conditions to sign exactly when it is a Spend with at least one that can be written as XDR. */
  lemma ConditionsExactlyWhen(c: Codec, s: string, xdr: seq<byte>)
    ensures Conditions(c, s) == Ok(xdr) <==>
              exists conditions, first, rest, more ::
                SpendsOn(c, s, conditions, first, rest, more) && c.toXdr(VecOf(conditions)) == Some(xdr)
  {
    if Conditions(c, s).Ok? {
      var outer := Outer(c, Frame(c, s).value.1).value;
      var payload := outer[0].items.value;
      ReadsExactlyWhen(c, s, Spend, outer);
      assert payload == [payload[0], VecOf(payload[1].items.value)] + payload[2..] && outer == [outer[0]] + outer[1..];
      assert SpendsOn(c, s, payload[1].items.value, payload[0], payload[2..], outer[1..]);
    }
    forall conditions, first, rest, more | SpendsOn(c, s, conditions, first, rest, more)
      ensures Conditions(c, s) == match c.toXdr(VecOf(conditions)) case None => Err(Xdr) case Some(x) => Ok(x) {
      ReadsExactlyWhen(c, s, Spend, [VecOf([first, VecOf(conditions)] + rest)] + more);
    }
  }

  lemma LittleEndianSums(n: u32)
    ensures var b := LittleEndian(n);
      |b| == 4 && n == b[0] as int + 256 * b[1] as int + 65536 * b[2] as int + 16777216 * b[3] as int
  {
    assert n / 65536 == n / 256 / 256 && n / 16777216 == n / 65536 / 256;
  }

  /** For one channel equal preimages have equal conditions and equal expiration. */
  lemma PreimageDetermines(
      c: Codec, s: string, t: string, channel: seq<byte>, exp: u32, until: u32, pre: seq<byte>, a: seq<byte>,
      b: seq<byte>)
    requires CommitsTo(c, s, channel, exp, pre) && CommitsTo(c, t, channel, until, pre)
    requires CarriesConditions(c, s, a) && CarriesConditions(c, t, b)
    ensures a == b && exp == until
  {}

  /** What is signed commits to the channel, the slot's own conditions and the expiration. */
  lemma SignedCommits(c: Codec, s: string, channel: seq<byte>, exp: u32)
    requires Conditions(c, s).Ok?
    ensures CommitsTo(c, s, channel, exp, AuthPayloadPreimage(channel, Conditions(c, s).value, exp))
  {
    var xdr := Conditions(c, s).value;
    var pre := AuthPayloadPreimage(channel, xdr, exp);
    LittleEndianSums(exp);
    assert pre[|channel|..|pre| - 4] == xdr && pre[|pre| - 4..] == LittleEndian(exp);
  }

  /** A slot can be signed exactly when it has conditions to sign and its signed form can be written as XDR. */
  lemma SignableExactlyWhen(c: Codec, s: string, channel: seq<byte>, exp: u32, signer: Signer, key: nat)
    ensures SignSpendSlot(c, s, channel, exp, signer, key).Ok? <==>
              && Conditions(c, s).Ok?
              && var sig := signer(key, AuthPayloadPreimage(channel, Conditions(c, s).value, exp));
                exists operation, more ::
                  && IsSlot(c, s, Spend, [operation] + more)
                  && c.toXdr(VecOf([operation, VecOf([ScI128(0, exp), ScBytes(sig)])])).Some?
  {
    if Conditions(c, s).Ok? {
      var outer := Outer(c, Frame(c, s).value.1).value;
      ReadsExactlyWhen(c, s, Spend, outer);
      assert outer == [outer[0]] + outer[1..];
      forall operation, more | IsSlot(c, s, Spend, [operation] + more) ensures operation == outer[0] {
        ReadsExactlyWhen(c, s, Spend, [operation] + more);
      }
    }
  }

  /** Signing an unsigned slot. It had no signature; afterwards it is not unsigned, decodes and
      aggregates as before, and carries its own UTXO, the key's signature committing to the channel, its
      own conditions and the expiration, and that expiration, for every u32. */
  lemma SigningOneSlot(c: Codec, s: string, channel: seq<byte>, exp: u32, signer: Signer, key: nat)
    returns (pre: seq<byte>)
    requires RoundTrips(c) && SignsIn64Bytes(signer)
    requires UnsignedSpendUtxo(c, s).Ok? && UnsignedSpendUtxo(c, s).value.Some?
    requires SignSpendSlot(c, s, channel, exp, signer, key).Ok?
    ensures CommitsTo(c, s, channel, exp, pre)
    ensures Conditions(c, s).Ok? && pre == AuthPayloadPreimage(channel, Conditions(c, s).value, exp)
    ensures var t := SignSpendSlot(c, s, channel, exp, signer, key).value;
      && UnsignedSpendUtxo(c, t) == Ok(None)
      && Decode(c, t) == Decode(c, s)
      && Payload(c, t) == Payload(c, s)
      && SignatureOf(c, s) == Ok(None)
      && SignatureOf(c, t) == Ok(Some(SpendSignature(UnsignedSpendUtxo(c, s).value.value, signer(key, pre), exp)))
  {
    var outer := Outer(c, Frame(c, s).value.1).value;
    pre := AuthPayloadPreimage(channel, Conditions(c, s).value, exp);
    SignedCommits(c, s, channel, exp);
    EncodeThenRead(c, Spend, [outer[0], VecOf([ScI128(0, exp), ScBytes(signer(key, pre))])]);
  }
}

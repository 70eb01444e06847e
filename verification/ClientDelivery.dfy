/** What the client's bundles do for those they are meant for: the operations read back from the slots, by
    kind and in order, with the keys, accounts, amounts and conditions that the caller asked for. */
module ClientDelivery {
  import opened Wrappers
  import opened ScVals
  import opened Mlxdr
  import opened Wallet
  import opened Client
  import opened ClientBundles

  /** The operations of one kind, in order. */
  function OfKind(ops: seq<Op>, k: OperationKind): seq<Op> {
    if ops == [] then []
    else OfKind(ops[..|ops| - 1], k) + if ops[|ops| - 1].kind == k then [ops[|ops| - 1]] else []
  }

  /** One for one and in order, operations decode to their kind, UTXO and amount, and their payloads are the
      tuples that carry key or account, amount and conditions. */
  ghost predicate Delivers(ops: seq<Op>, ds: seq<DecodedOperation>, payloads: seq<ScVal>) {
    && |ds| == |ops| && |payloads| == |ops|
    && forall i :: 0 <= i < |ops| ==>
         InI128(ops[i].amount) && ds[i] == Decoded(ops[i]) && IsPayload(ops[i], payloads[i])
  }

  ghost predicate IsPayload(op: Op, v: ScVal) {
    match op.kind
    case Create => exists amount :: v == VecOf([ScBytes(op.key), amount])
    case Spend => v == VecOf([ScBytes(op.key), VecOf(op.conditions)])
    case _ => exists amount :: v == VecOf([ScAddr(Account(op.key)), amount, VecOf(op.conditions)])
  }

  lemma OneMoreOfKind(front: seq<Op>, op: Op, k: OperationKind)
    ensures OfKind(front + [op], k) == OfKind(front, k) + if op.kind == k then [op] else []
  {
    assert (front + [op])[..|front|] == front;
  }

  lemma SlotIsPayload(c: Codec, op: Op)
    requires RoundTrips(c) && Slot(c, op).Ok?
    ensures InI128(op.amount) && Decode(c, Slot(c, op).value) == Ok(Decoded(op))
    ensures var p := Payload(c, Slot(c, op).value); p.Ok? && p.value.0 == op.kind && IsPayload(op, p.value.1)
  {
    SlotDecodes(c, op);
    EncodeThenRead(c, op.kind, [VecOf(PayloadOf(op).value), VecOf(op.signature)]);
  }

  ghost predicate AllDeliver(ops: seq<Op>, cl: Buckets<DecodedOperation>, b: Buckets<ScVal>) {
    forall k: OperationKind :: Delivers(OfKind(ops, k), cl.Of(k), b.Of(k))
  }

  lemma DeliversOneMore(ops: seq<Op>, op: Op, ds: seq<DecodedOperation>, vs: seq<ScVal>, v: ScVal)
    requires Delivers(ops, ds, vs) && InI128(op.amount) && IsPayload(op, v)
    ensures Delivers(ops + [op], ds + [Decoded(op)], vs + [v])
  {}

  lemma PushDelivers(front: seq<Op>, op: Op, cl: Buckets<DecodedOperation>, b: Buckets<ScVal>, payload: ScVal)
    requires AllDeliver(front, cl, b) && InI128(op.amount) && IsPayload(op, payload)
    ensures AllDeliver(front + [op], cl.Push(op.kind, Decoded(op)), b.Push(op.kind, payload))
  {
    var cl', b' := cl.Push(op.kind, Decoded(op)), b.Push(op.kind, payload);
    forall k: OperationKind ensures Delivers(OfKind(front + [op], k), cl'.Of(k), b'.Of(k)) {
      OneMoreOfKind(front, op, k);
      assert Delivers(OfKind(front, k), cl.Of(k), b.Of(k));
      if k == op.kind { DeliversOneMore(OfKind(front, k), op, cl.Of(k), b.Of(k), payload); }
    }
  }

  /** The slots of operations classify and aggregate to those operations, kind by kind and in order. */
  lemma {:induction false} SlotsDeliver(c: Codec, ops: seq<Op>, slots: seq<string>)
    requires RoundTrips(c) && SlotsOf(c, ops, slots)
    ensures Classified(c, slots).Ok? && Aggregated(c, slots).Ok?
    ensures AllDeliver(ops, Classified(c, slots).value, Aggregated(c, slots).value)
  {
    if ops != [] {
      var n := |ops| - 1;
      SlotsDeliver(c, ops[..n], slots[..n]);
      SlotIsPayload(c, ops[n]);
      var payload := Payload(c, slots[n]).value.1;
      PushDelivers(ops[..n], ops[n], Classified(c, slots[..n]).value, Aggregated(c, slots[..n]).value, payload);
      assert ops[..n] + [ops[n]] == ops;
    }
  }

  lemma {:induction false} OfKindConcat(a: seq<Op>, b: seq<Op>, k: OperationKind)
    ensures OfKind(a + b, k) == OfKind(a, k) + OfKind(b, k)
    decreases |b|
  {
    if b == [] {
      assert a + b == a;
    } else {
      var n := |b| - 1;
      assert (a + b)[..|a + b| - 1] == a + b[..n];
      OfKindConcat(a, b[..n], k);
    }
  }

  lemma {:induction false} AllOrNone(ops: seq<Op>, mine: OperationKind, k: OperationKind)
    requires forall i :: 0 <= i < |ops| ==> ops[i].kind == mine
    ensures OfKind(ops, k) == if k == mine then ops else []
  {
    if ops != [] { AllOrNone(ops[..|ops| - 1], mine, k); }
  }

  /** The output to a key of the wallet's own that takes the change, if there is any. */
  ghost predicate IsChange(env: Env, amount: int, ops: seq<Op>) {
    if amount > 0 then exists key: nat :: ops == [Op(Create, env.keyAt(key), amount, [], [])] else ops == []
  }

  /** The key selected at a place, own ones first. */
  function KeyAt(env: Env, sel: Selection, i: nat): seq<byte>
    requires i < |sel.own| + |sel.held|
  {
    if i < |sel.own| then env.keyAt(sel.own[i]) else sel.held[i - |sel.own|].pubkey
  }

  /** A spend of this key with the conditions that demand all these outputs. */
  ghost predicate SpendFor(env: Env, outs: seq<Op>, key: seq<byte>, op: Op) {
    && op.kind == Spend && op.key == key && |op.conditions| == |outs|
    && forall k :: 0 <= k < |outs| ==> op.conditions[k] == env.condition(outs[k])
  }

  ghost predicate SpendsFor(env: Env, sel: Selection, outs: seq<Op>, ops: seq<Op>) {
    |ops| == |sel.own| + |sel.held| && forall i :: 0 <= i < |ops| ==> SpendFor(env, outs, KeyAt(env, sel, i), ops[i])
  }

  lemma {:induction false} OutputsByKind(outputs: seq<Op>)
    requires OnlyOutputs(outputs)
    ensures OfKind(outputs, Spend) == [] && OfKind(outputs, Deposit) == []
  {
    if outputs != [] { OutputsByKind(outputs[..|outputs| - 1]); }
  }

  lemma ThreeByKind(a: seq<Op>, b: seq<Op>, d: seq<Op>, k: OperationKind)
    ensures OfKind(a + b + d, k) == OfKind(a, k) + OfKind(b, k) + OfKind(d, k)
  {
    OfKindConcat(a + b, d, k);
    OfKindConcat(a, b, k);
  }

  lemma PartByKind(outputs: seq<Op>, change: seq<Op>, spends: seq<Op>, k: OperationKind)
    requires forall i :: 0 <= i < |change| ==> change[i].kind == Create
    requires forall i :: 0 <= i < |spends| ==> spends[i].kind == Spend
    ensures OfKind(outputs + change + spends, k)
         == if k == Create then OfKind(outputs, k) + change else if k == Spend then OfKind(outputs, k) + spends
            else OfKind(outputs, k)
  {
    var a, b, d := OfKind(outputs, k), OfKind(change, k), OfKind(spends, k);
    ThreeByKind(outputs, change, spends, k);
    AllOrNone(change, Create, k);
    AllOrNone(spends, Spend, k);
    assert d == [] ==> a + b + d == a + b;
    assert b == [] ==> a + b == a;
  }

  lemma PartsByKind(outputs: seq<Op>, change: seq<Op>, spends: seq<Op>)
    requires OnlyOutputs(outputs)
    requires forall i :: 0 <= i < |change| ==> change[i].kind == Create
    requires forall i :: 0 <= i < |spends| ==> spends[i].kind == Spend
    ensures var ops := outputs + change + spends;
      && OfKind(ops, Create) == OfKind(outputs, Create) + change
      && OfKind(ops, Withdraw) == OfKind(outputs, Withdraw) && OfKind(ops, Deposit) == []
      && OfKind(ops, Spend) == spends
  {
    OutputsByKind(outputs);
    PartByKind(outputs, change, spends, Create);
    PartByKind(outputs, change, spends, Withdraw);
    PartByKind(outputs, change, spends, Deposit);
    PartByKind(outputs, change, spends, Spend);
    assert [] + spends == spends;
  }

  lemma SpendsAreFor(env: Env, sel: Selection, outs: seq<Op>)
    ensures SpendsFor(env, sel, outs, Spends(env, sel, outs))
  {
    var spends := Spends(env, sel, outs);
    forall i | 0 <= i < |spends| ensures SpendFor(env, outs, KeyAt(env, sel, i), spends[i]) {
      if i < |sel.own| {
        assert spends[i] == OwnSpend(env, sel.own[i], outs);
      } else {
        assert spends[i] == HeldSpend(env, sel.held[i - |sel.own|], outs);
      }
    }
  }

  /** A paid bundle by kind: the outputs and the change, and the spends conditioned on all of them. */
  lemma PaidByKind(
      env: Env, outputs: seq<Op>, sel: Selection, before: seq<Utxo>, after: seq<Utxo>, ops: seq<Op>)
    returns (change: seq<Op>)
    requires Paid(env, outputs, sel, before, after, ops) && OnlyOutputs(outputs)
    ensures IsChange(env, sel.change, change)
    ensures OfKind(ops, Create) == OfKind(outputs, Create) + change
    ensures OfKind(ops, Withdraw) == OfKind(outputs, Withdraw) && OfKind(ops, Deposit) == []
    ensures SpendsFor(env, sel, outputs + change, OfKind(ops, Spend))
  {
    var mid;
    change, mid :| ChangeOps(env, sel.change, before, mid, change) && Composed(env, outputs, sel, change, ops)
      && after == Marked(mid, sel.own);
    var spends := Spends(env, sel, outputs + change);
    SpendsAreFor(env, sel, outputs + change);
    PartsByKind(outputs, change, spends);
  }

  /** The operation read creates this amount on this key. */
  predicate Creates(d: DecodedOperation, key: seq<byte>, amount: int) {
    d.kind == Create && d.utxo == key && d.amount == amount
  }

  /** At most the change follows the first `n` operations, on a key of the wallet's own. */
  ghost predicate ThenChange(env: Env, creates: seq<DecodedOperation>, n: nat, amount: int) {
    if amount > 0 then |creates| == n + 1 && exists key: nat :: Creates(creates[n], env.keyAt(key), amount)
    else |creates| == n
  }

  lemma ReadAll(c: Codec, ops: seq<Op>, slots: seq<string>) returns (cl: Buckets<DecodedOperation>, b: Buckets<ScVal>)
    requires RoundTrips(c) && SlotsOf(c, ops, slots)
    ensures Classified(c, slots) == Ok(cl) && Aggregated(c, slots) == Ok(b)
    ensures Delivers(OfKind(ops, Create), cl.create, b.create)
    ensures Delivers(OfKind(ops, Spend), cl.spend, b.spend)
    ensures Delivers(OfKind(ops, Deposit), cl.deposit, b.deposit)
    ensures Delivers(OfKind(ops, Withdraw), cl.withdraw, b.withdraw)
  {
    SlotsDeliver(c, ops, slots);
    cl, b := Classified(c, slots).value, Aggregated(c, slots).value;
    assert cl.Of(Create) == cl.create && b.Of(Create) == b.create;
    assert cl.Of(Spend) == cl.spend && b.Of(Spend) == b.spend;
    assert cl.Of(Deposit) == cl.deposit && b.Of(Deposit) == b.deposit;
    assert cl.Of(Withdraw) == cl.withdraw && b.Of(Withdraw) == b.withdraw;
  }

  lemma ChangeIsRead(env: Env, amount: int, first: seq<Op>, change: seq<Op>, ds: seq<DecodedOperation>, vs: seq<ScVal>)
    requires IsChange(env, amount, change) && Delivers(first + change, ds, vs)
    ensures ThenChange(env, ds, |first|, amount)
  {
    if amount > 0 {
      var key: nat :| change == [Op(Create, env.keyAt(key), amount, [], [])];
      assert (first + change)[|first|] == change[0];
      assert Creates(ds[|first|], env.keyAt(key), amount);
    }
  }

  lemma ReceiversAreRead(
      receivers: seq<(seq<byte>, int)>, change: seq<Op>, ds: seq<DecodedOperation>, vs: seq<ScVal>)
    requires Delivers(CreateOps(receivers) + change, ds, vs)
    ensures |receivers| <= |ds| && forall i :: 0 <= i < |receivers| ==> Creates(ds[i], receivers[i].0, receivers[i].1)
  {
    forall i | 0 <= i < |receivers| ensures Creates(ds[i], receivers[i].0, receivers[i].1) {
      assert (CreateOps(receivers) + change)[i] == CreateOp(receivers[i].0, receivers[i].1);
    }
  }

  /** A send creates the receivers' amounts on their keys, in order, and then at most the change on a key of
      the wallet's own; it withdraws and deposits nothing. */
  lemma SendDelivers(
      c: Codec, env: Env, receivers: seq<(seq<byte>, int)>, sel: Selection, before: seq<Utxo>, after: seq<Utxo>,
      ops: seq<Op>, slots: seq<string>)
    requires RoundTrips(c) && SlotsOf(c, ops, slots)
    requires Paid(env, CreateOps(receivers), sel, before, after, ops)
    ensures Classified(c, slots).Ok?
    ensures var cl := Classified(c, slots).value;
      && ThenChange(env, cl.create, |receivers|, sel.change)
      && (forall i :: 0 <= i < |receivers| ==> Creates(cl.create[i], receivers[i].0, receivers[i].1))
      && cl.withdraw == [] && cl.deposit == []
  {
    var outputs := CreateOps(receivers);
    var change := PaidByKind(env, outputs, sel, before, after, ops);
    AllOrNone(outputs, Create, Create);
    AllOrNone(outputs, Create, Withdraw);
    var cl, b := ReadAll(c, ops, slots);
    ChangeIsRead(env, sel.change, outputs, change, cl.create, b.create);
    ReceiversAreRead(receivers, change, cl.create, b.create);
  }

  /** A withdrawal pays the amount to the account, and creates at most the change. */
  lemma WithdrawDelivers(
      c: Codec, env: Env, account: seq<byte>, amount: int, sel: Selection, before: seq<Utxo>, after: seq<Utxo>,
      ops: seq<Op>, slots: seq<string>)
    requires RoundTrips(c) && SlotsOf(c, ops, slots)
    requires Paid(env, [Output(ToAccount(account), amount)], sel, before, after, ops)
    ensures Classified(c, slots).Ok? && Aggregated(c, slots).Ok?
    ensures var cl, b := Classified(c, slots).value, Aggregated(c, slots).value;
      && |b.withdraw| == 1 && (exists v :: b.withdraw[0] == VecOf([ScAddr(Account(account)), v, VecOf([])]))
      && |cl.withdraw| == 1 && cl.withdraw[0].amount == amount
      && ThenChange(env, cl.create, 0, sel.change) && cl.deposit == []
  {
    var outputs := [Output(ToAccount(account), amount)];
    var change := PaidByKind(env, outputs, sel, before, after, ops);
    AllOrNone(outputs, Withdraw, Create);
    AllOrNone(outputs, Withdraw, Withdraw);
    var cl, b := ReadAll(c, ops, slots);
    assert OfKind(ops, Create) == [] + change;
    ChangeIsRead(env, sel.change, [], change, cl.create, b.create);
    assert IsPayload(outputs[0], b.withdraw[0]);
  }

  /** A send to an email is a send of the amount to the key handed out for it. */
  lemma EmailDelivers(
      c: Codec, env: Env, target: seq<byte>, amount: int, sel: Selection, before: seq<Utxo>, after: seq<Utxo>,
      ops: seq<Op>, slots: seq<string>)
    requires RoundTrips(c) && SlotsOf(c, ops, slots)
    requires Paid(env, [Output(ToEmail(target), amount)], sel, before, after, ops)
    ensures Classified(c, slots).Ok? && Classified(c, slots).value.create != []
    ensures Creates(Classified(c, slots).value.create[0], target, amount)
    ensures Classified(c, slots).value.withdraw == [] && Classified(c, slots).value.deposit == []
  {
    assert [Output(ToEmail(target), amount)] == CreateOps([(target, amount)]);
    SendDelivers(c, env, [(target, amount)], sel, before, after, ops, slots);
  }

  /** The slot holds an operation's payload and, after it, its signatures. */
  lemma SlotHolds(c: Codec, op: Op, s: string)
    requires RoundTrips(c) && Slot(c, op) == Ok(s)
    ensures PayloadOf(op).Some? && IsSlot(c, s, op.kind, [VecOf(PayloadOf(op).value), VecOf(op.signature)])
  {
    var outer := [VecOf(PayloadOf(op).value), VecOf(op.signature)];
    EncodeThenRead(c, op.kind, outer);
    ReadsExactlyWhen(c, s, op.kind, outer);
  }

  /** A deposit goes up as two slots. The first takes the amount and the fee of 500000 from the account, on
      condition that the second creates the amount on a key of the wallet's own, and is authorized by the account. */
  lemma DepositDelivers(c: Codec, env: Env, account: seq<byte>, key: nat, amount: int, slots: seq<string>)
    requires RoundTrips(c) && SlotsOf(c, DepositOps(env, account, key, amount), slots)
    ensures Classified(c, slots).Ok?
    ensures var cl := Classified(c, slots).value;
      && |cl.deposit| == 1 && cl.deposit[0].amount == amount + 500_000
      && |cl.create| == 1 && Creates(cl.create[0], env.keyAt(key), amount) && cl.spend == [] && cl.withdraw == []
    ensures var cs := [env.condition(Op(Create, env.keyAt(key), amount, [], []))];
      && |slots| == 2
      && exists v :: IsSlot(c, slots[0], Deposit, [
           VecOf([ScAddr(Account(account)), v, VecOf(cs)]),
           VecOf(env.authorize(Op(Deposit, account, amount + 500_000, cs, [])))])
  {
    var ops := DepositOps(env, account, key, amount);
    assert [] + [ops[0]] == [ops[0]] && [ops[0]] + [ops[1]] == ops;
    forall k: OperationKind
      ensures OfKind(ops, k) == if k == Deposit then [ops[0]] else if k == Create then [ops[1]] else [] {
      OneMoreOfKind([], ops[0], k);
      OneMoreOfKind([ops[0]], ops[1], k);
    }
    var cl, b := ReadAll(c, ops, slots);
    SlotHolds(c, ops[0], slots[0]);
  }

  /** The payload of a spend of this key that demands these outputs. */
  ghost predicate Demands(env: Env, outs: seq<Op>, key: seq<byte>, v: ScVal) {
    exists cs :: v == VecOf([ScBytes(key), VecOf(cs)])
      && |cs| == |outs| && forall k :: 0 <= k < |cs| ==> cs[k] == env.condition(outs[k])
  }

  lemma SpendDemands(env: Env, outs: seq<Op>, key: seq<byte>, op: Op, v: ScVal)
    requires SpendFor(env, outs, key, op) && IsPayload(op, v)
    ensures Demands(env, outs, key, v)
  {
    assert v == VecOf([ScBytes(key), VecOf(op.conditions)]);
  }

  lemma SpendsAreRead(
      env: Env, sel: Selection, outs: seq<Op>, spends: seq<Op>, ds: seq<DecodedOperation>, vs: seq<ScVal>)
    requires SpendsFor(env, sel, outs, spends) && Delivers(spends, ds, vs)
    ensures |vs| == |sel.own| + |sel.held|
    ensures forall i :: 0 <= i < |vs| ==> Demands(env, outs, KeyAt(env, sel, i), vs[i])
  {
    forall i | 0 <= i < |vs| ensures Demands(env, outs, KeyAt(env, sel, i), vs[i]) {
      SpendDemands(env, outs, KeyAt(env, sel, i), spends[i], vs[i]);
    }
  }

  /** Every spend of a paid bundle names a selected key and demands all outputs, the change among them. */
  lemma SpendsDemandOutputs(
      c: Codec, env: Env, outputs: seq<Op>, sel: Selection, before: seq<Utxo>, after: seq<Utxo>, ops: seq<Op>,
      slots: seq<string>)
    returns (change: seq<Op>)
    requires RoundTrips(c) && SlotsOf(c, ops, slots)
    requires Paid(env, outputs, sel, before, after, ops) && OnlyOutputs(outputs)
    ensures IsChange(env, sel.change, change)
    ensures Aggregated(c, slots).Ok? && |Aggregated(c, slots).value.spend| == |sel.own| + |sel.held|
    ensures forall i :: 0 <= i < |sel.own| + |sel.held| ==>
              Demands(env, outputs + change, KeyAt(env, sel, i), Aggregated(c, slots).value.spend[i])
  {
    change := PaidByKind(env, outputs, sel, before, after, ops);
    var cl, b := ReadAll(c, ops, slots);
    SpendsAreRead(env, sel, outputs + change, OfKind(ops, Spend), cl.spend, b.spend);
  }

  /** The slot spends this key on these conditions, followed by this signature. */
  ghost predicate SpendSlot(c: Codec, s: string, key: seq<byte>, conditions: seq<ScVal>, signature: seq<ScVal>) {
    IsSlot(c, s, Spend, [VecOf([ScBytes(key), VecOf(conditions)]), VecOf(signature)])
  }

  /** These slots are the spends of a selection: own keys first, each with its own signature over the
      conditions, then held ones with none. */
  ghost predicate SpendSlots(c: Codec, env: Env, sel: Selection, conditions: seq<ScVal>, slots: seq<string>) {
    && |slots| == |sel.own| + |sel.held|
    && (forall i :: 0 <= i < |sel.own| ==>
          SpendSlot(c, slots[i], env.keyAt(sel.own[i]), conditions, env.sign(sel.own[i], conditions)))
    && (forall i :: |sel.own| <= i < |slots| ==>
          SpendSlot(c, slots[i], sel.held[i - |sel.own|].pubkey, conditions, []))
  }

  lemma SpendsGoUp(c: Codec, env: Env, sel: Selection, outs: seq<Op>, slots: seq<string>)
    requires RoundTrips(c) && SlotsOf(c, Spends(env, sel, outs), slots)
    ensures SpendSlots(c, env, sel, ConditionsOn(env, outs), slots)
  {
    var ops, cs := Spends(env, sel, outs), ConditionsOn(env, outs);
    forall i | 0 <= i < |sel.own|
      ensures SpendSlot(c, slots[i], env.keyAt(sel.own[i]), cs, env.sign(sel.own[i], cs)) {
      assert ops[i] == OwnSpend(env, sel.own[i], outs);
      SlotHolds(c, ops[i], slots[i]);
    }
    forall i | |sel.own| <= i < |slots| ensures SpendSlot(c, slots[i], sel.held[i - |sel.own|].pubkey, cs, []) {
      assert ops[i] == HeldSpend(env, sel.held[i - |sel.own|], outs);
      SlotHolds(c, ops[i], slots[i]);
    }
  }

  lemma LastSlots(c: Codec, first: seq<Op>, last: seq<Op>, slots: seq<string>)
    requires SlotsOf(c, first + last, slots)
    ensures SlotsOf(c, last, slots[|first|..])
  {
    forall i | 0 <= i < |last| ensures Slot(c, last[i]) == Ok(slots[|first|..][i]) {
      assert last[i] == (first + last)[|first| + i];
    }
  }

  /** After its outputs and change a paid bundle goes up as the spends of its selection, each on the
      conditions that demand all outputs, own keys' signed over them and held ones' unsigned. */
  lemma SpendsAreSigned(
      c: Codec, env: Env, outputs: seq<Op>, sel: Selection, before: seq<Utxo>, after: seq<Utxo>, ops: seq<Op>,
      slots: seq<string>)
    returns (outs: seq<Op>, cs: seq<ScVal>)
    requires RoundTrips(c) && SlotsOf(c, ops, slots) && Paid(env, outputs, sel, before, after, ops)
    ensures |outputs| <= |outs| <= |slots| && outs[..|outputs|] == outputs
    ensures IsChange(env, sel.change, outs[|outputs|..])
    ensures |cs| == |outs| && forall k :: 0 <= k < |cs| ==> cs[k] == env.condition(outs[k])
    ensures SpendSlots(c, env, sel, cs, slots[|outs|..])
  {
    var change, mid :| ChangeOps(env, sel.change, before, mid, change) && Composed(env, outputs, sel, change, ops)
      && after == Marked(mid, sel.own);
    outs := outputs + change;
    cs := ConditionsOn(env, outs);
    LastSlots(c, outs, Spends(env, sel, outs), slots);
    SpendsGoUp(c, env, sel, outs, slots[|outs|..]);
  }
}

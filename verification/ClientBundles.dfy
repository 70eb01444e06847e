/** The bundles the client submits, from coin selection to what the provider charges for them. */
module ClientBundles {
  import opened Wrappers
  import opened ScVals
  import opened Mlxdr
  import opened Fees
  import opened SpendSlots
  import HoldingKeys
  import Submission
  import opened Wallet
  import opened Client

  /** What the SDK and the wallet supply: public keys by index, the condition that demands an
      operation, the signature of an own key over conditions, and a deposit's authorization. */
  datatype Env = Env(
    keyAt: nat -> seq<byte>,
    condition: Op -> ScVal,
    sign: (nat, seq<ScVal>) -> seq<ScVal>,
    authorize: Op -> seq<ScVal>)

  function ConditionsOn(env: Env, outputs: seq<Op>): (cs: seq<ScVal>)
    ensures |cs| == |outputs| && forall i :: 0 <= i < |cs| ==> cs[i] == env.condition(outputs[i])
  {
    seq(|outputs|, i requires 0 <= i < |outputs| => env.condition(outputs[i]))
  }

  /** A spend of an own key, signed. */
  function OwnSpend(env: Env, key: nat, outputs: seq<Op>): Op {
    Op(Spend, env.keyAt(key), 0, ConditionsOn(env, outputs), env.sign(key, ConditionsOn(env, outputs)))
  }

  /** A spend of a key the provider holds, unsigned. */
  function HeldSpend(env: Env, h: Held, outputs: seq<Op>): Op {
    Op(Spend, h.pubkey, 0, ConditionsOn(env, outputs), [])
  }

  /** The spends of a selection, own keys first, each conditioned on every output. */
  function Spends(env: Env, sel: Selection, outputs: seq<Op>): (ops: seq<Op>)
    ensures |ops| == |sel.own| + |sel.held|
    ensures forall i :: 0 <= i < |sel.own| ==> ops[i] == OwnSpend(env, sel.own[i], outputs)
    ensures forall i :: |sel.own| <= i < |ops| ==> ops[i] == HeldSpend(env, sel.held[i - |sel.own|], outputs)
  {
    seq(|sel.own| + |sel.held|, i requires 0 <= i < |sel.own| + |sel.held| =>
      if i < |sel.own| then OwnSpend(env, sel.own[i], outputs) else HeldSpend(env, sel.held[i - |sel.own|], outputs))
  }

  /** The keys with the given ones reserved. */
  function Marked(derived: seq<Utxo>, own: seq<nat>): (after: seq<Utxo>)
    ensures |after| == |derived|
    ensures forall i :: 0 <= i < |after| ==> after[i] == if i in own then Utxo(derived[i].balance, true) else derived[i]
  {
    seq(|derived|, i requires 0 <= i < |derived| => if i in own then Utxo(derived[i].balance, true) else derived[i])
  }

  lemma MarkedOneMore(derived: seq<Utxo>, own: seq<nat>, i: nat)
    requires i < |own| && own[i] < |derived|
    ensures Marked(derived, own[..i + 1]) == Marked(derived, own[..i])[own[i] := Utxo(derived[own[i]].balance, true)]
    ensures Marked(derived, own[..i])[own[i]].balance == derived[own[i]].balance
  {
    assert forall k :: k in own[..i + 1] <==> k in own[..i] || k == own[i];
  }

  lemma MarkedAreNotFree(derived: seq<Utxo>, own: seq<nat>, handed: set<nat>)
    requires forall i :: i in handed ==> i < |derived| && !IsFree(derived[i])
    ensures forall i :: i in handed ==> !IsFree(Marked(derived, own)[i])
  {}

  method SpendOwn(wallet: Keys, env: Env, own: seq<nat>, outputs: seq<Op>) returns (ops: seq<Op>)
    requires wallet.Valid() && forall k :: 0 <= k < |own| ==> own[k] < |wallet.derived|
    modifies wallet`derived
    ensures wallet.Valid() && wallet.derived == Marked(old(wallet.derived), own)
    ensures |ops| == |own| && forall k :: 0 <= k < |own| ==> ops[k] == OwnSpend(env, own[k], outputs)
  {
    ghost var was := wallet.derived;
    assert Marked(was, own[..0]) == was;
    ops := [];
    for i := 0 to |own|
      invariant |ops| == i && forall k :: 0 <= k < i ==> ops[k] == OwnSpend(env, own[k], outputs)
      invariant wallet.derived == Marked(was, own[..i])
    {
      var u := wallet.derived[own[i]];
      MarkedOneMore(was, own, i);
      wallet.derived := wallet.derived[own[i] := Utxo(u.balance, true)];
      ops := ops + [OwnSpend(env, own[i], outputs)];
    }
    assert own[..|own|] == own;
    MarkedAreNotFree(was, own, wallet.handed);
  }

  method BuildSpends(wallet: Keys, env: Env, sel: Selection, outputs: seq<Op>) returns (ops: seq<Op>)
    requires wallet.Valid() && forall k :: 0 <= k < |sel.own| ==> sel.own[k] < |wallet.derived|
    modifies wallet`derived
    ensures |wallet.derived| == |old(wallet.derived)|
    ensures forall i :: 0 <= i < |wallet.derived| ==>
              && wallet.derived[i].balance == old(wallet.derived)[i].balance
              && wallet.derived[i].reserved == (i in sel.own || old(wallet.derived)[i].reserved)
    ensures wallet.Valid() && wallet.derived == Marked(old(wallet.derived), sel.own)
    ensures ops == Spends(env, sel, outputs)
  {
    ops := SpendOwn(wallet, env, sel.own, outputs);
    for i := 0 to |sel.held|
      invariant |ops| == |sel.own| + i
      invariant forall k :: 0 <= k < |sel.own| ==> ops[k] == OwnSpend(env, sel.own[k], outputs)
      invariant forall k :: |sel.own| <= k < |ops| ==> ops[k] == HeldSpend(env, sel.held[k - |sel.own|], outputs)
    {
      ops := ops + [HeldSpend(env, sel.held[i], outputs)];
    }
  }

  /** The change, if there is any, goes to a key reserved for it. */
  ghost predicate ChangeOps(env: Env, change: int, before: seq<Utxo>, after: seq<Utxo>, ops: seq<Op>) {
    if change > 0 then exists key: nat :: Reserved(before, after, [key]) && ops == [CreateOp(env.keyAt(key), change)]
    else ops == [] && after == before
  }

  method MakeChange(wallet: Keys, env: Env, change: int) returns (ops: seq<Op>)
    requires wallet.Valid()
    modifies wallet
    ensures wallet.Valid() && |old(wallet.derived)| <= |wallet.derived|
    ensures ChangeOps(env, change, old(wallet.derived), wallet.derived, ops)
  {
    if change <= 0 {
      return [];
    }
    var keys := wallet.ReserveFreeUtxos(1);
    assert keys == [keys[0]];
    return [CreateOp(env.keyAt(keys[0]), change)];
  }

  /** Outputs, then the change, then spends conditioned on both. */
  ghost predicate Composed(env: Env, outputs: seq<Op>, sel: Selection, change: seq<Op>, ops: seq<Op>) {
    ops == outputs + change + Spends(env, sel, outputs + change)
  }

  /** The bundle that pays for these outputs from this selection, and the wallet it leaves behind. */
  ghost predicate Paid(env: Env, outputs: seq<Op>, sel: Selection, before: seq<Utxo>, after: seq<Utxo>, ops: seq<Op>) {
    exists change, mid ::
      ChangeOps(env, sel.change, before, mid, change) && Composed(env, outputs, sel, change, ops)
          && after == Marked(mid, sel.own)
  }

  method Pay(wallet: Keys, env: Env, outputs: seq<Op>, sel: Selection) returns (ops: seq<Op>)
    requires wallet.Valid() && forall k :: 0 <= k < |sel.own| ==> sel.own[k] < |wallet.derived|
    modifies wallet
    ensures wallet.Valid() && Paid(env, outputs, sel, old(wallet.derived), wallet.derived, ops)
  {
    var change := MakeChange(wallet, env, sel.change);
    ghost var mid := wallet.derived;
    var spends := BuildSpends(wallet, env, sel, outputs + change);
    ops := outputs + change + spends;
    assert Composed(env, outputs, sel, change, ops);
  }

  function CreateOps(receivers: seq<(seq<byte>, int)>): (ops: seq<Op>)
    ensures |ops| == |receivers| && forall i :: 0 <= i < |ops| ==> ops[i] == CreateOp(receivers[i].0, receivers[i].1)
  {
    seq(|receivers|, i requires 0 <= i < |receivers| => CreateOp(receivers[i].0, receivers[i].1))
  }

  /** Spend own keys to the receiver's CREATE operations; None when the funds do not suffice. */
  method SubmitSend(wallet: Keys, env: Env, receivers: seq<(seq<byte>, int)>)
    returns (r: Option<seq<Op>>, sel: Selection)
    requires wallet.Valid()
    modifies wallet
    ensures wallet.Valid()
    ensures r.None? ==> wallet.derived == old(wallet.derived)
    ensures var pool := FundedBalances(old(wallet.derived));
      r.None? ==> ShortUpTo(pool, |pool|, Sum(CreateOps(receivers), Create) + 1_000_000)
    ensures r.Some? ==>
              sel.held == [] && Selected(sel, old(wallet.derived), [], Sum(CreateOps(receivers), Create) + 1_000_000)
    ensures r.Some? ==> Paid(env, CreateOps(receivers), sel, old(wallet.derived), wallet.derived, r.value)
  {
    var outputs := CreateOps(receivers);
    var total := Sum(outputs, Create) + SEND_FEE;
    var selection := wallet.SelectFunded(total);
    sel := Selection([], [], 0);
    if selection.None? {
      return None, sel;
    }
    sel := Selection(selection.value.0, [], selection.value.1);
    ChosenAreKeys(sel, wallet.derived, []);
    assert FundedBalances(wallet.derived) + HeldAmounts([]) == FundedBalances(wallet.derived);
    var ops := Pay(wallet, env, outputs, sel);
    return Some(ops), sel;
  }

  lemma ChosenAreKeys(sel: Selection, derived: seq<Utxo>, held: seq<Held>)
    requires Chosen(sel, derived, held)
    ensures |FundedBalances(derived)| == |Funded(derived)|
    ensures forall k :: 0 <= k < |sel.own| ==> sel.own[k] < |derived|
  {
    FundedHold(derived);
  }

  /** A selection from the pools that pays a total exactly, change included. */
  ghost predicate Selected(sel: Selection, derived: seq<Utxo>, held: seq<Held>, total: int) {
    && Chosen(sel, derived, held)
    && var pool := FundedBalances(derived) + HeldAmounts(held);
      var n := |sel.own| + |sel.held|;
      n <= |pool| && sel.change == SumTo(pool, n) - total && sel.change >= 0
  }

  lemma PoolsAreSelected(sel: Selection, derived: seq<Utxo>, held: seq<Held>, total: int)
    requires Chosen(sel, derived, held)
    requires var pool := FundedBalances(derived) + HeldAmounts(held);
      var n := |sel.own| + |sel.held|;
      n <= |pool| && sel.change == SumTo(pool, n) - total && sel.change >= 0
    ensures Selected(sel, derived, held, total)
    ensures forall k :: 0 <= k < |sel.own| ==> sel.own[k] < |derived|
  {
    ChosenAreKeys(sel, derived, held);
  }

  /** Withdraw to the wallet's own account, or create on a key handed out for an email. */
  datatype Purpose = ToAccount(account: seq<byte>) | ToEmail(target: seq<byte>)

  function Output(p: Purpose, amount: int): Op {
    match p
    case ToAccount(account) => Op(Withdraw, account, amount, [], [])
    case ToEmail(target) => CreateOp(target, amount)
  }

  function FeeOf(p: Purpose): int { if p.ToAccount? then WITHDRAW_FEE else SEND_FEE }

  /** `submitWithdraw` and `submitSendToEmail`: spend from both pools for one output. */
  method SubmitFromPools(wallet: Keys, env: Env, p: Purpose, amount: int, held: seq<Held>)
    returns (r: Option<seq<Op>>, sel: Selection)
    requires wallet.Valid()
    modifies wallet
    ensures wallet.Valid()
    ensures var pool := FundedBalances(old(wallet.derived)) + HeldAmounts(held);
      r.None? ==> wallet.derived == old(wallet.derived) && ShortBelow(pool, |pool| + 1, amount + 1_000_000)
    ensures r.Some? ==> Selected(sel, old(wallet.derived), held, amount + 1_000_000)
    ensures r.Some? ==> Paid(env, [Output(p, amount)], sel, old(wallet.derived), wallet.derived, r.value)
  {
    ghost var was := wallet.derived;
    sel := Selection([], [], 0);
    var selection := SelectAcrossPools(wallet, amount + FeeOf(p), held);
    if selection.None? {
      return None, sel;
    }
    sel := selection.value;
    PoolsAreSelected(sel, was, held, amount + 1_000_000);
    var ops := Pay(wallet, env, [Output(p, amount)], sel);
    return Some(ops), sel;
  }

  method SubmitDeposit(wallet: Keys, env: Env, account: seq<byte>, amount: int) returns (ops: seq<Op>)
    requires wallet.Valid()
    modifies wallet
    ensures wallet.Valid()
    ensures exists key: nat ::
              Reserved(old(wallet.derived), wallet.derived, [key]) && ops == DepositOps(env, account, key, amount)
  {
    var keys := wallet.ReserveFreeUtxos(1);
    assert keys == [keys[0]];
    var create := CreateOp(env.keyAt(keys[0]), amount);
    var deposit := Op(Deposit, account, amount + DEPOSIT_FEE, [env.condition(create)], []);
    return [deposit.(signature := env.authorize(deposit)), create];
  }

  function DepositOps(env: Env, account: seq<byte>, key: nat, amount: int): seq<Op> {
    var create := CreateOp(env.keyAt(key), amount);
    var deposit := Op(Deposit, account, amount + DEPOSIT_FEE, [env.condition(create)], []);
    [deposit.(signature := env.authorize(deposit)), create]
  }

  // ---- what the bundles add up to ----

  lemma {:induction false} SumConcat(a: seq<Op>, b: seq<Op>, k: OperationKind)
    ensures Sum(a + b, k) == Sum(a, k) + Sum(b, k)
    ensures SpentKeys(a + b) == SpentKeys(a) + SpentKeys(b)
    decreases |b|
  {
    if b == [] {
      assert a + b == a;
    } else {
      var n := |b| - 1;
      assert (a + b)[..|a + b| - 1] == a + b[..n];
      SumConcat(a, b[..n], k);
    }
  }

  lemma {:induction false} SpendsAddNothing(ops: seq<Op>, k: OperationKind)
    requires forall i :: 0 <= i < |ops| ==> ops[i].kind.Spend?
    requires !k.Spend?
    ensures Sum(ops, k) == 0
    ensures |SpentKeys(ops)| == |ops| && forall i :: 0 <= i < |ops| ==> SpentKeys(ops)[i] == ops[i].key
  {
    if ops != [] { SpendsAddNothing(ops[..|ops| - 1], k); }
  }

  lemma {:induction false} OutputsSpendNothing(ops: seq<Op>, k: OperationKind)
    requires forall i :: 0 <= i < |ops| ==> !ops[i].kind.Spend?
    ensures SpentKeys(ops) == []
    ensures (forall i :: 0 <= i < |ops| ==> ops[i].kind != k) ==> Sum(ops, k) == 0
  {
    if ops != [] { OutputsSpendNothing(ops[..|ops| - 1], k); }
  }

  /** The keys of the selection, own ones first. */
  function SelectedKeys(env: Env, sel: Selection): (ks: seq<seq<byte>>)
    ensures |ks| == |sel.own| + |sel.held|
    ensures forall i :: 0 <= i < |sel.own| ==> ks[i] == env.keyAt(sel.own[i])
    ensures forall i :: |sel.own| <= i < |ks| ==> ks[i] == sel.held[i - |sel.own|].pubkey
  {
    seq(|sel.own| + |sel.held|, i requires 0 <= i < |sel.own| + |sel.held| =>
      if i < |sel.own| then env.keyAt(sel.own[i]) else sel.held[i - |sel.own|].pubkey)
  }

  ghost predicate OnlyOutputs(outputs: seq<Op>) {
    forall i :: 0 <= i < |outputs| ==> outputs[i].kind.Create? || outputs[i].kind.Withdraw?
  }

  lemma SumsOf(outputs: seq<Op>, change: seq<Op>, spends: seq<Op>, k: OperationKind)
    requires forall i :: 0 <= i < |spends| ==> spends[i].kind.Spend?
    requires !k.Spend?
    ensures Sum(outputs + change + spends, k) == Sum(outputs, k) + Sum(change, k)
  {
    SumConcat(outputs + change, spends, k);
    SumConcat(outputs, change, k);
    SpendsAddNothing(spends, k);
  }

  lemma ChangeSums(env: Env, change: int, before: seq<Utxo>, after: seq<Utxo>, ops: seq<Op>)
    requires ChangeOps(env, change, before, after, ops) && change >= 0
    ensures Sum(ops, Create) == change && Sum(ops, Withdraw) == 0 && Sum(ops, Deposit) == 0
    ensures OnlyOutputs(ops)
  {
    if ops != [] { assert ops[..0] == []; }
  }

  lemma ComposedKeys(env: Env, outs: seq<Op>, sel: Selection)
    requires OnlyOutputs(outs)
    ensures SpentKeys(outs + Spends(env, sel, outs)) == SelectedKeys(env, sel)
  {
    var spends := Spends(env, sel, outs);
    SumConcat(outs, spends, Deposit);
    SpendsAddNothing(spends, Deposit);
    OutputsSpendNothing(outs, Deposit);
    assert SpentKeys(spends) == SelectedKeys(env, sel);
  }

  lemma HasInFront(front: seq<Op>, rest: seq<Op>, k: OperationKind)
    ensures Has(front + rest, k) <==> Has(front, k) || Has(rest, k)
  {
    var all := front + rest;
    if Has(front, k) {
      var i :| 0 <= i < |front| && front[i].kind == k;
      assert all[i].kind == k;
    }
    if Has(rest, k) {
      var i :| 0 <= i < |rest| && rest[i].kind == k;
      assert all[|front| + i].kind == k;
    }
  }

  /** A paid bundle's sums: the outputs' and the change, and no deposits; it spends the selected keys. */
  lemma PaidSums(env: Env, outputs: seq<Op>, sel: Selection, before: seq<Utxo>, after: seq<Utxo>, ops: seq<Op>)
    requires Paid(env, outputs, sel, before, after, ops) && OnlyOutputs(outputs) && sel.change >= 0
    ensures Sum(ops, Create) + Sum(ops, Withdraw) == Sum(outputs, Create) + Sum(outputs, Withdraw) + sel.change
    ensures Sum(ops, Deposit) == 0 && !Has(ops, Deposit)
    ensures Has(outputs, Withdraw) ==> Has(ops, Withdraw)
    ensures SpentKeys(ops) == SelectedKeys(env, sel)
  {
    var change, mid :| ChangeOps(env, sel.change, before, mid, change) && Composed(env, outputs, sel, change, ops)
      && after == Marked(mid, sel.own);
    var outs, spends := outputs + change, Spends(env, sel, outputs + change);
    ChangeSums(env, sel.change, before, mid, change);
    SumsOf(outputs, change, spends, Create);
    SumsOf(outputs, change, spends, Withdraw);
    SumsOf(outputs, change, spends, Deposit);
    OutputsSpendNothing(outputs, Deposit);
    ComposedKeys(env, outs, sel);
    HasInFront(outputs, change, Withdraw);
    HasInFront(outs, spends, Withdraw);
  }

  /** How the provider sees a submitted bundle: its slots, those slots once the held spends are
      signed, the balances read for the spends, and the rest of what admission looks at. */
  datatype Seen = Seen(
    slots: seq<string>, signed: seq<string>, derive: HoldingKeys.Derivation, g: Submission.Signing,
    channel: seq<byte>, disabled: bool, read: Submission.Balances, spent: seq<i128>, opexKey: seq<byte>)

  ghost predicate Sees(c: Codec, ops: seq<Op>, seen: Seen) {
    && RoundTrips(c) && SignsIn64Bytes(seen.g.signer)
    && SlotsOf(c, ops, seen.slots) && Submission.SlotsPass(c, seen.slots, seen.signed, seen.derive, seen.g)
    && seen.read(SpentKeys(ops)) == Some(seen.spent)
  }

  ghost predicate Charged(c: Codec, seen: Seen, fee: int) {
    AdmittedFor(c, seen.signed, seen.channel, seen.disabled, seen.read, seen.spent, seen.opexKey, fee)
  }

  /** The balances the selection counted on, in the order of its keys. */
  function SelectedBalances(derived: seq<Utxo>, held: seq<Held>, sel: Selection): seq<int>
    requires |sel.own| + |sel.held| <= |FundedBalances(derived) + HeldAmounts(held)|
  {
    (FundedBalances(derived) + HeldAmounts(held))[..|sel.own| + |sel.held|]
  }

  lemma SelectedTotal(before: seq<Utxo>, held: seq<Held>, sel: Selection, total: int)
    requires Selected(sel, before, held, total)
    ensures Total(SelectedBalances(before, held, sel)) == total + sel.change
  {
    SumToIsTotal(FundedBalances(before) + HeldAmounts(held), |sel.own| + |sel.held|);
  }

  /** Every bundle paid from a selection for its outputs and a fee, if the balances it counted on are
      those on chain, is admitted for exactly that fee and balances. */
  lemma PaidIsCharged(
      c: Codec, env: Env, outputs: seq<Op>, sel: Selection, before: seq<Utxo>, after: seq<Utxo>, ops: seq<Op>,
      held: seq<Held>, seen: Seen, fee: int)
    requires OnlyOutputs(outputs) && 0 < fee < 0x8000_0000_0000_0000
    requires Selected(sel, before, held, Sum(outputs, Create) + Sum(outputs, Withdraw) + fee)
    requires Paid(env, outputs, sel, before, after, ops) && Sees(c, ops, seen)
    requires seen.spent == SelectedBalances(before, held, sel)
    requires seen.disabled ==> Has(outputs, Withdraw)
    ensures Charged(c, seen, fee)
  {
    PaidSums(env, outputs, sel, before, after, ops);
    SelectedTotal(before, held, sel, Sum(outputs, Create) + Sum(outputs, Withdraw) + fee);
    assert SpentKeys(ops) == [] ==> seen.spent == [];
    ExcessIsFee(c, ops, seen.slots, seen.signed, seen.derive, seen.g, seen.channel, seen.disabled, seen.read,
                seen.spent, seen.opexKey, fee);
  }

  lemma CreatesSum(receivers: seq<(seq<byte>, int)>)
    ensures OnlyOutputs(CreateOps(receivers)) && Sum(CreateOps(receivers), Withdraw) == 0
  {
    OutputsSpendNothing(CreateOps(receivers), Withdraw);
  }

  /** A send is charged exactly the send fee. */
  lemma SendIsCharged(
      c: Codec, env: Env, receivers: seq<(seq<byte>, int)>, sel: Selection, before: seq<Utxo>, after: seq<Utxo>,
      ops: seq<Op>, seen: Seen)
    requires Selected(sel, before, [], Sum(CreateOps(receivers), Create) + 1_000_000)
    requires Paid(env, CreateOps(receivers), sel, before, after, ops) && Sees(c, ops, seen)
    requires seen.spent == SelectedBalances(before, [], sel) && !seen.disabled
    ensures Charged(c, seen, 1_000_000)
  {
    CreatesSum(receivers);
    PaidIsCharged(c, env, CreateOps(receivers), sel, before, after, ops, [], seen, SEND_FEE);
  }

  /** A withdrawal is charged exactly the withdraw fee, on a disabled channel too, and a send to an
      email the send fee. */
  lemma FromPoolsIsCharged(
      c: Codec, env: Env, p: Purpose, amount: int, held: seq<Held>, sel: Selection, before: seq<Utxo>, after: seq<Utxo>,
      ops: seq<Op>, seen: Seen)
    requires Selected(sel, before, held, amount + 1_000_000)
    requires Paid(env, [Output(p, amount)], sel, before, after, ops) && Sees(c, ops, seen)
    requires seen.spent == SelectedBalances(before, held, sel) && (seen.disabled ==> p.ToAccount?)
    ensures Charged(c, seen, 1_000_000)
  {
    var outputs := [Output(p, amount)];
    assert outputs[..0] == [];
    assert Sum(outputs, Create) + Sum(outputs, Withdraw) == amount;
    assert p.ToAccount? ==> outputs[0].kind == Withdraw;
    PaidIsCharged(c, env, outputs, sel, before, after, ops, held, seen, FeeOf(p));
  }

  lemma TwoOps(a: Op, b: Op, k: OperationKind)
    ensures Sum([a, b], k) == (if a.kind == k then a.amount else 0) + (if b.kind == k then b.amount else 0)
    ensures !a.kind.Spend? && !b.kind.Spend? ==> SpentKeys([a, b]) == []
  {
    assert [] + [a] == [a] && [a] + [b] == [a, b];
    OneMoreOp([], a, k);
    OneMoreOp([a], b, k);
  }

  /** A deposit is charged exactly the deposit fee, whenever what is deposited is positive. */
  lemma DepositIsCharged(c: Codec, env: Env, account: seq<byte>, key: nat, amount: int, seen: Seen)
    requires 0 < amount + DEPOSIT_FEE
    requires Sees(c, DepositOps(env, account, key, amount), seen) && seen.spent == [] && !seen.disabled
    ensures Charged(c, seen, 500_000)
  {
    var ops := DepositOps(env, account, key, amount);
    TwoOps(ops[0], ops[1], Deposit);
    TwoOps(ops[0], ops[1], Create);
    TwoOps(ops[0], ops[1], Withdraw);
    assert Has(ops, Deposit) by { assert ops[0].kind == Deposit; }
    assert Slot(c, ops[0]).Ok?;
    ExcessIsFee(c, ops, seen.slots, seen.signed, seen.derive, seen.g, seen.channel, seen.disabled, seen.read,
                seen.spent, seen.opexKey, DEPOSIT_FEE);
  }

  /** A held spend goes up as an unsigned slot that names its key and can be signed, an own one does not. */
  lemma HeldGoUpUnsigned(c: Codec, env: Env, h: Held, key: nat, outputs: seq<Op>)
    requires RoundTrips(c) && outputs != [] && c.toXdr(VecOf(ConditionsOn(env, outputs))).Some?
    requires forall k, cs :: env.sign(k, cs) != []
    ensures var held := Slot(c, HeldSpend(env, h, outputs));
      held.Ok? && |h.pubkey| == 65 ==>
        UnsignedSpendUtxo(c, held.value) == Ok(Some(h.pubkey)) && Conditions(c, held.value).Ok?
    ensures var own := Slot(c, OwnSpend(env, key, outputs));
      own.Ok? ==> UnsignedSpendUtxo(c, own.value) == Ok(None)
  {
    var held, own := HeldSpend(env, h, outputs), OwnSpend(env, key, outputs);
    if Slot(c, held).Ok? { EncodeThenRead(c, Spend, [VecOf(PayloadOf(held).value), VecOf(held.signature)]); }
    if Slot(c, own).Ok? { EncodeThenRead(c, Spend, [VecOf(PayloadOf(own).value), VecOf(own.signature)]); }
  }
}

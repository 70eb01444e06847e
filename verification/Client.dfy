/** The payer's client: composing deposit, send, withdraw and receive operations, and what the
    provider then makes of them. */
module Client {
  import opened Wrappers
  import opened ScVals
  import opened Mlxdr
  import opened Fees
  import opened SpendSlots
  import HoldingKeys
  import Submission
  import opened Wallet

  const DEPOSIT_FEE: int := 500_000
  const SEND_FEE: int := 1_000_000
  const WITHDRAW_FEE: int := 1_000_000

  // ---- operations ----

  /** `key` is the UTXO of a Create or Spend and the account of a Deposit or Withdraw. */
  datatype Op = Op(kind: OperationKind, key: seq<byte>, amount: int, conditions: seq<ScVal>, signature: seq<ScVal>)

  function CreateOp(utxo: seq<byte>, amount: int): Op { Op(Create, utxo, amount, [], []) }

  /** The payload tuple of an operation; None if the amount is no i128. */
  function PayloadOf(op: Op): Option<seq<ScVal>> {
    if !InI128(op.amount) then None
    else
      match op.kind
      case Create => Some([ScBytes(op.key), Split(op.amount)])
      case Spend => Some([ScBytes(op.key), VecOf(op.conditions)])
      case _ => Some([ScAddr(Account(op.key)), Split(op.amount), VecOf(op.conditions)])
  }

  /** `toMLXDR` */
  function Slot(c: Codec, op: Op): Result<string, MlxdrError> {
    match PayloadOf(op)
    case None => Err(Xdr)
    case Some(payload) => Encode(c, op.kind, [VecOf(payload), VecOf(op.signature)])
  }

  ghost predicate SlotsOf(c: Codec, ops: seq<Op>, slots: seq<string>) {
    |slots| == |ops| && forall i :: 0 <= i < |ops| ==> Slot(c, ops[i]) == Ok(slots[i])
  }

  /** What the provider decodes an operation to. */
  function Decoded(op: Op): DecodedOperation
    requires InI128(op.amount)
  {
    match op.kind
    case Create => DecodedOperation(Create, op.key, op.amount)
    case Spend => DecodedOperation(Spend, op.key, 0)
    case k => DecodedOperation(k, [], op.amount)
  }

  lemma SlotDecodes(c: Codec, op: Op)
    requires RoundTrips(c) && Slot(c, op).Ok?
    ensures InI128(op.amount) && Decode(c, Slot(c, op).value) == Ok(Decoded(op))
  {
    EncodeThenRead(c, op.kind, [VecOf(PayloadOf(op).value), VecOf(op.signature)]);
    SplitJoin(op.amount, 0, 0);
  }

  // ---- what a list of operations classifies to ----

  /** Total of the amounts of one kind of operation. */
  function Sum(ops: seq<Op>, k: OperationKind): int {
    if ops == [] then 0
    else Sum(ops[..|ops| - 1], k) + if ops[|ops| - 1].kind == k then ops[|ops| - 1].amount else 0
  }

  function SpentKeys(ops: seq<Op>): seq<seq<byte>> {
    if ops == [] then []
    else SpentKeys(ops[..|ops| - 1]) + if ops[|ops| - 1].kind.Spend? then [ops[|ops| - 1].key] else []
  }

  /** The classification holds the operations' amounts and the spent keys in order. */
  ghost predicate Summarises(cl: Buckets<DecodedOperation>, ops: seq<Op>) {
    && Total(AmountsOf(cl.create)) == Sum(ops, Create)
    && Total(AmountsOf(cl.deposit)) == Sum(ops, Deposit)
    && Total(AmountsOf(cl.withdraw)) == Sum(ops, Withdraw)
    && Submission.SpendUtxos(cl) == SpentKeys(ops)
    && (cl.deposit != [] <==> Has(ops, Deposit))
    && (cl.withdraw != [] <==> Has(ops, Withdraw))
  }

  predicate Has(ops: seq<Op>, k: OperationKind) { exists i :: 0 <= i < |ops| && ops[i].kind == k }

  lemma AmountsOfOneMore(ds: seq<DecodedOperation>, d: DecodedOperation)
    ensures Total(AmountsOf(ds + [d])) == Total(AmountsOf(ds)) + d.amount
  {
    var all := AmountsOf(ds + [d]);
    assert all[..|all| - 1] == AmountsOf(ds);
  }

  lemma OneMoreOp(front: seq<Op>, op: Op, k: OperationKind)
    ensures Sum(front + [op], k) == Sum(front, k) + (if op.kind == k then op.amount else 0)
    ensures Has(front + [op], k) <==> Has(front, k) || op.kind == k
    ensures SpentKeys(front + [op]) == SpentKeys(front) + if op.kind.Spend? then [op.key] else []
  {
    var ops := front + [op];
    assert ops[..|ops| - 1] == front && ops[|front|] == op;
    if Has(front, k) {
      var i :| 0 <= i < |front| && front[i].kind == k;
      assert ops[i].kind == k;
    }
  }

  lemma PushSummarises(cl: Buckets<DecodedOperation>, front: seq<Op>, op: Op)
    requires Summarises(cl, front) && InI128(op.amount)
    ensures Summarises(cl.Push(op.kind, Decoded(op)), front + [op])
  {
    OneMoreOp(front, op, Create);
    OneMoreOp(front, op, Deposit);
    OneMoreOp(front, op, Withdraw);
    match op.kind
    case Create => AmountsOfOneMore(cl.create, Decoded(op));
    case Deposit => AmountsOfOneMore(cl.deposit, Decoded(op));
    case Withdraw => AmountsOfOneMore(cl.withdraw, Decoded(op));
    case Spend =>
      assert Submission.SpendUtxos(cl.Push(Spend, Decoded(op))) == Submission.SpendUtxos(cl) + [op.key];
  }

  lemma ClassifiedGrows(c: Codec, slots: seq<string>, d: DecodedOperation)
    requires slots != [] && Classified(c, slots[..|slots| - 1]).Ok? && Decode(c, slots[|slots| - 1]) == Ok(d)
    ensures Classified(c, slots) == Ok(Classified(c, slots[..|slots| - 1]).value.Push(d.kind, d))
  {}

  lemma NothingSummarised() ensures Summarises(Buckets([], [], [], []), []) {}

  lemma OneMoreClassified(c: Codec, front: seq<Op>, op: Op, slots: seq<string>)
    requires slots != [] && InI128(op.amount) && Decode(c, slots[|slots| - 1]) == Ok(Decoded(op))
    requires Classified(c, slots[..|slots| - 1]).Ok?
    requires Summarises(Classified(c, slots[..|slots| - 1]).value, front)
    ensures Classified(c, slots).Ok? && Summarises(Classified(c, slots).value, front + [op])
  {
    ClassifiedGrows(c, slots, Decoded(op));
    PushSummarises(Classified(c, slots[..|slots| - 1]).value, front, op);
  }

  /** Slot by slot, the slots decode to the operations. */
  ghost predicate DecodeAll(c: Codec, ops: seq<Op>, slots: seq<string>) {
    && |slots| == |ops|
    && forall i :: 0 <= i < |ops| ==> InI128(ops[i].amount) && Decode(c, slots[i]) == Ok(Decoded(ops[i]))
  }

  lemma {:induction false} DecodedClassify(c: Codec, ops: seq<Op>, slots: seq<string>)
    requires DecodeAll(c, ops, slots)
    ensures Classified(c, slots).Ok? && Summarises(Classified(c, slots).value, ops)
  {
    if ops != [] {
      var n := |ops| - 1;
      var front := ops[..n];
      DecodedClassify(c, front, slots[..n]);
      assert ops == front + [ops[n]];
      OneMoreClassified(c, front, ops[n], slots);
    } else {
      NothingSummarised();
    }
  }

  lemma SlotsClassify(c: Codec, ops: seq<Op>, slots: seq<string>)
    requires RoundTrips(c) && SlotsOf(c, ops, slots)
    ensures Classified(c, slots).Ok? && Summarises(Classified(c, slots).value, ops)
  {
    forall i | 0 <= i < |ops| ensures InI128(ops[i].amount) && Decode(c, slots[i]) == Ok(Decoded(ops[i])) {
      SlotDecodes(c, ops[i]);
    }
    DecodedClassify(c, ops, slots);
  }

  // ---- admission and balance ----

  function Texts(slots: seq<string>): seq<Submission.Json> {
    seq(|slots|, i requires 0 <= i < |slots| => Submission.Text(slots[i]))
  }

  lemma {:induction false} TextsBack(slots: seq<string>)
    ensures Submission.Texts(Texts(slots)) == Some(slots)
  {
    if slots != [] {
      var n := |slots| - 1;
      TextsBack(slots[..n]);
      assert Texts(slots)[..n] == Texts(slots[..n]);
      assert slots[..n] + [slots[n]] == slots;
    }
  }

  /** Admitted for exactly this fee, and leaving nothing over on chain once the fee Create is in. */
  ghost predicate AdmittedFor(
      c: Codec, slots: seq<string>, channel: seq<byte>, disabled: bool, read: Submission.Balances,
      spent: seq<i128>, opexKey: seq<byte>, fee: int)
  {
    && Submission.Admit(c, Texts(slots), Some(channel), disabled, read) == Ok(fee)
    && InI128(fee)
    && Sent(c, slots, opexKey, fee).Ok?
    && ReadOperation(Sent(c, slots, opexKey, fee).value).Some?
    && LeftOver(ReadOperation(Sent(c, slots, opexKey, fee).value).value, Total(spent)) == 0
  }

  /** Operations whose inflow exceeds their outflow by a positive fee that fits the column, from
      deposits alone or from spends alone, are admitted for that fee and balance with it; so they are
      after the provider has signed the spends it holds. */
  lemma ExcessIsFee(
      c: Codec, ops: seq<Op>, slots: seq<string>, after: seq<string>, derive: HoldingKeys.Derivation,
      g: Submission.Signing,
      channel: seq<byte>, disabled: bool, read: Submission.Balances, spent: seq<i128>, opexKey: seq<byte>, fee: int)
    requires RoundTrips(c) && SlotsOf(c, ops, slots)
    requires SignsIn64Bytes(g.signer) && Submission.SlotsPass(c, slots, after, derive, g)
    requires read(SpentKeys(ops)) == Some(spent) && (SpentKeys(ops) == [] ==> spent == [])
    requires 0 < fee < 0x8000_0000_0000_0000
    requires Sum(ops, Deposit) + Total(spent) - Sum(ops, Create) - Sum(ops, Withdraw) == fee
    requires if Has(ops, Deposit) then Total(spent) == 0 && Sum(ops, Deposit) > 0 && InI128(Sum(ops, Deposit))
             else Sum(ops, Deposit) == 0
    requires disabled ==> !Has(ops, Deposit) && Has(ops, Withdraw)
    ensures AdmittedFor(c, after, channel, disabled, read, spent, opexKey, fee)
  {
    SlotsClassify(c, ops, slots);
    Submission.PassKeepsClassified(c, slots, after, derive, g);
    var cl := Classified(c, after).value;
    WrappingSumIsTotal(AmountsOf(cl.deposit));
    WrapIsExactInRange(Sum(ops, Deposit));
    assert TakesDeposits(cl) <==> Has(ops, Deposit);
    assert Excess(cl, spent) == fee;
    FeeIsWrappedExcess(cl, spent);
    WrapIsExactInRange(fee);
    TextsBack(after);
    assert |Submission.SpendUtxos(cl)| == |cl.spend|;
    BalancesInRange(c, after, spent, opexKey, fee);
  }

  // ---- selecting across both pools ----

  datatype Held = Held(pubkey: seq<byte>, amount: int)

  function HeldAmounts(held: seq<Held>): (xs: seq<int>)
    ensures |xs| == |held| && forall i :: 0 <= i < |xs| ==> xs[i] == held[i].amount
  {
    seq(|held|, i requires 0 <= i < |held| => held[i].amount)
  }

  /** What is chosen: own keys by index, held ones, and the change. */
  datatype Selection = Selection(own: seq<nat>, held: seq<Held>, change: int)

  /** The first `own` of the funded keys, and held ones only after all of those. */
  ghost predicate Chosen(sel: Selection, derived: seq<Utxo>, held: seq<Held>) {
    && |sel.own| <= |Funded(derived)| && sel.own == Funded(derived)[..|sel.own|]
    && |sel.held| <= |held| && sel.held == held[..|sel.held|]
    && (sel.held != [] ==> |sel.own| == |Funded(derived)|)
  }

  /** Fewer than `n` amounts fall short. */
  ghost predicate ShortBelow(amounts: seq<int>, n: nat, total: int) {
    forall k :: 0 <= k < n && k <= |amounts| ==> SumTo(amounts, k) < total
  }

  /** Elements are taken while those before fall short: `n` of them, adding up with `start` to `acc`. */
  ghost predicate Took(amounts: seq<int>, start: int, n: nat, acc: int, total: int) {
    && n <= |amounts| && acc == start + SumTo(amounts, n)
    && forall k :: 0 <= k < n ==> start + SumTo(amounts, k) < total
  }

  method TakeOwn(wallet: Keys, total: int) returns (own: seq<nat>, acc: int)
    ensures |own| <= |Funded(wallet.derived)| && own == Funded(wallet.derived)[..|own|]
    ensures Took(FundedBalances(wallet.derived), 0, |own|, acc, total)
    ensures acc < total ==> |own| == |Funded(wallet.derived)|
  {
    var funded := Funded(wallet.derived);
    FundedHold(wallet.derived);
    own, acc := [], 0;
    for i := 0 to |funded|
      invariant own == funded[..i] && Took(FundedBalances(wallet.derived), 0, i, acc, total)
    {
      if acc >= total { break; }
      own := own + [funded[i]];
      acc := acc + wallet.derived[funded[i]].balance;
    }
  }

  method TakeHeld(held: seq<Held>, start: int, total: int) returns (taken: seq<Held>, acc: int)
    ensures |taken| <= |held| && taken == held[..|taken|]
    ensures Took(HeldAmounts(held), start, |taken|, acc, total)
    ensures acc < total ==> |taken| == |held|
  {
    taken, acc := [], start;
    for i := 0 to |held|
      invariant taken == held[..i] && Took(HeldAmounts(held), start, i, acc, total)
    {
      if acc >= total { break; }
      taken := taken + [held[i]];
      acc := acc + held[i].amount;
    }
  }

  lemma {:induction false} SumToConcat(a: seq<int>, b: seq<int>, k: nat)
    requires k <= |a| + |b|
    ensures SumTo(a + b, k) == if k <= |a| then SumTo(a, k) else SumTo(a, |a|) + SumTo(b, k - |a|)
  {
    if k > 0 { SumToConcat(a, b, k - 1); }
  }

  lemma TookBoth(a: seq<int>, b: seq<int>, m: nat, n: nat, mid: int, acc: int, total: int)
    requires Took(a, 0, m, mid, total) && Took(b, mid, n, acc, total)
    requires mid < total ==> m == |a|
    ensures n > 0 ==> m == |a|
    ensures m + n <= |a + b| && acc == SumTo(a + b, m + n) && ShortBelow(a + b, m + n, total)
  {
    if n > 0 { assert mid + SumTo(b, 0) < total; }
    SumToConcat(a, b, m + n);
    SumToConcat(a, b, m);
    forall k | 0 <= k < m + n ensures SumTo(a + b, k) < total { SumToConcat(a, b, k); }
  }

  method SelectAcrossPools(wallet: Keys, total: int, held: seq<Held>) returns (r: Option<Selection>)
    ensures var pool := FundedBalances(wallet.derived) + HeldAmounts(held);
      match r
      case None => ShortBelow(pool, |pool| + 1, total)
      case Some(sel) =>
        && Chosen(sel, wallet.derived, held)
        && var n := |sel.own| + |sel.held|;
        && n <= |pool| && ShortBelow(pool, n, total)
        && sel.change == SumTo(pool, n) - total && sel.change >= 0
  {
    var own, mid := TakeOwn(wallet, total);
    var heldSel, acc := TakeHeld(held, mid, total);
    FundedHold(wallet.derived);
    TookBoth(FundedBalances(wallet.derived), HeldAmounts(held), |own|, |heldSel|, mid, acc, total);
    if acc < total {
      return None;
    }
    return Some(Selection(own, heldSel, acc - total));
  }

  /** From positive amounts the selection fails exactly when both pools together fall short; when it
      succeeds for a positive total the change is smaller than the last amount selected. */
  lemma PoolsFailExactlyWhen(pool: seq<int>, total: int)
    requires AllPositive(pool)
    ensures ShortBelow(pool, |pool| + 1, total) <==> SumTo(pool, |pool|) < total
    ensures forall n: nat :: 0 < n <= |pool| && ShortBelow(pool, n, total) && SumTo(pool, n) >= total ==>
              SumTo(pool, n) - total < pool[n - 1]
  {
    forall k: nat | k <= |pool| ensures SumTo(pool, k) <= SumTo(pool, |pool|) {
      SumToGrows(pool, k, |pool|);
    }
    forall n: nat | 0 < n <= |pool| && ShortBelow(pool, n, total) && SumTo(pool, n) >= total
      ensures SumTo(pool, n) - total < pool[n - 1] {
      var k: nat := n - 1;
      assert SumTo(pool, k) < total;
    }
  }

  // ---- receiving ----

  predicate CanSplit(amount: int, count: int) { 1 <= count <= amount }

  function Share(amount: int, count: int, i: nat): int
    requires CanSplit(amount, count)
  {
    if i == count - 1 then amount - amount / count * (count - 1) else amount / count
  }

  function Shares(amount: int, count: int, n: nat): (xs: seq<int>)
    requires CanSplit(amount, count)
    ensures |xs| == n && forall i :: 0 <= i < n ==> xs[i] == Share(amount, count, i)
  {
    seq(n, i requires 0 <= i => Share(amount, count, i))
  }

  /** Reserve keys for the shares of an amount; None where the client throws. */
  method PrepareReceive(wallet: Keys, amount: int, count: int) returns (r: Option<(seq<nat>, seq<int>)>)
    requires wallet.Valid()
    modifies wallet
    ensures wallet.Valid()
    ensures r.None? <==> !CanSplit(amount, count)
    ensures r.None? ==> wallet.derived == old(wallet.derived)
    ensures r.Some? ==> Reserved(old(wallet.derived), wallet.derived, r.value.0) && |r.value.0| == count
    ensures r.Some? ==> r.value.1 == Shares(amount, count, count)
  {
    if count < 1 || amount < count {
      return None;
    }
    var targets := wallet.ReserveFreeUtxos(count);
    var per := amount / count;
    var shares: seq<int> := [];
    for i := 0 to |targets|
      invariant shares == Shares(amount, count, i)
    {
      var share := if i == count - 1 then amount - per * (count - 1) else per;
      shares := shares + [share];
    }
    return Some((targets, shares));
  }

  lemma {:induction false} EvenShares(amount: int, count: int, n: nat)
    requires CanSplit(amount, count) && n < count
    ensures Total(Shares(amount, count, n)) == amount / count * n
  {
    if n > 0 {
      var m: nat := n - 1;
      EvenShares(amount, count, m);
      assert Shares(amount, count, n)[..m] == Shares(amount, count, m);
    }
  }

  lemma LastShare(amount: int, count: int)
    requires CanSplit(amount, count)
    ensures 1 <= amount / count
    ensures Share(amount, count, count - 1) == amount / count + amount % count
    ensures amount / count * (count - 1) + Share(amount, count, count - 1) == amount
  {
    assert amount == amount / count * count + amount % count;
    assert amount / count * count == amount / count * (count - 1) + amount / count;
  }

  /** The shares are positive and add up to the amount, for every count they can be split into; all are
      equal but the last, which has the remainder on top. */
  lemma SharesAddUp(amount: int, count: int)
    requires CanSplit(amount, count)
    ensures Total(Shares(amount, count, count)) == amount
    ensures AllPositive(Shares(amount, count, count))
    ensures var xs := Shares(amount, count, count);
      (forall i :: 0 <= i < count - 1 ==> xs[i] == xs[0]) && xs[0] <= xs[count - 1] < xs[0] + count
  {
    var last: nat := count - 1;
    EvenShares(amount, count, last);
    assert Shares(amount, count, count)[..last] == Shares(amount, count, last);
    LastShare(amount, count);
  }
}

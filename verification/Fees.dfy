/** Fee derivation, the injected fee Create, and what the bundle then leaves over on chain. */
module Fees {
  import opened Wrappers
  import opened ScVals
  import opened Mlxdr

  datatype Amounts = Amounts(create: i128, spend: i128, deposit: i128, withdraw: i128)

  function AmountsOf(ops: seq<DecodedOperation>): (xs: seq<i128>)
    ensures |xs| == |ops| && forall i :: 0 <= i < |xs| ==> xs[i] == ops[i].amount
  {
    seq(|ops|, i requires 0 <= i < |ops| => ops[i].amount)
  }

  /** `iter().sum()` in a release build. */
  function WrappingSum(xs: seq<i128>): i128 {
    if xs == [] then 0 else Wrap(WrappingSum(xs[..|xs| - 1]) + xs[|xs| - 1])
  }

  /** The sum over the integers. */
  function Total(xs: seq<int>): int {
    if xs == [] then 0 else Total(xs[..|xs| - 1]) + xs[|xs| - 1]
  }

  lemma {:induction false} WrappingSumIsTotal(xs: seq<i128>)
    ensures WrappingSum(xs) == Wrap(Total(xs))
  {
    if xs != [] {
      WrappingSumIsTotal(xs[..|xs| - 1]);
      WrapLifts(Total(xs[..|xs| - 1]), xs[|xs| - 1]);
    }
  }

  function FromClassified(cl: Buckets<DecodedOperation>, balances: seq<i128>): Amounts {
    Amounts(WrappingSum(AmountsOf(cl.create)), WrappingSum(balances),
            WrappingSum(AmountsOf(cl.deposit)), WrappingSum(AmountsOf(cl.withdraw)))
  }

  function CalculateFee(a: Amounts): i128 {
    var outflows := Wrap(a.create + a.withdraw);
    if a.deposit <= 0 then Wrap(a.spend - outflows) else Wrap(a.deposit - outflows)
  }

  /** `derive_fee_from_classified` */
  function DeriveFee(cl: Buckets<DecodedOperation>, balances: seq<i128>): i128 {
    CalculateFee(FromClassified(cl, balances))
  }

  /** The excess of inflows over outflows as integers; only deposits count as inflow when there are any. */
  function Excess(cl: Buckets<DecodedOperation>, balances: seq<i128>): int {
    (if TakesDeposits(cl) then Total(AmountsOf(cl.deposit)) else Total(balances))
    - Total(AmountsOf(cl.create)) - Total(AmountsOf(cl.withdraw))
  }

  predicate TakesDeposits(cl: Buckets<DecodedOperation>) { WrappingSum(AmountsOf(cl.deposit)) > 0 }

  lemma NetWraps(inflow: int, create: int, withdraw: int)
    ensures Wrap(Wrap(inflow) - Wrap(Wrap(create) + Wrap(withdraw))) == Wrap(inflow - create - withdraw)
  {
    WrapLifts(create, Wrap(withdraw));
    WrapLifts(create, withdraw);
    WrapLifts(Wrap(inflow), create + withdraw);
    WrapLifts(inflow, -(create + withdraw));
  }

  lemma FeeWraps(a: Amounts, inflow: int, create: int, withdraw: int)
    requires a.create == Wrap(create) && a.withdraw == Wrap(withdraw)
    requires Wrap(inflow) == if a.deposit <= 0 then a.spend else a.deposit
    ensures CalculateFee(a) == Wrap(inflow - create - withdraw)
  {
    NetWraps(inflow, create, withdraw);
  }

  /** The fee is the excess, modulo 2^128. */
  lemma FeeIsWrappedExcess(cl: Buckets<DecodedOperation>, balances: seq<i128>)
    ensures DeriveFee(cl, balances) == Wrap(Excess(cl, balances))
  {
    var create, withdraw := AmountsOf(cl.create), AmountsOf(cl.withdraw);
    var inflow := if TakesDeposits(cl) then AmountsOf(cl.deposit) else balances;
    WrappingSumIsTotal(create);
    WrappingSumIsTotal(withdraw);
    WrappingSumIsTotal(inflow);
    FeeWraps(FromClassified(cl, balances), Total(inflow), Total(create), Total(withdraw));
  }

  /** The extra Create for the provider's margin. */
  function FeeCreate(opexKey: seq<byte>, fee: i128): ScVal {
    VecOf([ScBytes(opexKey), Split(fee)])
  }

  // ---- on chain ----

  function ChainAmount(k: OperationKind, op: ScVal): i128 {
    match DecodeOp(k, op)
    case Ok(d) => d.amount
    case Err(_) => 0
  }

  function ChainAmounts(k: OperationKind, ops: seq<ScVal>): (xs: seq<int>)
    ensures |xs| == |ops| && forall i :: 0 <= i < |xs| ==> xs[i] == ChainAmount(k, ops[i])
  {
    seq(|ops|, i requires 0 <= i < |ops| => ChainAmount(k, ops[i]))
  }

  /** total deposit + spent balances - total create - total withdraw, which the contract wants zero. */
  function LeftOver(op: Buckets<ScVal>, spent: int): int {
    Total(ChainAmounts(Deposit, op.deposit)) + spent
    - Total(ChainAmounts(Create, op.create)) - Total(ChainAmounts(Withdraw, op.withdraw))
  }

  /** The argument the executor sends for a bundle's slots and its stored fee. */
  function Sent(c: Codec, slots: seq<string>, opexKey: seq<byte>, fee: i128): Result<ScVal, MlxdrError> {
    var ops :- Aggregated(c, slots);
    Ok(ChannelOperation(ops.Push(Create, FeeCreate(opexKey, fee))))
  }

  lemma SameAmounts(ops: Buckets<ScVal>, cl: Buckets<DecodedOperation>, k: OperationKind)
    requires SameOperations(ops, cl)
    ensures ChainAmounts(k, ops.Of(k)) == AmountsOf(cl.Of(k))
  {
    assert |ops.Of(k)| == |cl.Of(k)|;
    assert forall i :: 0 <= i < |ops.Of(k)| ==> DecodeOp(k, ops.Of(k)[i]) == Ok(cl.Of(k)[i]);
  }

  lemma FeeCreateAdds(creates: seq<ScVal>, opexKey: seq<byte>, fee: i128)
    ensures Total(ChainAmounts(Create, creates + [FeeCreate(opexKey, fee)]))
        == Total(ChainAmounts(Create, creates)) + fee
  {
    var all := ChainAmounts(Create, creates + [FeeCreate(opexKey, fee)]);
    SplitJoin(fee, 0, 0);
    assert all[..|all| - 1] == ChainAmounts(Create, creates);
  }

  lemma FeeCreateTakes(ops: Buckets<ScVal>, opexKey: seq<byte>, fee: i128, spent: int)
    ensures LeftOver(ops.Push(Create, FeeCreate(opexKey, fee)), spent) == LeftOver(ops, spent) - fee
  {
    FeeCreateAdds(ops.create, opexKey, fee);
  }

  lemma SameLeftOver(ops: Buckets<ScVal>, cl: Buckets<DecodedOperation>, spent: int)
    requires SameOperations(ops, cl)
    ensures LeftOver(ops, spent) == Total(AmountsOf(cl.deposit)) + spent
      - Total(AmountsOf(cl.create)) - Total(AmountsOf(cl.withdraw))
  {
    SameAmounts(ops, cl, Create);
    SameAmounts(ops, cl, Deposit);
    SameAmounts(ops, cl, Withdraw);
  }

  /** What is left over, for operations that are the classified ones and the fee Create. */
  lemma LeftOverIs(ops: Buckets<ScVal>, cl: Buckets<DecodedOperation>, balances: seq<i128>, opexKey: seq<byte>)
    requires SameOperations(ops, cl)
    ensures LeftOver(ops.Push(Create, FeeCreate(opexKey, DeriveFee(cl, balances))), Total(balances))
         == Expected(cl, balances) + Excess(cl, balances) - DeriveFee(cl, balances)
  {
    SameLeftOver(ops, cl, Total(balances));
    FeeCreateTakes(ops, opexKey, DeriveFee(cl, balances), Total(balances));
  }

  /** The side of the inflow that the fee derivation ignores. */
  function Expected(cl: Buckets<DecodedOperation>, balances: seq<i128>): int {
    if TakesDeposits(cl) then Total(balances) else Total(AmountsOf(cl.deposit))
  }

  lemma WrapResidue(x: int) ensures (x - Wrap(x)) % TWO_128 == 0 {}

  lemma SentReadsBack(c: Codec, slots: seq<string>, opexKey: seq<byte>, fee: i128)
    requires Classified(c, slots).Ok?
    ensures Sent(c, slots, opexKey, fee).Ok?
    ensures exists ops :: (SameOperations(ops, Classified(c, slots).value) &&
              ReadOperation(Sent(c, slots, opexKey, fee).value) == Some(ops.Push(Create, FeeCreate(opexKey, fee))))
  {
    AggregateMatchesClassify(c, slots);
    var ops := Aggregated(c, slots).value;
    ReadBack(ops.Push(Create, FeeCreate(opexKey, fee)));
  }

  /** The operations read decode, one for one and in order, to these. */
  ghost predicate DecodeTo(k: OperationKind, ops: seq<ScVal>, ds: seq<DecodedOperation>) {
    |ops| == |ds| && forall i :: 0 <= i < |ops| ==> DecodeOp(k, ops[i]) == Ok(ds[i])
  }

  lemma FeeDecodes(creates: seq<ScVal>, ds: seq<DecodedOperation>, opexKey: seq<byte>, fee: i128)
    requires DecodeTo(Create, creates, ds)
    ensures DecodeTo(Create, creates + [FeeCreate(opexKey, fee)], ds + [DecodedOperation(Create, opexKey, fee)])
  {
    SplitJoin(fee, 0, 0);
  }

  /** The contract reads from the sent argument the classified operations, in order, and after the
      creates one more, of the fee on the provider's key, and nothing else. */
  lemma SentIsClassifiedPlusFee(c: Codec, slots: seq<string>, opexKey: seq<byte>, fee: i128)
    requires Classified(c, slots).Ok?
    ensures Sent(c, slots, opexKey, fee).Ok? && ReadOperation(Sent(c, slots, opexKey, fee).value).Some?
    ensures var cl, read := Classified(c, slots).value, ReadOperation(Sent(c, slots, opexKey, fee).value).value;
      && DecodeTo(Create, read.create, cl.create + [DecodedOperation(Create, opexKey, fee)])
      && DecodeTo(Spend, read.spend, cl.spend)
      && DecodeTo(Deposit, read.deposit, cl.deposit)
      && DecodeTo(Withdraw, read.withdraw, cl.withdraw)
  {
    var cl := Classified(c, slots).value;
    SentReadsBack(c, slots, opexKey, fee);
    var ops :| SameOperations(ops, cl)
      && ReadOperation(Sent(c, slots, opexKey, fee).value) == Some(ops.Push(Create, FeeCreate(opexKey, fee)));
    forall k: OperationKind ensures DecodeTo(k, ops.Of(k), cl.Of(k)) {
      assert |ops.Of(k)| == |cl.Of(k)|;
    }
    assert ops.Of(Create) == ops.create && cl.Of(Create) == cl.create;
    assert ops.Of(Spend) == ops.spend && cl.Of(Spend) == cl.spend;
    assert ops.Of(Deposit) == ops.deposit && cl.Of(Deposit) == cl.deposit;
    assert ops.Of(Withdraw) == ops.withdraw && cl.Of(Withdraw) == cl.withdraw;
    FeeDecodes(ops.create, cl.create, opexKey, fee);
  }

  /** How far a chain reading of an operation is from what it should leave over. */
  ghost predicate Conserves(read: Buckets<ScVal>, cl: Buckets<DecodedOperation>, balances: seq<i128>) {
    && (LeftOver(read, Total(balances)) - Expected(cl, balances)) % TWO_128 == 0
    && (LeftOver(read, Total(balances)) == Expected(cl, balances) <==> InI128(Excess(cl, balances)))
  }

  lemma FeeConserves(ops: Buckets<ScVal>, cl: Buckets<DecodedOperation>, balances: seq<i128>, opexKey: seq<byte>)
    requires SameOperations(ops, cl)
    ensures Conserves(ops.Push(Create, FeeCreate(opexKey, DeriveFee(cl, balances))), cl, balances)
  {
    var leftOver := LeftOver(ops.Push(Create, FeeCreate(opexKey, DeriveFee(cl, balances))), Total(balances));
    var excess := Excess(cl, balances);
    LeftOverIs(ops, cl, balances, opexKey);
    FeeIsWrappedExcess(cl, balances);
    assert leftOver - Expected(cl, balances) == excess - Wrap(excess);
    WrapIsExactInRange(excess);
    WrapResidue(excess);
  }

  /** Value conservation. What the sent argument leaves over on chain is the spent total if deposits
      count and the deposited total if not: modulo 2^128 always, exactly when the excess fits an i128. */
  lemma Conservation(c: Codec, slots: seq<string>, balances: seq<i128>, opexKey: seq<byte>)
    requires Classified(c, slots).Ok?
    ensures var cl := Classified(c, slots).value;
      var sent := Sent(c, slots, opexKey, DeriveFee(cl, balances));
      sent.Ok? && ReadOperation(sent.value).Some? && Conserves(ReadOperation(sent.value).value, cl, balances)
  {
    var cl := Classified(c, slots).value;
    var fee := DeriveFee(cl, balances);
    SentReadsBack(c, slots, opexKey, fee);
    var ops :| SameOperations(ops, cl)
      && ReadOperation(Sent(c, slots, opexKey, fee).value) == Some(ops.Push(Create, FeeCreate(opexKey, fee)));
    FeeConserves(ops, cl, balances, opexKey);
  }

  /** When the contract accepts the balance: exactly when the side of the inflow that the fee derivation
      ignores makes up for what wrapping took from the excess. If the excess fits an i128 that is
      nothing: a bundle in which deposits count must then spend nothing, any other deposit nothing in total. */
  lemma BalancesExactlyWhen(c: Codec, slots: seq<string>, balances: seq<i128>, opexKey: seq<byte>)
    requires Classified(c, slots).Ok?
    ensures var cl := Classified(c, slots).value;
      var sent := Sent(c, slots, opexKey, DeriveFee(cl, balances));
      && sent.Ok? && ReadOperation(sent.value).Some?
      && var leftOver := LeftOver(ReadOperation(sent.value).value, Total(balances));
        && (leftOver == 0 <==> Expected(cl, balances) == Wrap(Excess(cl, balances)) - Excess(cl, balances))
        && (InI128(Excess(cl, balances)) ==> (leftOver == 0 <==> Expected(cl, balances) == 0))
  {
    var cl := Classified(c, slots).value;
    var fee := DeriveFee(cl, balances);
    SentReadsBack(c, slots, opexKey, fee);
    var ops :| SameOperations(ops, cl)
      && ReadOperation(Sent(c, slots, opexKey, fee).value) == Some(ops.Push(Create, FeeCreate(opexKey, fee)));
    LeftOverIs(ops, cl, balances, opexKey);
    FeeIsWrappedExcess(cl, balances);
    WrapIsExactInRange(Excess(cl, balances));
  }

  lemma BalancesInRange(c: Codec, slots: seq<string>, balances: seq<i128>, opexKey: seq<byte>, fee: i128)
    requires Classified(c, slots).Ok? && fee == DeriveFee(Classified(c, slots).value, balances)
    requires InI128(Excess(Classified(c, slots).value, balances)) && Expected(Classified(c, slots).value, balances) == 0
    ensures var sent := Sent(c, slots, opexKey, fee);
      sent.Ok? && ReadOperation(sent.value).Some? && LeftOver(ReadOperation(sent.value).value, Total(balances)) == 0
  {
    BalancesExactlyWhen(c, slots, balances, opexKey);
  }
}

/** Slots that submission admits and that break, one promise each, what holds under a condition:
    conservation over the integers, the balance on chain, the host's map order, the simulation's own
    entries, the nonces in the footprint. They do so under every codec, and there is a codec under
    which each of them can be written. */
module ValueWitness {
  import opened Wrappers
  import opened ScVals
  import opened Mlxdr
  import opened Fees
  import opened SpendSlots
  import opened SignatureMap
  import Submission
  import opened AuthEntries
  import opened AuthPasses
  import opened Client

  // ---- a codec for a finite table of values ----

  function Place(vals: seq<ScVal>, v: ScVal): Option<nat> {
    if vals == [] then None
    else if vals[0] == v then Some(0)
    else match Place(vals[1..], v) case None => None case Some(k) => Some(k + 1)
  }

  lemma {:induction false} PlaceMeans(vals: seq<ScVal>, v: ScVal)
    ensures match Place(vals, v) case None => v !in vals case Some(k) => k < |vals| && vals[k] == v
  {
    if vals != [] { PlaceMeans(vals[1..], v); }
  }

  function TextOf(bytes: seq<byte>): (s: string)
    ensures |s| == |bytes| && forall i :: 0 <= i < |s| ==> s[i] as int == bytes[i] as int
  {
    seq(|bytes|, i requires 0 <= i < |bytes| => bytes[i] as int as char)
  }

  predicate IsTextOf(s: string) { forall i :: 0 <= i < |s| ==> s[i] as int < 256 }

  function BytesOf(s: string): (bytes: seq<byte>)
    requires IsTextOf(s)
    ensures |bytes| == |s| && forall i :: 0 <= i < |s| ==> bytes[i] as int == s[i] as int
  {
    seq(|s|, i requires 0 <= i < |s| => s[i] as int as byte)
  }

  function TableCodec(vals: seq<ScVal>): Codec
    requires |vals| <= 256
  {
    Codec((s: string) => if IsTextOf(s) then Some(BytesOf(s)) else None,
          (bytes: seq<byte>) => TextOf(bytes),
          (bytes: seq<byte>) => if |bytes| == 1 && bytes[0] as int < |vals| then Some(vals[bytes[0]]) else None,
          (v: ScVal) =>
            PlaceMeans(vals, v);
            match Place(vals, v)
            case None => None
            case Some(k) => Some([k as byte]))
  }

  lemma TableRoundTrips(vals: seq<ScVal>)
    requires |vals| <= 256
    ensures RoundTrips(TableCodec(vals))
  {
    var c := TableCodec(vals);
    forall bytes ensures c.b64Decode(c.b64Encode(bytes)) == Some(bytes) {
      assert BytesOf(TextOf(bytes)) == bytes;
    }
    forall v | c.toXdr(v).Some? ensures c.fromXdr(c.toXdr(v).value) == Some(v) { PlaceMeans(vals, v); }
  }

  function SlotValue(op: Op): ScVal
    requires InI128(op.amount)
  {
    VecOf([VecOf(PayloadOf(op).value), VecOf(op.signature)])
  }

  /** Any operations in range can be written as slots, under a codec that knows at least these. */
  lemma SlotsCanBeWritten(ops: seq<Op>) returns (c: Codec, slots: seq<string>)
    requires |ops| <= 256 && forall i :: 0 <= i < |ops| ==> InI128(ops[i].amount)
    ensures RoundTrips(c) && SlotsOf(c, ops, slots)
  {
    var vals := seq(|ops|, i requires 0 <= i < |ops| => SlotValue(ops[i]));
    c := TableCodec(vals);
    TableRoundTrips(vals);
    forall i | 0 <= i < |ops| ensures Slot(c, ops[i]).Ok? {
      PlaceMeans(vals, vals[i]);
      assert vals[i] == SlotValue(ops[i]);
    }
    slots := seq(|ops|, i requires 0 <= i < |ops| => if Slot(c, ops[i]).Ok? then Slot(c, ops[i]).value else "");
  }

  /** Admitted for a fee with any balances of the keys it spends. */
  lemma Admitted(
      c: Codec, ops: seq<Op>, slots: seq<string>, channel: seq<byte>, read: Submission.Balances, spent: seq<i128>,
      fee: int)
    requires RoundTrips(c) && SlotsOf(c, ops, slots)
    requires if SpentKeys(ops) == [] then spent == [] else read(SpentKeys(ops)) == Some(spent)
    requires Classified(c, slots).Ok? && DeriveFee(Classified(c, slots).value, spent) == fee
    requires 0 < fee < 0x8000_0000_0000_0000
    ensures Submission.Admit(c, Texts(slots), Some(channel), false, read) == Ok(fee)
  {
    SlotsClassify(c, ops, slots);
    TextsBack(slots);
    assert |Submission.SpendUtxos(Classified(c, slots).value)| == |Classified(c, slots).value.spend|;
  }

  // ---- an excess that is no i128 ----

  const LARGEST: int := TWO_127 - 1

  /** Deposit 100 and create 2^128 in all. */
  function Overflowing(account: seq<byte>, utxo: seq<byte>): seq<Op> {
    [Op(Deposit, account, 100, [], []), CreateOp(utxo, LARGEST), CreateOp(utxo, LARGEST), CreateOp(utxo, 2)]
  }

  lemma OverflowSums(account: seq<byte>, utxo: seq<byte>)
    ensures var ops := Overflowing(account, utxo);
      Sum(ops, Deposit) == 100 && Sum(ops, Create) == TWO_128 && Sum(ops, Withdraw) == 0 && SpentKeys(ops) == []
  {
    var ops := Overflowing(account, utxo);
    forall k: OperationKind
      ensures Sum(ops, k) == (if k.Deposit? then 100 else if k.Create? then TWO_128 else 0) && SpentKeys(ops) == [] {
      FourOps(ops[0], ops[1], ops[2], ops[3], k);
    }
  }

  function Amount(op: Op, k: OperationKind): int { if op.kind == k then op.amount else 0 }

  lemma FourOps(a: Op, b: Op, d: Op, e: Op, k: OperationKind)
    ensures Sum([a, b, d, e], k) == Sum([a, b, d], k) + Amount(e, k)
    ensures Sum([a, b, d], k) == Amount(a, k) + Amount(b, k) + Amount(d, k)
    ensures !a.kind.Spend? && !b.kind.Spend? && !d.kind.Spend? && !e.kind.Spend? ==> SpentKeys([a, b, d, e]) == []
  {
    assert [] + [a] == [a] && [a] + [b] == [a, b] && [a, b] + [d] == [a, b, d] && [a, b, d] + [e] == [a, b, d, e];
    OneMoreOp([], a, k);
    OneMoreOp([a], b, k);
    OneMoreOp([a, b], d, k);
    OneMoreOp([a, b, d], e, k);
  }

  /** Admitted for a fee of 100, though its excess is 100 - 2^128; on chain 2^128 too much is created. */
  lemma OverflowIsAdmitted(
      c: Codec, account: seq<byte>, utxo: seq<byte>, slots: seq<string>,
      channel: seq<byte>, read: Submission.Balances, opexKey: seq<byte>)
    requires RoundTrips(c) && SlotsOf(c, Overflowing(account, utxo), slots)
    ensures Submission.Admit(c, Texts(slots), Some(channel), false, read) == Ok(100)
    ensures Classified(c, slots).Ok? && !InI128(Excess(Classified(c, slots).value, []))
    ensures Sent(c, slots, opexKey, 100).Ok? && ReadOperation(Sent(c, slots, opexKey, 100).value).Some?
    ensures LeftOver(ReadOperation(Sent(c, slots, opexKey, 100).value).value, 0) != 0
  {
    var ops := Overflowing(account, utxo);
    SlotsClassify(c, ops, slots);
    OverflowSums(account, utxo);
    var cl := Classified(c, slots).value;
    WrappingSumIsTotal(AmountsOf(cl.deposit));
    WrapIsExactInRange(100);
    assert Excess(cl, []) == 100 - TWO_128;
    FeeIsWrappedExcess(cl, []);
    assert Wrap(100 - TWO_128) == 100 by { WrapSkips(100, -1); }
    Admitted(c, ops, slots, channel, read, [], 100);
    Conservation(c, slots, [], opexKey);
  }

  // ---- deposits and spends in one bundle ----

  /** Deposit 100, spend a key and create 60. */
  function Mixed(account: seq<byte>, utxo: seq<byte>, sig: seq<byte>): seq<Op> {
    [Op(Deposit, account, 100, [], []), SignedSpend(utxo, 0, sig), CreateOp(utxo, 60)]
  }

  lemma MixedSums(account: seq<byte>, utxo: seq<byte>, sig: seq<byte>)
    ensures var ops := Mixed(account, utxo, sig);
      Sum(ops, Deposit) == 100 && Sum(ops, Create) == 60 && Sum(ops, Withdraw) == 0 && SpentKeys(ops) == [utxo]
  {
    var ops := Mixed(account, utxo, sig);
    assert [] + [ops[0]] == [ops[0]] && [ops[0]] + [ops[1]] == ops[..2] && ops[..2] + [ops[2]] == ops;
    forall k: OperationKind
      ensures Sum(ops, k) == (if k.Deposit? then 100 else if k.Create? then 60 else 0) && SpentKeys(ops) == [utxo] {
      OneMoreOp([], ops[0], k);
      OneMoreOp([ops[0]], ops[1], k);
      OneMoreOp(ops[..2], ops[2], k);
    }
  }

  /** With 50 on the key it is admitted for 40, as if it spent nothing; on chain the 50 are left over. */
  lemma MixedIsAdmitted(
      c: Codec, account: seq<byte>, utxo: seq<byte>, sig: seq<byte>, slots: seq<string>,
      channel: seq<byte>, read: Submission.Balances, opexKey: seq<byte>)
    requires RoundTrips(c) && SlotsOf(c, Mixed(account, utxo, sig), slots) && read([utxo]) == Some([50])
    ensures Submission.Admit(c, Texts(slots), Some(channel), false, read) == Ok(40)
    ensures Sent(c, slots, opexKey, 40).Ok? && ReadOperation(Sent(c, slots, opexKey, 40).value).Some?
    ensures LeftOver(ReadOperation(Sent(c, slots, opexKey, 40).value).value, 50) == 50
  {
    var ops, spent: seq<i128> := Mixed(account, utxo, sig), [50];
    SlotsClassify(c, ops, slots);
    MixedSums(account, utxo, sig);
    var cl := Classified(c, slots).value;
    WrappingSumIsTotal(AmountsOf(cl.deposit));
    WrapIsExactInRange(100);
    assert Total(spent) == 50 by { assert spent[..0] == []; }
    assert Excess(cl, spent) == 40;
    FeeIsWrappedExcess(cl, spent);
    WrapIsExactInRange(40);
    Admitted(c, ops, slots, channel, read, spent, 40);
    Conservation(c, slots, spent, opexKey);
  }

  // ---- one UTXO signed for twice ----

  function SignedSpend(utxo: seq<byte>, exp: u32, sig: seq<byte>): Op {
    Op(Spend, utxo, 0, [], [ScI128(0, exp), ScBytes(sig)])
  }

  lemma SignedSpendIsRead(c: Codec, utxo: seq<byte>, exp: u32, sig: seq<byte>, slot: string)
    requires RoundTrips(c) && |utxo| == 65 && |sig| == 64 && Slot(c, SignedSpend(utxo, exp, sig)) == Ok(slot)
    ensures SignatureOf(c, slot) == Ok(Some(SpendSignature(utxo, sig, exp)))
  {
    var op := SignedSpend(utxo, exp, sig);
    EncodeThenRead(c, Spend, [VecOf(PayloadOf(op).value), VecOf(op.signature)]);
  }

  lemma TwoSignatures(c: Codec, slots: seq<string>, a: SpendSignature, b: SpendSignature)
    requires |slots| == 2 && SignatureOf(c, slots[0]) == Ok(Some(a)) && SignatureOf(c, slots[1]) == Ok(Some(b))
    ensures Signatures(c, slots) == Ok([a, b])
  {
    var front := slots[..1];
    assert front[..0] == [] && front[0] == slots[0];
    assert Signatures(c, front[..0]) == Ok([]);
    assert Signatures(c, front) == Ok([] + [a]);
    assert [] + [a] == [a] && [a] + [b] == [a, b];
  }

  /** Two spends of one UTXO are admitted, both balances counting, and give the executor a map that
      the host refuses. */
  lemma SpentTwiceIsAdmitted(
      c: Codec, utxo: seq<byte>, exp: u32, sig: seq<byte>, slots: seq<string>,
      channel: seq<byte>, read: Submission.Balances, provider: seq<byte>)
    returns (spends: seq<SpendSignature>)
    requires RoundTrips(c) && SlotsOf(c, [SignedSpend(utxo, exp, sig), SignedSpend(utxo, exp, sig)], slots)
    requires |utxo| == 65 && |sig| == 64 && read([utxo, utxo]) == Some([10, 10])
    ensures Submission.Admit(c, Texts(slots), Some(channel), false, read) == Ok(20)
    ensures Signatures(c, slots) == Ok(spends)
        && spends == [SpendSignature(utxo, sig, exp), SpendSignature(utxo, sig, exp)]
    ensures forall mine, at :: !HostAccepts(Entries(spends, provider, mine, at))
  {
    var op, s := SignedSpend(utxo, exp, sig), SpendSignature(utxo, sig, exp);
    spends := [s, s];
    SignedSpendIsRead(c, utxo, exp, sig, slots[0]);
    SignedSpendIsRead(c, utxo, exp, sig, slots[1]);
    TwoSignatures(c, slots, s, s);
    SlotsClassify(c, [op, op], slots);
    TwoSpends(op);
    var cl, balances: seq<i128> := Classified(c, slots).value, [10, 10];
    assert balances[..1] == [10] && balances[..1][..0] == [];
    FeeOfSpends(cl, balances);
    Admitted(c, [op, op], slots, channel, read, balances, 20);
    forall mine, at ensures !HostAccepts(Entries(spends, provider, mine, at)) {
      assert spends[0].utxo == spends[1].utxo;
      OrderedExactlyWhen(spends, provider, mine, at);
    }
  }

  lemma TwoSpends(op: Op)
    requires op.kind.Spend?
    ensures SpentKeys([op, op]) == [op.key, op.key]
    ensures Sum([op, op], Create) == 0 && Sum([op, op], Deposit) == 0 && Sum([op, op], Withdraw) == 0
  {
    assert [] + [op] == [op] && [op] + [op] == [op, op];
    forall k: OperationKind ensures Sum([op, op], k) == if k.Spend? then op.amount + op.amount else 0 {
      OneMoreOp([], op, k);
      OneMoreOp([op], op, k);
    }
    OneMoreOp([], op, Create);
    OneMoreOp([op], op, Create);
  }

  lemma FeeOfSpends(cl: Buckets<DecodedOperation>, balances: seq<i128>)
    requires Total(AmountsOf(cl.create)) == 0 && Total(AmountsOf(cl.deposit)) == 0 && Total(AmountsOf(cl.withdraw)) == 0
    requires InI128(Total(balances))
    ensures DeriveFee(cl, balances) == Total(balances)
  {
    WrappingSumIsTotal(AmountsOf(cl.deposit));
    FeeIsWrappedExcess(cl, balances);
    WrapIsExactInRange(Total(balances));
    WrapIsExactInRange(0);
  }

  // ---- a Contract entry in a user's name ----

  function DepositOf(pk32: seq<byte>, entryXdr: seq<byte>): Op { Op(Deposit, pk32, 100, [], [ScBytes(entryXdr)]) }

  lemma DepositIsRead(
      c: Codec, read: EntryReader, pk32: seq<byte>, entryXdr: seq<byte>, entry: AuthEntry, slots: seq<string>)
    requires RoundTrips(c) && read(entryXdr) == Some(entry) && SlotsOf(c, [DepositOf(pk32, entryXdr)], slots)
    ensures UserEntries(c, read, slots) == Ok([UserSignedSlot(pk32, entry)])
  {
    var op := DepositOf(pk32, entryXdr);
    assert Slot(c, op) == Ok(slots[0]) by { assert [op][0] == op; }
    EncodeThenRead(c, Deposit, [VecOf(PayloadOf(op).value), VecOf(op.signature)]);
    assert slots[..0] == [] && UserEntries(c, read, slots[..0]) == Ok([]);
    assert [] + [UserSignedSlot(pk32, entry)] == [UserSignedSlot(pk32, entry)];
    assert UserEntryOf(c, read, slots[0]) == Ok(Some(UserSignedSlot(pk32, entry)));
  }

  lemma DepositSums(op: Op)
    requires op.kind.Deposit?
    ensures Sum([op], Deposit) == op.amount && Sum([op], Create) == 0 && Sum([op], Withdraw) == 0
        && SpentKeys([op]) == []
  {
    assert [] + [op] == [op];
    OneMoreOp([], op, Deposit);
    OneMoreOp([], op, Create);
    OneMoreOp([], op, Withdraw);
  }

  lemma DepositIsAdmitted(
      c: Codec, pk32: seq<byte>, entryXdr: seq<byte>, slots: seq<string>, channel: seq<byte>,
      balances: Submission.Balances)
    requires RoundTrips(c) && SlotsOf(c, [DepositOf(pk32, entryXdr)], slots)
    ensures Submission.Admit(c, Texts(slots), Some(channel), false, balances) == Ok(100)
  {
    var op := DepositOf(pk32, entryXdr);
    SlotsClassify(c, [op], slots);
    DepositSums(op);
    var cl := Classified(c, slots).value;
    WrappingSumIsTotal(AmountsOf(cl.deposit));
    FeeIsWrappedExcess(cl, []);
    WrapIsExactInRange(100);
    assert Excess(cl, []) == 100;
    Admitted(c, [op], slots, channel, balances, [], 100);
  }

  /** A deposit that carries a Contract entry is admitted; where the simulation asked for the depositor's
      own entry the transaction then has one Contract entry more. */
  lemma ContractEntryIsAdmitted(
      c: Codec, read: EntryReader, pk32: seq<byte>, entryXdr: seq<byte>, entry: AuthEntry, simulated: AuthEntry,
      slots: seq<string>, channel: seq<byte>, balances: Submission.Balances, at: u32, p: ProviderKey)
    returns (users: seq<UserSignedSlot>)
    requires RoundTrips(c) && SlotsOf(c, [DepositOf(pk32, entryXdr)], slots)
    requires read(entryXdr) == Some(entry) && OfContract(entry)
    requires OfAccount(simulated) && simulated.credentials.address.pk32 == pk32
    ensures Submission.Admit(c, Texts(slots), Some(channel), false, balances) == Ok(100)
    ensures UserEntries(c, read, slots) == Ok(users)
    ensures OtherEntries([simulated]) == [] && OtherEntries(Authorized([simulated], users, at, p)) != []
  {
    users := [UserSignedSlot(pk32, entry)];
    DepositIsRead(c, read, pk32, entryXdr, entry, slots);
    DepositIsAdmitted(c, pk32, entryXdr, slots, channel, balances);
    assert [simulated][..0] == [] && [entry][..0] == [];
    assert StandIns([simulated], users) == [entry];
    OthersKeptExactlyWhen([simulated], users, at, p);
  }

  // ---- another account's entry ----

  /** A deposit whose slot names one account and carries the entry of another is admitted; where the
      simulation asked for the named account's entry the transaction then has the other's, and its
      nonce is not in the footprint. */
  lemma ForeignEntryIsAdmitted(
      c: Codec, read: EntryReader, pk32: seq<byte>, entryXdr: seq<byte>, entry: AuthEntry, simulated: AuthEntry,
      slots: seq<string>, channel: seq<byte>, balances: Submission.Balances, at: u32, p: ProviderKey)
    returns (users: seq<UserSignedSlot>)
    requires RoundTrips(c) && SlotsOf(c, [DepositOf(pk32, entryXdr)], slots)
    requires read(entryXdr) == Some(entry) && OfAccount(entry) && entry.credentials.address.pk32 != pk32
    requires OfAccount(simulated) && simulated.credentials.address.pk32 == pk32
    ensures Submission.Admit(c, Texts(slots), Some(channel), false, balances) == Ok(100)
    ensures UserEntries(c, read, slots) == Ok(users)
    ensures !SpentIn(Authorized([simulated], users, at, p), Extended([], users))
  {
    users := [UserSignedSlot(pk32, entry)];
    DepositIsRead(c, read, pk32, entryXdr, entry, slots);
    DepositIsAdmitted(c, pk32, entryXdr, slots, channel, balances);
    assert [simulated][..0] == [];
    assert entry in StandIns([simulated], users);
    NoncesInFootprintExactlyWhen([simulated], users, at, p, []);
  }

  // ---- so each promise fails for some slots ----

  function Key32(b: byte): seq<byte> { seq(32, _ => b) }

  function Key65(b: byte): seq<byte> { seq(65, _ => b) }

  /** Value is not conserved over the integers for these slots, admitted for 100. */
  lemma ConservationCanFail() returns (c: Codec, slots: seq<string>)
    ensures RoundTrips(c)
    ensures forall read: Submission.Balances :: Submission.Admit(c, Texts(slots), Some([]), false, read) == Ok(100)
    ensures Sent(c, slots, [], 100).Ok? && ReadOperation(Sent(c, slots, [], 100).value).Some?
    ensures LeftOver(ReadOperation(Sent(c, slots, [], 100).value).value, 0) != 0
  {
    c, slots := SlotsCanBeWritten(Overflowing(Key32(1), Key65(4)));
    forall read: Submission.Balances ensures Submission.Admit(c, Texts(slots), Some([]), false, read) == Ok(100) {
      OverflowIsAdmitted(c, Key32(1), Key65(4), slots, [], read, []);
    }
    OverflowIsAdmitted(c, Key32(1), Key65(4), slots, [], _ => None, []);
  }

  /** The ordinary case: a bundle that deposits and spends is admitted for 40 and leaves 50 over on chain. */
  lemma BalanceCanFail() returns (c: Codec, slots: seq<string>)
    ensures RoundTrips(c)
    ensures Submission.Admit(c, Texts(slots), Some([]), false, _ => Some([50])) == Ok(40)
    ensures Sent(c, slots, [], 40).Ok? && ReadOperation(Sent(c, slots, [], 40).value).Some?
    ensures LeftOver(ReadOperation(Sent(c, slots, [], 40).value).value, 50) == 50
  {
    var utxo, sig := Key65(4), seq(64, _ => 1 as byte);
    c, slots := SlotsCanBeWritten(Mixed(Key32(1), utxo, sig));
    MixedIsAdmitted(c, Key32(1), utxo, sig, slots, [], _ => Some([50]), []);
  }

  /** The host refuses the signatures of these slots, admitted for 20. */
  lemma OrderCanFail() returns (c: Codec, slots: seq<string>, spends: seq<SpendSignature>)
    ensures RoundTrips(c)
    ensures Submission.Admit(c, Texts(slots), Some([]), false, _ => Some([10, 10])) == Ok(20)
    ensures Signatures(c, slots) == Ok(spends)
    ensures forall provider, mine, at :: !HostAccepts(Entries(spends, provider, mine, at))
  {
    var utxo, sig := Key65(4), seq(64, _ => 1 as byte);
    c, slots := SlotsCanBeWritten([SignedSpend(utxo, 0, sig), SignedSpend(utxo, 0, sig)]);
    spends := SpentTwiceIsAdmitted(c, utxo, 0, sig, slots, [], _ => Some([10, 10]), []);
    assert spends[0].utxo == spends[1].utxo;
    forall provider, mine, at ensures !HostAccepts(Entries(spends, provider, mine, at)) {
      OrderedExactlyWhen(spends, provider, mine, at);
    }
  }

  /** For these slots, admitted for 100, the simulation's entries do not stay the only ones. */
  lemma OthersCanChange(p: ProviderKey, at: u32)
    returns (c: Codec, slots: seq<string>, read: EntryReader, simulated: AuthEntry, users: seq<UserSignedSlot>)
    ensures RoundTrips(c)
    ensures forall balances: Submission.Balances ::
              Submission.Admit(c, Texts(slots), Some([]), false, balances) == Ok(100)
    ensures UserEntries(c, read, slots) == Ok(users)
    ensures OtherEntries(Authorized([simulated], users, at, p)) != OtherEntries([simulated])
  {
    var entry := AuthEntry(Address(Contract(Key32(3)), 0, 0, ScVec(None)), 0);
    simulated := AuthEntry(Address(Account(Key32(1)), 0, 0, ScVec(None)), 0);
    read := (_: seq<byte>) => Some(entry);
    c, slots := SlotsCanBeWritten([DepositOf(Key32(1), [])]);
    forall balances: Submission.Balances
      ensures Submission.Admit(c, Texts(slots), Some([]), false, balances) == Ok(100) {
      DepositIsAdmitted(c, Key32(1), [], slots, [], balances);
    }
    users := ContractEntryIsAdmitted(c, read, Key32(1), [], entry, simulated, slots, [], _ => None, at, p);
  }

  /** The footprint lacks a nonce that the transaction of these slots, admitted for 100, spends. */
  lemma NonceCanBeMissing(p: ProviderKey, at: u32)
    returns (c: Codec, slots: seq<string>, read: EntryReader, simulated: AuthEntry, users: seq<UserSignedSlot>)
    ensures RoundTrips(c)
    ensures forall balances: Submission.Balances ::
              Submission.Admit(c, Texts(slots), Some([]), false, balances) == Ok(100)
    ensures UserEntries(c, read, slots) == Ok(users)
    ensures !SpentIn(Authorized([simulated], users, at, p), Extended([], users))
  {
    var entry := AuthEntry(Address(Account(Key32(2)), 0, 0, ScVec(None)), 0);
    simulated := AuthEntry(Address(Account(Key32(1)), 0, 0, ScVec(None)), 0);
    read := (_: seq<byte>) => Some(entry);
    c, slots := SlotsCanBeWritten([DepositOf(Key32(1), [])]);
    forall balances: Submission.Balances
      ensures Submission.Admit(c, Texts(slots), Some([]), false, balances) == Ok(100) {
      DepositIsAdmitted(c, Key32(1), [], slots, [], balances);
    }
    assert Key32(1)[0] != Key32(2)[0];
    users := ForeignEntryIsAdmitted(c, read, Key32(1), [], entry, simulated, slots, [], _ => None, at, p);
  }
}

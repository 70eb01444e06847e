/** From the client's bundle to the provider's answer: a bundle that spends keys the provider holds is
    signed without refusal, and charged exactly its fee. */
module HeldFunds {
  import opened Wrappers
  import opened ScVals
  import opened Mlxdr
  import opened SpendSlots
  import opened HoldingKeys
  import HoldingScan
  import opened Submission
  import opened Wallet
  import opened Client
  import opened ClientBundles

  /** What the scan lists as held the submit path finds again: both stop at the same index. */
  lemma HeldIsMatched(derive: Derivation, seen: seq<int>, i: nat, balance: int, pk: seq<byte>)
    requires |seen| <= HoldingScan.SCAN_CAP && (i, balance) in HoldingScan.Held(seen)
    requires derive(i) == Some(pk) && forall j :: 0 <= j < i ==> derive(j).Some?
    ensures Search(derive, pk, 0).Ok? && Search(derive, pk, 0).value <= i
  {
    HoldingScan.HeldIsExact(seen);
    SearchFinds(derive, pk, 0, i);
  }

  /** An operation as the client sends it: a spend is signed, or names a 65-byte key and has conditions. */
  predicate WellSent(op: Op) { !op.kind.Spend? || op.signature != [] || (|op.key| == 65 && op.conditions != []) }

  predicate GoesUnsigned(op: Op) { op.kind.Spend? && op.signature == [] }

  /** The conditions of an unsigned spend encode, and so does its slot with a signature over them. */
  predicate SignedFormEncodes(c: Codec, op: Op, g: Signing, key: nat) {
    && c.toXdr(VecOf(op.conditions)).Some?
    && var sig := g.signer(key, AuthPayloadPreimage(g.channel, c.toXdr(VecOf(op.conditions)).value, g.exp));
      c.toXdr(VecOf([VecOf([ScBytes(op.key), VecOf(op.conditions)]), VecOf([ScI128(0, g.exp), ScBytes(sig)])])).Some?
  }

  ghost predicate SignedFormsEncode(c: Codec, ops: seq<Op>, derive: Derivation, g: Signing) {
    forall i :: 0 <= i < |ops| && GoesUnsigned(ops[i]) && Search(derive, ops[i].key, 0).Ok? ==>
      SignedFormEncodes(c, ops[i], g, Search(derive, ops[i].key, 0).value)
  }

  lemma SlotIsSeen(c: Codec, op: Op)
    requires RoundTrips(c) && (GoesUnsigned(op) ==> WellSent(op)) && Slot(c, op).Ok?
    ensures UnsignedSpendUtxo(c, Slot(c, op).value) == Ok(if GoesUnsigned(op) then Some(op.key) else None)
  {
    EncodeThenRead(c, op.kind, [VecOf(PayloadOf(op).value), VecOf(op.signature)]);
  }

  lemma SlotCanBeSigned(c: Codec, op: Op, g: Signing, key: nat)
    requires RoundTrips(c) && SignedFormEncodes(c, op, g, key) && WellSent(op) && GoesUnsigned(op) && Slot(c, op).Ok?
    ensures SignedWith(c, Text(Slot(c, op).value), g, key).Ok?
  {
    EncodeThenRead(c, op.kind, [VecOf(PayloadOf(op).value), VecOf(op.signature)]);
  }

  lemma {:induction false} NoneIsBad(c: Codec, ops: seq<Json>)
    requires forall i :: 0 <= i < |ops| && ops[i].Text? ==> UnsignedSpendUtxo(c, ops[i].s).Ok?
    ensures Unsigned(c, ops).Ok?
  {
    if ops != [] { NoneIsBad(c, ops[..|ops| - 1]); }
  }

  lemma {:induction false} AllAreMatched(derive: Derivation, wanted: seq<Wanted>)
    requires forall k :: 0 <= k < |wanted| ==> Search(derive, wanted[k].1, 0).Ok?
    ensures Matched(derive, wanted).Ok?
  {
    if wanted != [] { AllAreMatched(derive, wanted[..|wanted| - 1]); }
  }

  lemma {:induction false} AllAreSigned(c: Codec, ops: seq<Json>, resolved: seq<(nat, nat)>, g: Signing)
    requires forall k :: 0 <= k < |resolved| && resolved[k].0 < |ops| ==>
              SignedWith(c, ops[resolved[k].0], g, resolved[k].1).Ok?
    ensures FirstSignError(c, ops, resolved, g) == None
  {
    if resolved != [] { AllAreSigned(c, ops, resolved[..|resolved| - 1], g); }
  }

  predicate SomeGoesUnsigned(ops: seq<Op>) { exists i :: 0 <= i < |ops| && GoesUnsigned(ops[i]) }

  /** What the provider asks for before it signs: a channel, an email and a known ledger. */
  predicate CanSign(channel: Option<seq<byte>>, account: Submission.Account, exp: Option<u32>) {
    channel.Some? && HasEmail(account.email) && exp.Some?
  }

  /** And what comes of the signing encodes. */
  ghost predicate CanSignAll(
      c: Codec, ops: seq<Op>, channel: Option<seq<byte>>, account: Submission.Account, exp: Option<u32>, signer: Signer)
  {
    && CanSign(channel, account, exp)
    && SignedFormsEncode(c, ops, account.derive, Signing(channel.value, exp.value, signer))
  }

  lemma {:induction false} NoneIsUnsigned(c: Codec, ops: seq<Json>)
    requires forall i :: 0 <= i < |ops| && ops[i].Text? ==> UnsignedSpendUtxo(c, ops[i].s) == Ok(None)
    ensures Unsigned(c, ops) == Ok([])
  {
    if ops != [] { NoneIsUnsigned(c, ops[..|ops| - 1]); }
  }

  lemma NoneWanted(c: Codec, ops: seq<Op>, slots: seq<string>)
    requires RoundTrips(c) && SlotsOf(c, ops, slots) && !SomeGoesUnsigned(ops)
    ensures Unsigned(c, Client.Texts(slots)) == Ok([])
  {
    forall i | 0 <= i < |ops| ensures UnsignedSpendUtxo(c, slots[i]) == Ok(None) {
      assert !GoesUnsigned(ops[i]);
      SlotIsSeen(c, ops[i]);
    }
    NoneIsUnsigned(c, Client.Texts(slots));
  }

  /** Nothing refuses to sign operations whose unsigned spends, if any, are of keys the provider holds. */
  lemma NothingRefuses(
      c: Codec, ops: seq<Op>, slots: seq<string>, channel: Option<seq<byte>>, account: Submission.Account,
      exp: Option<u32>, signer: Signer)
    requires RoundTrips(c) && SlotsOf(c, ops, slots)
    requires SomeGoesUnsigned(ops) ==> CanSignAll(c, ops, channel, account, exp, signer)
    requires forall i :: 0 <= i < |ops| ==> WellSent(ops[i])
    requires forall i :: 0 <= i < |ops| && GoesUnsigned(ops[i]) ==> Search(account.derive, ops[i].key, 0).Ok?
    ensures SigningRefusal(c, Client.Texts(slots), channel, account, exp, signer) == None
  {
    if SomeGoesUnsigned(ops) {
      HeldAreSigned(c, ops, slots, account, Signing(channel.value, exp.value, signer));
    } else {
      NoneWanted(c, ops, slots);
    }
  }

  lemma HeldAreSigned(c: Codec, ops: seq<Op>, slots: seq<string>, account: Submission.Account, g: Signing)
    requires RoundTrips(c) && SlotsOf(c, ops, slots) && HasEmail(account.email)
    requires SignedFormsEncode(c, ops, account.derive, g)
    requires forall i :: 0 <= i < |ops| ==> WellSent(ops[i])
    requires forall i :: 0 <= i < |ops| && GoesUnsigned(ops[i]) ==> Search(account.derive, ops[i].key, 0).Ok?
    ensures SigningRefusal(c, Client.Texts(slots), Some(g.channel), account, Some(g.exp), g.signer) == None
  {
    var sent := Client.Texts(slots);
    forall i | 0 <= i < |ops|
      ensures UnsignedSpendUtxo(c, slots[i]) == Ok(if GoesUnsigned(ops[i]) then Some(ops[i].key) else None) {
      SlotIsSeen(c, ops[i]);
    }
    NoneIsBad(c, sent);
    UnsignedLists(c, sent);
    var wanted := Unsigned(c, sent).value;
    forall k | 0 <= k < |wanted| ensures GoesUnsigned(ops[wanted[k].0]) && wanted[k].1 == ops[wanted[k].0].key {
      assert UnsignedKey(c, sent[wanted[k].0]) == Some(wanted[k].1);
    }
    AllAreMatched(account.derive, wanted);
    var resolved := Matched(account.derive, wanted).value;
    ResolvedInOrder(c, sent, wanted, resolved, account.derive);
    ResolvedAreSearched(account.derive, wanted);
    forall k | 0 <= k < |resolved| ensures SignedWith(c, sent[resolved[k].0], g, resolved[k].1).Ok? {
      SlotCanBeSigned(c, ops[wanted[k].0], g, resolved[k].1);
    }
    AllAreSigned(c, sent, resolved, g);
  }

  /** The provider holds this key for the account: one of its first 200 derives it. */
  ghost predicate HoldsFor(derive: Derivation, h: Held) {
    |h.pubkey| == 65 && Search(derive, h.pubkey, 0).Ok?
  }

  ghost predicate AllWellSent(ops: seq<Op>, derive: Derivation) {
    forall i :: 0 <= i < |ops| ==> WellSent(ops[i]) && (GoesUnsigned(ops[i]) ==> Search(derive, ops[i].key, 0).Ok?)
  }

  lemma SpendsAreWellSent(env: Env, sel: Selection, outs: seq<Op>, derive: Derivation)
    requires outs != [] && (forall k, cs :: env.sign(k, cs) != []) && forall h :: h in sel.held ==> HoldsFor(derive, h)
    ensures AllWellSent(Spends(env, sel, outs), derive)
  {
    var spends := Spends(env, sel, outs);
    assert ConditionsOn(env, outs) != [];
    forall i | 0 <= i < |spends|
      ensures WellSent(spends[i]) && (GoesUnsigned(spends[i]) ==> Search(derive, spends[i].key, 0).Ok?) {
      if i < |sel.own| {
        assert spends[i] == OwnSpend(env, sel.own[i], outs);
      } else {
        var h := sel.held[i - |sel.own|];
        assert spends[i] == HeldSpend(env, h, outs) && h in sel.held;
      }
    }
  }

  lemma PaidIsWellSent(
      env: Env, outputs: seq<Op>, sel: Selection, before: seq<Utxo>, after: seq<Utxo>, ops: seq<Op>, derive: Derivation)
    requires Paid(env, outputs, sel, before, after, ops) && OnlyOutputs(outputs) && outputs != []
    requires (forall k, cs :: env.sign(k, cs) != []) && forall h :: h in sel.held ==> HoldsFor(derive, h)
    ensures AllWellSent(ops, derive)
  {
    var change, mid :| ChangeOps(env, sel.change, before, mid, change) && Composed(env, outputs, sel, change, ops)
      && after == Marked(mid, sel.own);
    assert AllWellSent(outputs, derive) && AllWellSent(change, derive);
    SpendsAreWellSent(env, sel, outputs + change, derive);
  }

  function StringsOf(ops: seq<Json>): (ss: seq<string>)
    requires forall i :: 0 <= i < |ops| ==> ops[i].Text?
    ensures |ss| == |ops| && forall i :: 0 <= i < |ss| ==> Text(ss[i]) == ops[i]
  {
    seq(|ops|, i requires 0 <= i < |ops| => ops[i].s)
  }

  /** What a signed bundle of strings is passed on as. */
  lemma PassedAsStrings(
      c: Codec, slots: seq<string>, done: seq<Json>, derive: Derivation, g: Signing)
    returns (signed: seq<string>)
    requires SignedPass(c, Client.Texts(slots), done, derive, g)
    ensures done == Client.Texts(signed) && SlotsPass(c, slots, signed, derive, g)
  {
    forall i | 0 <= i < |done| ensures done[i].Text? {
      assert SlotPass(c, Client.Texts(slots)[i], done[i], derive, g);
    }
    signed := StringsOf(done);
    forall i | 0 <= i < |slots| ensures SlotPass(c, Text(slots[i]), Text(signed[i]), derive, g) {
      assert SlotPass(c, Client.Texts(slots)[i], done[i], derive, g);
    }
  }

  /** What signing leaves is passed on as strings, whether or not there was anything to sign. */
  lemma DoneAsStrings(
      c: Codec, slots: seq<string>, done: seq<Json>, sub: Submitted)
    returns (signed: seq<string>, g: Signing)
    requires SigningDone(c, Client.Texts(slots), done, Some(sub.channel), sub.account, sub.exp, sub.signer)
    ensures done == Client.Texts(signed) && SlotsPass(c, slots, signed, sub.account.derive, g) && g.signer == sub.signer
  {
    g := Signing(sub.channel, if sub.exp.Some? then sub.exp.value else 0, sub.signer);
    if sub.exp.None? {
      NothingToSign(c, done, Some(sub.channel), sub.account, Some(0), sub.signer);
    }
    signed := PassedAsStrings(c, slots, done, sub.account.derive, g);
  }

  /** The rest of a submission: who submits, through which channel, and what the chain answers. */
  datatype Submitted = Submitted(
    slots: seq<string>, account: Submission.Account, channel: seq<byte>, exp: Option<u32>, signer: Signer,
    disabled: bool, read: Balances, spent: seq<i128>, opexKey: seq<byte>)

  /** `done` is what the signing pass leaves of the slots sent. */
  ghost predicate SigningEnds(c: Codec, sub: Submitted, done: seq<Json>) {
    SigningDone(c, Client.Texts(sub.slots), done, Some(sub.channel), sub.account, sub.exp, sub.signer)
  }

  /** Admitted for the fee, and balancing on chain with it. */
  ghost predicate GoesThrough(c: Codec, done: seq<Json>, sub: Submitted, fee: int) {
    exists signed :: done == Client.Texts(signed)
      && AdmittedFor(c, signed, sub.channel, sub.disabled, sub.read, sub.spent, sub.opexKey, fee)
  }

  lemma OwnSpendsAreSigned(env: Env, sel: Selection, outs: seq<Op>)
    requires sel.held == [] && forall k, cs :: env.sign(k, cs) != []
    ensures !SomeGoesUnsigned(Spends(env, sel, outs))
  {
    var spends := Spends(env, sel, outs);
    forall i | 0 <= i < |spends| ensures !GoesUnsigned(spends[i]) {
      assert spends[i] == OwnSpend(env, sel.own[i], outs);
    }
  }

  /** Only spends of held keys go up unsigned. */
  lemma OnlyHeldGoUnsigned(
      env: Env, outputs: seq<Op>, sel: Selection, before: seq<Utxo>, after: seq<Utxo>, ops: seq<Op>)
    requires Paid(env, outputs, sel, before, after, ops) && OnlyOutputs(outputs)
    requires forall k, cs :: env.sign(k, cs) != []
    ensures SomeGoesUnsigned(ops) ==> sel.held != []
  {
    var change, mid :| ChangeOps(env, sel.change, before, mid, change) && Composed(env, outputs, sel, change, ops)
      && after == Marked(mid, sel.own);
    assert !SomeGoesUnsigned(outputs) && !SomeGoesUnsigned(change);
    if sel.held == [] {
      OwnSpendsAreSigned(env, sel, outputs + change);
    }
  }

  /** A bundle that the client pays for these outputs from its own and held funds, as it is sent: what
      was selected covers outputs and fee, and the balances it counted on are those on chain. */
  ghost predicate SentFor(
      c: Codec, env: Env, outputs: seq<Op>, sel: Selection, before: seq<Utxo>, after: seq<Utxo>, ops: seq<Op>,
      held: seq<Held>, sub: Submitted, fee: int)
  {
    && RoundTrips(c) && SignsIn64Bytes(sub.signer) && SlotsOf(c, ops, sub.slots)
    && (sel.held != [] ==> CanSignAll(c, ops, Some(sub.channel), sub.account, sub.exp, sub.signer))
    && OnlyOutputs(outputs) && outputs != [] && 0 < fee < 0x8000_0000_0000_0000
    && Selected(sel, before, held, Sum(outputs, Create) + Sum(outputs, Withdraw) + fee)
    && Paid(env, outputs, sel, before, after, ops)
    && (forall k, cs :: env.sign(k, cs) != [])
    && sub.read(SpentKeys(ops)) == Some(sub.spent) && sub.spent == SelectedBalances(before, held, sel)
    && (sub.disabled ==> Has(outputs, Withdraw))
  }

  /** Such a bundle goes through: the provider refuses to sign nothing it holds, and whatever signing
      leaves is admitted for exactly the fee and balances with it. */
  lemma HeldFundsGoThrough(
      c: Codec, env: Env, outputs: seq<Op>, sel: Selection, before: seq<Utxo>, after: seq<Utxo>, ops: seq<Op>,
      held: seq<Held>, sub: Submitted, fee: int)
    requires SentFor(c, env, outputs, sel, before, after, ops, held, sub, fee)
    requires forall h :: h in sel.held ==> HoldsFor(sub.account.derive, h)
    ensures SigningRefusal(c, Client.Texts(sub.slots), Some(sub.channel), sub.account, sub.exp, sub.signer) == None
    ensures forall done :: SigningEnds(c, sub, done) ==> GoesThrough(c, done, sub, fee)
  {
    PaidIsWellSent(env, outputs, sel, before, after, ops, sub.account.derive);
    OnlyHeldGoUnsigned(env, outputs, sel, before, after, ops);
    NothingRefuses(c, ops, sub.slots, Some(sub.channel), sub.account, sub.exp, sub.signer);
    forall done | SigningEnds(c, sub, done) ensures GoesThrough(c, done, sub, fee) {
      var signed, g := DoneAsStrings(c, sub.slots, done, sub);
      var seen :=
        Seen(sub.slots, signed, sub.account.derive, g, sub.channel, sub.disabled, sub.read, sub.spent, sub.opexKey);
      PaidIsCharged(c, env, outputs, sel, before, after, ops, held, seen, fee);
    }
  }

  // ---- from the scan's listing ----

  /** The rows above zero, as the client is given them. */
  function HeldRows(rows: seq<HoldingScan.Row>): seq<Held> {
    if rows == [] then []
    else
      var row := rows[|rows| - 1];
      HeldRows(rows[..|rows| - 1]) + if row.balance > 0 then [Held(row.key, row.balance)] else []
  }

  /** The client's list is the scan's held indices, one for one, with their keys. */
  lemma {:induction false} HeldRowsAreListed(rows: seq<HoldingScan.Row>, derive: Derivation, seen: seq<int>)
    requires HoldingScan.RowsOf(rows, derive, seen)
    ensures |HeldRows(rows)| == |HoldingScan.Held(seen)|
    ensures forall k :: 0 <= k < |HeldRows(rows)| ==>
      var (i, balance) := HoldingScan.Held(seen)[k];
      HeldRows(rows)[k].amount == balance && derive(i) == Some(HeldRows(rows)[k].pubkey)
  {
    if rows != [] {
      HeldRowsAreListed(rows[..|rows| - 1], derive, seen[..|seen| - 1]);
    }
  }

  lemma {:induction false} ScanWithinCap(derive: Derivation, answers: HoldingScan.Answers, index: nat)
    requires index % HoldingScan.SCAN_BATCH == 0 && index <= HoldingScan.SCAN_CAP
    ensures var seen := HoldingScan.ScanFrom(derive, answers, index);
      seen.Some? ==> |seen.value| <= HoldingScan.SCAN_CAP - index
    decreases HoldingScan.SCAN_CAP - index
  {
    if index < HoldingScan.SCAN_CAP { ScanWithinCap(derive, answers, index + HoldingScan.SCAN_BATCH); }
  }

  /** What `ScanHolding` returned for an account. */
  ghost predicate Scanned(derive: Derivation, answers: HoldingScan.Answers, rows: seq<HoldingScan.Row>) {
    && HoldingScan.ScanFrom(derive, answers, 0).Some?
    && HoldingScan.RowsOf(rows, derive, HoldingScan.ScanFrom(derive, answers, 0).value)
    && forall i :: 0 <= i < |rows| ==> |rows[i].key| == 65
  }

  lemma ScannedAreHeld(derive: Derivation, answers: HoldingScan.Answers, rows: seq<HoldingScan.Row>)
    requires Scanned(derive, answers, rows)
    ensures forall h :: h in HeldRows(rows) ==> HoldsFor(derive, h)
  {
    var seen := HoldingScan.ScanFrom(derive, answers, 0).value;
    ScanWithinCap(derive, answers, 0);
    HeldRowsAreListed(rows, derive, seen);
    HoldingScan.HeldIsExact(seen);
    forall h | h in HeldRows(rows) ensures HoldsFor(derive, h) {
      var k :| 0 <= k < |HeldRows(rows)| && HeldRows(rows)[k] == h;
      var (i, balance) := HoldingScan.Held(seen)[k];
      assert (i, balance) in HoldingScan.Held(seen);
      HeldIsMatched(derive, seen, i, balance, h.pubkey);
    }
  }

  /** So every bundle goes through that is paid from the client's own keys and the rows a scan of its
      account listed as held. */
  lemma ScannedFundsGoThrough(
      c: Codec, env: Env, outputs: seq<Op>, sel: Selection, before: seq<Utxo>, after: seq<Utxo>, ops: seq<Op>,
      answers: HoldingScan.Answers, rows: seq<HoldingScan.Row>, sub: Submitted, fee: int)
    requires Scanned(sub.account.derive, answers, rows)
    requires SentFor(c, env, outputs, sel, before, after, ops, HeldRows(rows), sub, fee)
    ensures SigningRefusal(c, Client.Texts(sub.slots), Some(sub.channel), sub.account, sub.exp, sub.signer) == None
    ensures forall done :: SigningEnds(c, sub, done) ==> GoesThrough(c, done, sub, fee)
  {
    ScannedAreHeld(sub.account.derive, answers, rows);
    HeldFundsGoThrough(c, env, outputs, sel, before, after, ops, HeldRows(rows), sub, fee);
  }
}

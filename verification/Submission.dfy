/** Bundle submission: the gates, the in-place signing of held spends, and fee admission. */
module Submission {
  import opened Wrappers
  import opened ScVals
  import opened Mlxdr
  import opened Fees
  import opened SpendSlots
  import opened HoldingKeys

  /** An entry of the submitted JSON array. */
  datatype Json = Text(s: string) | NotText

  datatype Rejection =
    | NotApproved | RemovedFromCouncil | NoOperations | TooManyOperations
    | BadSlot(e: MlxdrError) | NotStrings
    | NoChannel | NoEmail | Unmatched(m: MatchError) | RpcFailed
    | ChannelDisabled | InsufficientBalance | FeeOverflow | DatabaseFailed

  // ---- unsigned spends ----

  /** Positions and UTXO keys of the unsigned Spend slots, in slot order; non-strings are passed over. */
  function Unsigned(c: Codec, ops: seq<Json>): Result<seq<Wanted>, MlxdrError> {
    if ops == [] then Ok([])
    else
      var n := |ops| - 1;
      var before :- Unsigned(c, ops[..n]);
      if ops[n].NotText? then Ok(before)
      else
        var pk :- UnsignedSpendUtxo(c, ops[n].s);
        Ok(if pk.Some? then before + [(n, pk.value)] else before)
  }

  /** The UTXO key of an unsigned slot, if it is one. */
  function UnsignedKey(c: Codec, j: Json): Option<seq<byte>> {
    if j.Text? && UnsignedSpendUtxo(c, j.s).Ok? then UnsignedSpendUtxo(c, j.s).value else None
  }

  method CollectUnsigned(c: Codec, arr: array<Json>) returns (r: Result<seq<Wanted>, MlxdrError>)
    ensures r == Unsigned(c, arr[..])
  {
    var found: seq<Wanted> := [];
    for i := 0 to arr.Length
      invariant Unsigned(c, arr[..i]) == Ok(found)
    {
      assert arr[..i + 1][..i] == arr[..i];
      if arr[i].Text? {
        var pk := UnsignedSpendUtxo(c, arr[i].s);
        if pk.Err? {
          FirstBadSpendWins(c, arr[..], i);
          return Err(pk.error);
        }
        if pk.value.Some? {
          found := found + [(i, pk.value.value)];
        }
      }
    }
    assert arr[..arr.Length] == arr[..];
    return Ok(found);
  }

  lemma {:induction false} FirstBadSpendWins(c: Codec, ops: seq<Json>, i: nat)
    requires i < |ops| && Unsigned(c, ops[..i]).Ok? && ops[i].Text? && UnsignedSpendUtxo(c, ops[i].s).Err?
    ensures Unsigned(c, ops) == Err(UnsignedSpendUtxo(c, ops[i].s).error)
    decreases |ops|
  {
    var front := ops[..|ops| - 1];
    if i == |ops| - 1 {
      assert front == ops[..i];
    } else {
      assert front[..i] == ops[..i];
      FirstBadSpendWins(c, front, i);
    }
  }

  /** The list names every unsigned slot once, in slot order. */
  ghost predicate ListsUnsigned(c: Codec, ops: seq<Json>, wanted: seq<Wanted>) {
    && (forall k, l :: 0 <= k < l < |wanted| ==> wanted[k].0 < wanted[l].0)
    && (forall k :: 0 <= k < |wanted| ==>
          wanted[k].0 < |ops| && UnsignedKey(c, ops[wanted[k].0]) == Some(wanted[k].1))
    && (forall i :: 0 <= i < |ops| && UnsignedKey(c, ops[i]).Some? ==> Names(wanted, i))
  }

  predicate Names(wanted: seq<Wanted>, i: nat) { exists k :: 0 <= k < |wanted| && wanted[k].0 == i }

  function Extend(c: Codec, before: seq<Wanted>, n: nat, j: Json): seq<Wanted> {
    match UnsignedKey(c, j)
    case None => before
    case Some(pk) => before + [(n, pk)]
  }

  lemma OneMoreNamed(c: Codec, before: seq<Wanted>, n: nat, j: Json, i: nat)
    ensures Names(Extend(c, before, n, j), i) <==> Names(before, i) || (i == n && UnsignedKey(c, j).Some?)
  {
    var all := Extend(c, before, n, j);
    if Names(before, i) {
      var k :| 0 <= k < |before| && before[k].0 == i;
      assert all[k].0 == i;
    }
    if i == n && UnsignedKey(c, j).Some? { assert all[|before|].0 == n; }
  }

  lemma OneMoreListed(c: Codec, front: seq<Json>, j: Json, before: seq<Wanted>)
    requires ListsUnsigned(c, front, before)
    ensures ListsUnsigned(c, front + [j], Extend(c, before, |front|, j))
  {
    var ops, all := front + [j], Extend(c, before, |front|, j);
    forall i | 0 <= i < |ops| && UnsignedKey(c, ops[i]).Some? ensures Names(all, i) {
      OneMoreNamed(c, before, |front|, j, i);
    }
  }

  lemma UnsignedGrows(c: Codec, front: seq<Json>, j: Json)
    requires Unsigned(c, front + [j]).Ok?
    ensures Unsigned(c, front).Ok? && Unsigned(c, front + [j]).value == Extend(c, Unsigned(c, front).value, |front|, j)
    ensures j.Text? ==> UnsignedSpendUtxo(c, j.s).Ok?
  {
    assert (front + [j])[..|front|] == front;
  }

  lemma {:induction false} UnsignedLists(c: Codec, ops: seq<Json>)
    requires Unsigned(c, ops).Ok?
    ensures ListsUnsigned(c, ops, Unsigned(c, ops).value)
    ensures forall i :: 0 <= i < |ops| && ops[i].Text? ==> UnsignedSpendUtxo(c, ops[i].s).Ok?
  {
    if ops != [] {
      var front, j := ops[..|ops| - 1], ops[|ops| - 1];
      assert ops == front + [j];
      UnsignedGrows(c, front, j);
      UnsignedLists(c, front);
      OneMoreListed(c, front, j, Unsigned(c, front).value);
    }
  }

  // ---- signing in place ----

  datatype Signing = Signing(channel: seq<byte>, exp: u32, signer: Signer)

  function SignedWith(c: Codec, j: Json, g: Signing, key: nat): Result<string, MlxdrError> {
    if j.Text? then SignSpendSlot(c, j.s, g.channel, g.exp, g.signer, key) else Err(BadShape)
  }

  predicate InSlotOrder(resolved: seq<(nat, nat)>, n: nat) {
    && (forall k :: 0 <= k < |resolved| ==> resolved[k].0 < n)
    && (forall k, l :: 0 <= k < l < |resolved| ==> resolved[k].0 < resolved[l].0)
  }

  predicate Resolves(resolved: seq<(nat, nat)>, i: nat) { exists k :: 0 <= k < |resolved| && resolved[k].0 == i }

  /** The error of the first slot that cannot be signed. */
  function FirstSignError(c: Codec, ops: seq<Json>, resolved: seq<(nat, nat)>, g: Signing): Option<MlxdrError> {
    if resolved == [] then None
    else
      var n := |resolved| - 1;
      match FirstSignError(c, ops, resolved[..n], g)
      case Some(e) => Some(e)
      case None =>
        if resolved[n].0 >= |ops| then None
        else
          match SignedWith(c, ops[resolved[n].0], g, resolved[n].1)
          case Ok(_) => None
          case Err(e) => Some(e)
  }

  lemma {:induction false} FirstSignErrorStays(c: Codec, ops: seq<Json>, resolved: seq<(nat, nat)>, g: Signing, n: nat)
    requires n <= |resolved| && FirstSignError(c, ops, resolved[..n], g).Some?
    ensures FirstSignError(c, ops, resolved, g) == FirstSignError(c, ops, resolved[..n], g)
    decreases |resolved|
  {
    if n == |resolved| {
      assert resolved[..n] == resolved;
    } else {
      assert resolved[..|resolved| - 1][..n] == resolved[..n];
      FirstSignErrorStays(c, ops, resolved[..|resolved| - 1], g, n);
    }
  }

  /** Why the signing pass refuses a submission, if it does. */
  function SigningRefusal(
      c: Codec, ops: seq<Json>, channel: Option<seq<byte>>, account: Account, exp: Option<u32>,
      signer: Signer): Option<Rejection>
  {
    match Unsigned(c, ops)
    case Err(e) => Some(BadSlot(e))
    case Ok(wanted) =>
      if wanted == [] then None
      else if channel.None? then Some(NoChannel)
      else if !HasEmail(account.email) then Some(NoEmail)
      else
        match Matched(account.derive, wanted)
        case Err(m) => Some(Unmatched(m))
        case Ok(resolved) =>
          if exp.None? then Some(RpcFailed)
          else
            match FirstSignError(c, ops, resolved, Signing(channel.value, exp.value, signer))
            case Some(e) => Some(BadSlot(e))
            case None => None
  }

  // ---- when it is refused ----

  ghost predicate AllRead(c: Codec, ops: seq<Json>) {
    forall i :: 0 <= i < |ops| && ops[i].Text? ==> UnsignedSpendUtxo(c, ops[i].s).Ok?
  }

  /** Slot `i` is an unsigned spend of this UTXO. */
  ghost predicate UnsignedAt(c: Codec, ops: seq<Json>, i: nat, utxo: seq<byte>) {
    i < |ops| && ops[i].Text? && UnsignedSpendUtxo(c, ops[i].s) == Ok(Some(utxo))
  }

  ghost predicate SomeUnsigned(c: Codec, ops: seq<Json>) { exists i: nat, utxo :: UnsignedAt(c, ops, i, utxo) }

  /** Something in the name is no white space. */
  ghost predicate NotBlank(email: Option<string>) {
    email.Some? && exists i :: 0 <= i < |email.value| && !IsWhiteSpace(email.value[i])
  }

  ghost predicate AllFound(c: Codec, ops: seq<Json>, derive: Derivation) {
    forall i: nat, utxo :: UnsignedAt(c, ops, i, utxo) ==> Search(derive, utxo, 0).Ok?
  }

  ghost predicate AllSignable(c: Codec, ops: seq<Json>, derive: Derivation, g: Signing) {
    forall i: nat, utxo :: UnsignedAt(c, ops, i, utxo) && Search(derive, utxo, 0).Ok? ==>
      SignSpendSlot(c, ops[i].s, g.channel, g.exp, g.signer, Search(derive, utxo, 0).value).Ok?
  }

  lemma {:induction false} UnsignedOkMeans(c: Codec, ops: seq<Json>)
    ensures Unsigned(c, ops).Ok? <==> AllRead(c, ops)
  {
    if ops != [] {
      var front, n := ops[..|ops| - 1], |ops| - 1;
      UnsignedOkMeans(c, front);
      assert forall i :: 0 <= i < n ==> front[i] == ops[i];
      assert AllRead(c, front) <==> forall i :: 0 <= i < n && ops[i].Text? ==> UnsignedSpendUtxo(c, ops[i].s).Ok?;
    }
  }

  lemma WantedAreUnsigned(c: Codec, ops: seq<Json>)
    requires Unsigned(c, ops).Ok?
    ensures var wanted := Unsigned(c, ops).value;
      && (forall k :: 0 <= k < |wanted| ==> UnsignedAt(c, ops, wanted[k].0, wanted[k].1))
      && (forall i: nat, utxo :: UnsignedAt(c, ops, i, utxo) ==>
            exists k :: 0 <= k < |wanted| && wanted[k] == (i, utxo))
  {
    UnsignedLists(c, ops);
    var wanted := Unsigned(c, ops).value;
    forall k | 0 <= k < |wanted| ensures UnsignedAt(c, ops, wanted[k].0, wanted[k].1) {
      assert UnsignedKey(c, ops[wanted[k].0]) == Some(wanted[k].1);
    }
    forall i: nat, utxo | UnsignedAt(c, ops, i, utxo) ensures exists k :: 0 <= k < |wanted| && wanted[k] == (i, utxo) {
      assert UnsignedKey(c, ops[i]) == Some(utxo);
      assert Names(wanted, i);
      var k :| 0 <= k < |wanted| && wanted[k].0 == i;
      assert wanted[k] == (i, utxo);
    }
  }

  lemma MatchedOkMeans(c: Codec, ops: seq<Json>, derive: Derivation)
    requires Unsigned(c, ops).Ok?
    ensures Matched(derive, Unsigned(c, ops).value).Ok? <==> AllFound(c, ops, derive)
  {
    var wanted := Unsigned(c, ops).value;
    WantedAreUnsigned(c, ops);
    RefusedExactlyWhen(derive, wanted);
    if !AllFound(c, ops, derive) {
      var i: nat, utxo :| UnsignedAt(c, ops, i, utxo) && Search(derive, utxo, 0).Err?;
      var k :| 0 <= k < |wanted| && wanted[k] == (i, utxo);
      assert Search(derive, wanted[k].1, 0).Err?;
    }
  }

  lemma {:induction false} NoSignErrorMeans(c: Codec, ops: seq<Json>, resolved: seq<(nat, nat)>, g: Signing)
    requires forall k :: 0 <= k < |resolved| ==> resolved[k].0 < |ops|
    ensures FirstSignError(c, ops, resolved, g) == None <==>
              forall k :: 0 <= k < |resolved| ==> SignedWith(c, ops[resolved[k].0], g, resolved[k].1).Ok?
  {
    if resolved != [] {
      var front := resolved[..|resolved| - 1];
      NoSignErrorMeans(c, ops, front, g);
      assert forall k :: 0 <= k < |front| ==> front[k] == resolved[k];
    }
  }

  lemma ResolvedAreSearched(derive: Derivation, wanted: seq<Wanted>)
    requires Matched(derive, wanted).Ok?
    ensures var resolved := Matched(derive, wanted).value;
      && |resolved| == |wanted|
      && forall k :: 0 <= k < |wanted| ==>
           resolved[k].0 == wanted[k].0 && Search(derive, wanted[k].1, 0) == Ok(resolved[k].1)
  {
    MatchedMeans(derive, wanted);
    forall k | 0 <= k < |wanted| ensures Search(derive, wanted[k].1, 0) == Ok(Matched(derive, wanted).value[k].1) {
      SearchMeans(derive, wanted[k].1, 0);
    }
  }

  lemma SignableAreSigned(c: Codec, ops: seq<Json>, derive: Derivation, g: Signing)
    requires Unsigned(c, ops).Ok? && Matched(derive, Unsigned(c, ops).value).Ok? && AllSignable(c, ops, derive, g)
    ensures FirstSignError(c, ops, Matched(derive, Unsigned(c, ops).value).value, g) == None
  {
    var wanted := Unsigned(c, ops).value;
    var resolved := Matched(derive, wanted).value;
    WantedAreUnsigned(c, ops);
    ResolvedAreSearched(derive, wanted);
    forall k | 0 <= k < |resolved|
      ensures resolved[k].0 < |ops| && SignedWith(c, ops[resolved[k].0], g, resolved[k].1).Ok? {
      assert UnsignedAt(c, ops, wanted[k].0, wanted[k].1);
    }
    NoSignErrorMeans(c, ops, resolved, g);
  }

  lemma SignedAreSignable(c: Codec, ops: seq<Json>, derive: Derivation, g: Signing, i: nat, utxo: seq<byte>)
    requires Unsigned(c, ops).Ok? && Matched(derive, Unsigned(c, ops).value).Ok?
    requires FirstSignError(c, ops, Matched(derive, Unsigned(c, ops).value).value, g) == None
    requires UnsignedAt(c, ops, i, utxo) && Search(derive, utxo, 0).Ok?
    ensures SignSpendSlot(c, ops[i].s, g.channel, g.exp, g.signer, Search(derive, utxo, 0).value).Ok?
  {
    var wanted := Unsigned(c, ops).value;
    var resolved := Matched(derive, wanted).value;
    WantedAreUnsigned(c, ops);
    ResolvedAreSearched(derive, wanted);
    var k :| 0 <= k < |wanted| && wanted[k] == (i, utxo);
    forall l | 0 <= l < |resolved| ensures resolved[l].0 < |ops| {
      assert UnsignedAt(c, ops, wanted[l].0, wanted[l].1);
    }
    NoSignErrorMeans(c, ops, resolved, g);
    assert SignedWith(c, ops[resolved[k].0], g, resolved[k].1).Ok?;
  }

  lemma SignedOkMeans(c: Codec, ops: seq<Json>, derive: Derivation, g: Signing)
    requires Unsigned(c, ops).Ok? && Matched(derive, Unsigned(c, ops).value).Ok?
    ensures FirstSignError(c, ops, Matched(derive, Unsigned(c, ops).value).value, g) == None <==>
              AllSignable(c, ops, derive, g)
  {
    if FirstSignError(c, ops, Matched(derive, Unsigned(c, ops).value).value, g) == None {
      forall i: nat, utxo | UnsignedAt(c, ops, i, utxo) && Search(derive, utxo, 0).Ok?
        ensures SignSpendSlot(c, ops[i].s, g.channel, g.exp, g.signer, Search(derive, utxo, 0).value).Ok? {
        SignedAreSignable(c, ops, derive, g, i, utxo);
      }
    }
    if AllSignable(c, ops, derive, g) { SignableAreSigned(c, ops, derive, g); }
  }

  /** The pass refuses nothing exactly when every slot can be read and, if one is an unsigned spend, there is a
      channel, an email that is not blank and a known ledger, every unsigned UTXO is found among the
      account's keys, and every unsigned slot can be signed. */
  lemma SignsExactlyWhen(
      c: Codec, ops: seq<Json>, channel: Option<seq<byte>>, account: Account, exp: Option<u32>, signer: Signer)
    ensures SigningRefusal(c, ops, channel, account, exp, signer) == None <==>
              && AllRead(c, ops)
              && (SomeUnsigned(c, ops) ==>
                    && channel.Some? && NotBlank(account.email) && exp.Some? && AllFound(c, ops, account.derive)
                    && AllSignable(c, ops, account.derive, Signing(channel.value, exp.value, signer)))
  {
    UnsignedOkMeans(c, ops);
    if AllRead(c, ops) {
      SomeMeansWanted(c, ops);
      MatchedOkMeans(c, ops, account.derive);
      if channel.Some? && exp.Some? && AllFound(c, ops, account.derive) {
        SignedOkMeans(c, ops, account.derive, Signing(channel.value, exp.value, signer));
      }
    }
  }

  lemma SomeMeansWanted(c: Codec, ops: seq<Json>)
    requires Unsigned(c, ops).Ok?
    ensures Unsigned(c, ops).value != [] <==> SomeUnsigned(c, ops)
  {
    WantedAreUnsigned(c, ops);
    var wanted := Unsigned(c, ops).value;
    if wanted != [] { assert UnsignedAt(c, ops, wanted[0].0, wanted[0].1); }
  }

  /** And which reason is given, first come first: an unreadable slot, no channel, no email, a UTXO not found,
      no ledger, a slot that cannot be signed. */
  lemma RefusalsInOrder(
      c: Codec, ops: seq<Json>, channel: Option<seq<byte>>, account: Account, exp: Option<u32>, signer: Signer)
    ensures var why := SigningRefusal(c, ops, channel, account, exp, signer);
      var asked := AllRead(c, ops) && SomeUnsigned(c, ops);
      && (!AllRead(c, ops) ==> why.Some? && why.value.BadSlot?)
      && (why == Some(NoChannel) <==> asked && channel.None?)
      && (why == Some(NoEmail) <==> asked && channel.Some? && !NotBlank(account.email))
      && (why.Some? && why.value.Unmatched? <==>
            asked && channel.Some? && NotBlank(account.email) && !AllFound(c, ops, account.derive))
      && (why == Some(RpcFailed) <==>
            asked && channel.Some? && NotBlank(account.email) && AllFound(c, ops, account.derive) && exp.None?)
  {
    UnsignedOkMeans(c, ops);
    if AllRead(c, ops) {
      SomeMeansWanted(c, ops);
      MatchedOkMeans(c, ops, account.derive);
    }
  }

  /** The resolved slots hold their signed form, and nothing else has changed. */
  ghost predicate Applied(c: Codec, before: seq<Json>, after: seq<Json>, resolved: seq<(nat, nat)>, n: nat, g: Signing)
    requires n <= |resolved| && InSlotOrder(resolved, |before|) && |before| == |after|
  {
    && (forall k :: 0 <= k < n ==>
          && SignedWith(c, before[resolved[k].0], g, resolved[k].1).Ok?
          && after[resolved[k].0] == Text(SignedWith(c, before[resolved[k].0], g, resolved[k].1).value))
    && (forall k :: n <= k < |resolved| ==> after[resolved[k].0] == before[resolved[k].0])
    && (forall i :: 0 <= i < |before| && !Resolves(resolved, i) ==> after[i] == before[i])
  }

  method SignInPlace(
      c: Codec, arr: array<Json>, resolved: seq<(nat, nat)>, g: Signing)
    returns (r: Result<(), MlxdrError>)
    requires InSlotOrder(resolved, arr.Length)
    requires forall k :: 0 <= k < |resolved| ==> arr[resolved[k].0].Text?
    modifies arr
    ensures r == match FirstSignError(c, old(arr[..]), resolved, g) case None => Ok(()) case Some(e) => Err(e)
    ensures r.Ok? ==> Applied(c, old(arr[..]), arr[..], resolved, |resolved|, g)
  {
    assert resolved[..|resolved|] == resolved;
    for n := 0 to |resolved|
      invariant FirstSignError(c, old(arr[..]), resolved[..n], g) == None
      invariant Applied(c, old(arr[..]), arr[..], resolved, n, g)
    {
      var (slot, key) := resolved[n];
      var signed := SignSpendSlot(c, arr[slot].s, g.channel, g.exp, g.signer, key);
      assert SignedWith(c, old(arr[..])[slot], g, key) == signed;
      assert resolved[..n + 1][..n] == resolved[..n];
      if signed.Err? {
        FirstSignErrorStays(c, old(arr[..]), resolved, g, n + 1);
        return Err(signed.error);
      }
      ghost var before := arr[..];
      arr[slot] := Text(signed.value);
      assert arr[..] == before[slot := Text(signed.value)];
      OneMoreApplied(c, old(arr[..]), before, arr[..], resolved, n, g);
    }
    return Ok(());
  }

  lemma OneMoreApplied(
      c: Codec, before: seq<Json>, mid: seq<Json>, after: seq<Json>, resolved: seq<(nat, nat)>, n: nat, g: Signing)
    requires n < |resolved| && InSlotOrder(resolved, |before|) && |before| == |mid|
    requires Applied(c, before, mid, resolved, n, g)
    requires SignedWith(c, before[resolved[n].0], g, resolved[n].1).Ok?
    requires after == mid[resolved[n].0 := Text(SignedWith(c, before[resolved[n].0], g, resolved[n].1).value)]
    ensures Applied(c, before, after, resolved, n + 1, g)
  {
    assert Resolves(resolved, resolved[n].0);
  }

  /** What the whole pass does: every unsigned slot is signed with the key of the least index
      deriving its UTXO, and nothing else is touched. */
  ghost predicate SignedPass(c: Codec, before: seq<Json>, after: seq<Json>, derive: Derivation, g: Signing) {
    && |before| == |after|
    && forall i :: 0 <= i < |before| ==> SlotPass(c, before[i], after[i], derive, g)
  }

  ghost predicate SlotPass(c: Codec, before: Json, after: Json, derive: Derivation, g: Signing) {
    match UnsignedKey(c, before)
    case None => after == before && (before.Text? ==> UnsignedSpendUtxo(c, before.s) == Ok(None))
    case Some(pk) =>
      Search(derive, pk, 0).Ok?
      && SignedWith(c, before, g, Search(derive, pk, 0).value).Ok?
      && after == Text(SignedWith(c, before, g, Search(derive, pk, 0).value).value)
  }

  datatype Account = Account(email: Option<string>, derive: Derivation)

  predicate HasEmail(email: Option<string>) { email.Some? && !Blank(email.value) }

  /** `n.trim().is_empty()`: nothing but characters with the White_Space property. */
  predicate Blank(s: string) { forall i :: 0 <= i < |s| ==> IsWhiteSpace(s[i]) }

  predicate IsWhiteSpace(ch: char) {
    var k := ch as int;
    || 0x09 <= k <= 0x0D || k == 0x20 || k == 0x85 || k == 0xA0 || k == 0x1680 || 0x2000 <= k <= 0x200A
    || k == 0x2028 || k == 0x2029 || k == 0x202F || k == 0x205F || k == 0x3000
  }

  /** The signing pass as submitted: find the unsigned spends, match them, sign them in place.
      `exp` is the latest ledger plus the configured offset, or None when the RPC fails. */
  method SignHeldSpends(
      c: Codec, arr: array<Json>, channel: Option<seq<byte>>, account: Account, exp: Option<u32>, signer: Signer)
    returns (r: Result<(), Rejection>)
    modifies arr
    ensures r == match SigningRefusal(c, old(arr[..]), channel, account, exp, signer)
                 case None => Ok(())
                 case Some(x) => Err(x)
    ensures r.Ok? ==> SigningDone(c, old(arr[..]), arr[..], channel, account, exp, signer)
  {
    var wanted := CollectUnsigned(c, arr);
    if wanted.Err? {
      return Err(BadSlot(wanted.error));
    }
    UnsignedLists(c, arr[..]);
    if wanted.value == [] {
      NothingToSign(c, arr[..], channel, account, exp, signer);
      return Ok(());
    }
    if channel.None? {
      return Err(NoChannel);
    }
    if !HasEmail(account.email) {
      return Err(NoEmail);
    }
    var resolved := MatchKeys(account.derive, wanted.value);
    if resolved.Err? {
      return Err(Unmatched(resolved.error));
    }
    if exp.None? {
      return Err(RpcFailed);
    }
    ResolvedInOrder(c, arr[..], wanted.value, resolved.value, account.derive);
    ghost var before := arr[..];
    var g := Signing(channel.value, exp.value, signer);
    var done := SignInPlace(c, arr, resolved.value, g);
    if done.Err? {
      return Err(BadSlot(done.error));
    }
    AppliedIsPass(c, before, arr[..], wanted.value, resolved.value, account.derive, g);
    return Ok(());
  }

  /** The pass as done on a bundle: with a channel and a ledger, every slot passed; without either,
      there was nothing to sign and nothing has changed. */
  ghost predicate SigningDone(
      c: Codec, before: seq<Json>, after: seq<Json>, channel: Option<seq<byte>>, account: Account, exp: Option<u32>,
      signer: Signer)
  {
    if channel.Some? && exp.Some?
    then SignedPass(c, before, after, account.derive, Signing(channel.value, exp.value, signer))
    else after == before && Unsigned(c, before) == Ok([])
  }

  lemma NothingToSign(
      c: Codec, ops: seq<Json>, channel: Option<seq<byte>>, account: Account, exp: Option<u32>, signer: Signer)
    requires Unsigned(c, ops) == Ok([])
    ensures SigningDone(c, ops, ops, channel, account, exp, signer)
  {
    UnsignedLists(c, ops);
    forall i | 0 <= i < |ops| ensures UnsignedKey(c, ops[i]).None? { assert !Names([], i); }
  }

  lemma ResolvedInOrder(c: Codec, ops: seq<Json>, wanted: seq<Wanted>, resolved: seq<(nat, nat)>, derive: Derivation)
    requires Matched(derive, wanted) == Ok(resolved) && ListsUnsigned(c, ops, wanted)
    ensures |resolved| == |wanted| && forall k :: 0 <= k < |resolved| ==> resolved[k].0 == wanted[k].0
    ensures InSlotOrder(resolved, |ops|)
    ensures forall k :: 0 <= k < |resolved| ==> ops[resolved[k].0].Text?
  {
    MatchedMeans(derive, wanted);
    forall k | 0 <= k < |resolved| ensures ops[resolved[k].0].Text? {
      assert UnsignedKey(c, ops[wanted[k].0]).Some?;
    }
  }

  lemma AppliedIsPass(
      c: Codec, before: seq<Json>, after: seq<Json>, wanted: seq<Wanted>, resolved: seq<(nat, nat)>,
      derive: Derivation, g: Signing)
    requires |before| == |after| && ListsUnsigned(c, before, wanted) && Matched(derive, wanted) == Ok(resolved)
    requires forall j :: 0 <= j < |before| && before[j].Text? ==> UnsignedSpendUtxo(c, before[j].s).Ok?
    requires InSlotOrder(resolved, |before|) && Applied(c, before, after, resolved, |resolved|, g)
    ensures SignedPass(c, before, after, derive, g)
  {
    ResolvedInOrder(c, before, wanted, resolved, derive);
    forall i | 0 <= i < |before| ensures SlotPass(c, before[i], after[i], derive, g) {
      ResolvedAreNamed(wanted, resolved, i);
      SlotIsPassed(c, before, after, wanted, resolved, derive, g, i);
    }
  }

  lemma SlotIsPassed(
      c: Codec, before: seq<Json>, after: seq<Json>, wanted: seq<Wanted>, resolved: seq<(nat, nat)>,
      derive: Derivation, g: Signing, i: nat)
    requires i < |before| == |after| && ListsUnsigned(c, before, wanted) && Matched(derive, wanted) == Ok(resolved)
    requires forall j :: 0 <= j < |before| && before[j].Text? ==> UnsignedSpendUtxo(c, before[j].s).Ok?
    requires |resolved| == |wanted|
    requires forall k :: 0 <= k < |resolved| ==> resolved[k].0 == wanted[k].0
    requires forall k :: 0 <= k < |resolved| ==>
      && SignedWith(c, before[wanted[k].0], g, resolved[k].1).Ok?
      && after[wanted[k].0] == Text(SignedWith(c, before[wanted[k].0], g, resolved[k].1).value)
    requires !Names(wanted, i) ==> after[i] == before[i]
    ensures SlotPass(c, before[i], after[i], derive, g)
  {
    if Names(wanted, i) {
      var k :| 0 <= k < |wanted| && wanted[k].0 == i;
      MatchedMeans(derive, wanted);
      SearchMeans(derive, wanted[k].1, 0);
    }
  }

  lemma ResolvedAreNamed(wanted: seq<Wanted>, resolved: seq<(nat, nat)>, i: nat)
    requires |resolved| == |wanted| && forall k :: 0 <= k < |resolved| ==> resolved[k].0 == wanted[k].0
    ensures Resolves(resolved, i) ==> Names(wanted, i)
  {
    if Resolves(resolved, i) {
      var k :| 0 <= k < |resolved| && resolved[k].0 == i;
      assert wanted[k].0 == i;
    }
  }

  // ---- what the signing pass preserves ----

  function Texts(ops: seq<Json>): Option<seq<string>> {
    if ops == [] then Some([])
    else
      var before := Texts(ops[..|ops| - 1]);
      if before.None? || ops[|ops| - 1].NotText? then None else Some(before.value + [ops[|ops| - 1].s])
  }

  /** The signature a slot should carry after the pass: the old one, or for an unsigned slot its
      own UTXO, the holding key's signature over its own conditions, and the expiration. */
  function SignatureAfter(
      c: Codec, s: string, derive: Derivation, g: Signing)
    : Result<Option<SpendSignature>, MlxdrError>
  {
    match UnsignedKey(c, Text(s))
    case None => SignatureOf(c, s)
    case Some(pk) =>
      if Search(derive, pk, 0).Err? || Conditions(c, s).Err? then Err(BadShape)
      else Ok(Some(SpendSignature(pk,
        g.signer(Search(derive, pk, 0).value, AuthPayloadPreimage(g.channel, Conditions(c, s).value, g.exp)), g.exp)))
  }

  /** Slot by slot the signing pass changes nothing but the signature, and only where there was none. */
  lemma PassKeepsSlot(c: Codec, before: string, after: string, derive: Derivation, g: Signing)
    requires RoundTrips(c) && SignsIn64Bytes(g.signer) && SlotPass(c, Text(before), Text(after), derive, g)
    ensures UnsignedSpendUtxo(c, after) == Ok(None)
    ensures Decode(c, after) == Decode(c, before) && Payload(c, after) == Payload(c, before)
    ensures SignatureOf(c, after) == SignatureAfter(c, before, derive, g)
    ensures UnsignedKey(c, Text(before)).Some? ==> SignatureOf(c, before) == Ok(None)
  {
    if UnsignedKey(c, Text(before)).Some? {
      var key := Search(derive, UnsignedKey(c, Text(before)).value, 0).value;
      var _ := SigningOneSlot(c, before, g.channel, g.exp, g.signer, key);
    }
  }

  /** Signatures expected after the pass, in slot order. */
  function SignaturesAfter(
      c: Codec, slots: seq<string>, derive: Derivation, g: Signing)
    : Result<seq<SpendSignature>, MlxdrError>
  {
    if slots == [] then Ok([])
    else
      var before :- SignaturesAfter(c, slots[..|slots| - 1], derive, g);
      var sig :- SignatureAfter(c, slots[|slots| - 1], derive, g);
      Ok(if sig.Some? then before + [sig.value] else before)
  }

  ghost predicate SlotsPass(c: Codec, before: seq<string>, after: seq<string>, derive: Derivation, g: Signing) {
    |before| == |after| && forall i :: 0 <= i < |before| ==> SlotPass(c, Text(before[i]), Text(after[i]), derive, g)
  }

  lemma {:induction false} PassKeepsClassified(
      c: Codec, before: seq<string>, after: seq<string>, derive: Derivation, g: Signing)
    requires RoundTrips(c) && SignsIn64Bytes(g.signer) && SlotsPass(c, before, after, derive, g)
    ensures Classified(c, after) == Classified(c, before)
  {
    if before != [] {
      var n := |before| - 1;
      PassKeepsClassified(c, before[..n], after[..n], derive, g);
      PassKeepsSlot(c, before[n], after[n], derive, g);
    }
  }

  lemma {:induction false} PassKeepsAggregated(
      c: Codec, before: seq<string>, after: seq<string>, derive: Derivation, g: Signing)
    requires RoundTrips(c) && SignsIn64Bytes(g.signer) && SlotsPass(c, before, after, derive, g)
    ensures Aggregated(c, after) == Aggregated(c, before)
  {
    if before != [] {
      var n := |before| - 1;
      PassKeepsAggregated(c, before[..n], after[..n], derive, g);
      PassKeepsSlot(c, before[n], after[n], derive, g);
    }
  }

  lemma {:induction false} PassAddsSignatures(
      c: Codec, before: seq<string>, after: seq<string>, derive: Derivation, g: Signing)
    requires RoundTrips(c) && SignsIn64Bytes(g.signer) && SlotsPass(c, before, after, derive, g)
    ensures Signatures(c, after) == SignaturesAfter(c, before, derive, g)
  {
    if before != [] {
      var n := |before| - 1;
      PassAddsSignatures(c, before[..n], after[..n], derive, g);
      PassKeepsSlot(c, before[n], after[n], derive, g);
    }
  }

  /** `key` is the least index deriving the UTXO, and `pre` what it signs for the slot: it commits to the
      channel, the slot's own conditions and the expiration. */
  ghost predicate HeldBy(
      c: Codec, s: string, utxo: seq<byte>, derive: Derivation, g: Signing, key: nat, pre: seq<byte>)
  {
    && key < HOLDING_MATCH_CAP && derive(key) == Some(utxo)
    && (forall j :: 0 <= j < key ==> derive(j).Some? && derive(j) != Some(utxo))
    && CommitsTo(c, s, g.channel, g.exp, pre)
  }

  lemma PassSigns(c: Codec, before: string, after: string, derive: Derivation, g: Signing, utxo: seq<byte>)
    returns (key: nat, pre: seq<byte>)
    requires RoundTrips(c) && SignsIn64Bytes(g.signer) && SlotPass(c, Text(before), Text(after), derive, g)
    requires UnsignedKey(c, Text(before)) == Some(utxo)
    ensures HeldBy(c, before, utxo, derive, g, key, pre)
    ensures SignatureOf(c, after) == Ok(Some(SpendSignature(utxo, g.signer(key, pre), g.exp)))
  {
    SearchMeans(derive, utxo, 0);
    key := Search(derive, utxo, 0).value;
    pre := SigningOneSlot(c, before, g.channel, g.exp, g.signer, key);
  }

  /** What the pass leaves of one slot: one that came unsigned is signed by its holder, any other is as it was. */
  ghost predicate SignedByHolder(c: Codec, before: string, after: string, derive: Derivation, g: Signing) {
    match UnsignedSpendUtxo(c, before)
    case Err(_) => false
    case Ok(None) => after == before
    case Ok(Some(utxo)) =>
      exists key: nat, pre :: HeldBy(c, before, utxo, derive, g, key, pre)
        && SignatureOf(c, after) == Ok(Some(SpendSignature(utxo, g.signer(key, pre), g.exp)))
  }

  lemma PassIsByHolder(c: Codec, before: string, after: string, derive: Derivation, g: Signing)
    requires RoundTrips(c) && SignsIn64Bytes(g.signer) && SlotPass(c, Text(before), Text(after), derive, g)
    ensures SignedByHolder(c, before, after, derive, g)
  {
    if UnsignedKey(c, Text(before)).Some? {
      var key, pre := PassSigns(c, before, after, derive, g, UnsignedKey(c, Text(before)).value);
    }
  }

  /** The signing pass preserves meaning: each slot that came unsigned is signed by its holder and no other
      changes, classification (hence the fee) and aggregation are unchanged, and the signatures read back
      are the old ones and, slot by slot, those just made. */
  lemma SigningPreservesMeaning(c: Codec, before: seq<string>, after: seq<string>, derive: Derivation, g: Signing)
    requires RoundTrips(c) && SignsIn64Bytes(g.signer) && SlotsPass(c, before, after, derive, g)
    ensures forall i :: 0 <= i < |after| ==> UnsignedSpendUtxo(c, after[i]) == Ok(None)
    ensures forall i :: 0 <= i < |after| ==> SignedByHolder(c, before[i], after[i], derive, g)
    ensures Classified(c, after) == Classified(c, before)
    ensures Aggregated(c, after) == Aggregated(c, before)
    ensures Signatures(c, after) == SignaturesAfter(c, before, derive, g)
  {
    forall i | 0 <= i < |after|
      ensures UnsignedSpendUtxo(c, after[i]) == Ok(None) && SignedByHolder(c, before[i], after[i], derive, g) {
      PassKeepsSlot(c, before[i], after[i], derive, g);
      PassIsByHolder(c, before[i], after[i], derive, g);
    }
    PassKeepsClassified(c, before, after, derive, g);
    PassKeepsAggregated(c, before, after, derive, g);
    PassAddsSignatures(c, before, after, derive, g);
  }

  // ---- admission ----

  /** On-chain balances of UTXO keys, one each in the same order, or None when the RPC fails. */
  type Balances = seq<seq<byte>> -> Option<seq<i128>>

  function SpendUtxos(cl: Buckets<DecodedOperation>): (keys: seq<seq<byte>>)
    ensures |keys| == |cl.spend| && forall i :: 0 <= i < |keys| ==> keys[i] == cl.spend[i].utxo
  {
    seq(|cl.spend|, i requires 0 <= i < |cl.spend| => cl.spend[i].utxo)
  }

  /** A channel the council has disabled takes only bundles that withdraw and do not deposit. */
  predicate WithdrawOnly(cl: Buckets<DecodedOperation>) { cl.deposit == [] && cl.withdraw != [] }

  /** From the (signed) slots to the fee the bundle is stored with. */
  function Admit(c: Codec, ops: seq<Json>, channel: Option<seq<byte>>, disabled: bool, balances: Balances)
    : Result<i128, Rejection>
  {
    match Texts(ops)
    case None => Err(NotStrings)
    case Some(slots) =>
      match Classified(c, slots)
      case Err(e) => Err(BadSlot(e))
      case Ok(cl) =>
        if channel.Some? && disabled && !WithdrawOnly(cl) then Err(ChannelDisabled)
        else if cl.spend != [] && channel.None? then Err(NoChannel)
        else
          var read := if cl.spend == [] then Some([]) else balances(SpendUtxos(cl));
          if read.None? then Err(RpcFailed)
          else
            var fee := DeriveFee(cl, read.value);
            if fee <= 0 then Err(InsufficientBalance)
            else if fee >= 0x8000_0000_0000_0000 then Err(FeeOverflow)
            else Ok(fee)
  }

  lemma {:induction false} TextsMeans(ops: seq<Json>, slots: seq<string>)
    ensures Texts(ops) == Some(slots) <==> |slots| == |ops| && forall i :: 0 <= i < |ops| ==> ops[i] == Text(slots[i])
  {
    if ops != [] {
      var front, n := ops[..|ops| - 1], |ops| - 1;
      if |slots| == |ops| {
        TextsMeans(front, slots[..n]);
        assert slots == slots[..n] + [slots[n]];
      }
      if Texts(front).Some? { TextsMeans(front, Texts(front).value); }
    }
  }

  /** The slots are strings that decode to `cl`; it withdraws without depositing if the channel is disabled;
      there is a channel and its balances are `read` if it spends; and the fee derived is positive and fits
      the column. */
  ghost predicate Admissible(
      c: Codec, ops: seq<Json>, channel: Option<seq<byte>>, disabled: bool, balances: Balances, fee: i128,
      slots: seq<string>, cl: Buckets<DecodedOperation>, read: seq<i128>)
  {
    && |slots| == |ops| && (forall i :: 0 <= i < |ops| ==> ops[i] == Text(slots[i]))
    && Classified(c, slots) == Ok(cl)
    && (channel.Some? && disabled ==> cl.deposit == [] && cl.withdraw != [])
    && (if cl.spend == [] then read == [] else channel.Some? && balances(SpendUtxos(cl)) == Some(read))
    && fee == DeriveFee(cl, read) && 0 < fee < 0x8000_0000_0000_0000
  }

  lemma AdmissibleIsAdmitted(
      c: Codec, ops: seq<Json>, channel: Option<seq<byte>>, disabled: bool, balances: Balances, fee: i128,
      slots: seq<string>, cl: Buckets<DecodedOperation>, read: seq<i128>)
    requires Admissible(c, ops, channel, disabled, balances, fee, slots, cl, read)
    ensures Admit(c, ops, channel, disabled, balances) == Ok(fee)
  {
    TextsMeans(ops, slots);
  }

  /** A bundle is admitted for a fee exactly when it is admissible for it. */
  lemma AdmittedExactlyWhen(
      c: Codec, ops: seq<Json>, channel: Option<seq<byte>>, disabled: bool, balances: Balances, fee: i128)
    ensures Admit(c, ops, channel, disabled, balances) == Ok(fee) <==>
              exists slots, cl, read :: Admissible(c, ops, channel, disabled, balances, fee, slots, cl, read)
  {
    if Admit(c, ops, channel, disabled, balances) == Ok(fee) {
      var slots := Texts(ops).value;
      var cl := Classified(c, slots).value;
      var read: seq<i128> := if cl.spend == [] then [] else balances(SpendUtxos(cl)).value;
      TextsMeans(ops, slots);
      assert Admissible(c, ops, channel, disabled, balances, fee, slots, cl, read);
    }
    forall slots, cl, read | Admissible(c, ops, channel, disabled, balances, fee, slots, cl, read)
      ensures Admit(c, ops, channel, disabled, balances) == Ok(fee) {
      AdmissibleIsAdmitted(c, ops, channel, disabled, balances, fee, slots, cl, read);
    }
  }

  datatype Membership = Pending | Active | Rejected

  /** A removal that was seen: some membership is rejected and none is active. */
  predicate Removed(memberships: seq<Membership>) { Rejected in memberships && Active !in memberships }

  /** What a submission brings and what is read for it; None for a read that fails. `now` is the clock
      when the row is made, `stored` whether its INSERT succeeds. */
  datatype Request = Request(
    approved: Option<bool>, memberships: Option<seq<Membership>>, maxOperations: nat,
    channel: Option<seq<byte>>, account: Account, exp: Option<u32>, signer: Signer,
    disabled: Option<bool>, balances: Balances, id: string, submitter: string, now: int, stored: bool)

  /** 24 hours in microseconds, the resolution of the table's timestamps. */
  const LIFETIME: int := 24 * 3_600_000_000

  /** The PENDING row as inserted. */
  datatype NewRow = NewRow(
    id: string, ttl: int, ops: seq<Json>, fee: i128, channel: Option<seq<byte>>, createdBy: string)

  function GateRefusal(req: Request, count: nat): Option<Rejection> {
    if req.approved.None? then Some(DatabaseFailed)
    else if !req.approved.value then Some(NotApproved)
    else if req.memberships.None? then Some(DatabaseFailed)
    else if Removed(req.memberships.value) then Some(RemovedFromCouncil)
    else if count == 0 then Some(NoOperations)
    else if count > req.maxOperations then Some(TooManyOperations)
    else None
  }

  /** Admission, with a read of the channel's state that may fail; slots that do not decode come first. */
  function Decide(c: Codec, ops: seq<Json>, req: Request): Result<i128, Rejection> {
    if req.channel.None? || req.disabled.Some?
    then Admit(c, ops, req.channel, req.disabled == Some(true), req.balances)
    else
      match Texts(ops)
      case None => Err(NotStrings)
      case Some(slots) =>
        match Classified(c, slots)
        case Err(e) => Err(BadSlot(e))
        case Ok(_) => Err(DatabaseFailed)
  }

  /** A submission, from its gates to the PENDING row it leaves or the reason it is refused. */
  method PostSubmit(c: Codec, arr: array<Json>, req: Request) returns (r: Result<NewRow, Rejection>)
    modifies arr
    ensures req.approved == None ==> r == Err(DatabaseFailed)
    ensures req.approved == Some(false) ==> r == Err(NotApproved)
    ensures req.approved == Some(true) && req.memberships.None? ==> r == Err(DatabaseFailed)
    ensures req.approved == Some(true) && req.memberships.Some? ==>
              var removed := Rejected in req.memberships.value && Active !in req.memberships.value;
              && (removed ==> r == Err(RemovedFromCouncil))
              && (!removed && arr.Length == 0 ==> r == Err(NoOperations))
              && (!removed && arr.Length > 0 && arr.Length > req.maxOperations ==> r == Err(TooManyOperations))
              && (r.Ok? ==> !removed && 0 < arr.Length <= req.maxOperations)
    ensures r.Ok? ==> req.stored && r.value.id == req.id && r.value.ttl == req.now + 86_400_000_000
    ensures r.Ok? ==> r.value.ops == arr[..] && r.value.channel == req.channel && r.value.createdBy == req.submitter
    ensures r.Ok? ==>
              Admit(c, arr[..], req.channel, req.disabled == Some(true), req.balances) == Ok(r.value.fee)
    ensures GateRefusal(req, arr.Length).Some? ==>
              r == Err(GateRefusal(req, arr.Length).value) && arr[..] == old(arr[..])
    ensures GateRefusal(req, arr.Length).None? ==>
              r == match SigningRefusal(c, old(arr[..]), req.channel, req.account, req.exp, req.signer)
                   case Some(x) => Err(x)
                   case None =>
                     match Decide(c, arr[..], req)
                     case Err(x) => Err(x)
                     case Ok(fee) =>
                       if !req.stored then Err(DatabaseFailed)
                       else Ok(NewRow(req.id, req.now + LIFETIME, arr[..], fee, req.channel, req.submitter))
    ensures r.Ok? ==> SigningDone(c, old(arr[..]), r.value.ops, req.channel, req.account, req.exp, req.signer)
  {
    if req.approved.None? {
      return Err(DatabaseFailed);
    }
    if !req.approved.value {
      return Err(NotApproved);
    }
    if req.memberships.None? {
      return Err(DatabaseFailed);
    }
    if Active !in req.memberships.value && Rejected in req.memberships.value {
      return Err(RemovedFromCouncil);
    }
    if arr.Length == 0 {
      return Err(NoOperations);
    }
    if arr.Length > req.maxOperations {
      return Err(TooManyOperations);
    }
    var signed := SignHeldSpends(c, arr, req.channel, req.account, req.exp, req.signer);
    if signed.Err? {
      return Err(signed.error);
    }
    var fee := Decide(c, arr[..], req);
    if fee.Err? {
      return Err(fee.error);
    }
    if !req.stored {
      return Err(DatabaseFailed);
    }
    return Ok(NewRow(req.id, req.now + LIFETIME, arr[..], fee.value, req.channel, req.submitter));
  }

  /** An admitted bundle: every slot decodes, the fee is positive and fits the column, and the
      argument the executor builds from the stored slots and fee conserves value with it. */
  lemma AdmittedConserves(
      c: Codec, ops: seq<Json>, channel: Option<seq<byte>>, disabled: bool, balances: Balances, opexKey: seq<byte>)
    requires Admit(c, ops, channel, disabled, balances).Ok?
    ensures var fee := Admit(c, ops, channel, disabled, balances).value;
      && 0 < fee < 0x8000_0000_0000_0000
      && Texts(ops).Some?
      && Classified(c, Texts(ops).value).Ok?
      && var cl := Classified(c, Texts(ops).value).value;
      && (channel.Some? && disabled ==> cl.deposit == [] && cl.withdraw != [])
      && Sent(c, Texts(ops).value, opexKey, fee).Ok?
      && ReadOperation(Sent(c, Texts(ops).value, opexKey, fee).value).Some?
      && exists read: seq<i128> ::
           && (if cl.spend == [] then read == [] else balances(SpendUtxos(cl)) == Some(read))
           && fee == DeriveFee(cl, read)
           && Conserves(ReadOperation(Sent(c, Texts(ops).value, opexKey, fee).value).value, cl, read)
  {
    var slots := Texts(ops).value;
    var cl := Classified(c, slots).value;
    var read := if cl.spend == [] then [] else balances(SpendUtxos(cl)).value;
    Conservation(c, slots, read, opexKey);
  }
}

/** From the slots the submit path signed to the transaction the executor sends: what it takes from the
    slots, and what the contract then reads. */
module HeldSignatures {
  import opened Wrappers
  import opened ScVals
  import opened SpendSlots
  import opened HoldingKeys
  import opened SignatureMap
  import opened Submission
  import opened AuthEntries
  import opened AuthPasses

  /** The signature of a slot, if it carries one, is for another UTXO. */
  predicate NotFor(c: Codec, s: string, utxo: seq<byte>) {
    SignatureOf(c, s).Ok? && (SignatureOf(c, s).value.Some? ==> SignatureOf(c, s).value.value.utxo != utxo)
  }

  lemma {:induction false} FirstForConcat(a: seq<SpendSignature>, b: seq<SpendSignature>, utxo: seq<byte>)
    ensures FirstFor(a + b, utxo) == if FirstFor(a, utxo).Some? then FirstFor(a, utxo) else FirstFor(b, utxo)
  {
    if a == [] {
      assert a + b == b;
    } else {
      assert (a + b)[1..] == a[1..] + b;
      FirstForConcat(a[1..], b, utxo);
    }
  }

  lemma {:induction false} NoneForUtxo(c: Codec, slots: seq<string>, utxo: seq<byte>)
    requires Signatures(c, slots).Ok? && forall i :: 0 <= i < |slots| ==> NotFor(c, slots[i], utxo)
    ensures FirstFor(Signatures(c, slots).value, utxo) == None
  {
    if slots != [] {
      var n := |slots| - 1;
      NoneForUtxo(c, slots[..n], utxo);
      if SignatureOf(c, slots[n]).value.Some? {
        FirstForConcat(Signatures(c, slots[..n]).value, [SignatureOf(c, slots[n]).value.value], utxo);
      }
    }
  }

  /** The first slot signed for a UTXO decides the signature filed under it. */
  lemma {:induction false} FirstSlotDecides(c: Codec, slots: seq<string>, i: nat, sig: SpendSignature)
    requires Signatures(c, slots).Ok? && i < |slots| && SignatureOf(c, slots[i]) == Ok(Some(sig))
    requires forall j :: 0 <= j < i ==> NotFor(c, slots[j], sig.utxo)
    ensures FirstFor(Signatures(c, slots).value, sig.utxo) == Some(sig)
  {
    var n := |slots| - 1;
    var front := Signatures(c, slots[..n]).value;
    if i == n {
      NoneForUtxo(c, slots[..n], sig.utxo);
      FirstForConcat(front, [sig], sig.utxo);
    } else {
      FirstSlotDecides(c, slots[..n], i, sig);
      if SignatureOf(c, slots[n]).value.Some? {
        FirstForConcat(front, [SignatureOf(c, slots[n]).value.value], sig.utxo);
      }
    }
  }

  /** What the executor works from: the signed slots' signatures and the users' entries. */
  ghost predicate TakenFrom(
      c: Codec, read: EntryReader, after: seq<string>, users: seq<UserSignedSlot>, p: ProviderKey)
  {
    Signatures(c, after) == Ok(p.spends) && UserEntries(c, read, after) == Ok(users)
  }

  /** Slot `s`, at position `i`, came unsigned, and no slot before it is signed for its UTXO. */
  ghost predicate FirstUnsigned(c: Codec, after: seq<string>, s: string, i: nat, utxo: seq<byte>)
    requires i < |after|
  {
    UnsignedKey(c, Text(s)) == Some(utxo) && forall j :: 0 <= j < i ==> NotFor(c, after[j], utxo)
  }

  lemma HeldIsFiled(
      c: Codec, before: seq<string>, after: seq<string>, derive: Derivation, g: Signing, i: nat, utxo: seq<byte>)
    returns (key: nat, pre: seq<byte>)
    requires RoundTrips(c) && SignsIn64Bytes(g.signer) && SlotsPass(c, before, after, derive, g)
    requires Signatures(c, after).Ok? && i < |before| && FirstUnsigned(c, after, before[i], i, utxo)
    ensures HeldBy(c, before[i], utxo, derive, g, key, pre)
    ensures FirstFor(Signatures(c, after).value, utxo) == Some(SpendSignature(utxo, g.signer(key, pre), g.exp))
  {
    key, pre := PassSigns(c, before[i], after[i], derive, g, utxo);
    FirstSlotDecides(c, after, i, SignatureOf(c, after[i]).value.value);
  }

  /** Submission and execution joined, for slots the submit path passed: in every Contract entry of the
      transaction the contract finds, under the UTXO of a slot that came unsigned (the first signed for
      it), the holding key's signature over what commits to the channel, that slot's own conditions and
      the expiration, and that expiration. */
  lemma HeldSpendsAreAuthorized(
      c: Codec, read: EntryReader, before: seq<string>, after: seq<string>, derive: Derivation, g: Signing,
      auth: seq<AuthEntry>, users: seq<UserSignedSlot>, at: u32, p: ProviderKey, e: AuthEntry, i: nat, utxo: seq<byte>)
    returns (key: nat, pre: seq<byte>)
    requires RoundTrips(c) && SignsIn64Bytes(g.signer) && SlotsPass(c, before, after, derive, g)
    requires TakenFrom(c, read, after, users, p)
    requires e in Authorized(auth, users, at, p) && OfContract(e)
    requires i < |before| && FirstUnsigned(c, after, before[i], i, utxo)
    ensures ProvidersEntry(e, at, p) && HeldBy(c, before[i], utxo, derive, g, key, pre)
    ensures SignatureUnder(e.credentials.signature, "P256", utxo)
      == Some(VecOf([Tagged("P256", g.signer(key, pre)), ScU32(g.exp)]))
  {
    key, pre := HeldIsFiled(c, before, after, derive, g, i, utxo);
    EveryContractEntryIsSigned(auth, users, at, p);
  }

  /** Two slots that carry a signature give two entries, in slot order. */
  ghost predicate FiledInOrder(sigs: seq<SpendSignature>, a: SpendSignature, b: SpendSignature) {
    exists k, l :: 0 <= k < l < |sigs| && sigs[k] == a && sigs[l] == b
  }

  lemma {:induction false} CarriedIsFiled(c: Codec, slots: seq<string>, j: nat, sig: SpendSignature)
    requires Signatures(c, slots).Ok? && j < |slots| && SignatureOf(c, slots[j]) == Ok(Some(sig))
    ensures sig in Signatures(c, slots).value
  {
    var n := |slots| - 1;
    if j < n { CarriedIsFiled(c, slots[..n], j, sig); }
  }

  lemma {:induction false} FiledTwice(
      c: Codec, slots: seq<string>, j: nat, i: nat, a: SpendSignature, b: SpendSignature)
    requires Signatures(c, slots).Ok? && j < i < |slots|
    requires SignatureOf(c, slots[j]) == Ok(Some(a)) && SignatureOf(c, slots[i]) == Ok(Some(b))
    ensures FiledInOrder(Signatures(c, slots).value, a, b)
  {
    var n := |slots| - 1;
    var front, all := Signatures(c, slots[..n]).value, Signatures(c, slots).value;
    if i == n {
      CarriedIsFiled(c, slots[..n], j, a);
      var k :| 0 <= k < |front| && front[k] == a;
      assert all[k] == a && all[|front|] == b;
    } else {
      FiledTwice(c, slots[..n], j, i, a, b);
      var k, l :| 0 <= k < l < |front| && front[k] == a && front[l] == b;
      assert all[k] == a && all[l] == b;
    }
  }

  /** If no UTXO is signed for twice, a slot that came unsigned is the first signed for its own. */
  lemma DistinctIsFirst(
      c: Codec, before: seq<string>, after: seq<string>, derive: Derivation, g: Signing, i: nat, utxo: seq<byte>)
    requires RoundTrips(c) && SignsIn64Bytes(g.signer) && SlotsPass(c, before, after, derive, g)
    requires Signatures(c, after).Ok? && DistinctUtxos(Signatures(c, after).value)
    requires i < |before| && UnsignedKey(c, Text(before[i])) == Some(utxo)
    ensures FirstUnsigned(c, after, before[i], i, utxo)
  {
    var _, _ := PassSigns(c, before[i], after[i], derive, g, utxo);
    forall j | 0 <= j < i ensures NotFor(c, after[j], utxo) {
      SignatureIsRead(c, after, j);
      var carried := SignatureOf(c, after[j]).value;
      if carried.Some? && carried.value.utxo == utxo {
        FiledTwice(c, after, j, i, carried.value, SignatureOf(c, after[i]).value.value);
        assert false;
      }
    }
  }

  lemma {:induction false} SignatureIsRead(c: Codec, slots: seq<string>, j: nat)
    requires Signatures(c, slots).Ok? && j < |slots|
    ensures SignatureOf(c, slots[j]).Ok?
  {
    if j < |slots| - 1 { SignatureIsRead(c, slots[..|slots| - 1], j); }
  }

  /** So where the host accepts the map of signatures, every slot that came unsigned is authorized. */
  lemma AllHeldSpendsAreAuthorized(
      c: Codec, read: EntryReader, before: seq<string>, after: seq<string>, derive: Derivation, g: Signing,
      auth: seq<AuthEntry>, users: seq<UserSignedSlot>, at: u32, p: ProviderKey, e: AuthEntry, i: nat, utxo: seq<byte>)
    returns (key: nat, pre: seq<byte>)
    requires RoundTrips(c) && SignsIn64Bytes(g.signer) && SlotsPass(c, before, after, derive, g)
    requires TakenFrom(c, read, after, users, p)
    requires e in Authorized(auth, users, at, p) && OfContract(e)
    requires HostAccepts(Entries(p.spends, p.pk32, p.sign(PreimageOf(e, p)), at))
    requires i < |before| && UnsignedKey(c, Text(before[i])) == Some(utxo)
    ensures ProvidersEntry(e, at, p) && HeldBy(c, before[i], utxo, derive, g, key, pre)
    ensures SignatureUnder(e.credentials.signature, "P256", utxo)
      == Some(VecOf([Tagged("P256", g.signer(key, pre)), ScU32(g.exp)]))
  {
    OrderedExactlyWhen(p.spends, p.pk32, p.sign(PreimageOf(e, p)), at);
    DistinctIsFirst(c, before, after, derive, g, i, utxo);
    key, pre := HeldSpendsAreAuthorized(c, read, before, after, derive, g, auth, users, at, p, e, i, utxo);
  }

  /** And the rest of its list: entry by entry the simulation's, an account's replaced by the entry that the
      first submitted slot naming the account carried, or gone where no slot names it. */
  lemma UsersAreAuthorized(
      c: Codec, read: EntryReader, before: seq<string>, after: seq<string>, derive: Derivation, g: Signing,
      auth: seq<AuthEntry>, users: seq<UserSignedSlot>, at: u32, p: ProviderKey)
    returns (carriers: seq<nat>, spliced: seq<AuthEntry>, places: seq<nat>)
    requires RoundTrips(c) && SlotsPass(c, before, after, derive, g) && TakenFrom(c, read, after, users, p)
    ensures UserEntries(c, read, before) == Ok(users) && ListsUsers(c, read, before, users, carriers)
    ensures SplicedAt(auth, users, spliced, places)
    ensures var out := Authorized(auth, users, at, p);
      |out| == |spliced| && forall k :: 0 <= k < |out| ==> AuthPasses.Finished(spliced[k], out[k], at, p)
  {
    SigningKeepsUserEntries(c, read, before, after, derive, g);
    carriers := UsersAreListed(c, read, before);
    spliced, places := FinalEntries(auth, users, at, p);
  }
}

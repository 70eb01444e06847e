/** Soroban authorization entries, and lifting the users' own ones out of a bundle's slots. */
module AuthEntries {
  import opened Wrappers
  import opened ScVals
  import opened Mlxdr
  import opened SpendSlots
  import opened HoldingKeys
  import Submission

  datatype Credentials =
    | SourceAccount
    | Address(address: ScAddress, nonce: i64, expiration: u32, signature: ScVal)

  /** The root invocation is a token: no pass looks inside it. */
  datatype AuthEntry = AuthEntry(credentials: Credentials, invocation: nat)

  datatype UserSignedSlot = UserSignedSlot(pk32: seq<byte>, entry: AuthEntry)

  /** The library's XDR reading of an authorization entry. */
  type EntryReader = seq<byte> -> Option<AuthEntry>

  /** The entry a Deposit or Withdraw slot carries, with the account the slot names. */
  function UserEntryOf(c: Codec, read: EntryReader, s: string): Result<Option<UserSignedSlot>, MlxdrError> {
    var frame :- Frame(c, s);
    if !frame.0.Deposit? && !frame.0.Withdraw? then Ok(None)
    else
      var outer :- Outer(c, frame.1);
      if |outer| < 2 || !outer[1].ScVec? || outer[1].items.None? || outer[1].items.value == [] then Ok(None)
      else
        var wrapped := outer[1].items.value[0];
        if !wrapped.ScBytes? then Ok(None)
        else
          match read(wrapped.bytes)
          case None => Err(Xdr)
          case Some(entry) =>
            if !outer[0].ScVec? || outer[0].items.None? || outer[0].items.value == [] then Err(BadShape)
            else
              var owner := outer[0].items.value[0];
              if owner.ScAddr? && owner.address.Account? then Ok(Some(UserSignedSlot(owner.address.pk32, entry)))
              else Ok(None)
  }

  /** What follows the operation begins with a vector that begins with the XDR of this entry. */
  ghost predicate WrapsEntry(read: EntryReader, wrapper: ScVal, entry: AuthEntry) {
    exists bytes, rest :: wrapper == VecOf([ScBytes(bytes)] + rest) && read(bytes) == Some(entry)
  }

  /** The slot is a Deposit or Withdraw that names an account first and is followed by these. */
  ghost predicate NamesAccount(c: Codec, s: string, pk32: seq<byte>, wrapper: ScVal, rest: seq<ScVal>) {
    exists k: OperationKind, more ::
      (k.Deposit? || k.Withdraw?) && IsSlot(c, s, k, [VecOf([ScAddr(Account(pk32))] + more), wrapper] + rest)
  }

  lemma NamedIsRead(c: Codec, read: EntryReader, s: string, user: UserSignedSlot, wrapper: ScVal, rest: seq<ScVal>)
    requires NamesAccount(c, s, user.pk32, wrapper, rest) && WrapsEntry(read, wrapper, user.entry)
    ensures UserEntryOf(c, read, s) == Ok(Some(user))
  {
    var k: OperationKind, more :|
      (k.Deposit? || k.Withdraw?) && IsSlot(c, s, k, [VecOf([ScAddr(Account(user.pk32))] + more), wrapper] + rest);
    ReadsExactlyWhen(c, s, k, [VecOf([ScAddr(Account(user.pk32))] + more), wrapper] + rest);
    var bytes, others :| wrapper == VecOf([ScBytes(bytes)] + others) && read(bytes) == Some(user.entry);
  }

  lemma ReadIsNamed(c: Codec, read: EntryReader, s: string, user: UserSignedSlot)
    returns (wrapper: ScVal, rest: seq<ScVal>)
    requires UserEntryOf(c, read, s) == Ok(Some(user))
    ensures NamesAccount(c, s, user.pk32, wrapper, rest) && WrapsEntry(read, wrapper, user.entry)
  {
    var k, outer := Frame(c, s).value.0, Outer(c, Frame(c, s).value.1).value;
    var payload, wrapped := outer[0].items.value, outer[1].items.value;
    wrapper, rest := outer[1], outer[2..];
    ReadsExactlyWhen(c, s, k, outer);
    assert payload == [ScAddr(Account(user.pk32))] + payload[1..];
    assert outer == [VecOf([ScAddr(Account(user.pk32))] + payload[1..]), wrapper] + rest;
    assert wrapped == [ScBytes(wrapped[0].bytes)] + wrapped[1..];
  }

  /** A slot gives a user's entry exactly when it names the account and carries the entry so. */
  lemma GivesExactlyWhen(c: Codec, read: EntryReader, s: string, user: UserSignedSlot)
    ensures UserEntryOf(c, read, s) == Ok(Some(user)) <==>
              exists wrapper, rest ::
                NamesAccount(c, s, user.pk32, wrapper, rest) && WrapsEntry(read, wrapper, user.entry)
  {
    if UserEntryOf(c, read, s) == Ok(Some(user)) { var wrapper, rest := ReadIsNamed(c, read, s, user); }
    forall wrapper, rest | NamesAccount(c, s, user.pk32, wrapper, rest) && WrapsEntry(read, wrapper, user.entry)
      ensures UserEntryOf(c, read, s) == Ok(Some(user)) {
      NamedIsRead(c, read, s, user, wrapper, rest);
    }
  }

  function UserEntries(c: Codec, read: EntryReader, slots: seq<string>): Result<seq<UserSignedSlot>, MlxdrError> {
    if slots == [] then Ok([])
    else
      var before :- UserEntries(c, read, slots[..|slots| - 1]);
      var user :- UserEntryOf(c, read, slots[|slots| - 1]);
      Ok(if user.Some? then before + [user.value] else before)
  }

  method ExtractUserEntries(c: Codec, read: EntryReader, slots: seq<string>)
    returns (out: Result<seq<UserSignedSlot>, MlxdrError>)
    ensures out == UserEntries(c, read, slots)
  {
    var found: seq<UserSignedSlot> := [];
    for i := 0 to |slots|
      invariant UserEntries(c, read, slots[..i]) == Ok(found)
    {
      assert slots[..i + 1][..i] == slots[..i];
      var user := UserEntryOf(c, read, slots[i]);
      if user.Err? {
        FirstBadEntryWins(c, read, slots, i);
        return Err(user.error);
      }
      if user.value.Some? {
        found := found + [user.value.value];
      }
    }
    assert slots[..|slots|] == slots;
    return Ok(found);
  }

  lemma {:induction false} FirstBadEntryWins(c: Codec, read: EntryReader, slots: seq<string>, i: nat)
    requires i < |slots| && UserEntries(c, read, slots[..i]).Ok? && UserEntryOf(c, read, slots[i]).Err?
    ensures UserEntries(c, read, slots) == Err(UserEntryOf(c, read, slots[i]).error)
    decreases |slots|
  {
    var front := slots[..|slots| - 1];
    if i == |slots| - 1 {
      assert front == slots[..i];
    } else {
      assert front[..i] == slots[..i];
      FirstBadEntryWins(c, read, front, i);
    }
  }

  /** `at` are the positions of the slots the entries come from, in slot order, all of them and no other. */
  ghost predicate ListsUsers(
      c: Codec, read: EntryReader, slots: seq<string>, users: seq<UserSignedSlot>, at: seq<nat>)
  {
    && |at| == |users|
    && (forall k, l :: 0 <= k < l < |at| ==> at[k] < at[l])
    && (forall k :: 0 <= k < |at| ==> at[k] < |slots| && UserEntryOf(c, read, slots[at[k]]) == Ok(Some(users[k])))
    && (forall i :: 0 <= i < |slots| && CarriesEntry(c, read, slots[i]) ==> i in at)
  }

  predicate CarriesEntry(c: Codec, read: EntryReader, s: string) {
    UserEntryOf(c, read, s).Ok? && UserEntryOf(c, read, s).value.Some?
  }

  /** The extraction lists the entry of every slot that carries one, once, in slot order. */
  lemma {:induction false} UsersAreListed(c: Codec, read: EntryReader, slots: seq<string>) returns (at: seq<nat>)
    requires UserEntries(c, read, slots).Ok?
    ensures ListsUsers(c, read, slots, UserEntries(c, read, slots).value, at)
  {
    if slots == [] {
      return [];
    }
    var front, s := slots[..|slots| - 1], slots[|slots| - 1];
    at := UsersAreListed(c, read, front);
    UsersGrow(c, read, front, UserEntries(c, read, front).value, at, s);
    assert slots == front + [s];
    if CarriesEntry(c, read, s) {
      at := at + [|front|];
    }
  }

  lemma UsersGrow(c: Codec, read: EntryReader, front: seq<string>, users: seq<UserSignedSlot>, at: seq<nat>, s: string)
    requires ListsUsers(c, read, front, users, at) && UserEntryOf(c, read, s).Ok?
    ensures var user := UserEntryOf(c, read, s).value;
      if user.None? then ListsUsers(c, read, front + [s], users, at)
      else ListsUsers(c, read, front + [s], users + [user.value], at + [|front|])
  {
    var slots := front + [s];
    assert forall i :: 0 <= i < |front| ==> slots[i] == front[i];
    assert forall i :: i in at + [|front|] <==> i in at || i == |front|;
  }

  lemma PassKeepsUserEntry(
      c: Codec, read: EntryReader, before: string, after: string, derive: Derivation, g: Submission.Signing)
    requires RoundTrips(c) && Submission.SlotPass(c, Submission.Text(before), Submission.Text(after), derive, g)
    ensures UserEntryOf(c, read, after) == UserEntryOf(c, read, before)
  {
    if Submission.UnsignedKey(c, Submission.Text(before)).Some? {
      var key := Search(derive, Submission.UnsignedKey(c, Submission.Text(before)).value, 0).value;
      var outer := Outer(c, Frame(c, before).value.1).value;
      var sig := g.signer(key, AuthPayloadPreimage(g.channel, Conditions(c, before).value, g.exp));
      EncodeThenRead(c, Spend, [outer[0], VecOf([ScI128(0, g.exp), ScBytes(sig)])]);
    }
  }

  /** Signing held spends at submission leaves the users' own entries as they were, errors included. */
  lemma {:induction false} SigningKeepsUserEntries(
      c: Codec, read: EntryReader, before: seq<string>, after: seq<string>, derive: Derivation, g: Submission.Signing)
    requires RoundTrips(c) && Submission.SlotsPass(c, before, after, derive, g)
    ensures UserEntries(c, read, after) == UserEntries(c, read, before)
  {
    if before != [] {
      var n := |before| - 1;
      SigningKeepsUserEntries(c, read, before[..n], after[..n], derive, g);
      PassKeepsUserEntry(c, read, before[n], after[n], derive, g);
    }
  }

  // ---- what the executor can still stumble over ----

  /** A Deposit or Withdraw slot that carries bytes as a signature which are no authorization entry. */
  predicate Unreadable(c: Codec, read: EntryReader, s: string) {
    && Frame(c, s).Ok?
    && (Frame(c, s).value.0.Deposit? || Frame(c, s).value.0.Withdraw?)
    && var outer := Outer(c, Frame(c, s).value.1);
      && outer.Ok? && |outer.value| >= 2 && outer.value[1].ScVec? && outer.value[1].items.Some?
      && var sig := outer.value[1].items.value;
        sig != [] && sig[0].ScBytes? && read(sig[0].bytes).None?
  }

  lemma DecodedSlotExtracts(c: Codec, read: EntryReader, s: string)
    requires Decode(c, s).Ok?
    ensures SignatureOf(c, s).Ok?
    ensures UserEntryOf(c, read, s).Err? <==> Unreadable(c, read, s)
  {}

  /** Slots that classify yield their spend signatures. */
  lemma {:induction false} ClassifiedHasSignatures(c: Codec, read: EntryReader, slots: seq<string>)
    requires Classified(c, slots).Ok?
    ensures Signatures(c, slots).Ok?
  {
    if slots != [] {
      ClassifiedHasSignatures(c, read, slots[..|slots| - 1]);
      DecodedSlotExtracts(c, read, slots[|slots| - 1]);
    }
  }

  ghost predicate SomeUnreadable(c: Codec, read: EntryReader, slots: seq<string>) {
    exists i :: 0 <= i < |slots| && Unreadable(c, read, slots[i])
  }

  lemma OneMoreUnreadable(c: Codec, read: EntryReader, front: seq<string>, s: string)
    ensures SomeUnreadable(c, read, front + [s]) <==> SomeUnreadable(c, read, front) || Unreadable(c, read, s)
  {
    var all := front + [s];
    assert all[|front|] == s;
    if SomeUnreadable(c, read, front) {
      var i :| 0 <= i < |front| && Unreadable(c, read, front[i]);
      assert all[i] == front[i];
    }
  }

  lemma {:induction false} EntriesFailExactlyWhen(c: Codec, read: EntryReader, slots: seq<string>)
    requires Classified(c, slots).Ok?
    ensures UserEntries(c, read, slots).Err? <==> SomeUnreadable(c, read, slots)
  {
    if slots != [] {
      var front, s := slots[..|slots| - 1], slots[|slots| - 1];
      assert slots == front + [s];
      EntriesFailExactlyWhen(c, read, front);
      DecodedSlotExtracts(c, read, s);
      OneMoreUnreadable(c, read, front, s);
    }
  }

  /** The walks over the slots agree on what they accept: slots that classify aggregate, yield their
      spend signatures, and yield the users' entries unless one of those is unreadable. */
  lemma WalksAgree(c: Codec, read: EntryReader, slots: seq<string>)
    requires Classified(c, slots).Ok?
    ensures Aggregated(c, slots).Ok? && Signatures(c, slots).Ok?
    ensures UserEntries(c, read, slots).Err? <==> SomeUnreadable(c, read, slots)
  {
    AggregateMatchesClassify(c, slots);
    ClassifiedHasSignatures(c, read, slots);
    EntriesFailExactlyWhen(c, read, slots);
  }
}

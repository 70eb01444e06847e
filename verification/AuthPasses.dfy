/** The executor's four passes over an assembled transaction: splice in the users' authorization
    entries, widen the footprint by their nonces, stamp the expiration, sign for the provider. */
module AuthPasses {
  import opened Wrappers
  import opened ScVals
  import opened SpendSlots
  import opened SignatureMap
  import opened AuthEntries

  datatype Body = InvokeHostFunction(hostFunction: nat, auth: seq<AuthEntry>) | OtherBody(kind: nat)

  datatype Operation = Operation(source: Option<seq<byte>>, body: Body)

  datatype LedgerKey = ContractData(contract: ScAddress, key: ScVal, temporary: bool) | OtherKey(kind: nat)

  datatype Preimage = Preimage(networkId: seq<byte>, nonce: i64, expiration: u32, invocation: nat)

  datatype ProviderKey = ProviderKey(
    networkId: seq<byte>, pk32: seq<byte>, sign: Preimage -> seq<byte>, spends: seq<SpendSignature>)

  /** A pass that rewrites authorization lists, with what it works from. */
  datatype Pass = Splice(users: seq<UserSignedSlot>) | Expire(at: u32) | Sign(provider: ProviderKey)

  predicate OfAccount(e: AuthEntry) { e.credentials.Address? && e.credentials.address.Account? }

  predicate OfContract(e: AuthEntry) { e.credentials.Address? && e.credentials.address.Contract? }

  /** `iter().find` by account key. */
  function FirstUser(users: seq<UserSignedSlot>, pk32: seq<byte>): Option<AuthEntry> {
    if users == [] then None
    else if users[0].pk32 == pk32 then Some(users[0].entry)
    else FirstUser(users[1..], pk32)
  }

  /** What takes the place of an entry: for an Account one the user's, if there is one. */
  function Spliced(e: AuthEntry, users: seq<UserSignedSlot>): seq<AuthEntry> {
    if !OfAccount(e) then [e]
    else
      match FirstUser(users, e.credentials.address.pk32)
      case None => []
      case Some(entry) => [entry]
  }

  function Expired(e: AuthEntry, at: u32): AuthEntry {
    if OfContract(e) then e.(credentials := e.credentials.(expiration := at)) else e
  }

  function PreimageOf(e: AuthEntry, p: ProviderKey): Preimage
    requires e.credentials.Address?
  {
    Preimage(p.networkId, e.credentials.nonce, e.credentials.expiration, e.invocation)
  }

  function Signed(e: AuthEntry, p: ProviderKey): AuthEntry {
    if !OfContract(e) then e
    else e.(credentials := e.credentials.(signature :=
      SignaturesValue(p.spends, p.pk32, p.sign(PreimageOf(e, p)), e.credentials.expiration)))
  }

  function RewriteEntry(p: Pass, e: AuthEntry): seq<AuthEntry> {
    match p
    case Splice(users) => Spliced(e, users)
    case Expire(at) => [Expired(e, at)]
    case Sign(provider) => [Signed(e, provider)]
  }

  function Rewrite(p: Pass, auth: seq<AuthEntry>): seq<AuthEntry> {
    if auth == [] then [] else Rewrite(p, auth[..|auth| - 1]) + RewriteEntry(p, auth[|auth| - 1])
  }

  function RewriteOp(p: Pass, op: Operation): Operation {
    if op.body.InvokeHostFunction? then op.(body := op.body.(auth := Rewrite(p, op.body.auth))) else op
  }

  function RewriteAll(p: Pass, ops: Option<seq<Operation>>): Option<seq<Operation>> {
    match ops
    case None => None
    case Some(all) => Some(seq(|all|, i requires 0 <= i < |all| => RewriteOp(p, all[i])))
  }

  /** The slot in which the host notes that an account's nonce is spent. */
  function NonceKey(holder: ScAddress, nonce: i64): LedgerKey { ContractData(holder, ScNonceKey(nonce), true) }

  function Extended(readWrite: seq<LedgerKey>, users: seq<UserSignedSlot>): seq<LedgerKey> {
    if users == [] then readWrite
    else
      var before := Extended(readWrite, users[..|users| - 1]);
      var user := users[|users| - 1];
      if !user.entry.credentials.Address? then before
      else
        var key := NonceKey(Account(user.pk32), user.entry.credentials.nonce);
        if key in before then before else before + [key]
  }

  /** `u32::saturating_add` */
  function SaturatingAdd(a: u32, b: u32): u32 { if a + b < TWO_32 then a + b else TWO_32 - 1 }

  method SpliceEntries(auth: seq<AuthEntry>, users: seq<UserSignedSlot>) returns (entries: seq<AuthEntry>)
    ensures entries == Rewrite(Splice(users), auth)
  {
    entries := [];
    for j := 0 to |auth|
      invariant entries == Rewrite(Splice(users), auth[..j])
    {
      assert auth[..j + 1][..j] == auth[..j];
      if OfAccount(auth[j]) {
        var user := FirstUser(users, auth[j].credentials.address.pk32);
        if user.Some? {
          entries := entries + [user.value];
        }
      } else {
        entries := entries + [auth[j]];
      }
    }
    assert auth[..|auth|] == auth;
  }

  method ExpireEntries(auth: seq<AuthEntry>, at: u32) returns (entries: seq<AuthEntry>)
    ensures entries == Rewrite(Expire(at), auth)
  {
    entries := auth;
    for j := 0 to |auth|
      invariant |entries| == |auth|
      invariant entries[..j] == Rewrite(Expire(at), auth[..j])
      invariant forall k :: j <= k < |auth| ==> entries[k] == auth[k]
    {
      assert auth[..j + 1][..j] == auth[..j];
      if OfContract(entries[j]) {
        var credentials := entries[j].credentials.(expiration := at);
        entries := entries[j := entries[j].(credentials := credentials)];
      }
      assert entries[..j + 1] == entries[..j] + [entries[j]];
    }
    assert auth[..|auth|] == auth && entries[..|auth|] == entries;
  }

  method SignEntries(auth: seq<AuthEntry>, p: ProviderKey) returns (entries: seq<AuthEntry>)
    ensures entries == Rewrite(Sign(p), auth)
  {
    entries := [];
    for j := 0 to |auth|
      invariant entries == Rewrite(Sign(p), auth[..j])
    {
      assert auth[..j + 1][..j] == auth[..j];
      var entry := auth[j];
      if OfContract(entry) {
        var sig := p.sign(PreimageOf(entry, p));
        var value := BuildSignatures(p.spends, p.pk32, sig, entry.credentials.expiration);
        entry := entry.(credentials := entry.credentials.(signature := value));
      }
      entries := entries + [entry];
    }
    assert auth[..|auth|] == auth;
  }

  /** The first `n` operations are rewritten and the others as they were. */
  ghost predicate Progress(p: Pass, before: Option<seq<Operation>>, now: Option<seq<Operation>>, n: nat) {
    && before.Some? && now.Some? && |before.value| == |now.value|
    && (forall k :: 0 <= k < n && k < |now.value| ==> now.value[k] == RewriteOp(p, before.value[k]))
    && (forall k :: n <= k < |now.value| ==> now.value[k] == before.value[k])
  }

  lemma ProgressEnds(p: Pass, before: Option<seq<Operation>>, now: Option<seq<Operation>>)
    requires before.Some? && Progress(p, before, now, |before.value|)
    ensures now == RewriteAll(p, before)
  {
    assert now.value == RewriteAll(p, before).value;
  }

  /** The parts of an assembled transaction that the passes touch. */
  class Transaction {
    var operations: Option<seq<Operation>>
    var readWrite: Option<seq<LedgerKey>>

    constructor (operations: Option<seq<Operation>>, readWrite: Option<seq<LedgerKey>>)
      ensures this.operations == operations && this.readWrite == readWrite
    {
      this.operations, this.readWrite := operations, readWrite;
    }

    method SpliceUserSignedEntries(users: seq<UserSignedSlot>)
      modifies this`operations
      ensures operations == RewriteAll(Splice(users), old(operations))
    {
      if operations.None? {
        return;
      }
      for i := 0 to |operations.value|
        invariant Progress(Splice(users), old(operations), operations, i)
      {
        var op := operations.value[i];
        if op.body.InvokeHostFunction? {
          var entries := SpliceEntries(op.body.auth, users);
          operations := Some(operations.value[i := op.(body := InvokeHostFunction(op.body.hostFunction, entries))]);
        }
      }
      ProgressEnds(Splice(users), old(operations), operations);
    }

    method ExtendFootprintWithUserNonces(users: seq<UserSignedSlot>)
      modifies this`readWrite
      ensures match old(readWrite)
        case None => readWrite == None
        case Some(keys) => readWrite == Some(Extended(keys, users))
    {
      if readWrite.None? {
        return;
      }
      var keys := readWrite.value;
      for i := 0 to |users|
        invariant keys == Extended(readWrite.value, users[..i])
      {
        assert users[..i + 1][..i] == users[..i];
        if users[i].entry.credentials.Address? {
          var key := NonceKey(Account(users[i].pk32), users[i].entry.credentials.nonce);
          if key !in keys {
            keys := keys + [key];
          }
        }
      }
      assert users[..|users|] == users;
      readWrite := Some(keys);
    }

    method SetAuthSignatureExpiration(expiration: u32)
      modifies this`operations
      ensures operations == RewriteAll(Expire(expiration), old(operations))
    {
      if operations.None? {
        return;
      }
      for i := 0 to |operations.value|
        invariant Progress(Expire(expiration), old(operations), operations, i)
      {
        var op := operations.value[i];
        if op.body.InvokeHostFunction? {
          var entries := ExpireEntries(op.body.auth, expiration);
          operations := Some(operations.value[i := op.(body := InvokeHostFunction(op.body.hostFunction, entries))]);
        }
      }
      ProgressEnds(Expire(expiration), old(operations), operations);
    }

    method SignSorobanAuthEntries(p: ProviderKey)
      modifies this`operations
      ensures operations == RewriteAll(Sign(p), old(operations))
    {
      if operations.None? {
        return;
      }
      for i := 0 to |operations.value|
        invariant Progress(Sign(p), old(operations), operations, i)
      {
        var op := operations.value[i];
        if op.body.InvokeHostFunction? {
          var entries := SignEntries(op.body.auth, p);
          operations := Some(operations.value[i := op.(body := InvokeHostFunction(op.body.hostFunction, entries))]);
        }
      }
      ProgressEnds(Sign(p), old(operations), operations);
    }

    /** The passes in the order `submit_one` runs them, up to the envelope signature. */
    method Authorize(users: seq<UserSignedSlot>, latest: u32, offset: u32, p: ProviderKey)
      modifies this
      ensures operations
           == AuthorizedOps(
                old(operations), users, if latest + offset < 0x1_0000_0000 then latest + offset else 0xFFFF_FFFF, p)
      ensures match old(readWrite)
        case None => readWrite == None
        case Some(keys) => readWrite == Some(Extended(keys, users))
    {
      SpliceUserSignedEntries(users);
      ExtendFootprintWithUserNonces(users);
      SetAuthSignatureExpiration(SaturatingAdd(latest, offset));
      SignSorobanAuthEntries(p);
    }
  }

  function AuthorizedOps(
      ops: Option<seq<Operation>>, users: seq<UserSignedSlot>, at: u32, p: ProviderKey)
    : Option<seq<Operation>>
  {
    RewriteAll(Sign(p), RewriteAll(Expire(at), RewriteAll(Splice(users), ops)))
  }

  /** One authorization list through the passes. */
  function Authorized(auth: seq<AuthEntry>, users: seq<UserSignedSlot>, at: u32, p: ProviderKey): seq<AuthEntry> {
    Rewrite(Sign(p), Rewrite(Expire(at), Rewrite(Splice(users), auth)))
  }

  /** Nothing but authorization lists changes: operations keep their number, order, source and host function. */
  lemma OnlyAuthChanges(ops: Option<seq<Operation>>, users: seq<UserSignedSlot>, at: u32, p: ProviderKey)
    ensures var out := AuthorizedOps(ops, users, at, p);
      && out.None? == ops.None?
      && (ops.Some? ==> |out.value| == |ops.value| && forall i :: 0 <= i < |ops.value| ==>
            out.value[i] == match ops.value[i].body
              case OtherBody(_) => ops.value[i]
              case InvokeHostFunction(h, auth) =>
                Operation(ops.value[i].source, InvokeHostFunction(h, Authorized(auth, users, at, p))))
  {}

  // ---- the passes compose ----

  function AccountEntries(auth: seq<AuthEntry>): seq<AuthEntry> {
    if auth == [] then []
    else AccountEntries(auth[..|auth| - 1]) + if OfAccount(auth[|auth| - 1]) then [auth[|auth| - 1]] else []
  }

  /** The entries of other kinds, without what the provider fills in on Contract ones. */
  function OtherEntries(auth: seq<AuthEntry>): seq<AuthEntry> {
    if auth == [] then []
    else OtherEntries(auth[..|auth| - 1]) + if OfAccount(auth[|auth| - 1]) then [] else [Bare(auth[|auth| - 1])]
  }

  function Bare(e: AuthEntry): AuthEntry {
    if OfContract(e) then e.(credentials := e.credentials.(expiration := 0, signature := ScVec(None))) else e
  }

  /** The users' entries that stand in for the simulation's Account entries, in order. */
  function StandIns(auth: seq<AuthEntry>, users: seq<UserSignedSlot>): seq<AuthEntry> {
    if auth == [] then []
    else
      var e := auth[|auth| - 1];
      StandIns(auth[..|auth| - 1], users) + if OfAccount(e) then Spliced(e, users) else []
  }

  lemma {:induction false} FirstUserIsAUser(users: seq<UserSignedSlot>, pk32: seq<byte>)
    ensures match FirstUser(users, pk32)
      case None => forall u :: u in users ==> u.pk32 != pk32
      case Some(e) => UserSlot(pk32, e) in users
  {
    if users != [] {
      FirstUserIsAUser(users[1..], pk32);
      assert users == [users[0]] + users[1..];
    }
  }

  function UserSlot(pk32: seq<byte>, e: AuthEntry): UserSignedSlot { UserSignedSlot(pk32, e) }

  lemma {:induction false} StandInsAreTheUsers(auth: seq<AuthEntry>, users: seq<UserSignedSlot>)
    ensures forall e :: e in StandIns(auth, users) ==> exists pk :: UserSlot(pk, e) in users
  {
    if auth != [] {
      var e := auth[|auth| - 1];
      StandInsAreTheUsers(auth[..|auth| - 1], users);
      if OfAccount(e) { FirstUserIsAUser(users, e.credentials.address.pk32); }
    }
  }

  /** Expiring and signing go entry by entry. */
  lemma {:induction false} EntryWise(p: Pass, auth: seq<AuthEntry>)
    requires !p.Splice?
    ensures |Rewrite(p, auth)| == |auth|
    ensures forall i :: 0 <= i < |auth| ==> [Rewrite(p, auth)[i]] == RewriteEntry(p, auth[i])
  {
    if auth != [] {
      EntryWise(p, auth[..|auth| - 1]);
    }
  }

  lemma StampedEntryWise(auth: seq<AuthEntry>, at: u32, p: ProviderKey)
    ensures var out := Rewrite(Sign(p), Rewrite(Expire(at), auth));
      |out| == |auth| && forall i :: 0 <= i < |auth| ==> out[i] == Signed(Expired(auth[i], at), p)
  {
    var expired := Rewrite(Expire(at), auth);
    EntryWise(Expire(at), auth);
    EntryWise(Sign(p), expired);
    forall i | 0 <= i < |auth| ensures Rewrite(Sign(p), expired)[i] == Signed(Expired(auth[i], at), p) {
      assert [expired[i]] == [Expired(auth[i], at)];
      assert [Rewrite(Sign(p), expired)[i]] == [Signed(expired[i], p)];
    }
  }

  lemma {:induction false} StampingKeeps(before: seq<AuthEntry>, after: seq<AuthEntry>, at: u32, p: ProviderKey)
    requires |before| == |after| && forall i :: 0 <= i < |before| ==> after[i] == Signed(Expired(before[i], at), p)
    ensures AccountEntries(after) == AccountEntries(before)
    ensures OtherEntries(after) == OtherEntries(before)
  {
    if before != [] {
      var n := |before| - 1;
      StampingKeeps(before[..n], after[..n], at, p);
      assert Bare(after[n]) == Bare(before[n]);
    }
  }

  lemma {:induction false} AccountEntriesConcat(a: seq<AuthEntry>, b: seq<AuthEntry>)
    ensures AccountEntries(a + b) == AccountEntries(a) + AccountEntries(b)
    ensures OtherEntries(a + b) == OtherEntries(a) + OtherEntries(b)
    decreases |b|
  {
    if b == [] {
      assert a + b == a;
    } else {
      var n := |b| - 1;
      AccountEntriesConcat(a, b[..n]);
      assert (a + b)[..|a + b| - 1] == a + b[..n];
    }
  }

  lemma {:induction false} SplicingAccounts(auth: seq<AuthEntry>, users: seq<UserSignedSlot>)
    ensures AccountEntries(Rewrite(Splice(users), auth)) == AccountEntries(StandIns(auth, users))
    ensures |OtherEntries(Rewrite(Splice(users), auth))| == |OtherEntries(auth)| + |OtherEntries(StandIns(auth, users))|
    ensures OtherEntries(StandIns(auth, users)) == [] ==>
              OtherEntries(Rewrite(Splice(users), auth)) == OtherEntries(auth)
  {
    if auth != [] {
      var front, e := auth[..|auth| - 1], auth[|auth| - 1];
      SplicingAccounts(front, users);
      AccountEntriesConcat(Rewrite(Splice(users), front), Spliced(e, users));
      AccountEntriesConcat(StandIns(front, users), if OfAccount(e) then Spliced(e, users) else []);
    }
  }

  // ---- what the splice leaves, position by position ----

  /** Account entry `e` has user `u` as the first whose slot names its account. */
  ghost predicate FirstNamed(users: seq<UserSignedSlot>, e: AuthEntry, u: nat) {
    && u < |users|
    && e.credentials.Address? && e.credentials.address == ScAddress.Account(users[u].pk32)
    && forall v :: 0 <= v < u ==> users[v].pk32 != users[u].pk32
  }

  /** An entry stays for what is no account's, and gives way to a user's entry for what is. */
  ghost predicate Replaced(e: AuthEntry, users: seq<UserSignedSlot>, next: AuthEntry) {
    if e.credentials.Address? && e.credentials.address.Account?
    then exists u: nat :: FirstNamed(users, e, u) && next == users[u].entry
    else next == e
  }

  /** The simulation's entry has a successor: it is no account's, or some slot names its account. */
  ghost predicate Kept(e: AuthEntry, users: seq<UserSignedSlot>) {
    e.credentials.Address? && e.credentials.address.Account? ==>
      exists u :: u in users && u.pk32 == e.credentials.address.pk32
  }

  /** `at` are the positions of the entries that have a successor, all of them, in order; `out` has the
      successors. */
  ghost predicate SplicedAt(auth: seq<AuthEntry>, users: seq<UserSignedSlot>, out: seq<AuthEntry>, at: seq<nat>) {
    && |at| == |out|
    && (forall k, l :: 0 <= k < l < |at| ==> at[k] < at[l])
    && (forall k :: 0 <= k < |at| ==> at[k] < |auth| && Replaced(auth[at[k]], users, out[k]))
    && (forall i :: 0 <= i < |auth| ==> (i in at <==> Kept(auth[i], users)))
  }

  lemma {:induction false} FirstUserIsFirst(users: seq<UserSignedSlot>, e: AuthEntry) returns (u: nat)
    requires e.credentials.Address? && e.credentials.address.Account?
    ensures match FirstUser(users, e.credentials.address.pk32)
      case None => !Kept(e, users)
      case Some(entry) => FirstNamed(users, e, u) && entry == users[u].entry && Kept(e, users)
  {
    u := 0;
    if users != [] {
      var key := e.credentials.address.pk32;
      if users[0].pk32 == key {
        assert users[0] in users;
      } else {
        var v := FirstUserIsFirst(users[1..], e);
        u := v + 1;
        assert users == [users[0]] + users[1..];
        assert FirstUser(users[1..], key).Some? ==> users[1..][v] == users[u];
        assert FirstUser(users[1..], key).Some? ==> forall w :: 0 < w < u ==> users[w] == users[1..][w - 1];
        assert FirstUser(users[1..], key).Some? ==> users[u] in users;
      }
    }
  }

  lemma OneMoreGone(
      front: seq<AuthEntry>, e: AuthEntry, users: seq<UserSignedSlot>, out: seq<AuthEntry>, at: seq<nat>)
    requires SplicedAt(front, users, out, at) && !Kept(e, users)
    ensures SplicedAt(front + [e], users, out, at)
  {
    var auth := front + [e];
    forall k | 0 <= k < |at| ensures at[k] < |auth| && Replaced(auth[at[k]], users, out[k]) {
      assert auth[at[k]] == front[at[k]];
    }
    forall i | 0 <= i < |auth| ensures i in at <==> Kept(auth[i], users) {
      if i < |front| { assert auth[i] == front[i]; } else { assert i !in at; }
    }
  }

  lemma OneMoreKept(
      front: seq<AuthEntry>, e: AuthEntry, users: seq<UserSignedSlot>, out: seq<AuthEntry>, at: seq<nat>,
      next: AuthEntry)
    requires SplicedAt(front, users, out, at) && Kept(e, users) && Replaced(e, users, next)
    ensures SplicedAt(front + [e], users, out + [next], at + [|front|])
  {
    var auth, more, all := front + [e], out + [next], at + [|front|];
    forall k | 0 <= k < |all| ensures all[k] < |auth| && Replaced(auth[all[k]], users, more[k]) {
      if k < |at| { assert auth[at[k]] == front[at[k]] && more[k] == out[k]; }
    }
    forall i | 0 <= i < |auth| ensures i in all <==> Kept(auth[i], users) {
      if i < |front| {
        assert auth[i] == front[i] && (i in all <==> i in at);
      } else {
        assert all[|at|] == i;
      }
    }
  }

  lemma SplicedIsReplaced(e: AuthEntry, users: seq<UserSignedSlot>)
    ensures Spliced(e, users) == [] <==> !Kept(e, users)
    ensures Kept(e, users) ==> |Spliced(e, users)| == 1 && Replaced(e, users, Spliced(e, users)[0])
  {
    if OfAccount(e) { var u := FirstUserIsFirst(users, e); }
  }

  /** What the splice does, position by position: an entry that is no account's stays; an account's gives
      way to the entry of the first slot that names the account, or goes if none does. */
  lemma {:induction false} SplicingIsPositional(auth: seq<AuthEntry>, users: seq<UserSignedSlot>) returns (at: seq<nat>)
    ensures SplicedAt(auth, users, Rewrite(Splice(users), auth), at)
  {
    at := [];
    if auth != [] {
      var front, e := auth[..|auth| - 1], auth[|auth| - 1];
      var out := Rewrite(Splice(users), front);
      at := SplicingIsPositional(front, users);
      assert auth == front + [e] && Rewrite(Splice(users), auth) == out + Spliced(e, users);
      SplicedIsReplaced(e, users);
      if Kept(e, users) {
        var next := Spliced(e, users)[0];
        OneMoreKept(front, e, users, out, at, next);
        assert Spliced(e, users) == [next];
        at := at + [|front|];
      } else {
        OneMoreGone(front, e, users, out, at);
        assert out + [] == out;
      }
    }
  }

  /** How an entry that the splice left reads after the other passes: a Contract one keeps address, nonce
      and invocation and has the expiration and the signatures, any other is untouched. */
  ghost predicate Finished(spliced: AuthEntry, e: AuthEntry, at: u32, p: ProviderKey) {
    if spliced.credentials.Address? && spliced.credentials.address.Contract?
    then
      && ProvidersEntry(e, at, p) && e.invocation == spliced.invocation
      && e.credentials.address == spliced.credentials.address && e.credentials.nonce == spliced.credentials.nonce
    else e == spliced
  }

  /** The final list, entry by entry: the simulation's entries that have a successor, each replaced as the
      splice does and then finished. */
  lemma FinalEntries(auth: seq<AuthEntry>, users: seq<UserSignedSlot>, at: u32, p: ProviderKey)
    returns (spliced: seq<AuthEntry>, places: seq<nat>)
    ensures SplicedAt(auth, users, spliced, places)
    ensures var out := Authorized(auth, users, at, p);
      |out| == |spliced| && forall k :: 0 <= k < |out| ==> Finished(spliced[k], out[k], at, p)
  {
    spliced := Rewrite(Splice(users), auth);
    places := SplicingIsPositional(auth, users);
    var out := Authorized(auth, users, at, p);
    StampedEntryWise(spliced, at, p);
    EveryContractEntryIsSigned(auth, users, at, p);
    forall k | 0 <= k < |out| ensures Finished(spliced[k], out[k], at, p) {
      assert out[k] == Signed(Expired(spliced[k], at), p) && out[k] in out;
    }
  }

  /** An account's entry in the simulation has exactly one successor, the entry of the first slot that
      names the account, if some slot does; in particular the depositor's own entry is there. */
  lemma NamedEntryIsThere(
      auth: seq<AuthEntry>, users: seq<UserSignedSlot>, at: u32, p: ProviderKey, i: nat, u: nat)
    requires i < |auth| && FirstNamed(users, auth[i], u)
    requires !(users[u].entry.credentials.Address? && users[u].entry.credentials.address.Contract?)
    ensures users[u].entry in Authorized(auth, users, at, p)
  {
    var spliced, places := FinalEntries(auth, users, at, p);
    assert users[u] in users;
    assert i in places;
    var k :| 0 <= k < |places| && places[k] == i;
    var v: nat :| FirstNamed(users, auth[i], v) && spliced[k] == users[v].entry;
    assert u == v;
    assert Authorized(auth, users, at, p)[k] == users[u].entry;
  }

  /** What the provider signs tells apart entries that differ in nonce, expiration or invocation. */
  lemma PreimagesDiffer(e: AuthEntry, f: AuthEntry, p: ProviderKey)
    requires e.credentials.Address? && f.credentials.Address?
    ensures PreimageOf(e, p) == PreimageOf(f, p) <==>
              e.credentials.nonce == f.credentials.nonce && e.credentials.expiration == f.credentials.expiration
              && e.invocation == f.invocation
  {}

  /** After all passes the Account entries are, verbatim and in order, the users' entries standing in
      for the simulation's; each is one of the users'. */
  lemma AccountEntriesAreTheUsers(auth: seq<AuthEntry>, users: seq<UserSignedSlot>, at: u32, p: ProviderKey)
    ensures AccountEntries(Authorized(auth, users, at, p)) == AccountEntries(StandIns(auth, users))
    ensures forall e :: e in StandIns(auth, users) ==> exists pk :: UserSlot(pk, e) in users
  {
    var spliced := Rewrite(Splice(users), auth);
    SplicingAccounts(auth, users);
    StampedEntryWise(spliced, at, p);
    StampingKeeps(spliced, Authorized(auth, users, at, p), at, p);
    StandInsAreTheUsers(auth, users);
  }

  /** The simulation's other entries keep their order and their address, nonce and invocation, with
      none lost or added, exactly when every standing-in entry is itself an Account one. */
  lemma OthersKeptExactlyWhen(auth: seq<AuthEntry>, users: seq<UserSignedSlot>, at: u32, p: ProviderKey)
    ensures OtherEntries(Authorized(auth, users, at, p)) == OtherEntries(auth)
       <==> OtherEntries(StandIns(auth, users)) == []
  {
    var spliced := Rewrite(Splice(users), auth);
    SplicingAccounts(auth, users);
    StampedEntryWise(spliced, at, p);
    StampingKeeps(spliced, Authorized(auth, users, at, p), at, p);
  }

  /** What the contract's check reads from a Contract entry: the new expiration, the provider's
      signature over the entry as it now stands, and the users' P256 signatures. */
  ghost predicate ProvidersEntry(e: AuthEntry, at: u32, p: ProviderKey) {
    && e.credentials.Address?
    && e.credentials.expiration == at
    && SignatureUnder(e.credentials.signature, "Provider", p.pk32)
         == Some(VecOf([
              Tagged("Ed25519", p.sign(Preimage(p.networkId, e.credentials.nonce, at, e.invocation))), ScU32(at)]))
    && forall utxo :: SignatureUnder(e.credentials.signature, "P256", utxo)
         == match FirstFor(p.spends, utxo)
            case None => None
            case Some(s) => Some(VecOf([Tagged("P256", s.sig), ScU32(s.exp)]))
  }

  lemma EveryContractEntryIsSigned(auth: seq<AuthEntry>, users: seq<UserSignedSlot>, at: u32, p: ProviderKey)
    ensures forall e :: e in Authorized(auth, users, at, p) && OfContract(e) ==> ProvidersEntry(e, at, p)
  {
    var spliced := Rewrite(Splice(users), auth);
    StampedEntryWise(spliced, at, p);
    forall e | e in Authorized(auth, users, at, p) && OfContract(e) ensures ProvidersEntry(e, at, p) {
      var i :| 0 <= i < |spliced| && e == Authorized(auth, users, at, p)[i];
      SigningSigns(Expired(spliced[i], at), p);
    }
  }

  lemma SigningSigns(e: AuthEntry, p: ProviderKey)
    requires OfContract(e)
    ensures ProvidersEntry(Signed(e, p), e.credentials.expiration, p)
  {
    forall utxo ensures SignatureUnder(Signed(e, p).credentials.signature, "P256", utxo)
      == match FirstFor(p.spends, utxo)
         case None => None
         case Some(s) => Some(VecOf([Tagged("P256", s.sig), ScU32(s.exp)])) {
      ContractFinds(p.spends, p.pk32, p.sign(PreimageOf(e, p)), e.credentials.expiration, utxo);
    }
    ContractFinds(p.spends, p.pk32, p.sign(PreimageOf(e, p)), e.credentials.expiration, []);
  }

  // ---- the footprint ----

  predicate IsNeededBy(u: UserSignedSlot, key: LedgerKey) {
    u.entry.credentials.Address? && key == NonceKey(Account(u.pk32), u.entry.credentials.nonce)
  }

  /** A user entry with address credentials needs this key. */
  ghost predicate Needed(users: seq<UserSignedSlot>, key: LedgerKey) {
    exists u :: u in users && IsNeededBy(u, key)
  }

  ghost function Copies(readWrite: seq<LedgerKey>, users: seq<UserSignedSlot>, key: LedgerKey): nat {
    if key in readWrite then multiset(readWrite)[key] else if Needed(users, key) then 1 else 0
  }

  /** The footprint keeps its keys in place and gains, once each, the users' nonce keys it lacked. */
  lemma {:induction false} FootprintGainsTheNonces(readWrite: seq<LedgerKey>, users: seq<UserSignedSlot>)
    ensures readWrite <= Extended(readWrite, users)
    ensures forall key :: multiset(Extended(readWrite, users))[key] == Copies(readWrite, users, key)
  {
    if users != [] {
      var front, user := users[..|users| - 1], users[|users| - 1];
      var before, after := Extended(readWrite, front), Extended(readWrite, users);
      FootprintGainsTheNonces(readWrite, front);
      assert users == front + [user];
      forall key ensures multiset(after)[key] == Copies(readWrite, users, key) {
        NeededByOneMore(front, user, key);
        assert key in before <==> multiset(before)[key] > 0;
        assert key in readWrite ==> multiset(readWrite)[key] > 0;
      }
    }
  }

  /** Key by key: what the simulation's footprint had, and for each user's entry with address credentials the
      temporary nonce entry of the account its slot names. */
  lemma FootprintHolds(readWrite: seq<LedgerKey>, users: seq<UserSignedSlot>, key: LedgerKey)
    ensures key in Extended(readWrite, users) <==>
              || key in readWrite
              || exists u :: u in users && u.entry.credentials.Address?
                   && key == ContractData(ScAddress.Account(u.pk32), ScNonceKey(u.entry.credentials.nonce), true)
  {
    ExtendedHolds(readWrite, users, key);
  }

  lemma NeededByOneMore(front: seq<UserSignedSlot>, user: UserSignedSlot, key: LedgerKey)
    ensures Needed(front + [user], key) <==> Needed(front, key) || IsNeededBy(user, key)
  {
    if Needed(front, key) {
      var u :| u in front && IsNeededBy(u, key);
      assert u in front + [user];
    }
    assert user in front + [user];
  }

  /** The host's slot for the nonce that an entry spends. */
  function SpentKey(e: AuthEntry): LedgerKey
    requires OfAccount(e)
  {
    NonceKey(e.credentials.address, e.credentials.nonce)
  }

  /** Every nonce that the Account entries of a list spend has its key in the footprint. */
  ghost predicate SpentIn(auth: seq<AuthEntry>, footprint: seq<LedgerKey>) {
    forall e :: e in auth && OfAccount(e) ==> SpentKey(e) in footprint
  }

  /** The simulation's footprint has the key of every standing-in Account entry, or some user's slot
      names the entry's own account with its nonce. */
  ghost predicate NoncesAreNamed(auth: seq<AuthEntry>, users: seq<UserSignedSlot>, readWrite: seq<LedgerKey>) {
    forall e :: e in StandIns(auth, users) && OfAccount(e) ==> SpentKey(e) in readWrite || Needed(users, SpentKey(e))
  }

  lemma ExtendedHolds(readWrite: seq<LedgerKey>, users: seq<UserSignedSlot>, key: LedgerKey)
    ensures key in Extended(readWrite, users) <==> key in readWrite || Needed(users, key)
  {
    FootprintGainsTheNonces(readWrite, users);
    assert key in Extended(readWrite, users) <==> multiset(Extended(readWrite, users))[key] > 0;
    assert key in readWrite <==> multiset(readWrite)[key] > 0;
  }

  /** The passes fit together, that is the nonces that the final list spends are in the final footprint,
      exactly when every standing-in entry's nonce is named: the code adds the key of the account that
      the slot names, whichever account the entry it carries is for. */
  lemma NoncesInFootprintExactlyWhen(
      auth: seq<AuthEntry>, users: seq<UserSignedSlot>, at: u32, p: ProviderKey, readWrite: seq<LedgerKey>)
    ensures SpentIn(Authorized(auth, users, at, p), Extended(readWrite, users)) <==>
              NoncesAreNamed(auth, users, readWrite)
  {
    var final, standIns := Authorized(auth, users, at, p), StandIns(auth, users);
    AccountEntriesAreTheUsers(auth, users, at, p);
    AccountEntriesAreEntries(final);
    AccountEntriesAreEntries(standIns);
    forall e | OfAccount(e)
      ensures e in final <==> e in standIns
      ensures SpentKey(e) in Extended(readWrite, users) <==> SpentKey(e) in readWrite || Needed(users, SpentKey(e)) {
      assert e in final <==> e in AccountEntries(final);
      assert e in standIns <==> e in AccountEntries(standIns);
      ExtendedHolds(readWrite, users, SpentKey(e));
    }
  }

  /** So they are if every user's entry is for the account its slot names. */
  lemma SpentNoncesAreInFootprint(
      auth: seq<AuthEntry>, users: seq<UserSignedSlot>, at: u32, p: ProviderKey, readWrite: seq<LedgerKey>)
    requires forall u :: u in users && OfAccount(u.entry) ==> u.entry.credentials.address == Account(u.pk32)
    ensures SpentIn(Authorized(auth, users, at, p), Extended(readWrite, users))
  {
    StandInsAreTheUsers(auth, users);
    forall e | e in StandIns(auth, users) && OfAccount(e) ensures Needed(users, SpentKey(e)) {
      var pk :| UserSlot(pk, e) in users;
      assert IsNeededBy(UserSlot(pk, e), SpentKey(e));
    }
    NoncesInFootprintExactlyWhen(auth, users, at, p, readWrite);
  }

  lemma {:induction false} AccountEntriesAreEntries(auth: seq<AuthEntry>)
    ensures forall e :: e in AccountEntries(auth) <==> e in auth && OfAccount(e)
  {
    if auth != [] { AccountEntriesAreEntries(auth[..|auth| - 1]); }
  }
}

/** The bounded store of single-use login nonces, and what holds of it over whole runs. Times are
    readings of a monotone clock; each operation reads it for collection and again for its own use. */
module Nonces {
  const MAX_PENDING_NONCES: nat := 1024

  datatype Entry = Entry(publicKey: string, createdAt: nat)

  type Table = map<string, Entry>

  /** Entries older than the ttl are dropped. */
  function Collected(t: Table, ttl: nat, now: nat): Table {
    map n | n in t && now - t[n].createdAt < ttl :: t[n]
  }

  predicate IsOldest(t: Table, n: string) {
    n in t && forall m :: m in t ==> t[n].createdAt <= t[m].createdAt
  }

  datatype Event =
    | Issue(nonce: string, publicKey: string, collectAt: nat, at: nat)
    | Consume(nonce: string, publicKey: string, collectAt: nat, at: nat, accepted: bool)

  /** One operation on the table. Which of several equally old entries is evicted is left open. */
  ghost predicate Step(ttl: nat, before: Table, e: Event, after: Table) {
    var t := Collected(before, ttl, e.collectAt);
    match e
    case Issue(nonce, key, _, at) =>
      if |t| >= MAX_PENDING_NONCES
      then exists eldest :: IsOldest(t, eldest) && after == (t - {eldest})[nonce := Entry(key, at)]
      else after == t[nonce := Entry(key, at)]
    case Consume(nonce, key, _, at, accepted) =>
      && after == t - {nonce}
      && accepted == (nonce in t && t[nonce].publicKey == key && at - t[nonce].createdAt < ttl)
  }

  /** What has happened to a store, and its table after each operation. */
  datatype History = New | After(prev: History, event: Event, table: Table)

  function TableOf(h: History): Table { if h.New? then map[] else h.table }

  function Now(h: History): nat { if h.New? then 0 else h.event.at }

  /** A run: each operation follows from the table before it, and the clock never goes back. */
  ghost predicate IsRun(h: History, ttl: nat) {
    h.After? ==>
      && IsRun(h.prev, ttl)
      && Now(h.prev) <= h.event.collectAt <= h.event.at
      && Step(ttl, TableOf(h.prev), h.event, h.table)
  }

  class NonceStore {
    var inner: Table
    const ttl: nat
    ghost var history: History

    ghost predicate Valid()
      reads this
    {
      IsRun(history, ttl) && TableOf(history) == inner
    }

    constructor (ttl: nat)
      ensures Valid() && this.ttl == ttl && inner == map[] && history == New
    {
      this.ttl, inner, history := ttl, map[], New;
    }

    method Gc(now: nat)
      modifies this`inner
      ensures inner == Collected(old(inner), ttl, now)
      ensures forall n :: n in inner <==> n in old(inner) && now - old(inner)[n].createdAt < ttl
      ensures forall n :: n in inner ==> inner[n] == old(inner)[n]
    {
      inner := map n | n in inner && now - inner[n].createdAt < ttl :: inner[n];
    }

    /** `nonce` is the fresh random string; the clock is read twice. */
    method Issue(nonce: string, publicKey: string, collectAt: nat, at: nat)
      requires Valid() && Now(history) <= collectAt <= at
      modifies this
      ensures Valid() && history == After(old(history), Event.Issue(nonce, publicKey, collectAt, at), inner)
    {
      Gc(collectAt);
      ghost var collected := inner;
      if |inner| >= MAX_PENDING_NONCES {
        var oldest := Oldest(inner);
        inner := inner - {oldest};
      }
      inner := inner[nonce := Entry(publicKey, at)];
      history := After(history, Event.Issue(nonce, publicKey, collectAt, at), inner);
    }

    method Consume(nonce: string, expected: string, collectAt: nat, at: nat) returns (ok: bool)
      requires Valid() && Now(history) <= collectAt <= at
      modifies this
      ensures Valid() && history == After(old(history), Event.Consume(nonce, expected, collectAt, at, ok), inner)
    {
      Gc(collectAt);
      ok := nonce in inner && inner[nonce].publicKey == expected && at - inner[nonce].createdAt < ttl;
      inner := inner - {nonce};
      history := After(history, Event.Consume(nonce, expected, collectAt, at, ok), inner);
    }
  }

  /** `iter().min_by_key` over the table, in some order. */
  method Oldest(t: Table) returns (oldest: string)
    requires t != map[]
    ensures IsOldest(t, oldest)
  {
    var rest := t.Keys;
    oldest :| oldest in rest;
    rest := rest - {oldest};
    while rest != {}
      invariant oldest in t && rest <= t.Keys
      invariant forall m :: m in t && m !in rest ==> t[oldest].createdAt <= t[m].createdAt
      decreases |rest|
    {
      var n :| n in rest;
      rest := rest - {n};
      if t[n].createdAt < t[oldest].createdAt {
        oldest := n;
      }
    }
  }

  // ---- at most 1024 entries ----

  lemma CollectedIsSmaller(t: Table, ttl: nat, now: nat)
    ensures |Collected(t, ttl, now)| <= |t|
  {
    assert Collected(t, ttl, now).Keys <= t.Keys;
    SubsetIsSmaller(Collected(t, ttl, now).Keys, t.Keys);
  }

  lemma {:induction false} SubsetIsSmaller<T>(a: set<T>, b: set<T>)
    requires a <= b
    ensures |a| <= |b|
    decreases |a|
  {
    if a != {} {
      var x :| x in a;
      SubsetIsSmaller(a - {x}, b - {x});
    }
  }

  lemma WithoutIsSmaller(t: Table, n: string)
    ensures |t - {n}| == if n in t then |t| - 1 else |t|
  {
    assert (t - {n}).Keys == t.Keys - {n};
  }

  lemma WithIsLarger(t: Table, n: string, e: Entry)
    ensures |t[n := e]| == if n in t then |t| else |t| + 1
  {
    assert t[n := e].Keys == t.Keys + {n};
  }

  /** No run ever holds more than 1024 nonces. */
  lemma {:induction false} NeverMoreThanTheMaximum(h: History, ttl: nat)
    requires IsRun(h, ttl)
    ensures |TableOf(h)| <= 1024
  {
    if h.After? {
      NeverMoreThanTheMaximum(h.prev, ttl);
      var t := Collected(TableOf(h.prev), ttl, h.event.collectAt);
      CollectedIsSmaller(TableOf(h.prev), ttl, h.event.collectAt);
      match h.event
      case Consume(nonce, _, _, _, _) => WithoutIsSmaller(t, nonce);
      case Issue(nonce, key, _, at) =>
        if |t| >= MAX_PENDING_NONCES {
          var eldest :| IsOldest(t, eldest) && h.table == (t - {eldest})[nonce := Entry(key, at)];
          WithoutIsSmaller(t, eldest);
          WithIsLarger(t - {eldest}, nonce, Entry(key, at));
        } else {
          WithIsLarger(t, nonce, Entry(key, at));
        }
    }
  }

  // ---- single use ----

  predicate Issued(h: History, n: string) { h.After? && ((h.event.Issue? && h.event.nonce == n) || Issued(h.prev, n)) }

  /** `n` was issued to this key at this time. */
  predicate IssuedTo(h: History, n: string, e: Entry) {
    h.After? && (h.event == Issue(n, e.publicKey, h.event.collectAt, e.createdAt) || IssuedTo(h.prev, n, e))
  }

  /** How often `n` has been accepted. */
  function Accepted(h: History, n: string): nat {
    if h.New? then 0
    else Accepted(h.prev, n) + if h.event.Consume? && h.event.nonce == n && h.event.accepted then 1 else 0
  }

  /** What is assumed of the random source: a nonce is never issued twice. */
  predicate FreshNonces(h: History) {
    h.After? ==> FreshNonces(h.prev) && (h.event.Issue? ==> !Issued(h.prev, h.event.nonce))
  }

  lemma {:induction false} HeldWasIssued(h: History, ttl: nat, n: string)
    requires IsRun(h, ttl) && n in TableOf(h)
    ensures IssuedTo(h, n, TableOf(h)[n]) && Issued(h, n) && TableOf(h)[n].createdAt <= Now(h)
  {
    if n in TableOf(h.prev) && h.table[n] == TableOf(h.prev)[n] {
      HeldWasIssued(h.prev, ttl, n);
    }
  }

  lemma {:induction false} HeldIsUnused(h: History, ttl: nat, n: string)
    requires IsRun(h, ttl) && FreshNonces(h)
    ensures Accepted(h, n) <= 1
    ensures Accepted(h, n) == 1 ==> n !in TableOf(h)
    ensures Accepted(h, n) == 1 ==> Issued(h, n)
  {
    if h.After? {
      HeldIsUnused(h.prev, ttl, n);
      if n in TableOf(h.prev) { HeldWasIssued(h.prev, ttl, n); }
    }
  }

  /** In every run with fresh nonces, a nonce is accepted at most once, and only for the key it was
      issued to and before its ttl has passed. */
  lemma AcceptedOnceForItsKeyInTime(h: History, ttl: nat)
    requires IsRun(h, ttl) && FreshNonces(h) && h.After? && h.event.Consume? && h.event.accepted
    ensures Accepted(h.prev, h.event.nonce) == 0
    ensures exists at: nat ::
              IssuedTo(h.prev, h.event.nonce, Entry(h.event.publicKey, at)) && at <= h.event.at && h.event.at - at < ttl
  {
    var n := h.event.nonce;
    HeldIsUnused(h, ttl, n);
    HeldWasIssued(h.prev, ttl, n);
    var e := TableOf(h.prev)[n];
    assert e == Entry(h.event.publicKey, e.createdAt);
  }

  // ---- survival ----

  predicate Extends(h: History, base: History) { h == base || (h.After? && Extends(h.prev, base)) }

  function IssuesSince(h: History, base: History): nat
    requires Extends(h, base)
  {
    if h == base then 0 else IssuesSince(h.prev, base) + if h.event.Issue? then 1 else 0
  }

  predicate ConsumedSince(h: History, base: History, n: string)
    requires Extends(h, base)
  {
    h != base && ((h.event.Consume? && h.event.nonce == n) || ConsumedSince(h.prev, base, n))
  }

  /** Issue times strictly increase. */
  predicate DistinctTimes(h: History) {
    h.After? ==> DistinctTimes(h.prev) && (h.event.Issue? ==> LastIssue(h.prev) < h.event.at)
  }

  function LastIssue(h: History): int {
    if h.New? then -1 else if h.event.Issue? then h.event.at else LastIssue(h.prev)
  }

  lemma {:induction false} HeldIsPast(h: History, ttl: nat, n: string)
    requires IsRun(h, ttl) && DistinctTimes(h) && n in TableOf(h)
    ensures TableOf(h)[n].createdAt <= LastIssue(h)
  {
    if n in TableOf(h.prev) && h.table[n] == TableOf(h.prev)[n] {
      HeldIsPast(h.prev, ttl, n);
    }
  }

  /** The nonces no older than a time. */
  function Younger(t: Table, at: nat): set<string> { set n | n in t && t[n].createdAt >= at }

  /** How many nonces have been issued at a time or later. */
  function IssuedFrom(h: History, at: nat): nat {
    if h.New? then 0 else IssuedFrom(h.prev, at) + if h.event.Issue? && h.event.at >= at then 1 else 0
  }

  lemma YoungerStep(ttl: nat, before: Table, e: Event, after: Table, at: nat)
    requires Step(ttl, before, e, after)
    ensures |Younger(after, at)| <= |Younger(before, at)| + if e.Issue? && e.at >= at then 1 else 0
  {
    var more := if e.Issue? && e.at >= at then {e.nonce} else {};
    assert Younger(after, at) <= Younger(before, at) + more;
    SubsetIsSmaller(Younger(after, at), Younger(before, at) + more);
  }

  lemma {:induction false} YoungerAreIssued(h: History, ttl: nat, at: nat)
    requires IsRun(h, ttl)
    ensures |Younger(TableOf(h), at)| <= IssuedFrom(h, at)
  {
    if h.After? {
      YoungerAreIssued(h.prev, ttl, at);
      YoungerStep(ttl, TableOf(h.prev), h.event, h.table, at);
    } else {
      assert Younger(map[], at) == {};
    }
  }

  lemma {:induction false} NowIsLater(h: History, base: History, ttl: nat)
    requires IsRun(h, ttl) && Extends(h, base)
    ensures Now(base) <= Now(h)
  {
    if h != base { NowIsLater(h.prev, base, ttl); }
  }

  lemma {:induction false} NoneIssuedFrom(h: History, at: nat)
    requires DistinctTimes(h) && LastIssue(h) < at
    ensures IssuedFrom(h, at) == 0
  {
    if h.After? {
      assert LastIssue(h.prev) <= LastIssue(h);
      NoneIssuedFrom(h.prev, at);
    }
  }

  /** With distinct times these are the nonce itself and the ones issued after it. */
  lemma {:induction false} IssuedFromIsSince(h: History, base: History, ttl: nat)
    requires IsRun(h, ttl) && DistinctTimes(h) && Extends(h, base) && base.After? && base.event.Issue?
    ensures IssuedFrom(h, base.event.at) == IssuesSince(h, base) + 1
  {
    if h == base {
      NoneIssuedFrom(h.prev, base.event.at);
    } else {
      IssuedFromIsSince(h.prev, base, ttl);
      NowIsLater(h.prev, base, ttl);
    }
  }

  /** If all entries were no older than the evicted one, there would be no more of them than issues. */
  lemma OldestIsOlder(t: Table, n: string, at: nat)
    requires |Younger(t, at)| < |t| && IsOldest(t, n)
    ensures t[n].createdAt < at
  {
    assert t[n].createdAt >= at ==> Younger(t, at) == t.Keys;
  }

  /** An unconsumed nonce within its ttl is held as long as no more than 1024 nonces, it among them,
      were issued at its time or later. */
  lemma {:induction false} OutlivesLaterIssues(h: History, base: History, ttl: nat)
    requires IsRun(h, ttl) && FreshNonces(h) && Extends(h, base) && base.After? && base.event.Issue?
    requires IssuedFrom(h, base.event.at) <= 1024 && !ConsumedSince(h, base, base.event.nonce)
    requires Now(h) - base.event.at < ttl
    ensures base.event.nonce in TableOf(h)
    ensures TableOf(h)[base.event.nonce] == Entry(base.event.publicKey, base.event.at)
  {
    if h != base {
      var n, at := base.event.nonce, base.event.at;
      OutlivesLaterIssues(h.prev, base, ttl);
      var t := Collected(TableOf(h.prev), ttl, h.event.collectAt);
      assert t[n] == TableOf(h.prev)[n];
      if h.event.Issue? {
        HeldWasIssued(h.prev, ttl, n);
        if |t| >= MAX_PENDING_NONCES {
          NowIsLater(h.prev, base, ttl);
          YoungerAreIssued(h.prev, ttl, at);
          assert Younger(t, at) <= Younger(TableOf(h.prev), at);
          SubsetIsSmaller(Younger(t, at), Younger(TableOf(h.prev), at));
          forall eldest | IsOldest(t, eldest) ensures eldest != n { OldestIsOlder(t, eldest, at); }
        }
      }
    }
  }

  /** So with distinct times it outlives any fewer than 1024 later issues. */
  lemma OutlivesFewerThanTheMaximum(h: History, base: History, ttl: nat)
    requires IsRun(h, ttl) && FreshNonces(h) && DistinctTimes(h) && Extends(h, base) && base.After? && base.event.Issue?
    requires IssuesSince(h, base) < 1024 && !ConsumedSince(h, base, base.event.nonce)
    requires Now(h) - base.event.at < ttl
    ensures base.event.nonce in TableOf(h)
    ensures TableOf(h)[base.event.nonce] == Entry(base.event.publicKey, base.event.at)
  {
    IssuedFromIsSince(h, base, ttl);
    OutlivesLaterIssues(h, base, ttl);
  }

  /** So consuming it then succeeds exactly with its own key and in time. */
  lemma ThenItIsAccepted(h: History, base: History, ttl: nat)
    requires IsRun(h, ttl) && FreshNonces(h) && h.After? && Extends(h.prev, base)
    requires base.After? && base.event.Issue? && IssuedFrom(h.prev, base.event.at) <= 1024
    requires !ConsumedSince(h.prev, base, base.event.nonce)
    requires h.event.Consume? && h.event.nonce == base.event.nonce
    ensures h.event.accepted <==> (h.event.publicKey == base.event.publicKey && h.event.at - base.event.at < ttl)
  {
    if h.event.at - base.event.at < ttl {
      OutlivesLaterIssues(h.prev, base, ttl);
    } else if h.event.nonce in TableOf(h.prev) {
      OnlyEntry(h.prev, base, ttl);
    }
  }

  lemma {:induction false} OnlyEntry(h: History, base: History, ttl: nat)
    requires IsRun(h, ttl) && FreshNonces(h) && Extends(h, base) && base.After? && base.event.Issue?
    requires base.event.nonce in TableOf(h)
    ensures TableOf(h)[base.event.nonce] == Entry(base.event.publicKey, base.event.at)
    ensures Issued(h, base.event.nonce)
  {
    if h != base {
      StillIssued(h.prev, base);
      OnlyEntry(h.prev, base, ttl);
    }
  }

  lemma {:induction false} StillIssued(h: History, base: History)
    requires Extends(h, base) && base.After? && base.event.Issue?
    ensures Issued(h, base.event.nonce)
  {
    if h != base { StillIssued(h.prev, base); }
  }

  // ---- and no more than that ----

  predicate OnlyIssuesSince(h: History, base: History)
    requires Extends(h, base)
  {
    h == base || (h.event.Issue? && OnlyIssuesSince(h.prev, base))
  }

  lemma {:induction false} NothingConsumed(h: History, base: History, n: string)
    requires Extends(h, base) && OnlyIssuesSince(h, base)
    ensures !ConsumedSince(h, base, n)
  {
    if h != base { NothingConsumed(h.prev, base, n); }
  }

  lemma {:induction false} OneNoncePerTime(h: History, base: History, ttl: nat, n: string)
    requires IsRun(h, ttl) && DistinctTimes(h) && Extends(h, base) && base.After? && base.event.Issue?
    requires n in TableOf(h) && TableOf(h)[n].createdAt == base.event.at
    ensures n == base.event.nonce
    ensures base.event.at <= LastIssue(h)
  {
    if h == base {
      if n != base.event.nonce { HeldIsPast(h.prev, ttl, n); }
    } else {
      IssuedBefore(h.prev, base);
      if n in TableOf(h.prev) && h.table[n] == TableOf(h.prev)[n] { OneNoncePerTime(h.prev, base, ttl, n); }
    }
  }

  lemma {:induction false} IssuedBefore(h: History, base: History)
    requires DistinctTimes(h) && Extends(h, base) && base.After? && base.event.Issue?
    ensures base.event.at <= LastIssue(h)
  {
    if h != base { IssuedBefore(h.prev, base); }
  }

  lemma YoungerAreCollected(t: Table, ttl: nat, now: nat, at: nat)
    requires now - at < ttl
    ensures Younger(Collected(t, ttl, now), at) == Younger(t, at)
  {}

  /** An issue adds one to the younger entries, as long as what it evicts is not among them. */
  lemma IssueAddsOne(ttl: nat, before: Table, e: Event, after: Table, at: nat)
    requires Step(ttl, before, e, after) && e.Issue? && at <= e.at && e.collectAt - at < ttl
    requires e.nonce !in before && |Younger(before, at)| < MAX_PENDING_NONCES
    ensures |Younger(after, at)| == |Younger(before, at)| + 1
  {
    var t := Collected(before, ttl, e.collectAt);
    YoungerAreCollected(before, ttl, e.collectAt, at);
    forall eldest | IsOldest(t, eldest) && |t| >= MAX_PENDING_NONCES ensures t[eldest].createdAt < at {
      OldestIsOlder(t, eldest, at);
    }
    assert Younger(after, at) == Younger(t, at) + {e.nonce};
  }

  lemma {:induction false} AllAreHeld(h: History, base: History, ttl: nat)
    requires IsRun(h, ttl) && FreshNonces(h) && DistinctTimes(h) && Extends(h, base) && base.After? && base.event.Issue?
    requires IssuesSince(h, base) < 1024 && OnlyIssuesSince(h, base) && Now(h) - base.event.at < ttl
    ensures |Younger(TableOf(h), base.event.at)| == IssuesSince(h, base) + 1
  {
    var at := base.event.at;
    YoungerAreIssued(h, ttl, at);
    IssuedFromIsSince(h, base, ttl);
    if h == base {
      assert base.event.nonce in Younger(h.table, at);
    } else {
      AllAreHeld(h.prev, base, ttl);
      IssuedFromIsSince(h.prev, base, ttl);
      YoungerAreIssued(h.prev, ttl, at);
      IssuedBefore(h.prev, base);
      if h.event.nonce in TableOf(h.prev) { HeldWasIssued(h.prev, ttl, h.event.nonce); }
      IssueAddsOne(ttl, TableOf(h.prev), h.event, h.table, at);
    }
  }

  /** The bound is exact: the 1024th issue after it, if nothing else happens and nothing expires, evicts a nonce. */
  lemma EvictedByTheMaximum(h: History, base: History, ttl: nat)
    requires IsRun(h, ttl) && FreshNonces(h) && DistinctTimes(h) && Extends(h, base) && base.After? && base.event.Issue?
    requires IssuesSince(h, base) == 1024 && OnlyIssuesSince(h, base) && Now(h) - base.event.at < ttl
    ensures base.event.nonce !in TableOf(h)
  {
    var n, at := base.event.nonce, base.event.at;
    var t := Collected(TableOf(h.prev), ttl, h.event.collectAt);
    AllAreHeld(h.prev, base, ttl);
    YoungerAreCollected(TableOf(h.prev), ttl, h.event.collectAt, at);
    NeverMoreThanTheMaximum(h.prev, ttl);
    CollectedIsSmaller(TableOf(h.prev), ttl, h.event.collectAt);
    AllOfThem(Younger(t, at), t.Keys);
    NothingConsumed(h.prev, base, n);
    OutlivesFewerThanTheMaximum(h.prev, base, ttl);
    StillIssued(h.prev, base);
    forall eldest | IsOldest(t, eldest) ensures eldest == n {
      assert eldest in Younger(t, at) && n in t;
      OneNoncePerTime(h.prev, base, ttl, eldest);
    }
  }

  lemma AllOfThem<T>(a: set<T>, b: set<T>)
    requires a <= b && |a| >= |b|
    ensures a == b
  {
    if a != b {
      assert !(b <= a);
      var x :| x in b && x !in a;
      SubsetIsSmaller(a, b - {x});
    }
  }
}

/** A run from an empty database in which nothing fails and promotions still come out of order: of 257
    rows the first listing leaves out the oldest, which the second tick promotes after all the others. */
module OrderWitness {
  import opened Wrappers
  import opened Tables
  import opened Sorting
  import opened Lifecycle
  import opened LifecycleInvariant
  import opened LifecycleFifo
  import W = LifecycleWitness

  const TTL: int := 1000

  /** Bundle `b` is submitted at time `b`. */
  function RowOf(b: nat): Listed { Listed(b, TTL, b) }

  function Stored(b: nat, promoted: nat): BundleRow {
    BundleRow(if 1 <= b <= promoted then Processing else Pending, TTL, b, 0)
  }

  /** The rows submitted so far, those from 1 to `promoted` promoted. */
  function Rows(submitted: nat, promoted: nat): map<BundleId, BundleRow> {
    map b: nat | b < submitted :: Stored(b, promoted)
  }

  function DbOf(submitted: nat, promoted: nat): Db { Db(Rows(submitted, promoted), map[], {}) }

  function AtTime(db: Db, now: int, mem: Mempool): State { State(db, now, mem, EIdle, VIdle) }

  function NewestFirst(n: nat): (rows: seq<Listed>)
    ensures |rows| == n && forall i :: 0 <= i < n ==> rows[i] == RowOf(n - i)
  {
    seq(n, i requires 0 <= i < n => RowOf(n - i))
  }

  function OldestFirst(n: nat): (rows: seq<Listed>)
    ensures |rows| == n && forall i :: 0 <= i < n ==> rows[i] == RowOf(i + 1)
  {
    seq(n, i requires 0 <= i => RowOf(i + 1))
  }

  function AgesTo(n: nat): (ages: seq<int>)
    ensures |ages| == n && forall i :: 0 <= i < n ==> ages[i] == i + 1
  {
    seq(n, i requires 0 <= i => i + 1)
  }

  /** A run from the empty database to a state that has promoted rows of these ages, in this order. */
  ghost predicate Orders(capacity: nat, r: W.Run, s: State, ages: seq<int>) {
    && IsRun(capacity, r.states, r.steps) && r.states[0] == W.BOOT && r.states[|r.steps|] == s
    && Promoted(r.states, r.steps, |r.steps|) == ages
  }

  lemma {:induction false} PromotedOfPrefix(r: W.Run, t: State, st: Step, n: nat)
    requires n <= |r.steps| < |r.states|
    ensures Promoted(r.states + [t], r.steps + [st], n) == Promoted(r.states, r.steps, n)
  {
    if n > 0 { PromotedOfPrefix(r, t, st, n - 1); }
  }

  lemma Onward(capacity: nat, r: W.Run, s: State, ages: seq<int>, st: Step, t: State) returns (on: W.Run)
    requires Orders(capacity, r, s, ages) && Next(capacity, s, st) == Some(t)
    ensures Orders(capacity, on, t, ages + PromotedBy(s, st))
  {
    on := W.Run(r.states + [t], r.steps + [st]);
    PromotedOfPrefix(r, t, st, |r.steps|);
  }

  /** And for a step that promotes nothing. */
  lemma Along(capacity: nat, r: W.Run, s: State, ages: seq<int>, st: Step, t: State) returns (on: W.Run)
    requires Orders(capacity, r, s, ages) && Next(capacity, s, st) == Some(t) && !st.MPromoteOne?
    ensures Orders(capacity, on, t, ages)
  {
    on := Onward(capacity, r, s, ages, st, t);
    assert ages + [] == ages;
  }

  // ---- 257 submits ----

  lemma {:induction false} Submitted(capacity: nat, n: nat) returns (r: W.Run)
    ensures Orders(capacity, r, AtTime(DbOf(n, 0), n, MIdle), [])
  {
    if n == 0 {
      r := W.Run([W.BOOT], []);
      assert Rows(0, 0) == map[];
    } else {
      var m: nat := n - 1;
      r := Submitted(capacity, m);
      assert Rows(m, 0)[m := BundleRow(Pending, TTL, m, 0)] == Rows(n, 0);
      r := Along(capacity, r, AtTime(DbOf(m, 0), m, MIdle), [], Submit(m, TTL), AtTime(DbOf(n, 0), m, MIdle));
      r := Along(capacity, r, AtTime(DbOf(n, 0), m, MIdle), [], ClockTo(n), AtTime(DbOf(n, 0), n, MIdle));
    }
  }

  // ---- the first tick ----

  lemma NewestAreListed(db: Db, status: BundleStatus, limit: nat)
    requires limit >= 256
    requires status.Pending? || status.Processing?
    requires if status.Pending? then db == DbOf(257, 0) && limit == 256 else db == DbOf(257, 256)
    ensures IsListing(db, status, limit, NewestFirst(256))
  {
    var rows := NewestFirst(256);
    forall b: nat | 1 <= b <= 256 ensures Lists(rows, b) {
      assert rows[256 - b].id == b;
    }
  }

  lemma {:induction false} InsertLast(x: Listed, s: seq<Listed>)
    requires forall y :: y in s ==> y.createdAt < x.createdAt
    ensures Insert(x, s, Older()) == s + [x]
  {
    if s != [] {
      InsertLast(x, s[1..]);
      assert s == [s[0]] + s[1..];
    }
  }

  lemma {:induction false} SortedOldestFirst(n: nat)
    ensures Sort(NewestFirst(n), Older()) == OldestFirst(n)
  {
    if n > 0 {
      var m: nat := n - 1;
      SortedOldestFirst(m);
      assert NewestFirst(n)[1..] == NewestFirst(m);
      InsertLast(RowOf(n), OldestFirst(m));
      assert OldestFirst(m) + [RowOf(n)] == OldestFirst(n);
    }
  }

  /** What a tick at 257 reads and takes of rows within their TTL. */
  lemma TickSteps(capacity: nat, db: Db, pending: seq<Listed>, processing: seq<Listed>, taken: seq<Listed>)
    requires IsListing(db, Pending, PENDING_LIMIT, pending) && IsListing(db, Processing, capacity, processing)
    requires forall r :: r in pending ==> r.ttl == TTL
    requires taken == ToPromote(pending, FreeSlots(capacity, |processing|))
    ensures Next(capacity, AtTime(db, 257, MIdle), MReadClock) == Some(AtTime(db, 257, Started(257)))
    ensures Next(capacity, AtTime(db, 257, Started(257)), MListPending(pending))
         == Some(AtTime(db, 257, Sweeping([], pending)))
    ensures Next(capacity, AtTime(db, 257, Sweeping([], pending)), MCountProcessing(processing))
         == Some(AtTime(db, 257, Promoting(taken)))
  {
    NonePast(pending, 257);
  }

  lemma Tick(
      capacity: nat, begun: W.Run, db: Db, pending: seq<Listed>, processing: seq<Listed>, taken: seq<Listed>,
      ages: seq<int>)
    returns (r: W.Run)
    requires Orders(capacity, begun, AtTime(db, 257, MIdle), ages)
    requires IsListing(db, Pending, PENDING_LIMIT, pending) && IsListing(db, Processing, capacity, processing)
    requires forall r :: r in pending ==> r.ttl == TTL
    requires taken == ToPromote(pending, FreeSlots(capacity, |processing|))
    ensures Orders(capacity, r, AtTime(db, 257, Promoting(taken)), ages)
  {
    var started, sweeping := AtTime(db, 257, Started(257)), AtTime(db, 257, Sweeping([], pending));
    TickSteps(capacity, db, pending, processing, taken);
    r := Along(capacity, begun, AtTime(db, 257, MIdle), ages, MReadClock, started);
    r := Along(capacity, r, started, ages, MListPending(pending), sweeping);
    r := Along(capacity, r, sweeping, ages, MCountProcessing(processing), AtTime(db, 257, Promoting(taken)));
  }

  lemma FirstTick(capacity: nat, begun: W.Run) returns (r: W.Run)
    requires capacity >= 257 && Orders(capacity, begun, AtTime(DbOf(257, 0), 257, MIdle), [])
    ensures Orders(capacity, r, AtTime(DbOf(257, 0), 257, Promoting(OldestFirst(256))), [])
  {
    NewestAreListed(DbOf(257, 0), Pending, 256);
    SortedOldestFirst(256);
    assert IsListing(DbOf(257, 0), Processing, capacity, []);
    r := Tick(capacity, begun, DbOf(257, 0), NewestFirst(256), [], OldestFirst(256), []);
  }

  lemma PromoteStep(capacity: nat, k: nat)
    requires k < 256
    ensures Next(capacity, AtTime(DbOf(257, k), 257, Promoting(OldestFirst(256)[k..])), MPromoteOne)
         == Some(AtTime(DbOf(257, k + 1), 257, Promoting(OldestFirst(256)[k + 1..])))
  {
    var rest := OldestFirst(256)[k..];
    assert rest[0] == RowOf(k + 1) && rest[1..] == OldestFirst(256)[k + 1..];
    assert SetBundleStatus(DbOf(257, k), k + 1, Processing).bundles == Rows(257, k + 1);
  }

  function Midway(k: nat): State
    requires k <= 256
  {
    AtTime(DbOf(257, k), 257, Promoting(OldestFirst(256)[k..]))
  }

  lemma AgesGrow(capacity: nat, k: nat)
    requires k < 256
    ensures AgesTo(k) + PromotedBy(Midway(k), MPromoteOne) == AgesTo(k + 1)
  {
    assert OldestFirst(256)[k..][0] == RowOf(k + 1);
  }

  lemma {:induction false} AllPromoted(capacity: nat, begun: W.Run, k: nat) returns (r: W.Run)
    requires k <= 256 && Orders(capacity, begun, Midway(0), [])
    ensures Orders(capacity, r, Midway(k), AgesTo(k))
  {
    if k == 0 {
      r := begun;
      assert AgesTo(0) == [];
    } else {
      var m: nat := k - 1;
      r := AllPromoted(capacity, begun, m);
      PromoteStep(capacity, m);
      AgesGrow(capacity, m);
      r := Onward(capacity, r, Midway(m), AgesTo(m), MPromoteOne, Midway(k));
    }
  }

  // ---- the second ----

  lemma OldestIsListed(limit: nat)
    requires limit >= 1
    ensures IsListing(DbOf(257, 256), Pending, limit, [RowOf(0)])
  {
    assert [RowOf(0)][0].id == 0;
    assert Lists([RowOf(0)], 0);
  }

  lemma LastStep(capacity: nat)
    ensures Next(capacity, AtTime(DbOf(257, 256), 257, Promoting([RowOf(0)])), MPromoteOne).Some?
    ensures PromotedBy(AtTime(DbOf(257, 256), 257, Promoting([RowOf(0)])), MPromoteOne) == [0]
  {}

  lemma SecondTick(capacity: nat, begun: W.Run) returns (r: W.Run)
    requires capacity >= 257 && Orders(capacity, begun, AtTime(DbOf(257, 256), 257, MIdle), AgesTo(256))
    ensures Orders(capacity, r, AtTime(DbOf(257, 256), 257, Promoting([RowOf(0)])), AgesTo(256))
  {
    var row := [RowOf(0)];
    OldestIsListed(256);
    NewestAreListed(DbOf(257, 256), Processing, capacity);
    assert row[1..] == [];
    assert Sort(row, Older()) == Insert(row[0], Sort([], Older()), Older()) == row;
    r := Tick(capacity, begun, DbOf(257, 256), row, NewestFirst(256), row, AgesTo(256));
  }

  /** With slots for all of them, rows of ages 1 to 256 are promoted first and the row of age 0 last. */
  lemma PromotedOutOfOrder(capacity: nat)
    requires capacity >= 257
    ensures exists r, s :: Orders(capacity, r, s, AgesTo(256) + [0])
    ensures Boot(W.BOOT)
  {
    var db := DbOf(257, 256);
    var r := Submitted(capacity, 257);
    r := FirstTick(capacity, r);
    assert OldestFirst(256)[0..] == OldestFirst(256) && OldestFirst(256)[256..] == [];
    r := AllPromoted(capacity, r, 256);
    r := Along(capacity, r, AtTime(db, 257, Promoting([])), AgesTo(256), MEnd, AtTime(db, 257, MIdle));
    r := SecondTick(capacity, r);
    LastStep(capacity);
    var s := AtTime(db, 257, Promoting([RowOf(0)]));
    r := Onward(capacity, r, s, AgesTo(256), MPromoteOne, Apply(capacity, s, MPromoteOne));
  }
}

/** Promotion order. Within a tick the oldest live rows are taken although the query lists the
    newest first; over a whole run promotions are in order of age while PENDING fits the LIMIT. */
module LifecycleFifo {
  import opened Tables
  import opened Sorting
  import opened Lifecycle
  import opened LifecycleInvariant
  import opened LifecycleSafety
  import opened LifecycleOutcome

  ghost function InPending(db: Db): set<BundleId> { set b | b in db.bundles && db.bundles[b].status.Pending? }

  /** `taken` is the `free` oldest of `live`, oldest first. */
  ghost predicate AreOldest(taken: seq<Listed>, live: seq<Listed>, free: nat) {
    && |taken| == (if free < |live| then free else |live|)
    && (forall r :: r in taken ==> r in live)
    && (forall i, j :: 0 <= i < j < |taken| ==> taken[i].createdAt <= taken[j].createdAt)
    && (forall r, t :: r in live && r !in taken && t in taken ==> t.createdAt <= r.createdAt)
  }

  lemma ToPromoteIsOldest(live: seq<Listed>, free: nat)
    ensures AreOldest(ToPromote(live, free), live, free)
  {
    var sorted := Sort(live, Older());
    var taken := ToPromote(live, free);
    OlderIsAPreorder();
    SortSorts(live, Older());
    assert forall r :: r in live <==> r in multiset(sorted);
    forall i, j | 0 <= i < j < |sorted| ensures sorted[i].createdAt <= sorted[j].createdAt {
      assert Older()(sorted[i], sorted[j]);
    }
    forall r, t | r in live && r !in taken && t in taken ensures t.createdAt <= r.createdAt {
      var i :| 0 <= i < |sorted| && sorted[i] == r;
      var j :| 0 <= j < |taken| && taken[j] == t;
      assert sorted[j] == t && j < i;
    }
  }

  /** The mempool commits to live rows, oldest first, none left behind being older than one taken: as
      many as make up the slot capacity with the rows listed as PROCESSING, or all of them if they do not. */
  lemma TickTakesTheOldest(capacity: nat, s: State, rows: seq<Listed>)
    requires Inv(s) && Enabled(capacity, s, MCountProcessing(rows))
    ensures Apply(capacity, s, MCountProcessing(rows)).mem.Promoting?
    ensures var taken, live := Apply(capacity, s, MCountProcessing(rows)).mem.rest, s.mem.live;
      && |taken| <= |live|
      && (|rows| + |taken| == capacity || (|taken| == |live| && |rows| + |taken| <= capacity))
      && (forall r :: r in taken ==> r in live)
      && (forall i, j :: 0 <= i < j < |taken| ==> taken[i].createdAt <= taken[j].createdAt)
      && (forall r, t :: r in live && r !in taken && t in taken ==> t.createdAt <= r.createdAt)
      && AllStill(s.db, taken, Pending)
  {
    assert s.mem.expired + s.mem.live == s.mem.live;
    ToPromoteKeeps(s.db, s.mem.live, FreeSlots(capacity, |rows|));
    ToPromoteIsOldest(s.mem.live, FreeSlots(capacity, |rows|));
  }

  /** Over the tables: with the rows then PROCESSING the rows taken come to the smaller of the capacity and
      all there are; none is taken where more are PROCESSING than there are slots. */
  lemma TickFillsTheSlots(capacity: nat, s: State, rows: seq<Listed>)
    requires Inv(s) && Enabled(capacity, s, MCountProcessing(rows))
    ensures var taken, processing := Apply(capacity, s, MCountProcessing(rows)).mem.rest, |InProcessing(s.db)|;
      if capacity < processing then taken == []
      else processing + |taken| == if processing + |s.mem.live| < capacity then processing + |s.mem.live| else capacity
  {
    TickTakesTheOldest(capacity, s, rows);
    CountKeepsCapacity(capacity, s, rows);
    var ids := InProcessing(s.db);
    if |ids| <= capacity {
      ListingCompleteIffFits(s.db, Processing, capacity, rows, ids);
      CoveredBy(ids, rows);
      forall i | 0 <= i < |rows| ensures rows[i].id in ids { assert HasStatus(s.db, rows[i], Processing); }
      DistinctCard(s.db, rows, ids);
    }
  }

  predicate PromotedAt(s: State, st: Step, r: Listed) {
    st.MPromoteOne? && s.mem.Promoting? && s.mem.rest != [] && s.mem.rest[0] == r
  }

  ghost predicate PromotedBetween(states: seq<State>, steps: seq<Step>, i: nat, j: nat, r: Listed)
    requires j <= |steps| < |states|
  {
    exists k :: i < k < j && PromotedAt(states[k], steps[k], r)
  }

  lemma {:induction false} TakenIsPromotedOrOwed(
      capacity: nat, states: seq<State>, steps: seq<Step>, i: nat, j: nat, r: Listed)
    requires IsRun(capacity, states, steps) && i < j < |states|
    requires steps[i].MCountProcessing? && r in states[i + 1].mem.rest
    requires forall k :: i < k < j ==> !steps[k].MAbort? && !steps[k].MEnd?
    ensures states[j].mem.Promoting? && (r in states[j].mem.rest || PromotedBetween(states, steps, i, j, r))
    decreases j
  {
    if j > i + 1 {
      var m: nat := j - 1;
      TakenIsPromotedOrOwed(capacity, states, steps, i, m, r);
      if PromotedBetween(states, steps, i, m, r) {
        var k :| i < k < m && PromotedAt(states[k], steps[k], r);
        assert i < k < j;
      } else if steps[m].MPromoteOne? && states[m].mem.rest[0] == r {
        assert PromotedAt(states[m], steps[m], r);
      }
    }
  }

  /** A tick that reaches its end has written PROCESSING to every row it committed to. */
  lemma TickPromotesAllTaken(capacity: nat, states: seq<State>, steps: seq<Step>, i: nat, j: nat, r: Listed)
    requires IsRun(capacity, states, steps) && Inv(states[0]) && i < j < |steps|
    requires steps[i].MCountProcessing? && r in states[i + 1].mem.rest && steps[j].MEnd?
    requires forall k :: i < k < j ==> !steps[k].MAbort? && !steps[k].MEnd?
    ensures exists k :: i < k < j && PromotedAt(states[k], steps[k], r)
              && r.id in states[k + 1].db.bundles && states[k + 1].db.bundles[r.id].status.Processing?
  {
    TakenIsPromotedOrOwed(capacity, states, steps, i, j, r);
    assert PromotedBetween(states, steps, i, j, r);
    var k :| i < k < j && PromotedAt(states[k], steps[k], r);
    InvThroughout(capacity, states, steps, k);
    assert HasStatus(states[k].db, states[k].mem.rest[0], Pending);
    assert states[k + 1].db.bundles[r.id].status.Processing?;
  }

  // ---- whole-run order ----

  function PromotedBy(s: State, st: Step): seq<int> {
    if st.MPromoteOne? && s.mem.Promoting? && s.mem.rest != [] then [s.mem.rest[0].createdAt] else []
  }

  /** The ages, oldest write first, of the rows promoted in the first `n` steps. */
  ghost function Promoted(states: seq<State>, steps: seq<Step>, n: nat): seq<int>
    requires n <= |steps| < |states|
  {
    if n == 0 then [] else Promoted(states, steps, n - 1) + PromotedBy(states[n - 1], steps[n - 1])
  }

  /** No PENDING row is older than `age`. */
  ghost predicate Precedes(age: int, s: State) {
    forall b :: b in s.db.bundles && s.db.bundles[b].status.Pending? ==> age <= s.db.bundles[b].createdAt
  }

  /** Every PENDING row outside `rows` is at least as young as `r`. */
  ghost predicate OthersYounger(db: Db, rows: seq<Listed>, r: Listed) {
    forall b :: b in db.bundles && db.bundles[b].status.Pending? && !Lists(rows, b) ==>
      r.createdAt <= db.bundles[b].createdAt
  }

  ghost predicate OrderInv(s: State) {
    && (forall b :: b in s.db.bundles ==> s.db.bundles[b].createdAt <= s.now)
    && (s.mem.Sweeping? ==>
          forall i :: 0 <= i < |s.mem.live| ==> OthersYounger(s.db, s.mem.expired + s.mem.live, s.mem.live[i]))
    && (s.mem.Promoting? ==>
          && (forall i, j :: 0 <= i < j < |s.mem.rest| ==> s.mem.rest[i].createdAt <= s.mem.rest[j].createdAt)
          && (forall i :: 0 <= i < |s.mem.rest| ==> OthersYounger(s.db, s.mem.rest, s.mem.rest[i])))
  }

  lemma AllListedAllYounger(db: Db, rows: seq<Listed>)
    requires forall b :: b in InPending(db) ==> Lists(rows, b)
    ensures forall r :: OthersYounger(db, rows, r)
  {
    forall r ensures OthersYounger(db, rows, r) {
      forall b | b in db.bundles && db.bundles[b].status.Pending? ensures Lists(rows, b) { assert b in InPending(db); }
    }
  }

  lemma PartitionListsAll(db: Db, rows: seq<Listed>, at: int)
    requires IsListing(db, Pending, PENDING_LIMIT, rows) && |InPending(db)| <= PENDING_LIMIT
    ensures forall b :: b in InPending(db) ==> Lists(PastTtl(rows, at) + WithinTtl(rows, at), b)
  {
    PartitionSplits(rows, at);
    ListingCompleteIffFits(db, Pending, PENDING_LIMIT, rows, InPending(db));
    forall b | b in InPending(db) ensures Lists(PastTtl(rows, at) + WithinTtl(rows, at), b) {
      PermutationLists(rows, PastTtl(rows, at) + WithinTtl(rows, at), b);
    }
  }

  lemma ListKeepsOrder(capacity: nat, s: State, rows: seq<Listed>)
    requires Inv(s) && OrderInv(s) && Enabled(capacity, s, MListPending(rows))
    requires |InPending(s.db)| <= 256
    ensures OrderInv(Apply(capacity, s, MListPending(rows)))
  {
    PartitionListsAll(s.db, rows, s.mem.at);
    AllListedAllYounger(s.db, PastTtl(rows, s.mem.at) + WithinTtl(rows, s.mem.at));
  }

  lemma OldestAreBeforeAll(db: Db, live: seq<Listed>, taken: seq<Listed>, free: nat, r: Listed)
    requires AllStill(db, live, Pending) && AreOldest(taken, live, free) && r in taken
    requires OthersYounger(db, live, r)
    ensures OthersYounger(db, taken, r)
  {
    forall b | b in InPending(db) && !Lists(taken, b) && Lists(live, b) ensures r.createdAt <= db.bundles[b].createdAt {
      var m :| 0 <= m < |live| && live[m].id == b;
      assert HasStatus(db, live[m], Pending);
      assert live[m] !in taken;
    }
  }

  lemma CountKeepsOrder(capacity: nat, s: State, rows: seq<Listed>)
    requires Inv(s) && OrderInv(s) && Enabled(capacity, s, MCountProcessing(rows))
    ensures OrderInv(Apply(capacity, s, MCountProcessing(rows)))
  {
    var live, taken := s.mem.live, Apply(capacity, s, MCountProcessing(rows)).mem.rest;
    assert s.mem.expired + live == live;
    ToPromoteIsOldest(live, FreeSlots(capacity, |rows|));
    forall i | 0 <= i < |taken| ensures OthersYounger(s.db, taken, taken[i]) {
      assert taken[i] in live;
      var k :| 0 <= k < |live| && live[k] == taken[i];
      OldestAreBeforeAll(s.db, live, taken, FreeSlots(capacity, |rows|), live[k]);
    }
  }

  lemma TailLists(rows: seq<Listed>, b: BundleId)
    requires rows != [] && Lists(rows, b) && rows[0].id != b
    ensures Lists(rows[1..], b)
  {
    var i :| 0 <= i < |rows| && rows[i].id == b;
    assert rows[1..][i - 1].id == b;
  }

  /** Once the oldest of `rest` is promoted, the remaining rows are in the same position. */
  lemma HeadPromoted(db: Db, db': Db, rest: seq<Listed>, r: Listed)
    requires rest != [] && OthersYounger(db, rest, r) && rest[0].id in db.bundles
    requires db' == SetBundleStatus(db, rest[0].id, Processing)
    ensures OthersYounger(db', rest[1..], r)
  {
    forall b | b in InPending(db') && !Lists(rest[1..], b) ensures r.createdAt <= db'.bundles[b].createdAt {
      if Lists(rest, b) { TailLists(rest, b); }
    }
  }

  lemma PromoteKeepsOrder(capacity: nat, s: State)
    requires Inv(s) && OrderInv(s) && Enabled(capacity, s, MPromoteOne)
    ensures OrderInv(Apply(capacity, s, MPromoteOne))
    ensures Precedes(s.mem.rest[0].createdAt, Apply(capacity, s, MPromoteOne))
  {
    var s', rest := Apply(capacity, s, MPromoteOne), s.mem.rest;
    assert HasStatus(s.db, rest[0], Pending);
    forall i | 0 <= i < |rest| ensures OthersYounger(s'.db, rest[1..], rest[i]) {
      HeadPromoted(s.db, s'.db, rest, rest[i]);
    }
    forall b | b in InPending(s'.db) && Lists(rest[1..], b) ensures rest[0].createdAt <= s'.db.bundles[b].createdAt {
      var i :| 0 <= i < |rest[1..]| && rest[1..][i].id == b;
      assert HasStatus(s.db, rest[i + 1], Pending);
    }
    assert forall i :: 0 <= i < |rest[1..]| ==> rest[1..][i] == rest[i + 1];
  }

  /** What a step of no concern to the order may do: rows leave PENDING, or a new one enters it
      with the present time; the mempool's list of live rows stays as it is or is dropped. */
  ghost predicate Unordered(s: State, s': State) {
    && s.now <= s'.now
    && (forall b :: b in s'.db.bundles && b !in s.db.bundles ==> s'.db.bundles[b].createdAt == s.now)
    && (forall b :: b in s.db.bundles && b in s'.db.bundles ==>
          s'.db.bundles[b].createdAt == s.db.bundles[b].createdAt)
    && (forall b :: b in s.db.bundles && b in s'.db.bundles && s'.db.bundles[b].status.Pending? ==>
          s.db.bundles[b].status.Pending?)
    && (s'.mem.Sweeping? ==>
          && s.mem.Sweeping?
          && s'.mem.live == s.mem.live
          && forall b :: b in InPending(s'.db) && Lists(s.mem.expired + s.mem.live, b) ==>
               Lists(s'.mem.expired + s'.mem.live, b))
    && (s'.mem.Promoting? ==> s'.mem == s.mem)
  }

  lemma OthersAreUnordered(capacity: nat, s: State, st: Step)
    requires Inv(s) && Enabled(capacity, s, st)
    requires !st.MListPending? && !st.MCountProcessing? && !st.MPromoteOne?
    ensures Unordered(s, Apply(capacity, s, st))
  {
    if !Writes(st) {
      ReadsLeaveDb(capacity, s, st);
    } else if st.MExpireOne? {
      var all := s.mem.expired + s.mem.live;
      assert s.mem.expired[1..] + s.mem.live == all[1..];
      assert HasStatus(s.db, all[0], Pending);
      forall b | b in InPending(Apply(capacity, s, st).db) && Lists(all, b) ensures Lists(all[1..], b) {
        TailLists(all, b);
      }
    }
    StepIsForward(capacity, s, st);
  }

  lemma UnorderedKeepsOrder(s: State, s': State)
    requires Inv(s) && OrderInv(s) && Unordered(s, s')
    ensures OrderInv(s')
    ensures forall age :: Precedes(age, s) && age <= s.now ==> Precedes(age, s')
  {
    if s'.mem.Sweeping? {
      var all, all' := s.mem.expired + s.mem.live, s'.mem.expired + s'.mem.live;
      forall i | 0 <= i < |s'.mem.live| ensures OthersYounger(s'.db, all', s'.mem.live[i]) {
        assert all[|s.mem.expired| + i] == s.mem.live[i];
        assert HasStatus(s.db, s.mem.live[i], Pending);
        assert OthersYounger(s.db, all, s.mem.live[i]);
      }
    }
    if s'.mem.Promoting? {
      forall i | 0 <= i < |s'.mem.rest| ensures OthersYounger(s'.db, s'.mem.rest, s'.mem.rest[i]) {
        assert HasStatus(s.db, s.mem.rest[i], Pending);
        assert OthersYounger(s.db, s.mem.rest, s.mem.rest[i]);
      }
    }
  }

  /** Whatever preceded all promotable rows still does. */
  ghost predicate CarriesOrder(s: State, s': State) {
    OrderInv(s') && forall age :: Precedes(age, s) && age <= s.now ==> Precedes(age, s')
  }

  lemma StepCarriesOrder(capacity: nat, s: State, st: Step, s': State)
    requires Inv(s) && OrderInv(s) && Enabled(capacity, s, st) && s' == Apply(capacity, s, st)
    requires st.MListPending? ==> |InPending(s.db)| <= PENDING_LIMIT
    requires !st.MPromoteOne?
    ensures CarriesOrder(s, s')
  {
    if st.MListPending? {
      ListKeepsOrder(capacity, s, st.rows);
    } else if st.MCountProcessing? {
      CountKeepsOrder(capacity, s, st.rows);
    } else {
      OthersAreUnordered(capacity, s, st);
      UnorderedKeepsOrder(s, s');
    }
  }

  ghost predicate InOrder(p: seq<int>, s: State) {
    && (forall i, j :: 0 <= i < j < |p| ==> p[i] <= p[j])
    && (forall i :: 0 <= i < |p| ==> p[i] <= s.now)
    && (p != [] ==> Precedes(p[|p| - 1], s))
    && OrderInv(s)
  }

  lemma StepInOrder(capacity: nat, s: State, st: Step, s': State, p: seq<int>)
    requires Inv(s) && Enabled(capacity, s, st) && s' == Apply(capacity, s, st) && InOrder(p, s)
    requires st.MListPending? ==> |InPending(s.db)| <= PENDING_LIMIT
    ensures InOrder(p + PromotedBy(s, st), s')
  {
    StepIsForward(capacity, s, st);
    if st.MPromoteOne? {
      PromoteKeepsOrder(capacity, s);
      assert HasStatus(s.db, s.mem.rest[0], Pending);
      var age := s.mem.rest[0].createdAt;
      assert PromotedBy(s, st) == [age];
    } else {
      StepCarriesOrder(capacity, s, st, s');
      assert p + PromotedBy(s, st) == p;
    }
  }

  /** Whole-run FIFO: whatever the interleaving and the aborts, the rows promoted over all ticks
      come in order of age, as long as PENDING fits the LIMIT whenever it is listed. */
  lemma {:induction false} PromotionsInOrder(capacity: nat, states: seq<State>, steps: seq<Step>, n: nat)
    requires IsRun(capacity, states, steps) && Boot(states[0]) && n < |states|
    requires forall b :: b in states[0].db.bundles ==> states[0].db.bundles[b].createdAt <= states[0].now
    requires forall i :: 0 <= i < n && steps[i].MListPending? ==> |InPending(states[i].db)| <= 256
    ensures forall i, j :: 0 <= i < j < |Promoted(states, steps, n)| ==>
              Promoted(states, steps, n)[i] <= Promoted(states, steps, n)[j]
    ensures InOrder(Promoted(states, steps, n), states[n])
  {
    if n > 0 {
      PromotionsInOrder(capacity, states, steps, n - 1);
      InvThroughout(capacity, states, steps, n - 1);
      StepInOrder(capacity, states[n - 1], steps[n - 1], states[n], Promoted(states, steps, n - 1));
    }
  }

  lemma {:induction false} NonePast(rows: seq<Listed>, now: int)
    requires forall r :: r in rows ==> now <= r.ttl
    ensures PastTtl(rows, now) == [] && WithinTtl(rows, now) == rows
  {
    if rows != [] {
      NonePast(rows[1..], now);
      assert rows[0] in rows;
    }
  }

  /** Past the LIMIT a tick skips an older row: of more than 256 live rows of distinct ages, every listing
      leaves out a live row older than all it returns, so whatever the tick promotes is younger. */
  lemma OverflowBreaksOrder(db: Db, at: int, rows: seq<Listed>, free: nat)
    requires IsListing(db, Pending, PENDING_LIMIT, rows) && 256 < |InPending(db)|
    requires forall b :: b in InPending(db) ==> at <= db.bundles[b].ttl
    requires forall b, c :: b in InPending(db) && c in InPending(db) && b != c ==>
               db.bundles[b].createdAt != db.bundles[c].createdAt
    ensures var taken := ToPromote(WithinTtl(rows, at), free);
      && |taken| == (if free < 256 then free else 256)
      && exists b :: b in InPending(db) && !Lists(rows, b)
           && forall t :: t in taken ==> db.bundles[b].createdAt < t.createdAt
  {
    ListingCompleteIffFits(db, Pending, PENDING_LIMIT, rows, InPending(db));
    var b :| b in InPending(db) && !Lists(rows, b);
    forall r | r in rows ensures r.id in InPending(db) && Matches(db, r) && Lists(rows, r.id) {
      var i :| 0 <= i < |rows| && rows[i] == r;
      assert HasStatus(db, rows[i], Pending);
    }
    NonePast(rows, at);
    ToPromoteIsOldest(rows, free);
    forall t | t in ToPromote(rows, free) ensures db.bundles[b].createdAt < t.createdAt {
      assert t in rows;
    }
  }
}

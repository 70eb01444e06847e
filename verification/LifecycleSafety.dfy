/** What holds over every run: statuses only move forward, terminal statuses stay, at most two
    changes a bundle, the slot capacity is respected, and no bundle is linked past its TTL. */
module LifecycleSafety {
  import opened Tables
  import opened Lifecycle
  import opened LifecycleInvariant

  predicate AllowedMove(a: BundleStatus, b: BundleStatus) {
    || a == b
    || (a.Pending? && (b.Processing? || b.Expired?))
    || (a.Processing? && Terminal(b))
  }

  /** Rows stay, their TTL and age stay, and statuses move only forward. */
  ghost predicate Forward(db: Db, db': Db) {
    && db.links <= db'.links
    && forall b :: b in db.bundles ==>
         && b in db'.bundles
         && AllowedMove(db.bundles[b].status, db'.bundles[b].status)
         && db.bundles[b].ttl == db'.bundles[b].ttl
         && db.bundles[b].createdAt == db'.bundles[b].createdAt
  }

  lemma StepKeepsInv(capacity: nat, s: State, st: Step)
    requires Inv(s) && Enabled(capacity, s, st)
    ensures Inv(Apply(capacity, s, st))
  {
    match TaskOf(st) {
      case World => WorldKeepsInv(capacity, s, st);
      case MempoolTask => MempoolKeepsInv(capacity, s, st);
      case ExecutorTask => ExecutorKeepsInv(capacity, s, st);
      case VerifierTask => VerifierKeepsInv(capacity, s, st);
    }
  }

  lemma SetIsForward(db: Db, b: BundleId, status: BundleStatus)
    requires b in db.bundles && AllowedMove(db.bundles[b].status, status)
    ensures Forward(db, SetBundleStatus(db, b, status))
  {}

  lemma MarkIsForward(db: Db, b: BundleId)
    requires b in db.bundles && !db.bundles[b].status.Pending?
    ensures Forward(db, MarkFailed(db, b))
  {}

  lemma WriteIsForward(capacity: nat, s: State, st: Step)
    requires Inv(s) && Enabled(capacity, s, st) && Writes(st)
    ensures Forward(s.db, Apply(capacity, s, st).db)
  {
    if st.MExpireOne? {
      assert HasStatus(s.db, (s.mem.expired + s.mem.live)[0], Pending);
      SetIsForward(s.db, s.mem.expired[0].id, Expired);
    } else if st.MPromoteOne? {
      assert HasStatus(s.db, s.mem.rest[0], Pending);
      SetIsForward(s.db, s.mem.rest[0].id, Processing);
    } else if st.EExpire? {
      assert Matches(s.db, s.exec.rest[0]);
      SetIsForward(s.db, s.exec.rest[0].id, Expired);
    } else if st.EMarkFailed? {
      assert Matches(s.db, s.exec.rest[0]);
      MarkIsForward(s.db, s.exec.rest[0].id);
    } else if st.VWriteBundle? {
      if s.ver.stage.answer.Success? { SetIsForward(s.db, s.ver.stage.bids[0], Completed); }
      else { MarkIsForward(s.db, s.ver.stage.bids[0]); }
    }
  }

  lemma StepIsForward(capacity: nat, s: State, st: Step)
    requires Inv(s) && Enabled(capacity, s, st)
    ensures Forward(s.db, Apply(capacity, s, st).db)
    ensures s.now <= Apply(capacity, s, st).now
  {
    if Writes(st) { WriteIsForward(capacity, s, st); } else { ReadsLeaveDb(capacity, s, st); }
  }

  /** The invariant holds in every state of every run from a boot. */
  lemma {:induction false} InvThroughout(capacity: nat, states: seq<State>, steps: seq<Step>, i: nat)
    requires IsRun(capacity, states, steps) && Inv(states[0]) && i < |states|
    ensures Inv(states[i])
  {
    if i > 0 {
      InvThroughout(capacity, states, steps, i - 1);
      StepKeepsInv(capacity, states[i - 1], steps[i - 1]);
    }
  }

  ghost predicate Later(a: BundleStatus, b: BundleStatus) {
    a == b || (a.Pending? && !b.Pending?) || (a.Processing? && Terminal(b))
  }

  lemma MoveIsLater(a: BundleStatus, b: BundleStatus, c: BundleStatus)
    requires Later(a, b) && AllowedMove(b, c)
    ensures Later(a, c) && (Terminal(a) ==> c == a)
  {}

  lemma {:induction false} OnlyForward(capacity: nat, states: seq<State>, steps: seq<Step>, i: nat, j: nat, b: BundleId)
    requires IsRun(capacity, states, steps) && Inv(states[0]) && i <= j < |states|
    requires b in states[i].db.bundles
    ensures b in states[j].db.bundles
    ensures Later(states[i].db.bundles[b].status, states[j].db.bundles[b].status)
    decreases j
  {
    if i < j {
      OnlyForward(capacity, states, steps, i, j - 1, b);
      InvThroughout(capacity, states, steps, j - 1);
      StepIsForward(capacity, states[j - 1], steps[j - 1]);
      MoveIsLater(states[i].db.bundles[b].status, states[j - 1].db.bundles[b].status, states[j].db.bundles[b].status);
    }
  }

  /** Over any stretch of a run a bundle only moves forward; COMPLETED, EXPIRED and FAILED are
      absorbing; and `retry_count` is 1 exactly on FAILED rows, 0 on all others. */
  lemma StatusesOnlyMoveForward(capacity: nat, states: seq<State>, steps: seq<Step>, i: nat, j: nat, b: BundleId)
    requires IsRun(capacity, states, steps) && Inv(states[0]) && i <= j < |states|
    requires b in states[i].db.bundles
    ensures b in states[j].db.bundles
    ensures Later(states[i].db.bundles[b].status, states[j].db.bundles[b].status)
    ensures Terminal(states[i].db.bundles[b].status) ==>
              states[j].db.bundles[b].status == states[i].db.bundles[b].status
    ensures states[j].db.bundles[b].retryCount == if states[j].db.bundles[b].status.Failed? then 1 else 0
  {
    OnlyForward(capacity, states, steps, i, j, b);
    InvThroughout(capacity, states, steps, j);
  }

  // ---- at most two status changes a bundle ----

  ghost function Changed(db: Db, db': Db): set<BundleId> {
    set b | b in db.bundles && b in db'.bundles && db.bundles[b].status != db'.bundles[b].status
  }

  ghost function LeftPending(db: Db): set<BundleId> { set b | b in db.bundles && !db.bundles[b].status.Pending? }

  ghost function Ended(db: Db): set<BundleId> { set b | b in db.bundles && Terminal(db.bundles[b].status) }

  /** Status changes written in the first `n` steps, over all bundles. */
  ghost function Changes(states: seq<State>, n: nat): nat
    requires n < |states|
  {
    if n == 0 then 0 else Changes(states, n - 1) + |Changed(states[n - 1].db, states[n].db)|
  }

  lemma SubsetCard<T>(a: set<T>, b: set<T>)
    requires a <= b
    ensures |b - a| == |b| - |a|
  {
    assert b == a + (b - a);
  }

  lemma SmallerCard<T>(a: set<T>, b: set<T>)
    requires a <= b
    ensures |a| <= |b|
  {
    SubsetCard(a, b);
  }

  lemma UnionCard<T>(a: set<T>, b: set<T>)
    ensures |a + b| <= |a| + |b|
  {
    assert a + b == a + (b - a);
    SmallerCard(b - a, b);
  }

  lemma MovesAreRankGains(db: Db, db': Db)
    requires Forward(db, db')
    ensures LeftPending(db) <= LeftPending(db') && Ended(db) <= Ended(db')
    ensures Changed(db, db') <= (LeftPending(db') - LeftPending(db)) + (Ended(db') - Ended(db))
  {}

  lemma ChangesRaiseRank(db: Db, db': Db)
    requires Forward(db, db')
    ensures |Changed(db, db')| + |LeftPending(db)| + |Ended(db)| <= |LeftPending(db')| + |Ended(db')|
  {
    MovesAreRankGains(db, db');
    var p, e := LeftPending(db') - LeftPending(db), Ended(db') - Ended(db);
    SubsetCard(LeftPending(db), LeftPending(db'));
    SubsetCard(Ended(db), Ended(db'));
    SmallerCard(Changed(db, db'), p + e);
    UnionCard(p, e);
  }

  lemma {:induction false} ChangesBounded(capacity: nat, states: seq<State>, steps: seq<Step>, n: nat)
    requires IsRun(capacity, states, steps) && Inv(states[0]) && n < |states|
    ensures Changes(states, n) + |LeftPending(states[0].db)| + |Ended(states[0].db)|
         <= |LeftPending(states[n].db)| + |Ended(states[n].db)|
  {
    if n > 0 {
      ChangesBounded(capacity, states, steps, n - 1);
      InvThroughout(capacity, states, steps, n - 1);
      StepIsForward(capacity, states[n - 1], steps[n - 1]);
      ChangesRaiseRank(states[n - 1].db, states[n].db);
    }
  }

  /** n bundles see at most 2n status changes, however the tasks interleave and abort. */
  lemma AtMostTwoChangesEach(capacity: nat, states: seq<State>, steps: seq<Step>, n: nat)
    requires IsRun(capacity, states, steps) && Inv(states[0]) && n < |states|
    ensures Changes(states, n) <= 2 * |states[n].db.bundles|
  {
    ChangesBounded(capacity, states, steps, n);
    SmallerCard(LeftPending(states[n].db), states[n].db.bundles.Keys);
    SmallerCard(Ended(states[n].db), states[n].db.bundles.Keys);
  }

  // ---- capacity ----

  ghost function InProcessing(db: Db): set<BundleId> { set b | b in db.bundles && db.bundles[b].status.Processing? }

  /** Promotions the mempool is still committed to, from a count that may be stale by now. */
  function Committed(mem: Mempool): nat { if mem.Promoting? then |mem.rest| else 0 }

  lemma {:induction false} CoveredBy(ids: set<BundleId>, rows: seq<Listed>)
    requires forall b :: b in ids ==> Lists(rows, b)
    ensures |ids| <= |rows|
  {
    if rows == [] {
      assert ids == {};
    } else {
      forall b | b in ids - {rows[0].id} ensures Lists(rows[1..], b) {
        var i :| 0 <= i < |rows| && rows[i].id == b;
        assert rows[1..][i - 1].id == b;
      }
      CoveredBy(ids - {rows[0].id}, rows[1..]);
      if rows[0].id in ids { SubsetCard({rows[0].id}, ids); } else { assert ids - {rows[0].id} == ids; }
    }
  }

  lemma CountKeepsCapacity(capacity: nat, s: State, rows: seq<Listed>)
    requires Inv(s) && Enabled(capacity, s, MCountProcessing(rows))
    ensures |InProcessing(s.db)| <= capacity ==>
              |InProcessing(s.db)| + Committed(Apply(capacity, s, MCountProcessing(rows)).mem) <= capacity
    ensures capacity < |InProcessing(s.db)| ==> Committed(Apply(capacity, s, MCountProcessing(rows)).mem) == 0
  {
    if |rows| < capacity { CoveredBy(InProcessing(s.db), rows); }
    assert s.mem.expired + s.mem.live == s.mem.live;
    ToPromoteKeeps(s.db, s.mem.live, FreeSlots(capacity, |rows|));
  }

  lemma OthersAddNone(capacity: nat, s: State, st: Step)
    requires Inv(s) && Enabled(capacity, s, st) && !st.MPromoteOne?
    ensures InProcessing(Apply(capacity, s, st).db) <= InProcessing(s.db)
  {
    StepIsForward(capacity, s, st);
  }

  lemma StepKeepsCapacity(capacity: nat, s: State, st: Step, bound: nat)
    requires Inv(s) && Enabled(capacity, s, st) && capacity <= bound
    requires |InProcessing(s.db)| + Committed(s.mem) <= bound
    ensures |InProcessing(Apply(capacity, s, st).db)| + Committed(Apply(capacity, s, st).mem) <= bound
  {
    var s' := Apply(capacity, s, st);
    if st.MPromoteOne? {
      assert InProcessing(s'.db) <= InProcessing(s.db) + {s.mem.rest[0].id};
      SmallerCard(InProcessing(s'.db), InProcessing(s.db) + {s.mem.rest[0].id});
    } else {
      OthersAddNone(capacity, s, st);
      SmallerCard(InProcessing(s'.db), InProcessing(s.db));
      if st.MCountProcessing? { CountKeepsCapacity(capacity, s, st.rows); }
    }
  }

  /** In every state of every run the PROCESSING bundles number at most the slot capacity, or as
      many as at boot, although the count is stale by the time promotions are written and is
      itself cut by the query's LIMIT. */
  lemma {:induction false} CapacityRespected(capacity: nat, states: seq<State>, steps: seq<Step>, i: nat, bound: nat)
    requires IsRun(capacity, states, steps) && Boot(states[0]) && i < |states|
    requires capacity <= bound && |InProcessing(states[0].db)| <= bound
    ensures |InProcessing(states[i].db)| + Committed(states[i].mem) <= bound
  {
    if i > 0 {
      CapacityRespected(capacity, states, steps, i - 1, bound);
      InvThroughout(capacity, states, steps, i - 1);
      StepKeepsCapacity(capacity, states[i - 1], steps[i - 1], bound);
    }
  }

  // ---- links ----

  /** Links form a one-to-one partial function, and no PENDING or EXPIRED bundle is ever linked. */
  lemma LinksAreOneToOne(capacity: nat, states: seq<State>, steps: seq<Step>, i: nat, l: Link, m: Link)
    requires IsRun(capacity, states, steps) && Inv(states[0]) && i < |states|
    requires l in states[i].db.links && m in states[i].db.links
    ensures l.bundle == m.bundle <==> l.tx == m.tx
    ensures l.bundle in states[i].db.bundles && l.tx in states[i].db.txs
    ensures states[i].db.bundles[l.bundle].status !in {Pending, Expired}
    ensures states[i].db.bundles[l.bundle].status.Completed? ==> states[i].db.txs[l.tx].status.Verified?
    ensures states[i].db.bundles[l.bundle].status.Failed? ==> states[i].db.txs[l.tx].status.Rejected?
  {
    InvThroughout(capacity, states, steps, i);
  }

  /** A COMPLETED bundle has exactly one linked transaction, and it is VERIFIED. */
  lemma CompletedHasOneVerifiedTx(capacity: nat, states: seq<State>, steps: seq<Step>, i: nat, b: BundleId)
    requires IsRun(capacity, states, steps) && Inv(states[0]) && i < |states|
    requires b in states[i].db.bundles && states[i].db.bundles[b].status.Completed?
    ensures exists h ::
              Link(b, h) in states[i].db.links && h in states[i].db.txs && states[i].db.txs[h].status.Verified?
    ensures forall g, h :: Link(b, g) in states[i].db.links && Link(b, h) in states[i].db.links ==> g == h
  {
    InvThroughout(capacity, states, steps, i);
    var l :| l in states[i].db.links && l.bundle == b;
    assert Link(b, l.tx) == l;
  }

  /** Some step before `n` let bundle `b` through the TTL gate with its TTL not yet past. */
  ghost predicate PassedGate(states: seq<State>, steps: seq<Step>, n: nat, b: BundleId)
    requires n <= |steps| && |steps| < |states|
  {
    exists i :: 0 <= i < n && GatePassedAt(states[i], steps[i], b)
  }

  predicate GatePassedAt(s: State, st: Step, b: BundleId) {
    st.EReadClock? && ExecAt(s, Gate) && s.exec.rest[0].id == b && s.now <= s.exec.rest[0].ttl
    && b in s.db.bundles && s.db.bundles[b].ttl == s.exec.rest[0].ttl
  }

  predicate BeingSubmitted(s: State, b: BundleId) {
    s.exec.Executing? && s.exec.rest != [] && s.exec.rest[0].id == b
    && (s.exec.stage.SubmitTx? || s.exec.stage.CreateTx? || s.exec.stage.LinkTx?)
  }

  lemma GateBeforeLink(capacity: nat, s: State, st: Step, b: BundleId)
    requires Inv(s) && Enabled(capacity, s, st)
    requires IsLinked(Apply(capacity, s, st).db, b) || BeingSubmitted(Apply(capacity, s, st), b)
    ensures IsLinked(s.db, b) || BeingSubmitted(s, b) || GatePassedAt(s, st, b)
  {
    var s' := Apply(capacity, s, st);
    if st.ELinkTx? {
      assert s'.db.links == s.db.links + {Link(s.exec.rest[0].id, s.exec.stage.h)};
    } else {
      assert s'.db.links == s.db.links;
      if st.EReadClock? { assert Matches(s.db, s.exec.rest[0]); }
    }
  }

  /** Every bundle linked during a run had, at its execution gate, a TTL not yet past. */
  lemma {:induction false} LinkedWithinTtl(capacity: nat, states: seq<State>, steps: seq<Step>, n: nat, b: BundleId)
    requires IsRun(capacity, states, steps) && Boot(states[0]) && n < |states|
    requires !IsLinked(states[0].db, b)
    requires IsLinked(states[n].db, b) || BeingSubmitted(states[n], b)
    ensures PassedGate(states, steps, n, b)
  {
    if n > 0 {
      InvThroughout(capacity, states, steps, n - 1);
      GateBeforeLink(capacity, states[n - 1], steps[n - 1], b);
      if IsLinked(states[n - 1].db, b) || BeingSubmitted(states[n - 1], b) {
        LinkedWithinTtl(capacity, states, steps, n - 1, b);
        var i :| 0 <= i < n - 1 && GatePassedAt(states[i], steps[i], b);
      }
    }
  }
}

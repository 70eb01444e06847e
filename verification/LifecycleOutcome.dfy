/** Progress of an executor tick, agreement between transactions and bundles, and what becomes
    of a bundle whose transaction was settled while the verifier could not see its link. */
module LifecycleOutcome {
  import opened Tables
  import opened Lifecycle
  import opened LifecycleInvariant
  import opened LifecycleSafety

  // ---- executor progress ----

  ghost predicate Settled(db: Db, b: BundleId) {
    b in db.bundles && (IsLinked(db, b) || Terminal(db.bundles[b].status))
  }

  lemma {:induction false} DistinctCard(db: Db, rows: seq<Listed>, ids: set<BundleId>)
    requires Distinct(rows) && forall i :: 0 <= i < |rows| ==> rows[i].id in ids
    ensures |rows| <= |ids|
  {
    if rows != [] {
      forall i | 0 <= i < |rows[1..]| ensures rows[1..][i].id in ids - {rows[0].id} {
        assert rows[1..][i] == rows[i + 1];
      }
      DistinctCard(db, rows[1..], ids - {rows[0].id});
      SubsetCard({rows[0].id}, ids);
    }
  }

  /** A listing leaves no row of its status out exactly when they number at most the LIMIT. */
  lemma ListingCompleteIffFits(db: Db, status: BundleStatus, limit: nat, rows: seq<Listed>, ids: set<BundleId>)
    requires IsListing(db, status, limit, rows)
    requires ids == set b | b in db.bundles && db.bundles[b].status == status
    ensures (forall b :: b in ids ==> Lists(rows, b)) <==> |ids| <= limit
  {
    if forall b :: b in ids ==> Lists(rows, b) {
      CoveredBy(ids, rows);
    } else {
      var b :| b in ids && !Lists(rows, b);
      forall i | 0 <= i < |rows| ensures rows[i].id in ids - {b} {
        assert HasStatus(db, rows[i], status);
        assert Lists(rows, rows[i].id);
      }
      DistinctCard(db, rows, ids - {b});
      SubsetCard({b}, ids);
    }
  }

  /** The executor lists every PROCESSING bundle: the capacity keeps them within the LIMIT. */
  lemma ExecutorListsAll(capacity: nat, states: seq<State>, steps: seq<Step>, i: nat, b: BundleId)
    requires IsRun(capacity, states, steps) && Boot(states[0]) && i < |steps|
    requires |InProcessing(states[0].db)| <= capacity
    requires steps[i].EListProcessing? && b in InProcessing(states[i].db)
    ensures Lists(states[i + 1].exec.rest, b)
  {
    CapacityRespected(capacity, states, steps, i, capacity);
    ListingCompleteIffFits(states[i].db, Processing, capacity, steps[i].rows, InProcessing(states[i].db));
  }

  lemma StepSettles(capacity: nat, s: State, st: Step, b: BundleId)
    requires Inv(s) && Enabled(capacity, s, st) && !st.EAbort?
    requires s.exec.Executing? && Lists(s.exec.rest, b)
    ensures var s' := Apply(capacity, s, st);
            Settled(s'.db, b) || (s'.exec.Executing? && Lists(s'.exec.rest, b))
  {
    var s' := Apply(capacity, s, st);
    var k :| 0 <= k < |s.exec.rest| && s.exec.rest[k].id == b;
    assert Matches(s.db, s.exec.rest[k]);
    if s'.exec.Executing? && s'.exec.rest == s.exec.rest {
      assert Lists(s'.exec.rest, b);
    } else if k > 0 {
      assert s'.exec.rest[k - 1].id == b;
    } else if st.ELinkTx? {
      assert Link(b, s.exec.stage.h) in s'.db.links;
    }
  }

  lemma SettledStays(capacity: nat, s: State, st: Step, b: BundleId)
    requires Inv(s) && Enabled(capacity, s, st) && Settled(s.db, b)
    ensures Settled(Apply(capacity, s, st).db, b)
  {
    StepIsForward(capacity, s, st);
    if IsLinked(s.db, b) {
      var l :| l in s.db.links && l.bundle == b;
      assert l in Apply(capacity, s, st).db.links;
    }
  }

  /** One executor tick: from its listing at step `i` to idle at `j`, not aborted in between. */
  ghost predicate ExecutorTick(states: seq<State>, steps: seq<Step>, i: nat, j: nat) {
    i < j < |states| == |steps| + 1 && steps[i].EListProcessing? && states[j].exec.EIdle?
    && forall k :: i < k < j ==> !steps[k].EAbort? && !steps[k].EListProcessing?
  }

  lemma {:induction false} TickSettlesUpTo(
      capacity: nat, states: seq<State>, steps: seq<Step>, i: nat, m: nat, b: BundleId)
    requires IsRun(capacity, states, steps) && Boot(states[0])
    requires i < m < |states| && steps[i].EListProcessing? && Lists(steps[i].rows, b)
    requires forall k :: i < k < m ==> !steps[k].EAbort? && !steps[k].EListProcessing?
    ensures Settled(states[m].db, b) || (states[m].exec.Executing? && Lists(states[m].exec.rest, b))
  {
    if m > i + 1 {
      TickSettlesUpTo(capacity, states, steps, i, m - 1, b);
      InvThroughout(capacity, states, steps, m - 1);
      if Settled(states[m - 1].db, b) {
        SettledStays(capacity, states[m - 1], steps[m - 1], b);
      } else {
        StepSettles(capacity, states[m - 1], steps[m - 1], b);
      }
    }
  }

  /** An unlinked PROCESSING bundle that the executor does not have on its list. */
  ghost predicate PassedOver(s: State, b: BundleId) {
    && b in s.db.bundles && s.db.bundles[b].status.Processing? && !IsLinked(s.db, b)
    && (s.exec.Executing? ==> !Lists(s.exec.rest, b))
  }

  lemma PassedOverStays(capacity: nat, s: State, st: Step, b: BundleId)
    requires Inv(s) && Enabled(capacity, s, st) && !st.EListProcessing? && PassedOver(s, b)
    ensures PassedOver(Apply(capacity, s, st), b)
  {
    var s' := Apply(capacity, s, st);
    if s.exec.Executing? {
      assert forall i :: 0 <= i < |s.exec.rest| ==> s.exec.rest[i].id != b;
      var rest := s.exec.rest;
      assert rest != [] ==> forall i :: 0 <= i < |rest[1..]| ==> rest[1..][i] == rest[i + 1];
    }
    if st.MExpireOne? {
      assert (s.mem.expired + s.mem.live)[0] == s.mem.expired[0];
    }
    if st.VWriteBundle? {
      assert Link(s.ver.stage.bids[0], s.ver.rest[0]) in s.db.links;
    }
  }

  lemma {:induction false} UnlistedIsPassedOver(
      capacity: nat, states: seq<State>, steps: seq<Step>, i: nat, m: nat, b: BundleId)
    requires IsRun(capacity, states, steps) && Boot(states[0])
    requires i < m < |states| && steps[i].EListProcessing? && !Lists(steps[i].rows, b)
    requires b in InProcessing(states[i].db) && !IsLinked(states[i].db, b)
    requires forall k :: i < k < m ==> !steps[k].EListProcessing?
    ensures PassedOver(states[m], b)
  {
    if m > i + 1 {
      UnlistedIsPassedOver(capacity, states, steps, i, m - 1, b);
      InvThroughout(capacity, states, steps, m - 1);
      PassedOverStays(capacity, states[m - 1], steps[m - 1], b);
    }
  }

  /** Of the bundles that were unlinked and PROCESSING when it listed, an executor tick that is not
      aborted leaves linked or terminal exactly those it listed, whatever the other tasks do meanwhile. */
  lemma TickSettlesExactlyTheListed(capacity: nat, states: seq<State>, steps: seq<Step>, i: nat, j: nat, b: BundleId)
    requires IsRun(capacity, states, steps) && Boot(states[0]) && ExecutorTick(states, steps, i, j)
    requires b in InProcessing(states[i].db) && !IsLinked(states[i].db, b)
    ensures Settled(states[j].db, b) <==> Lists(steps[i].rows, b)
  {
    if Lists(steps[i].rows, b) {
      TickSettlesUpTo(capacity, states, steps, i, j, b);
    } else {
      UnlistedIsPassedOver(capacity, states, steps, i, j, b);
    }
  }

  /** So it settles all of them whenever they fit the LIMIT, as they do from a boot with no more of
      them than slots. */
  lemma ExecutorTickSettlesAll(capacity: nat, states: seq<State>, steps: seq<Step>, i: nat, j: nat, b: BundleId)
    requires IsRun(capacity, states, steps) && Boot(states[0]) && ExecutorTick(states, steps, i, j)
    requires |InProcessing(states[i].db)| <= capacity || |InProcessing(states[0].db)| <= capacity
    requires b in InProcessing(states[i].db)
    ensures Settled(states[j].db, b)
  {
    if |InProcessing(states[i].db)| <= capacity {
      ListingCompleteIffFits(states[i].db, Processing, capacity, steps[i].rows, InProcessing(states[i].db));
    } else {
      ExecutorListsAll(capacity, states, steps, i, b);
    }
    TickSettlesUpTo(capacity, states, steps, i, j, b);
  }

  /** And past the LIMIT it does not: where none of them was linked it settles all exactly when they fit. */
  lemma TickSettlesAllExactlyWhen(capacity: nat, states: seq<State>, steps: seq<Step>, i: nat, j: nat)
    requires IsRun(capacity, states, steps) && Boot(states[0]) && ExecutorTick(states, steps, i, j)
    requires forall b :: b in InProcessing(states[i].db) ==> !IsLinked(states[i].db, b)
    ensures (forall b :: b in InProcessing(states[i].db) ==> Settled(states[j].db, b))
       <==> |InProcessing(states[i].db)| <= capacity
  {
    ListingCompleteIffFits(states[i].db, Processing, capacity, steps[i].rows, InProcessing(states[i].db));
    forall b | b in InProcessing(states[i].db) ensures Settled(states[j].db, b) <==> Lists(steps[i].rows, b) {
      TickSettlesExactlyTheListed(capacity, states, steps, i, j, b);
    }
  }

  // ---- outcome agreement ----

  /** UNVERIFIED with PROCESSING, VERIFIED with COMPLETED, FAILED with FAILED. */
  predicate SameOutcome(db: Db, l: Link)
    requires l.bundle in db.bundles && l.tx in db.txs
  {
    match db.txs[l.tx].status
    case Unverified => db.bundles[l.bundle].status.Processing?
    case Verified => db.bundles[l.bundle].status.Completed?
    case Rejected => db.bundles[l.bundle].status.Failed?
  }

  predicate TxLinked(db: Db, h: TxHash) { exists l :: l in db.links && l.tx == h }

  /** The verifier has settled the transaction at its head and has still to write bundle `b`. */
  predicate StillToWrite(s: State, l: Link) {
    VerHolds(s) && s.ver.stage.WriteBundles? && l.tx == s.ver.rest[0] && l.bundle in s.ver.stage.bids
  }

  ghost predicate OutcomeInv(s: State) {
    && (forall l :: l in s.db.links && l.bundle in s.db.bundles && l.tx in s.db.txs ==>
          SameOutcome(s.db, l) || StillToWrite(s, l))
    && (s.exec.Executing? && s.exec.stage.LinkTx? && s.exec.stage.h in s.db.txs ==>
          s.db.txs[s.exec.stage.h].status.Unverified?)
    && (VerHolds(s) && s.ver.stage.ListLinked? && Final(s.ver.stage.answer) ==> TxLinked(s.db, s.ver.rest[0]))
    && (VerHolds(s) && s.ver.stage.WriteTx? ==>
          && TxLinked(s.db, s.ver.rest[0])
          && forall l :: l in s.db.links && l.tx == s.ver.rest[0] ==> l.bundle in s.ver.stage.bids)
    && (VerHolds(s) && s.ver.stage.WriteBundles? ==> TxLinked(s.db, s.ver.rest[0]))
  }

  /** No aborted verifier tick, and no final RPC answer for a transaction not linked yet. */
  predicate Orderly(s: State, st: Step) {
    !st.VAbort? && (st.VAnswer? && Final(st.answer) && VerHolds(s) ==> TxLinked(s.db, s.ver.rest[0]))
  }

  lemma VerifierKeepsOutcome(capacity: nat, s: State, st: Step)
    requires Inv(s) && OutcomeInv(s) && Enabled(capacity, s, st) && Orderly(s, st) && TaskOf(st).VerifierTask?
    ensures OutcomeInv(Apply(capacity, s, st))
  {
    var s' := Apply(capacity, s, st);
    assert s'.db.links == s.db.links;
    forall l | l in s'.db.links && l.bundle in s'.db.bundles && l.tx in s'.db.txs
      ensures SameOutcome(s'.db, l) || StillToWrite(s', l) {
      assert l.bundle in s.db.bundles && l.tx in s.db.txs;
      if st.VWriteBundle? && StillToWrite(s, l) {
        assert Link(s.ver.stage.bids[0], l.tx) in s.db.links;
        assert l.bundle == s.ver.stage.bids[0];
      }
    }
  }

  lemma LinkIsFresh(capacity: nat, s: State, l: Link)
    requires Inv(s) && OutcomeInv(s) && Enabled(capacity, s, ELinkTx)
    requires l == Link(s.exec.rest[0].id, s.exec.stage.h)
    ensures SameOutcome(s.db, l) && !TxLinked(s.db, l.tx)
  {
    assert Matches(s.db, s.exec.rest[0]);
  }

  lemma LinkKeepsOutcome(capacity: nat, s: State)
    requires Inv(s) && OutcomeInv(s) && Enabled(capacity, s, ELinkTx)
    ensures OutcomeInv(Apply(capacity, s, ELinkTx))
  {
    var s' := Apply(capacity, s, ELinkTx);
    LinkIsFresh(capacity, s, Link(s.exec.rest[0].id, s.exec.stage.h));
    assert s'.db == InsertLink(s.db, s.exec.rest[0].id, s.exec.stage.h) && s'.ver == s.ver;
  }

  lemma OthersKeepOutcome(capacity: nat, s: State, st: Step)
    requires Inv(s) && OutcomeInv(s) && Enabled(capacity, s, st) && !TaskOf(st).VerifierTask?
    ensures OutcomeInv(Apply(capacity, s, st))
  {
    if st.ELinkTx? {
      LinkKeepsOutcome(capacity, s);
    } else {
      ExecutorOrMempoolLeavesLinkedAlone(capacity, s, st);
      assert Apply(capacity, s, st).db.links == s.db.links && Apply(capacity, s, st).ver == s.ver;
    }
  }

  lemma ExecutorOrMempoolLeavesLinkedAlone(capacity: nat, s: State, st: Step)
    requires Inv(s) && Enabled(capacity, s, st) && !TaskOf(st).VerifierTask?
    ensures var s' := Apply(capacity, s, st);
      && (forall l :: l in s.db.links ==>
            (l.bundle in s'.db.bundles && s'.db.bundles[l.bundle].status == s.db.bundles[l.bundle].status))
      && (forall h :: h in s.db.txs ==> h in s'.db.txs && s'.db.txs[h] == s.db.txs[h])
  {
    if !Writes(st) {
      ReadsLeaveDb(capacity, s, st);
    } else if st.MExpireOne? {
      assert HasStatus(s.db, (s.mem.expired + s.mem.live)[0], Pending);
    } else if st.MPromoteOne? {
      assert HasStatus(s.db, s.mem.rest[0], Pending);
    }
  }

  lemma {:induction false} OutcomeThroughout(capacity: nat, states: seq<State>, steps: seq<Step>, n: nat)
    requires IsRun(capacity, states, steps) && Boot(states[0]) && OutcomeInv(states[0]) && n < |states|
    requires forall i :: 0 <= i < n ==> Orderly(states[i], steps[i])
    ensures OutcomeInv(states[n])
  {
    if n > 0 {
      OutcomeThroughout(capacity, states, steps, n - 1);
      InvThroughout(capacity, states, steps, n - 1);
      var s, st := states[n - 1], steps[n - 1];
      if TaskOf(st).VerifierTask? {
        VerifierKeepsOutcome(capacity, s, st);
      } else {
        OthersKeepOutcome(capacity, s, st);
      }
    }
  }

  /** At every verifier tick boundary of an orderly run, linked bundle and transaction agree both
      ways: PROCESSING with UNVERIFIED, COMPLETED with VERIFIED, FAILED with FAILED. */
  lemma OutcomesAgree(capacity: nat, states: seq<State>, steps: seq<Step>, n: nat, l: Link)
    requires IsRun(capacity, states, steps) && Boot(states[0]) && n < |states|
    requires forall m :: m in states[0].db.links ==> SameOutcome(states[0].db, m)
    requires forall i :: 0 <= i < n ==> Orderly(states[i], steps[i])
    requires states[n].ver.VIdle? && l in states[n].db.links
    ensures l.bundle in states[n].db.bundles && l.tx in states[n].db.txs
    ensures states[n].db.bundles[l.bundle].status.Processing? <==> states[n].db.txs[l.tx].status.Unverified?
    ensures states[n].db.bundles[l.bundle].status.Completed? <==> states[n].db.txs[l.tx].status.Verified?
    ensures states[n].db.bundles[l.bundle].status.Failed? <==> states[n].db.txs[l.tx].status.Rejected?
  {
    InvThroughout(capacity, states, steps, n);
    OutcomeThroughout(capacity, states, steps, n);
    assert SameOutcome(states[n].db, l);
  }

  // ---- stranded bundles: where the orderly assumptions fail ----

  /** Linked and PROCESSING, its transaction settled, and the verifier not about to write it. */
  ghost predicate Stranded(s: State, l: Link) {
    && l in s.db.links && l.bundle in s.db.bundles && l.tx in s.db.txs
    && s.db.bundles[l.bundle].status.Processing?
    && !s.db.txs[l.tx].status.Unverified?
    && !StillToWrite(s, l)
  }

  /** At a verifier tick boundary a linked bundle either has its transaction's outcome or is
      stranded; nothing else can have happened to it. */
  lemma AgreesOrStranded(s: State, l: Link)
    requires Inv(s) && s.ver.VIdle? && l in s.db.links
    ensures l.bundle in s.db.bundles && l.tx in s.db.txs
    ensures SameOutcome(s.db, l) <==> !Stranded(s, l)
  {}

  lemma StrandedStep(capacity: nat, s: State, st: Step, l: Link)
    requires Inv(s) && Enabled(capacity, s, st) && Stranded(s, l)
    ensures Stranded(Apply(capacity, s, st), l)
  {
    if !TaskOf(st).VerifierTask? {
      ExecutorOrMempoolLeavesLinkedAlone(capacity, s, st);
    } else if st.VWriteBundle? {
      assert Link(s.ver.stage.bids[0], s.ver.rest[0]) in s.db.links;
    }
  }

  /** A stranded bundle stays PROCESSING in every later state of every run. */
  lemma {:induction false} StrandedForever(capacity: nat, states: seq<State>, steps: seq<Step>, i: nat, j: nat, l: Link)
    requires IsRun(capacity, states, steps) && Inv(states[0]) && i <= j < |states| && Stranded(states[i], l)
    ensures Stranded(states[j], l)
    decreases j
  {
    if i < j {
      StrandedForever(capacity, states, steps, i, j - 1, l);
      InvThroughout(capacity, states, steps, j - 1);
      StrandedStep(capacity, states[j - 1], steps[j - 1], l);
    }
  }

  lemma {:induction false} LinksToBundles(db: Db, stuck: set<Link>)
    requires LinkInv(db) && stuck <= db.links
    ensures |set l | l in stuck :: l.bundle| == |stuck|
  {
    if stuck != {} {
      var m :| m in stuck;
      var rest := stuck - {m};
      LinksToBundles(db, rest);
      assert (set l | l in stuck :: l.bundle) == (set l | l in rest :: l.bundle) + {m.bundle};
      assert m.bundle !in (set l | l in rest :: l.bundle);
    }
  }

  lemma StrandedFillSlots(capacity: nat, s: State, stuck: set<Link>)
    requires Inv(s) && (forall l :: l in stuck ==> Stranded(s, l)) && capacity <= |stuck|
    ensures capacity <= |InProcessing(s.db)|
  {
    LinksToBundles(s.db, stuck);
    SmallerCard(set l | l in stuck :: l.bundle, InProcessing(s.db));
  }

  lemma FullSlotsCommitNothing(capacity: nat, s: State, st: Step)
    requires Inv(s) && Enabled(capacity, s, st)
    requires capacity <= |InProcessing(s.db)| && Committed(s.mem) == 0
    ensures Committed(Apply(capacity, s, st).mem) == 0
  {
    if st.MCountProcessing? { CountKeepsCapacity(capacity, s, st.rows); }
  }

  /** Once as many bundles are stranded as there are slots, and the mempool has no promotion left
      over from an older count, nothing is ever promoted again. */
  lemma {:induction false} StrandedSlotsStopPromotion(
      capacity: nat, states: seq<State>, steps: seq<Step>, i: nat, j: nat, stuck: set<Link>)
    requires IsRun(capacity, states, steps) && Inv(states[0]) && i <= j < |steps|
    requires forall l :: l in stuck ==> Stranded(states[i], l)
    requires capacity <= |stuck| && Committed(states[i].mem) == 0
    ensures Committed(states[j].mem) == 0 && !steps[j].MPromoteOne?
    decreases j
  {
    if i < j {
      StrandedSlotsStopPromotion(capacity, states, steps, i, j - 1, stuck);
      InvThroughout(capacity, states, steps, j - 1);
      forall l | l in stuck ensures Stranded(states[j - 1], l) {
        StrandedForever(capacity, states, steps, i, j - 1, l);
      }
      StrandedFillSlots(capacity, states[j - 1], stuck);
      FullSlotsCommitNothing(capacity, states[j - 1], steps[j - 1]);
    }
  }

  /** The executor links a transaction already settled. */
  predicate LinksSettled(s: State, st: Step, l: Link) {
    st.ELinkTx? && s.exec.Executing? && s.exec.rest != [] && s.exec.stage.LinkTx?
    && l == Link(s.exec.rest[0].id, s.exec.stage.h) && l.tx in s.db.txs && !s.db.txs[l.tx].status.Unverified?
  }

  /** The verifier aborts between the transaction's status and this bundle's, or settles a
      transaction whose link it did not see. */
  ghost predicate Forgets(s: State, st: Step, l: Link) {
    || (st.VAbort? && l in s.db.links && StillToWrite(s, l))
    || (st.VWriteTx? && VerHolds(s) && s.ver.stage.WriteTx?
        && l in s.db.links && l.tx == s.ver.rest[0] && l.bundle !in s.ver.stage.bids)
  }

  lemma OthersStrand(capacity: nat, s: State, st: Step, l: Link)
    requires Inv(s) && Enabled(capacity, s, st) && !Stranded(s, l) && !TaskOf(st).VerifierTask?
    ensures Stranded(Apply(capacity, s, st), l) <==> LinksSettled(s, st, l)
  {
    ExecutorOrMempoolLeavesLinkedAlone(capacity, s, st);
    if st.ELinkTx? { assert Matches(s.db, s.exec.rest[0]); }
  }

  lemma VerifierStrands(capacity: nat, s: State, st: Step, l: Link)
    requires Inv(s) && Enabled(capacity, s, st) && !Stranded(s, l) && TaskOf(st).VerifierTask?
    ensures Stranded(Apply(capacity, s, st), l) <==> Forgets(s, st, l)
  {
    if st.VWriteBundle? {
      assert Link(s.ver.stage.bids[0], s.ver.rest[0]) in s.db.links;
    } else if !Writes(st) {
      ReadsLeaveDb(capacity, s, st);
    }
  }

  /** A link becomes stranded by exactly three kinds of step. */
  lemma StrandsExactlyWhen(capacity: nat, s: State, st: Step, l: Link)
    requires Inv(s) && Enabled(capacity, s, st) && !Stranded(s, l)
    ensures Stranded(Apply(capacity, s, st), l) <==> LinksSettled(s, st, l) || Forgets(s, st, l)
  {
    if TaskOf(st).VerifierTask? { VerifierStrands(capacity, s, st, l); } else { OthersStrand(capacity, s, st, l); }
  }
}

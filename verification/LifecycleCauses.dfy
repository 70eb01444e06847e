/** What stands behind a status in any run: the clock reading behind EXPIRED and PROCESSING, the RPC's
    answer behind VERIFIED and COMPLETED, and what a submit stores. */
module LifecycleCauses {
  import opened Tables
  import Sorting
  import opened Lifecycle
  import opened LifecycleInvariant
  import opened LifecycleSafety

  /** A submit stores a PENDING row with its TTL, the time and no retries, and leaves all else as it was. */
  lemma SubmitStores(capacity: nat, s: State, id: BundleId, ttl: int)
    requires Enabled(capacity, s, Submit(id, ttl))
    ensures var t := Apply(capacity, s, Submit(id, ttl));
      && id !in s.db.bundles && t == s.(db := t.db) && t.db == s.db.(bundles := t.db.bundles)
      && t.db.bundles == s.db.bundles[id := BundleRow(Pending, ttl, s.now, 0)]
  {}

  // ---- the clock of a mempool tick ----

  /** What the mempool last read from the clock. */
  ghost function LastReading(states: seq<State>, steps: seq<Step>, n: nat): int
    requires n <= |steps| < |states|
  {
    if n == 0 then 0 else if steps[n - 1].MReadClock? then states[n - 1].now else LastReading(states, steps, n - 1)
  }

  /** What the mempool holds is split at this time. */
  ghost predicate SplitAt(mem: Mempool, at: int) {
    match mem
    case MIdle => true
    case Started(t) => t == at
    case Sweeping(expired, live) =>
      (forall r :: r in expired ==> r.ttl < at) && (forall r :: r in live ==> at <= r.ttl)
    case Promoting(rest) => forall r :: r in rest ==> at <= r.ttl
  }

  lemma TakenAreLive(live: seq<Listed>, free: nat)
    ensures forall r :: r in ToPromote(live, free) ==> r in live
  {
    OlderIsAPreorder();
    Sorting.SortSorts(live, Older());
    forall r | r in ToPromote(live, free) ensures r in live {
      assert r in multiset(Sorting.Sort(live, Older()));
    }
  }

  lemma {:induction false} SplitThroughout(capacity: nat, states: seq<State>, steps: seq<Step>, n: nat)
    requires IsRun(capacity, states, steps) && states[0].mem.MIdle? && n < |states|
    ensures SplitAt(states[n].mem, LastReading(states, steps, n))
  {
    if n > 0 {
      SplitThroughout(capacity, states, steps, n - 1);
      var s, st := states[n - 1], steps[n - 1];
      if st.MListPending? {
        PartitionSplits(st.rows, s.mem.at);
      } else if st.MCountProcessing? {
        TakenAreLive(s.mem.live, FreeSlots(capacity, |st.rows|));
      }
    }
  }

  lemma LeavesBySplit(capacity: nat, s: State, st: Step, b: BundleId, at: int)
    requires Inv(s) && Enabled(capacity, s, st) && SplitAt(s.mem, at)
    requires b in s.db.bundles && s.db.bundles[b].status.Pending?
    ensures var t := Apply(capacity, s, st).db;
      && b in t.bundles
      && (t.bundles[b].status.Expired? ==> s.db.bundles[b].ttl < at)
      && (t.bundles[b].status.Processing? ==> at <= s.db.bundles[b].ttl)
  {
    if st.MExpireOne? {
      assert HasStatus(s.db, (s.mem.expired + s.mem.live)[0], Pending);
    } else if st.MPromoteOne? {
      assert HasStatus(s.db, s.mem.rest[0], Pending);
    } else if st.EExpire? {
      assert Matches(s.db, s.exec.rest[0]);
    } else {
      StepIsForward(capacity, s, st);
    }
  }

  /** In every run, a PENDING row becomes EXPIRED only if its TTL was before what its tick read from the
      clock, and PROCESSING only if it was not. */
  lemma LeavesPendingByItsTtl(capacity: nat, states: seq<State>, steps: seq<Step>, n: nat, b: BundleId)
    requires IsRun(capacity, states, steps) && Boot(states[0]) && n < |steps|
    requires b in states[n].db.bundles && states[n].db.bundles[b].status.Pending?
    ensures b in states[n + 1].db.bundles
    ensures states[n + 1].db.bundles[b].status.Expired? ==> states[n].db.bundles[b].ttl < LastReading(states, steps, n)
    ensures states[n + 1].db.bundles[b].status.Processing? ==>
              LastReading(states, steps, n) <= states[n].db.bundles[b].ttl
  {
    InvThroughout(capacity, states, steps, n);
    SplitThroughout(capacity, states, steps, n);
    LeavesBySplit(capacity, states[n], steps[n], b, LastReading(states, steps, n));
  }

  // ---- a sweep misses none ----

  predicate SweptAt(s: State, st: Step, r: Listed) {
    st.MExpireOne? && s.mem.Sweeping? && s.mem.expired != [] && s.mem.expired[0] == r
  }

  ghost predicate SweptBetween(states: seq<State>, steps: seq<Step>, i: nat, j: nat, r: Listed)
    requires j <= |steps| < |states|
  {
    exists k :: i < k < j && SweptAt(states[k], steps[k], r)
  }

  lemma {:induction false} PastIsSweptOrOwed(
      capacity: nat, states: seq<State>, steps: seq<Step>, i: nat, j: nat, r: Listed)
    requires IsRun(capacity, states, steps) && i < j < |states|
    requires steps[i].MListPending? && states[i].mem.Started? && r in steps[i].rows && r.ttl < states[i].mem.at
    requires forall k :: i < k < j ==> !steps[k].MAbort? && !steps[k].MCountProcessing?
    ensures states[j].mem.Sweeping? && (r in states[j].mem.expired || SweptBetween(states, steps, i, j, r))
    decreases j
  {
    if j == i + 1 {
      PartitionSplits(steps[i].rows, states[i].mem.at);
    } else {
      var m: nat := j - 1;
      PastIsSweptOrOwed(capacity, states, steps, i, m, r);
      if SweptBetween(states, steps, i, m, r) {
        var k :| i < k < m && SweptAt(states[k], steps[k], r);
        assert i < k < j;
      } else if steps[m].MExpireOne? && states[m].mem.expired[0] == r {
        assert SweptAt(states[m], steps[m], r);
      }
    }
  }

  /** A tick that comes to count its slots has written EXPIRED to every row it listed past its TTL. */
  lemma TickExpiresAllPast(capacity: nat, states: seq<State>, steps: seq<Step>, i: nat, j: nat, r: Listed)
    requires IsRun(capacity, states, steps) && Boot(states[0]) && i < j < |steps|
    requires steps[i].MListPending? && r in steps[i].rows && r.ttl < LastReading(states, steps, i)
    requires steps[j].MCountProcessing? && forall k :: i < k < j ==> !steps[k].MAbort? && !steps[k].MCountProcessing?
    ensures exists k :: i < k < j && SweptAt(states[k], steps[k], r)
              && r.id in states[k + 1].db.bundles && states[k + 1].db.bundles[r.id].status.Expired?
  {
    SplitThroughout(capacity, states, steps, i);
    PastIsSweptOrOwed(capacity, states, steps, i, j, r);
    var k :| i < k < j && SweptAt(states[k], steps[k], r);
    InvThroughout(capacity, states, steps, k);
    assert HasStatus(states[k].db, (states[k].mem.expired + states[k].mem.live)[0], Pending);
    assert states[k + 1].db.bundles[r.id].status.Expired?;
  }

  // ---- the RPC's answers ----

  predicate AnswersAt(s: State, st: Step, h: TxHash, a: RpcAnswer) {
    st == VAnswer(a) && s.ver.Verifying? && s.ver.rest != [] && s.ver.rest[0] == h
  }

  /** In the first `n` steps the RPC said this of the transaction. */
  ghost predicate Answered(states: seq<State>, steps: seq<Step>, n: nat, h: TxHash, a: RpcAnswer)
    requires n <= |steps| < |states|
  {
    exists i :: 0 <= i < n && AnswersAt(states[i], steps[i], h, a)
  }

  lemma AnsweredStays(states: seq<State>, steps: seq<Step>, n: nat)
    requires n < |steps| < |states|
    ensures forall h, a :: Answered(states, steps, n, h, a) ==> Answered(states, steps, n + 1, h, a)
  {
    forall h, a | Answered(states, steps, n, h, a) ensures Answered(states, steps, n + 1, h, a) {
      var i :| 0 <= i < n && AnswersAt(states[i], steps[i], h, a);
      assert 0 <= i < n + 1;
    }
  }

  predicate HadStatus(db: Db, h: TxHash, status: TxStatus) { h in db.txs && db.txs[h].status == status }

  /** The answer in hand was given for the transaction in hand, and settled transactions have theirs. */
  ghost predicate AnswersStand(states: seq<State>, steps: seq<Step>, n: nat)
    requires n <= |steps| < |states|
  {
    var s := states[n];
    && (s.ver.Verifying? && s.ver.rest != [] && !s.ver.stage.AskRpc? ==>
          Answered(states, steps, n, s.ver.rest[0], s.ver.stage.answer))
    && (forall h :: HadStatus(s.db, h, Verified) ==>
          HadStatus(states[0].db, h, Verified) || Answered(states, steps, n, h, Success))
    && (forall h :: HadStatus(s.db, h, Rejected) ==>
          HadStatus(states[0].db, h, Rejected) || Answered(states, steps, n, h, OnChainFailure))
  }

  /** Statuses of transactions change only by a verifier's write, to what its answer says. */
  lemma OnlyAnswersSettle(capacity: nat, s: State, st: Step, h: TxHash, status: TxStatus)
    requires Inv(s) && Enabled(capacity, s, st) && !status.Unverified?
    requires HadStatus(Apply(capacity, s, st).db, h, status) && !HadStatus(s.db, h, status)
    ensures st.VWriteTx? && VerHolds(s) && s.ver.stage.WriteTx? && s.ver.rest[0] == h
    ensures s.ver.stage.answer == if status.Verified? then Success else OnChainFailure
  {
    if !Writes(st) { ReadsLeaveDb(capacity, s, st); }
  }

  lemma {:induction false} AnswersThroughout(capacity: nat, states: seq<State>, steps: seq<Step>, n: nat)
    requires IsRun(capacity, states, steps) && Boot(states[0]) && n < |states|
    ensures AnswersStand(states, steps, n)
  {
    if n > 0 {
      var m: nat := n - 1;
      var s, st := states[m], steps[m];
      AnswersThroughout(capacity, states, steps, m);
      InvThroughout(capacity, states, steps, m);
      AnsweredStays(states, steps, m);
      if st.VAnswer? { assert AnswersAt(s, st, s.ver.rest[0], st.answer); }
      forall h, status: TxStatus
        | !status.Unverified? && HadStatus(states[n].db, h, status) && !HadStatus(s.db, h, status)
        ensures Answered(states, steps, n, h, if status.Verified? then Success else OnChainFailure) {
        OnlyAnswersSettle(capacity, s, st, h, status);
      }
    }
  }

  /** In every run, a transaction is VERIFIED only if the RPC reported it a success and FAILED only if it
      reported a failure on chain, unless it was so at boot. */
  lemma SettledByItsAnswer(capacity: nat, states: seq<State>, steps: seq<Step>, n: nat, h: TxHash)
    requires IsRun(capacity, states, steps) && Boot(states[0]) && n < |states| && h in states[n].db.txs
    ensures states[n].db.txs[h].status.Verified? ==>
              HadStatus(states[0].db, h, Verified) || Answered(states, steps, n, h, Success)
    ensures states[n].db.txs[h].status.Rejected? ==>
              HadStatus(states[0].db, h, Rejected) || Answered(states, steps, n, h, OnChainFailure)
  {
    AnswersThroughout(capacity, states, steps, n);
  }

  /** So a bundle is COMPLETED only for a transaction of its own that the RPC reported a success. */
  lemma CompletedByItsAnswer(capacity: nat, states: seq<State>, steps: seq<Step>, n: nat, b: BundleId)
    requires IsRun(capacity, states, steps) && Boot(states[0]) && n < |states|
    requires b in states[n].db.bundles && states[n].db.bundles[b].status.Completed?
    ensures exists h :: Link(b, h) in states[n].db.links
              && (HadStatus(states[0].db, h, Verified) || Answered(states, steps, n, h, Success))
  {
    CompletedHasOneVerifiedTx(capacity, states, steps, n, b);
    var h :| Link(b, h) in states[n].db.links && h in states[n].db.txs && states[n].db.txs[h].status.Verified?;
    SettledByItsAnswer(capacity, states, steps, n, h);
  }
}

/** The ownership invariant: although three of the four status writers are ungated, a PENDING
    row is written only by the mempool, an unlinked PROCESSING row only by the executor, and a
    linked row only by the verifier. Every step of every task keeps it. */
module LifecycleInvariant {
  import opened Tables
  import opened Sorting
  import opened Lifecycle

  /** Status of a linked bundle against the status of its transaction. */
  predicate Agrees(b: BundleStatus, t: TxStatus) {
    match t
    case Unverified => b.Processing?
    case Verified => b.Processing? || b.Completed?
    case Rejected => b.Processing? || b.Failed?
  }

  ghost predicate LinkInv(db: Db) {
    && (forall l :: l in db.links ==> l.bundle in db.bundles && l.tx in db.txs)
    && (forall l, m :: l in db.links && m in db.links && (l.bundle == m.bundle || l.tx == m.tx) ==> l == m)
    && (forall l :: l in db.links ==> Agrees(db.bundles[l.bundle].status, db.txs[l.tx].status))
  }

  ghost predicate RowInv(db: Db) {
    forall b :: b in db.bundles ==>
      && (db.bundles[b].status.Completed? ==> IsLinked(db, b))
      && db.bundles[b].retryCount == if db.bundles[b].status.Failed? then 1 else 0
  }

  ghost predicate DbInv(db: Db) { LinkInv(db) && RowInv(db) }

  /** Every listed row is still there, still with this status, and listed once. */
  ghost predicate AllStill(db: Db, rows: seq<Listed>, status: BundleStatus) {
    Distinct(rows) && forall i :: 0 <= i < |rows| ==> HasStatus(db, rows[i], status)
  }

  ghost predicate MemInv(db: Db, mem: Mempool) {
    match mem
    case MIdle => true
    case Started(_) => true
    case Sweeping(expired, live) => AllStill(db, expired + live, Pending)
    case Promoting(rest) => AllStill(db, rest, Pending)
  }

  /** A row on the executor's list may have been linked in an earlier tick and finished since;
      an unlinked one is still PROCESSING. The bundle in hand is unlinked, its hash unused. */
  ghost predicate ExecInv(db: Db, exec: Executor) {
    exec.Executing? ==>
      && Distinct(exec.rest)
      && (forall i :: 0 <= i < |exec.rest| ==>
            && Matches(db, exec.rest[i])
            && !db.bundles[exec.rest[i].id].status.Pending?
            && (IsLinked(db, exec.rest[i].id) || db.bundles[exec.rest[i].id].status.Processing?))
      && (!exec.stage.CheckLinks? ==> exec.rest != [] && !IsLinked(db, exec.rest[0].id))
      && (exec.stage.LinkTx? ==> exec.stage.h in db.txs && forall l :: l in db.links ==> l.tx != exec.stage.h)
  }

  ghost predicate LinkedList(db: Db, bids: seq<BundleId>, h: TxHash) {
    && (forall i, j :: 0 <= i < j < |bids| ==> bids[i] != bids[j])
    && (forall i :: 0 <= i < |bids| ==> Link(bids[i], h) in db.links)
  }

  ghost predicate VerInv(db: Db, ver: Verifier) {
    ver.Verifying? ==>
      && DistinctHashes(ver.rest)
      && (forall i :: 0 <= i < |ver.rest| ==> ver.rest[i] in db.txs)
      && (forall i :: 0 <= i < |ver.rest| && !(i == 0 && ver.stage.WriteBundles?) ==>
            db.txs[ver.rest[i]].status.Unverified?)
      && (!ver.stage.AskRpc? ==> ver.rest != [])
      && (ver.stage.ListLinked? ==> !ver.stage.answer.RpcError?)
      && (ver.stage.WriteTx? ==> Final(ver.stage.answer) && LinkedList(db, ver.stage.bids, ver.rest[0]))
      && (ver.stage.WriteBundles? ==>
            && Final(ver.stage.answer)
            && LinkedList(db, ver.stage.bids, ver.rest[0])
            && db.txs[ver.rest[0]].status == TxOutcome(ver.stage.answer)
            && (forall i :: 0 <= i < |ver.stage.bids| ==>
                  ver.stage.bids[i] in db.bundles && db.bundles[ver.stage.bids[i]].status.Processing?))
  }

  ghost predicate Inv(s: State) {
    DbInv(s.db) && MemInv(s.db, s.mem) && ExecInv(s.db, s.exec) && VerInv(s.db, s.ver)
  }

  /** A boot: any database the system can have left behind, no task started. */
  ghost predicate Boot(s: State) { DbInv(s.db) && s.mem.MIdle? && s.exec.EIdle? && s.ver.VIdle? }

  // ---- what a partition or a sort does to a listing ----

  lemma OlderIsAPreorder() ensures TotalPreorder(Older()) {}

  lemma {:induction false} DistinctIsMultiset(rows: seq<Listed>)
    ensures Distinct(rows) ==> forall r :: multiset(rows)[r] <= 1
  {
    if rows != [] && Distinct(rows) {
      DistinctIsMultiset(rows[1..]);
      assert rows == [rows[0]] + rows[1..];
      forall r ensures multiset(rows)[r] <= 1 {
        if multiset(rows[1..])[r] > 0 { assert r in rows[1..]; }
      }
    }
  }

  lemma TwoOccurrences(rows: seq<Listed>, i: nat, j: nat)
    requires i < j < |rows| && rows[i] == rows[j]
    ensures multiset(rows)[rows[i]] >= 2
  {
    assert rows == rows[..i] + [rows[i]] + rows[i + 1..j] + [rows[j]] + rows[j + 1..];
  }

  /** A permutation of rows with distinct ids has distinct ids. */
  lemma PermutationKeeps(db: Db, rows: seq<Listed>, perm: seq<Listed>, status: BundleStatus)
    requires AllStill(db, rows, status) && multiset(perm) == multiset(rows)
    ensures AllStill(db, perm, status)
  {
    DistinctIsMultiset(rows);
    forall i | 0 <= i < |perm| ensures HasStatus(db, perm[i], status) {
      assert perm[i] in multiset(perm);
      assert perm[i] in rows;
    }
    forall i, j | 0 <= i < j < |perm| ensures perm[i].id != perm[j].id {
      if perm[i] == perm[j] {
        TwoOccurrences(perm, i, j);
      } else {
        assert perm[i] in multiset(perm) && perm[j] in multiset(perm);
        assert perm[i] in rows && perm[j] in rows;
      }
    }
  }

  lemma PermutationLists(found: seq<Listed>, sorted: seq<Listed>, b: BundleId)
    requires multiset(sorted) == multiset(found) && Lists(found, b)
    ensures Lists(sorted, b)
  {
    var k :| 0 <= k < |found| && found[k].id == b;
    assert found[k] in multiset(sorted);
    var m :| 0 <= m < |sorted| && sorted[m] == found[k];
  }

  lemma {:induction false} PartitionSplits(rows: seq<Listed>, now: int)
    ensures multiset(PastTtl(rows, now) + WithinTtl(rows, now)) == multiset(rows)
    ensures forall r :: r in PastTtl(rows, now) <==> r in rows && r.ttl < now
    ensures forall r :: r in WithinTtl(rows, now) <==> r in rows && now <= r.ttl
  {
    if rows != [] {
      PartitionSplits(rows[1..], now);
      assert rows == [rows[0]] + rows[1..];
    }
  }

  lemma ToPromoteKeeps(db: Db, live: seq<Listed>, free: nat)
    requires AllStill(db, live, Pending)
    ensures AllStill(db, ToPromote(live, free), Pending)
    ensures |ToPromote(live, free)| == if free < |live| then free else |live|
  {
    OlderIsAPreorder();
    SortSorts(live, Older());
    PermutationKeeps(db, live, Sort(live, Older()), Pending);
  }

  // ---- every step keeps the invariant ----

  lemma WorldKeepsInv(capacity: nat, s: State, st: Step)
    requires Inv(s) && Enabled(capacity, s, st) && TaskOf(st).World?
    ensures Inv(Apply(capacity, s, st))
  {}

  lemma MempoolWritesKeepInv(capacity: nat, s: State, st: Step)
    requires Inv(s) && Enabled(capacity, s, st) && (st.MExpireOne? || st.MPromoteOne?)
    ensures Inv(Apply(capacity, s, st))
  {
    if st.MExpireOne? {
      var all := s.mem.expired + s.mem.live;
      assert s.mem.expired[1..] + s.mem.live == all[1..];
      assert HasStatus(s.db, all[0], Pending);
    } else {
      assert HasStatus(s.db, s.mem.rest[0], Pending);
    }
  }

  lemma MempoolKeepsInv(capacity: nat, s: State, st: Step)
    requires Inv(s) && Enabled(capacity, s, st) && TaskOf(st).MempoolTask?
    ensures Inv(Apply(capacity, s, st))
  {
    if Writes(st) {
      MempoolWritesKeepInv(capacity, s, st);
    } else {
      ReadsLeaveDb(capacity, s, st);
      if st.MListPending? {
        PartitionSplits(st.rows, s.mem.at);
        PermutationKeeps(s.db, st.rows, PastTtl(st.rows, s.mem.at) + WithinTtl(st.rows, s.mem.at), Pending);
      } else if st.MCountProcessing? {
        assert s.mem.expired + s.mem.live == s.mem.live;
        ToPromoteKeeps(s.db, s.mem.live, FreeSlots(capacity, |st.rows|));
      }
    }
  }

  /** The executor's reads and position changes write nothing. */
  lemma ExecutorReadsKeepInv(capacity: nat, s: State, st: Step)
    requires Inv(s) && Enabled(capacity, s, st) && TaskOf(st).ExecutorTask? && !Writes(st)
    ensures Inv(Apply(capacity, s, st))
  {
    ReadsLeaveDb(capacity, s, st);
  }

  lemma ExpireKeepsInv(capacity: nat, s: State)
    requires Inv(s) && Enabled(capacity, s, EExpire)
    ensures Inv(Apply(capacity, s, EExpire))
  {
    assert Matches(s.db, s.exec.rest[0]);
  }

  lemma MarkFailedKeepsInv(capacity: nat, s: State)
    requires Inv(s) && Enabled(capacity, s, EMarkFailed)
    ensures Inv(Apply(capacity, s, EMarkFailed))
  {
    assert Matches(s.db, s.exec.rest[0]);
  }

  lemma CreateTxKeepsInv(capacity: nat, s: State)
    requires Inv(s) && Enabled(capacity, s, ECreateTx)
    ensures Inv(Apply(capacity, s, ECreateTx))
  {}

  lemma LinkKeepsInv(capacity: nat, s: State)
    requires Inv(s) && Enabled(capacity, s, ELinkTx)
    ensures Inv(Apply(capacity, s, ELinkTx))
  {
    assert Matches(s.db, s.exec.rest[0]);
    assert LinkInv(Apply(capacity, s, ELinkTx).db);
  }

  lemma ExecutorKeepsInv(capacity: nat, s: State, st: Step)
    requires Inv(s) && Enabled(capacity, s, st) && TaskOf(st).ExecutorTask?
    ensures Inv(Apply(capacity, s, st))
  {
    if st.EExpire? { ExpireKeepsInv(capacity, s); }
    else if st.ECreateTx? { CreateTxKeepsInv(capacity, s); }
    else if st.ELinkTx? { LinkKeepsInv(capacity, s); }
    else if st.EMarkFailed? { MarkFailedKeepsInv(capacity, s); }
    else { ExecutorReadsKeepInv(capacity, s, st); }
  }

  lemma WriteTxKeepsInv(capacity: nat, s: State)
    requires Inv(s) && Enabled(capacity, s, VWriteTx)
    ensures Inv(Apply(capacity, s, VWriteTx))
  {
    var s' := Apply(capacity, s, VWriteTx);
    var h, bids := s.ver.rest[0], s.ver.stage.bids;
    assert LinkInv(s'.db);
    forall i | 0 <= i < |bids|
      ensures bids[i] in s'.db.bundles && s'.db.bundles[bids[i]].status.Processing? {
      assert Link(bids[i], h) in s.db.links;
    }
  }

  /** Writing the outcome of a settled transaction to its one bundle. */
  lemma OutcomeKeepsDbInv(db: Db, l: Link, a: RpcAnswer)
    requires DbInv(db) && l in db.links && Final(a)
    requires db.txs[l.tx].status == TxOutcome(a) && db.bundles[l.bundle].status.Processing?
    ensures DbInv(WriteOutcome(db, l.bundle, a))
  {
    var db' := WriteOutcome(db, l.bundle, a);
    assert db'.bundles.Keys == db.bundles.Keys && db'.links == db.links && db'.txs == db.txs;
    assert forall b :: b in db.bundles && b != l.bundle ==> db'.bundles[b] == db.bundles[b];
    assert IsLinked(db, l.bundle);
  }

  lemma WriteBundleKeepsInv(capacity: nat, s: State)
    requires Inv(s) && Enabled(capacity, s, VWriteBundle)
    ensures Inv(Apply(capacity, s, VWriteBundle))
  {
    var s' := Apply(capacity, s, VWriteBundle);
    var b := s.ver.stage.bids[0];
    OutcomeKeepsDbInv(s.db, Link(b, s.ver.rest[0]), s.ver.stage.answer);
    assert forall c :: c in s.db.bundles && c != b ==> s'.db.bundles[c] == s.db.bundles[c];
  }

  lemma VerifierKeepsInv(capacity: nat, s: State, st: Step)
    requires Inv(s) && Enabled(capacity, s, st) && TaskOf(st).VerifierTask?
    ensures Inv(Apply(capacity, s, st))
  {
    if st.VWriteTx? { WriteTxKeepsInv(capacity, s); }
    else if st.VWriteBundle? { WriteBundleKeepsInv(capacity, s); }
    else { ReadsLeaveDb(capacity, s, st); }
  }
}

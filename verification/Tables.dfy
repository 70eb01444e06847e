/** The three tables the pipelines share, one function per SQL statement.
    Rows are never deleted, and no statement writes `ttl` or `created_at` again. */
module Tables {
  /** UUIDs and transaction hashes are only ever compared for equality. */
  type BundleId = nat
  type TxHash = nat

  datatype BundleStatus = Pending | Processing | Completed | Expired | Failed
  datatype BundleRow = BundleRow(status: BundleStatus, ttl: int, createdAt: int, retryCount: nat)

  datatype TxStatus = Unverified | Verified | Rejected
  datatype TxRow = TxRow(status: TxStatus, createdAt: int)

  datatype Link = Link(bundle: BundleId, tx: TxHash)

  datatype Db = Db(bundles: map<BundleId, BundleRow>, txs: map<TxHash, TxRow>, links: set<Link>)

  /** The columns a listing hands to a pipeline, as read at the time of the SELECT. */
  datatype Listed = Listed(id: BundleId, ttl: int, createdAt: int)

  predicate Terminal(s: BundleStatus) { s.Completed? || s.Expired? || s.Failed? }

  predicate IsLinked(db: Db, b: BundleId) { exists l :: l in db.links && l.bundle == b }

  // ---- INSERT and UPDATE statements ----

  function InsertBundle(db: Db, id: BundleId, ttl: int, createdAt: int): Db {
    db.(bundles := db.bundles[id := BundleRow(Pending, ttl, createdAt, 0)])
  }

  /** Not gated: whatever the row's status is, it is overwritten. */
  function SetBundleStatus(db: Db, id: BundleId, status: BundleStatus): Db {
    if id in db.bundles then db.(bundles := db.bundles[id := db.bundles[id].(status := status)]) else db
  }

  /** Gated on PENDING or PROCESSING. */
  function MarkFailed(db: Db, id: BundleId): Db {
    if id in db.bundles && !Terminal(db.bundles[id].status) then
      var row := db.bundles[id];
      db.(bundles := db.bundles[id := row.(status := Failed, retryCount := row.retryCount + 1)])
    else db
  }

  function InsertTx(db: Db, h: TxHash, createdAt: int): Db {
    db.(txs := db.txs[h := TxRow(Unverified, createdAt)])
  }

  function SetTxStatus(db: Db, h: TxHash, status: TxStatus): Db {
    if h in db.txs then db.(txs := db.txs[h := db.txs[h].(status := status)]) else db
  }

  function InsertLink(db: Db, b: BundleId, h: TxHash): Db {
    db.(links := db.links + {Link(b, h)})
  }

  // ---- SELECT statements: which answers PostgreSQL may give ----

  predicate Matches(db: Db, r: Listed) {
    r.id in db.bundles && db.bundles[r.id].ttl == r.ttl && db.bundles[r.id].createdAt == r.createdAt
  }

  predicate HasStatus(db: Db, r: Listed, status: BundleStatus) {
    Matches(db, r) && db.bundles[r.id].status == status
  }

  predicate Distinct(rows: seq<Listed>) {
    forall i, j :: 0 <= i < j < |rows| ==> rows[i].id != rows[j].id
  }

  predicate Lists(rows: seq<Listed>, id: BundleId) {
    exists i :: 0 <= i < |rows| && rows[i].id == id
  }

  /** `WHERE status = .. ORDER BY created_at DESC LIMIT ..`: newest first, ties in any order. */
  predicate IsListing(db: Db, status: BundleStatus, limit: nat, rows: seq<Listed>) {
    && |rows| <= limit
    && Distinct(rows)
    && (forall i :: 0 <= i < |rows| ==> HasStatus(db, rows[i], status))
    && (forall i, j :: 0 <= i < j < |rows| ==> rows[j].createdAt <= rows[i].createdAt)
    && (forall id :: id in db.bundles && db.bundles[id].status == status && !Lists(rows, id) ==>
          |rows| == limit && forall i :: 0 <= i < |rows| ==> db.bundles[id].createdAt <= rows[i].createdAt)
  }

  predicate DistinctHashes(hs: seq<TxHash>) { forall i, j :: 0 <= i < j < |hs| ==> hs[i] != hs[j] }

  /** `WHERE status = 'UNVERIFIED' ORDER BY created_at LIMIT ..`: oldest first. */
  predicate IsTxListing(db: Db, limit: nat, hs: seq<TxHash>) {
    && |hs| <= limit
    && DistinctHashes(hs)
    && (forall i :: 0 <= i < |hs| ==> hs[i] in db.txs && db.txs[hs[i]].status == Unverified)
    && (forall i, j :: 0 <= i < j < |hs| ==> db.txs[hs[i]].createdAt <= db.txs[hs[j]].createdAt)
    && (forall h :: h in db.txs && db.txs[h].status == Unverified && h !in hs ==>
          |hs| == limit && forall i :: 0 <= i < |hs| ==> db.txs[hs[i]].createdAt <= db.txs[h].createdAt)
  }

  /** `WHERE transaction_id = ..`: every linked bundle once, in any order. */
  predicate IsBundlesOf(db: Db, h: TxHash, bids: seq<BundleId>) {
    && (forall i, j :: 0 <= i < j < |bids| ==> bids[i] != bids[j])
    && (forall i :: 0 <= i < |bids| ==> Link(bids[i], h) in db.links)
    && (forall l :: l in db.links && l.tx == h ==> l.bundle in bids)
  }
}

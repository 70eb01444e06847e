/** The bundle lifecycle as a state machine. One step is one SQL statement, one clock
    reading or one RPC answer; the mempool, executor and verifier keep their position and
    their snapshot between steps, and HTTP submits and the clock interleave freely.
    A tick may stop after any step: `?` on an error, or the process going down. */
module Lifecycle {
  import opened Wrappers
  import opened Tables
  import opened Sorting

  /** LIMITs of mempool.rs:63 and verifier.rs:83. */
  const PENDING_LIMIT: nat := 256
  const UNVERIFIED_LIMIT: nat := 64

  datatype RpcAnswer = RpcError | Success | OnChainFailure | NotFound

  datatype Mempool =
    | MIdle
    | Started(at: int)
    | Sweeping(expired: seq<Listed>, live: seq<Listed>)
    | Promoting(rest: seq<Listed>)

  /** What the executor does next with the bundle at the head of its list. */
  datatype ExecStage =
    | CheckLinks | Gate | MarkExpired | SubmitTx | CreateTx(h: TxHash) | LinkTx(h: TxHash) | MarkFailedStage
  datatype Executor = EIdle | Executing(stage: ExecStage, rest: seq<Listed>)

  /** What the verifier does next with the transaction at the head of its list. */
  datatype VerStage =
    | AskRpc
    | ListLinked(answer: RpcAnswer)
    | WriteTx(answer: RpcAnswer, bids: seq<BundleId>)
    | WriteBundles(answer: RpcAnswer, bids: seq<BundleId>)
  datatype Verifier = VIdle | Verifying(stage: VerStage, rest: seq<TxHash>)

  datatype State = State(db: Db, now: int, mem: Mempool, exec: Executor, ver: Verifier)

  datatype Step =
    // HTTP submits and the passing of time
    | Submit(id: BundleId, ttl: int)
    | ClockTo(t: int)
    // mempool
    | MReadClock
    | MListPending(rows: seq<Listed>)
    | MExpireOne
    | MCountProcessing(rows: seq<Listed>)
    | MPromoteOne
    | MEnd
    | MAbort
    // executor
    | EListProcessing(rows: seq<Listed>)
    | ECheckLinks
    | EReadClock
    | EExpire
    | ESubmitFails
    | ESubmitSends(sent: TxHash)
    | ECreateTx
    | ECreateFails
    | ELinkTx
    | ELinkFails
    | EMarkFailed
    | EEnd
    | EAbort
    // verifier
    | VListUnverified(hashes: seq<TxHash>)
    | VAnswer(answer: RpcAnswer)
    | VListLinked(bids: seq<BundleId>)
    | VWriteTx
    | VWriteBundle
    | VNextTx
    | VEnd
    | VAbort

  datatype Task = World | MempoolTask | ExecutorTask | VerifierTask

  function TaskOf(st: Step): Task {
    match st
    case Submit(_, _) => World
    case ClockTo(_) => World
    case MReadClock => MempoolTask
    case MListPending(_) => MempoolTask
    case MExpireOne => MempoolTask
    case MCountProcessing(_) => MempoolTask
    case MPromoteOne => MempoolTask
    case MEnd => MempoolTask
    case MAbort => MempoolTask
    case VListUnverified(_) => VerifierTask
    case VAnswer(_) => VerifierTask
    case VListLinked(_) => VerifierTask
    case VWriteTx => VerifierTask
    case VWriteBundle => VerifierTask
    case VNextTx => VerifierTask
    case VEnd => VerifierTask
    case VAbort => VerifierTask
    case _ => ExecutorTask
  }

  function Older(): (Listed, Listed) -> bool { (a: Listed, b: Listed) => a.createdAt <= b.createdAt }

  /** `pending.into_iter().partition(|b| b.ttl < now)`, both halves in listing order. */
  function PastTtl(rows: seq<Listed>, now: int): seq<Listed> {
    if rows == [] then []
    else (if rows[0].ttl < now then [rows[0]] else []) + PastTtl(rows[1..], now)
  }

  function WithinTtl(rows: seq<Listed>, now: int): seq<Listed> {
    if rows == [] then []
    else (if rows[0].ttl < now then [] else [rows[0]]) + WithinTtl(rows[1..], now)
  }

  /** `slot_capacity.saturating_sub(processing_now.len())` */
  function FreeSlots(capacity: nat, processing: nat): nat {
    if processing <= capacity then capacity - processing else 0
  }

  /** The fresh rows oldest first, cut to the free slots. */
  function ToPromote(live: seq<Listed>, free: nat): seq<Listed> {
    var sorted := Sort(live, Older());
    if free < |sorted| then sorted[..free] else sorted
  }

  /** The RPC's answer as the transaction status the verifier writes. */
  function TxOutcome(a: RpcAnswer): TxStatus {
    if a.Success? then Verified else Rejected
  }

  function WriteOutcome(db: Db, b: BundleId, a: RpcAnswer): Db {
    if a.Success? then SetBundleStatus(db, b, Completed) else MarkFailed(db, b)
  }

  predicate Final(a: RpcAnswer) { a.Success? || a.OnChainFailure? }

  predicate ExecAt(s: State, stage: ExecStage) { s.exec.Executing? && s.exec.rest != [] && s.exec.stage == stage }

  predicate VerHolds(s: State) { s.ver.Verifying? && s.ver.rest != [] }

  /** Whether step `st` is one the system can take in state `s`. */
  predicate Enabled(capacity: nat, s: State, st: Step) {
    match st
    case Submit(id, ttl) => id !in s.db.bundles
    case ClockTo(t) => s.now <= t
    case MReadClock => s.mem.MIdle?
    case MListPending(rows) => s.mem.Started? && IsListing(s.db, Pending, PENDING_LIMIT, rows)
    case MExpireOne => s.mem.Sweeping? && s.mem.expired != []
    case MCountProcessing(rows) =>
      s.mem.Sweeping? && s.mem.expired == [] && IsListing(s.db, Processing, capacity, rows)
    case MPromoteOne => s.mem.Promoting? && s.mem.rest != []
    case MEnd => s.mem.Promoting? && s.mem.rest == []
    case MAbort => !s.mem.MIdle?
    case EListProcessing(rows) => s.exec.EIdle? && IsListing(s.db, Processing, capacity, rows)
    case ECheckLinks => ExecAt(s, CheckLinks)
    case EReadClock => ExecAt(s, Gate)
    case EExpire => ExecAt(s, MarkExpired)
    case ESubmitFails => ExecAt(s, SubmitTx)
    case ESubmitSends(_) => ExecAt(s, SubmitTx)
    case ECreateTx =>
      s.exec.Executing? && s.exec.stage.CreateTx? && ExecAt(s, s.exec.stage) && s.exec.stage.h !in s.db.txs
    case ECreateFails => s.exec.Executing? && s.exec.stage.CreateTx? && ExecAt(s, s.exec.stage)
    case ELinkTx => s.exec.Executing? && s.exec.stage.LinkTx? && ExecAt(s, s.exec.stage)
    case ELinkFails => s.exec.Executing? && s.exec.stage.LinkTx? && ExecAt(s, s.exec.stage)
    case EMarkFailed => ExecAt(s, MarkFailedStage)
    case EEnd => s.exec.Executing? && s.exec.stage.CheckLinks? && s.exec.rest == []
    case EAbort => !s.exec.EIdle?
    case VListUnverified(hs) => s.ver.VIdle? && IsTxListing(s.db, UNVERIFIED_LIMIT, hs)
    case VAnswer(_) => VerHolds(s) && s.ver.stage.AskRpc?
    case VListLinked(bids) => VerHolds(s) && s.ver.stage.ListLinked? && IsBundlesOf(s.db, s.ver.rest[0], bids)
    case VWriteTx => VerHolds(s) && s.ver.stage.WriteTx?
    case VWriteBundle => VerHolds(s) && s.ver.stage.WriteBundles? && s.ver.stage.bids != []
    case VNextTx => VerHolds(s) && s.ver.stage.WriteBundles? && s.ver.stage.bids == []
    case VEnd => s.ver.Verifying? && s.ver.stage.AskRpc? && s.ver.rest == []
    case VAbort => !s.ver.VIdle?
  }

  /** The state after an enabled step. */
  function Apply(capacity: nat, s: State, st: Step): State
    requires Enabled(capacity, s, st)
  {
    match st
    case Submit(id, ttl) => s.(db := InsertBundle(s.db, id, ttl, s.now))
    case ClockTo(t) => s.(now := t)
    case MReadClock => s.(mem := Started(s.now))
    case MListPending(rows) => s.(mem := Sweeping(PastTtl(rows, s.mem.at), WithinTtl(rows, s.mem.at)))
    case MExpireOne =>
      s.(db := SetBundleStatus(s.db, s.mem.expired[0].id, Expired), mem := s.mem.(expired := s.mem.expired[1..]))
    case MCountProcessing(rows) =>
      s.(mem := Promoting(ToPromote(s.mem.live, FreeSlots(capacity, |rows|))))
    case MPromoteOne =>
      s.(db := SetBundleStatus(s.db, s.mem.rest[0].id, Processing), mem := Promoting(s.mem.rest[1..]))
    case MEnd => s.(mem := MIdle)
    case MAbort => s.(mem := MIdle)
    case EListProcessing(rows) => s.(exec := Executing(CheckLinks, rows))
    case ECheckLinks =>
      if IsLinked(s.db, s.exec.rest[0].id) then s.(exec := Executing(CheckLinks, s.exec.rest[1..]))
      else s.(exec := Executing(Gate, s.exec.rest))
    case EReadClock =>
      s.(exec := Executing(if s.exec.rest[0].ttl < s.now then MarkExpired else SubmitTx, s.exec.rest))
    case EExpire =>
      s.(db := SetBundleStatus(s.db, s.exec.rest[0].id, Expired), exec := Executing(CheckLinks, s.exec.rest[1..]))
    case ESubmitFails => s.(exec := Executing(MarkFailedStage, s.exec.rest))
    case ESubmitSends(h) => s.(exec := Executing(CreateTx(h), s.exec.rest))
    case ECreateTx =>
      s.(db := InsertTx(s.db, s.exec.stage.h, s.now), exec := Executing(LinkTx(s.exec.stage.h), s.exec.rest))
    case ECreateFails => s.(exec := Executing(MarkFailedStage, s.exec.rest))
    case ELinkTx =>
      s.(db := InsertLink(s.db, s.exec.rest[0].id, s.exec.stage.h), exec := Executing(CheckLinks, s.exec.rest[1..]))
    case ELinkFails => s.(exec := Executing(MarkFailedStage, s.exec.rest))
    case EMarkFailed =>
      s.(db := MarkFailed(s.db, s.exec.rest[0].id), exec := Executing(CheckLinks, s.exec.rest[1..]))
    case EEnd => s.(exec := EIdle)
    case EAbort => s.(exec := EIdle)
    case VListUnverified(hs) => s.(ver := Verifying(AskRpc, hs))
    case VAnswer(a) =>
      if a.RpcError? then s.(ver := Verifying(AskRpc, s.ver.rest[1..]))
      else s.(ver := Verifying(ListLinked(a), s.ver.rest))
    case VListLinked(bids) =>
      if s.ver.stage.answer.NotFound? then s.(ver := Verifying(AskRpc, s.ver.rest[1..]))
      else s.(ver := Verifying(WriteTx(s.ver.stage.answer, bids), s.ver.rest))
    case VWriteTx =>
      s.(db := SetTxStatus(s.db, s.ver.rest[0], TxOutcome(s.ver.stage.answer)),
         ver := Verifying(WriteBundles(s.ver.stage.answer, s.ver.stage.bids), s.ver.rest))
    case VWriteBundle =>
      s.(db := WriteOutcome(s.db, s.ver.stage.bids[0], s.ver.stage.answer),
         ver := Verifying(WriteBundles(s.ver.stage.answer, s.ver.stage.bids[1..]), s.ver.rest))
    case VNextTx => s.(ver := Verifying(AskRpc, s.ver.rest[1..]))
    case VEnd => s.(ver := VIdle)
    case VAbort => s.(ver := VIdle)
  }

  predicate Writes(st: Step) {
    st.Submit? || st.MExpireOne? || st.MPromoteOne? || st.EExpire? || st.ECreateTx? || st.ELinkTx? || st.EMarkFailed?
    || st.VWriteTx? || st.VWriteBundle?
  }

  /** All other steps only read, or move a task on. */
  lemma ReadsLeaveDb(capacity: nat, s: State, st: Step)
    requires Enabled(capacity, s, st) && !Writes(st)
    ensures Apply(capacity, s, st).db == s.db
  {}

  /** The step as a partial function. */
  function Next(capacity: nat, s: State, st: Step): (t: Option<State>)
    ensures t.Some? ==> Enabled(capacity, s, st) && t.value == Apply(capacity, s, st)
  {
    if Enabled(capacity, s, st) then Some(Apply(capacity, s, st)) else None
  }

  /** A finite run: `states[i]` takes step `steps[i]` to `states[i + 1]`. */
  ghost predicate IsRun(capacity: nat, states: seq<State>, steps: seq<Step>) {
    && |states| == |steps| + 1
    && forall i :: 0 <= i < |steps| ==>
         Enabled(capacity, states[i], steps[i]) && states[i + 1] == Apply(capacity, states[i], steps[i])
  }
}

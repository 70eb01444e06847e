/** Runs from an empty database in which what holds of orderly runs fails: a bundle stranded for good,
    one sent twice, one FAILED although it was sent. */
module LifecycleWitness {
  import opened Wrappers
  import opened Tables
  import opened Sorting
  import opened Lifecycle
  import opened LifecycleInvariant
  import opened LifecycleSafety
  import opened LifecycleOutcome
  import opened LifecycleSends

  const EMPTY := Db(map[], map[], {})
  const BOOT := State(EMPTY, 0, MIdle, EIdle, VIdle)

  datatype Run = Run(states: seq<State>, steps: seq<Step>)

  /** A run from the empty database to a state, sending bundle 1 so many times. */
  ghost predicate Reaches(capacity: nat, r: Run, s: State, sends: nat) {
    && IsRun(capacity, r.states, r.steps) && r.states[0] == BOOT && r.states[|r.steps|] == s
    && Sends(r.states, r.steps, |r.steps|, 1) == sends
  }

  lemma Begin(capacity: nat) returns (r: Run)
    ensures Reaches(capacity, r, BOOT, 0) && Boot(BOOT)
  {
    r := Run([BOOT], []);
  }

  lemma {:induction false} SendsOfPrefix(r: Run, t: State, st: Step, n: nat)
    requires n <= |r.steps| < |r.states|
    ensures Sends(r.states + [t], r.steps + [st], n, 1) == Sends(r.states, r.steps, n, 1)
  {
    if n > 0 { SendsOfPrefix(r, t, st, n - 1); }
  }

  lemma Go(capacity: nat, r: Run, s: State, sends: nat, st: Step, t: State) returns (on: Run)
    requires Reaches(capacity, r, s, sends) && Next(capacity, s, st) == Some(t)
    ensures Reaches(capacity, on, t, sends + if SentBy(s, st, 1) then 1 else 0)
  {
    on := Run(r.states + [t], r.steps + [st]);
    SendsOfPrefix(r, t, st, |r.steps|);
  }

  // ---- bundle 1, due at 10 ----

  const ROW := Listed(1, 10, 0)

  function Holding(status: BundleStatus): map<BundleId, BundleRow> { map[1 := BundleRow(status, 10, 0, 0)] }

  function At(db: Db, mem: Mempool, exec: Executor, ver: Verifier): State { State(db, 0, mem, exec, ver) }

  function Free(db: Db): State { At(db, MIdle, EIdle, VIdle) }

  /** The mempool, the executor and the verifier at work while the others rest. */
  function Mem(db: Db, mem: Mempool): State { At(db, mem, EIdle, VIdle) }

  function Exec(db: Db, stage: ExecStage, rest: seq<Listed>): State { At(db, MIdle, Executing(stage, rest), VIdle) }

  function Ver(db: Db, stage: VerStage): State { At(db, MIdle, EIdle, Verifying(stage, [7])) }

  lemma OneIsListed(db: Db, status: BundleStatus, limit: nat)
    requires db.bundles == Holding(status) && limit >= 1
    ensures IsListing(db, status, limit, [ROW])
  {
    assert [ROW][0].id == 1;
    assert Lists([ROW], 1);
  }

  lemma TailIsEmpty()
    ensures [ROW][1..] == []
  {}

  lemma MempoolSteps(capacity: nat, pending: Db, processing: Db)
    requires capacity >= 1 && pending == Db(Holding(Pending), map[], {})
        && processing == Db(Holding(Processing), map[], {})
    ensures Next(capacity, BOOT, Submit(1, 10)) == Some(Free(pending))
    ensures Next(capacity, Free(pending), MReadClock) == Some(Mem(pending, Started(0)))
    ensures Next(capacity, Mem(pending, Sweeping([], [ROW])), MCountProcessing([]))
        == Some(Mem(pending, Promoting([ROW])))
    ensures Next(capacity, Mem(pending, Promoting([ROW])), MPromoteOne) == Some(Mem(processing, Promoting([])))
    ensures Next(capacity, Mem(processing, Promoting([])), MEnd) == Some(Free(processing))
  {
    TailIsEmpty();
    assert EMPTY.bundles[1 := BundleRow(Pending, 10, 0, 0)] == pending.bundles;
    assert SetBundleStatus(pending, 1, Processing) == processing;
    assert Sort([ROW], Older()) == Insert(ROW, Sort([], Older()), Older()) == [ROW];
  }

  lemma ListStep(capacity: nat, pending: Db)
    requires pending == Db(Holding(Pending), map[], {})
    ensures Next(capacity, Mem(pending, Started(0)), MListPending([ROW])) == Some(Mem(pending, Sweeping([], [ROW])))
  {
    OneIsListed(pending, Pending, PENDING_LIMIT);
    TailIsEmpty();
    assert PastTtl([ROW][1..], 0) == [] && WithinTtl([ROW][1..], 0) == [];
    assert PastTtl([ROW], 0) == [] && WithinTtl([ROW], 0) == [ROW];
  }

  /** Submitted, listed and promoted. */
  lemma Promoted(capacity: nat) returns (r: Run)
    requires capacity >= 1
    ensures Reaches(capacity, r, Free(Db(Holding(Processing), map[], {})), 0)
  {
    var pending, processing := Db(Holding(Pending), map[], {}), Db(Holding(Processing), map[], {});
    MempoolSteps(capacity, pending, processing);
    ListStep(capacity, pending);
    r := Begin(capacity);
    r := Go(capacity, r, BOOT, 0, Submit(1, 10), Free(pending));
    r := Go(capacity, r, Free(pending), 0, MReadClock, Mem(pending, Started(0)));
    r := Go(capacity, r, Mem(pending, Started(0)), 0, MListPending([ROW]), Mem(pending, Sweeping([], [ROW])));
    r := Go(capacity, r, Mem(pending, Sweeping([], [ROW])), 0, MCountProcessing([]), Mem(pending, Promoting([ROW])));
    r := Go(capacity, r, Mem(pending, Promoting([ROW])), 0, MPromoteOne, Mem(processing, Promoting([])));
    r := Go(capacity, r, Mem(processing, Promoting([])), 0, MEnd, Free(processing));
  }

  lemma SendSteps(capacity: nat, db: Db, h: TxHash)
    requires capacity >= 1 && db == Db(Holding(Processing), map[], {})
    ensures Next(capacity, Free(db), EListProcessing([ROW])) == Some(Exec(db, CheckLinks, [ROW]))
    ensures Next(capacity, Exec(db, CheckLinks, [ROW]), ECheckLinks) == Some(Exec(db, Gate, [ROW]))
    ensures Next(capacity, Exec(db, Gate, [ROW]), EReadClock) == Some(Exec(db, SubmitTx, [ROW]))
    ensures Next(capacity, Exec(db, SubmitTx, [ROW]), ESubmitSends(h)) == Some(Exec(db, CreateTx(h), [ROW]))
  {
    OneIsListed(db, Processing, capacity);
  }

  /** Listed by the executor, let through the gate and sent as `h`, whatever was sent before. */
  lemma Sent(capacity: nat, begun: Run, db: Db, sends: nat, h: TxHash) returns (r: Run)
    requires capacity >= 1 && db == Db(Holding(Processing), map[], {}) && Reaches(capacity, begun, Free(db), sends)
    ensures Reaches(capacity, r, Exec(db, CreateTx(h), [ROW]), sends + 1)
  {
    SendSteps(capacity, db, h);
    r := Go(capacity, begun, Free(db), sends, EListProcessing([ROW]), Exec(db, CheckLinks, [ROW]));
    r := Go(capacity, r, Exec(db, CheckLinks, [ROW]), sends, ECheckLinks, Exec(db, Gate, [ROW]));
    r := Go(capacity, r, Exec(db, Gate, [ROW]), sends, EReadClock, Exec(db, SubmitTx, [ROW]));
    r := Go(capacity, r, Exec(db, SubmitTx, [ROW]), sends, ESubmitSends(h), Exec(db, CreateTx(h), [ROW]));
  }

  const PROMOTED := Db(Holding(Processing), map[], {})

  /** A stop between a send and its link, and the next tick sends again. */
  lemma SentTwice(capacity: nat)
    requires capacity >= 1
    ensures exists r, s :: Reaches(capacity, r, s, 2)
  {
    var r := Promoted(capacity);
    r := Sent(capacity, r, PROMOTED, 0, 7);
    r := Go(capacity, r, Exec(PROMOTED, CreateTx(7), [ROW]), 1, EAbort, Free(PROMOTED));
    r := Sent(capacity, r, PROMOTED, 1, 8);
  }

  const AFTER_FAILURE := Db(map[1 := BundleRow(Failed, 10, 0, 1)], map[], {})

  lemma FailureSteps(capacity: nat)
    ensures Next(capacity, Exec(PROMOTED, CreateTx(7), [ROW]), ECreateFails)
        == Some(Exec(PROMOTED, MarkFailedStage, [ROW]))
    ensures Next(capacity, Exec(PROMOTED, MarkFailedStage, [ROW]), EMarkFailed)
        == Some(Exec(AFTER_FAILURE, CheckLinks, []))
  {
    TailIsEmpty();
    assert MarkFailed(PROMOTED, 1) == AFTER_FAILURE;
  }

  /** A failed INSERT after a send leaves the bundle FAILED, its transaction sent and unlinked. */
  lemma SentAndFailed(capacity: nat)
    requires capacity >= 1
    ensures exists r :: Reaches(capacity, r, Exec(AFTER_FAILURE, CheckLinks, []), 1)
    ensures !IsLinked(AFTER_FAILURE, 1)
  {
    var r := Promoted(capacity);
    r := Sent(capacity, r, PROMOTED, 0, 7);
    FailureSteps(capacity);
    r := Go(capacity, r, Exec(PROMOTED, CreateTx(7), [ROW]), 1, ECreateFails, Exec(PROMOTED, MarkFailedStage, [ROW]));
    r := Go(capacity, r, Exec(PROMOTED, MarkFailedStage, [ROW]), 1, EMarkFailed, Exec(AFTER_FAILURE, CheckLinks, []));
  }

  // ---- stranded ----

  const LINK := Link(1, 7)

  function Txs(status: TxStatus): map<TxHash, TxRow> { map[7 := TxRow(status, 0)] }

  const STORED := Db(Holding(Processing), Txs(Unverified), {})

  function Linked(status: TxStatus): Db { Db(Holding(Processing), Txs(status), {LINK}) }

  lemma LinkSteps(capacity: nat)
    ensures Next(capacity, Exec(PROMOTED, CreateTx(7), [ROW]), ECreateTx) == Some(Exec(STORED, LinkTx(7), [ROW]))
    ensures Next(capacity, Exec(STORED, LinkTx(7), [ROW]), ELinkTx) == Some(Exec(Linked(Unverified), CheckLinks, []))
    ensures Next(capacity, Exec(Linked(Unverified), CheckLinks, []), EEnd) == Some(Free(Linked(Unverified)))
  {
    TailIsEmpty();
    assert InsertTx(PROMOTED, 7, 0) == STORED;
    assert InsertLink(STORED, 1, 7) == Linked(Unverified);
  }

  lemma LinkedUp(capacity: nat) returns (r: Run)
    requires capacity >= 1
    ensures Reaches(capacity, r, Free(Linked(Unverified)), 1)
  {
    r := Promoted(capacity);
    r := Sent(capacity, r, PROMOTED, 0, 7);
    LinkSteps(capacity);
    r := Go(capacity, r, Exec(PROMOTED, CreateTx(7), [ROW]), 1, ECreateTx, Exec(STORED, LinkTx(7), [ROW]));
    r := Go(capacity, r, Exec(STORED, LinkTx(7), [ROW]), 1, ELinkTx, Exec(Linked(Unverified), CheckLinks, []));
    r := Go(capacity, r, Exec(Linked(Unverified), CheckLinks, []), 1, EEnd, Free(Linked(Unverified)));
  }

  lemma AskSteps(capacity: nat)
    ensures Next(capacity, Free(Linked(Unverified)), VListUnverified([7])) == Some(Ver(Linked(Unverified), AskRpc))
    ensures Next(capacity, Ver(Linked(Unverified), AskRpc), VAnswer(Success))
        == Some(Ver(Linked(Unverified), ListLinked(Success)))
  {
    assert IsTxListing(Linked(Unverified), UNVERIFIED_LIMIT, [7]);
  }

  lemma LookUpStep(capacity: nat)
    ensures Next(capacity, Ver(Linked(Unverified), ListLinked(Success)), VListLinked([1]))
        == Some(Ver(Linked(Unverified), WriteTx(Success, [1])))
  {
    assert IsBundlesOf(Linked(Unverified), 7, [1]);
  }

  lemma SettleSteps(capacity: nat)
    ensures Next(capacity, Ver(Linked(Unverified), WriteTx(Success, [1])), VWriteTx)
        == Some(Ver(Linked(Verified), WriteBundles(Success, [1])))
    ensures Next(capacity, Ver(Linked(Verified), WriteBundles(Success, [1])), VAbort) == Some(Free(Linked(Verified)))
  {
    assert SetTxStatus(Linked(Unverified), 7, Verified) == Linked(Verified);
  }

  /** A stop of the verifier between its two status writes strands the bundle. */
  lemma StrandedIsReached(capacity: nat)
    requires capacity >= 1
    ensures exists r :: Reaches(capacity, r, Free(Linked(Verified)), 1)
    ensures Stranded(Free(Linked(Verified)), LINK)
  {
    var r := LinkedUp(capacity);
    AskSteps(capacity);
    LookUpStep(capacity);
    SettleSteps(capacity);
    r := Go(capacity, r, Free(Linked(Unverified)), 1, VListUnverified([7]), Ver(Linked(Unverified), AskRpc));
    r := Go(capacity, r, Ver(Linked(Unverified), AskRpc), 1, VAnswer(Success),
            Ver(Linked(Unverified), ListLinked(Success)));
    r := Go(capacity, r, Ver(Linked(Unverified), ListLinked(Success)), 1, VListLinked([1]),
            Ver(Linked(Unverified), WriteTx(Success, [1])));
    r := Go(capacity, r, Ver(Linked(Unverified), WriteTx(Success, [1])), 1, VWriteTx,
            Ver(Linked(Verified), WriteBundles(Success, [1])));
    r := Go(capacity, r, Ver(Linked(Verified), WriteBundles(Success, [1])), 1, VAbort, Free(Linked(Verified)));
  }

  /** With one slot that is the end of all promotion: no run from the state so reached promotes anything. */
  lemma TheOneSlotIsLost(states: seq<State>, steps: seq<Step>, j: nat)
    requires IsRun(1, states, steps) && states[0] == Free(Linked(Verified)) && j < |steps|
    ensures !steps[j].MPromoteOne?
  {
    StrandedIsReached(1);
    var r :| Reaches(1, r, states[0], 1);
    InvThroughout(1, r.states, r.steps, |r.steps|);
    StrandedSlotsStopPromotion(1, states, steps, 0, j, {LINK});
  }
}

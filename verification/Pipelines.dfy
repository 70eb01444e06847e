/** The tick loops of the three pipelines over shared tables. Between any two statements of a
    tick the other tasks, HTTP submits and the clock take any number of steps; any SQL statement
    may fail without effect. Each tick is proved to be a stretch of a run of the state machine,
    so everything proved of runs holds of these loops. */
module Pipelines {
  import opened Wrappers
  import opened Sorting
  import opened Tables
  import opened Lifecycle
  import opened LifecycleInvariant
  import opened LifecycleSafety

  function Newest(): (Listed, Listed) -> bool { (a: Listed, b: Listed) => b.createdAt <= a.createdAt }

  function OldestTx(txs: map<TxHash, TxRow>): (TxHash, TxHash) -> bool {
    (g: TxHash, h: TxHash) =>
      (if g in txs then txs[g].createdAt else 0) <= (if h in txs then txs[h].createdAt else 0)
  }

  /** A run recorded step by step, each with the state it leads to. */
  datatype Record = BootedIn(last: State) | Stepped(before: Record, step: Step, last: State)

  ghost predicate ValidRecord(capacity: nat, r: Record) {
    match r
    case BootedIn(s) => Boot(s)
    case Stepped(before, st, s) => ValidRecord(capacity, before) && Next(capacity, before.last, st) == Some(s)
  }

  /** `r` goes on from `mark`. */
  ghost predicate GoesOnFrom(mark: Record, r: Record) {
    r == mark || (r.Stepped? && GoesOnFrom(mark, r.before))
  }

  ghost function StatesOf(r: Record): (states: seq<State>)
    ensures |states| > 0
  {
    match r
    case BootedIn(s) => [s]
    case Stepped(before, _, s) => StatesOf(before) + [s]
  }

  ghost function StepsOf(r: Record): seq<Step> {
    match r
    case BootedIn(_) => []
    case Stepped(before, st, _) => StepsOf(before) + [st]
  }

  /** A valid record is a run of the state machine from a boot. */
  lemma {:induction false} RecordIsRun(capacity: nat, r: Record)
    requires ValidRecord(capacity, r)
    ensures IsRun(capacity, StatesOf(r), StepsOf(r)) && Boot(StatesOf(r)[0])
    ensures StatesOf(r)[|StepsOf(r)|] == r.last
  {
    if r.Stepped? { RecordIsRun(capacity, r.before); }
  }

  /** A record that goes on from another has its states and steps as a prefix. */
  lemma {:induction false} GoesOnIsPrefix(mark: Record, r: Record)
    requires GoesOnFrom(mark, r)
    ensures StatesOf(mark) <= StatesOf(r) && StepsOf(mark) <= StepsOf(r)
  {
    if r != mark { GoesOnIsPrefix(mark, r.before); }
  }

  function Size(r: Record): nat { if r.Stepped? then Size(r.before) + 1 else 0 }

  lemma {:induction false} MarkIsNoLater(mark: Record, r: Record)
    requires GoesOnFrom(mark, r)
    ensures Size(mark) <= Size(r)
  {
    if r != mark { MarkIsNoLater(mark, r.before); }
  }

  /** The steps of one task from `mark` on, those of the others left out. */
  ghost function Own(me: Task, mark: Record, r: Record): seq<Step> {
    if r == mark || r.BootedIn? then []
    else Own(me, mark, r.before) + if TaskOf(r.step) == me then [r.step] else []
  }

  lemma OwnGrows(mark: Record, r: Record, st: Step, s: State)
    requires GoesOnFrom(mark, r)
    ensures forall me :: Own(me, mark, Stepped(r, st, s)) == Own(me, mark, r) + if TaskOf(st) == me then [st] else []
  {
    MarkIsNoLater(mark, r);
    assert Size(Stepped(r, st, s)) == Size(r) + 1;
  }

  function OnlyOf(me: Task, steps: seq<Step>): seq<Step> {
    if steps == [] then []
    else OnlyOf(me, steps[..|steps| - 1]) + if TaskOf(steps[|steps| - 1]) == me then [steps[|steps| - 1]] else []
  }

  lemma OnlyOneMore(me: Task, from: seq<Step>, steps: seq<Step>, st: Step)
    requires from <= steps
    ensures from <= steps + [st]
    ensures OnlyOf(me, (steps + [st])[|from|..]) == OnlyOf(me, steps[|from|..]) + if TaskOf(st) == me then [st] else []
  {
    var since := steps[|from|..];
    assert (steps + [st])[|from|..] == since + [st];
    assert (since + [st])[..|since|] == since;
  }

  /** What a task has done since `mark` is what the rest of the run has of it, in order. */
  lemma {:induction false} OwnIsTheRest(me: Task, mark: Record, r: Record)
    requires GoesOnFrom(mark, r)
    ensures StepsOf(mark) <= StepsOf(r) && Own(me, mark, r) == OnlyOf(me, StepsOf(r)[|StepsOf(mark)|..])
  {
    if r != mark {
      OwnIsTheRest(me, mark, r.before);
      OnlyOneMore(me, StepsOf(mark), StepsOf(r.before), r.step);
    }
  }

  /** A tick that began at `mark` is a stretch of a run: the run up to `mark` is a prefix of it, and the
      loop's own steps are those of the rest. */
  lemma TickIsAStretch(capacity: nat, mark: Record, r: Record, me: Task)
    requires ValidRecord(capacity, r) && GoesOnFrom(mark, r)
    ensures IsRun(capacity, StatesOf(r), StepsOf(r)) && Boot(StatesOf(r)[0])
    ensures StatesOf(mark) <= StatesOf(r) && StepsOf(mark) <= StepsOf(r)
    ensures Own(me, mark, r) == OnlyOf(me, StepsOf(r)[|StepsOf(mark)|..])
  {
    RecordIsRun(capacity, r);
    GoesOnIsPrefix(mark, r);
    OwnIsTheRest(me, mark, r);
  }

  function Times(n: nat, st: Step): (steps: seq<Step>)
    ensures |steps| == n && forall i :: 0 <= i < n ==> steps[i] == st
  {
    seq(n, _ => st)
  }

  // ---- what the parts of a tick do, as steps of their task ----

  /** The first half of a mempool tick, from what its SELECT answered. */
  function SweepSteps(now: int, pending: seq<Listed>): seq<Step> {
    [MReadClock, MListPending(pending)] + Times(|PastTtl(pending, now)|, MExpireOne)
  }

  /** And the second, for the rows listed as PROCESSING and the number promoted. */
  function PromoteSteps(processing: seq<Listed>, promoted: nat): seq<Step> {
    [MCountProcessing(processing)] + Times(promoted, MPromoteOne) + [MEnd]
  }

  /** What became of one bundle of the executor's list. */
  datatype Outcome =
    Skipped | Late | Sent(h: TxHash) | NotSent | NotStored(h: TxHash) | NotLinked(h: TxHash)

  /** The INSERTs after a send. */
  function AfterSend(o: Outcome): seq<Step> {
    match o
    case Sent(_) => [ECreateTx, ELinkTx]
    case NotStored(_) => [ECreateFails]
    case NotLinked(_) => [ECreateTx, ELinkFails]
    case _ => []
  }

  /** `submit_one` */
  function SubmitSteps(o: Outcome): seq<Step> {
    match o
    case NotSent => [ESubmitFails]
    case Sent(h) => [ESubmitSends(h)] + AfterSend(o)
    case NotStored(h) => [ESubmitSends(h)] + AfterSend(o)
    case NotLinked(h) => [ESubmitSends(h)] + AfterSend(o)
    case _ => []
  }

  /** Past the gate: the EXPIRED write, a submission, or a failed one and the FAILED write. */
  function GatedSteps(o: Outcome): seq<Step> {
    match o
    case Late => [EExpire]
    case Sent(_) => SubmitSteps(o)
    case _ => SubmitSteps(o) + [EMarkFailed]
  }

  function OutcomeSteps(o: Outcome): seq<Step> {
    if o.Skipped? then [ECheckLinks] else [ECheckLinks] + ([EReadClock] + GatedSteps(o))
  }

  /** What is done of these steps: all, or all but the last, whose statement failed and stopped the tick. */
  function Done(steps: seq<Step>, ok: bool): seq<Step>
    requires steps != []
  {
    if ok then steps else steps[..|steps| - 1] + [EAbort]
  }

  function AllOutcomes(os: seq<Outcome>): seq<Step> {
    if os == [] then [] else AllOutcomes(os[..|os| - 1]) + OutcomeSteps(os[|os| - 1])
  }

  /** One outcome after another, the last of them cut short if the tick stopped there. */
  function DoneOutcomes(os: seq<Outcome>, ok: bool): seq<Step> {
    if ok || os == [] then AllOutcomes(os) else AllOutcomes(os[..|os| - 1]) + Done(OutcomeSteps(os[|os| - 1]), false)
  }

  /** What the RPC said of one transaction, and its bundles if they were looked up. */
  datatype Answered = Answered(answer: RpcAnswer, bids: seq<BundleId>)

  /** The transaction's status, each of its bundles', and on. */
  function SettleSteps(bids: seq<BundleId>): seq<Step> { [VWriteTx] + (Times(|bids|, VWriteBundle) + [VNextTx]) }

  function LookUpSteps(answer: RpcAnswer, bids: seq<BundleId>): seq<Step> {
    [VListLinked(bids)] + if answer.NotFound? then [] else SettleSteps(bids)
  }

  /** An RPC error is passed over; an unknown transaction too, once looked up. */
  function AnswerSteps(a: Answered): seq<Step> {
    [VAnswer(a.answer)] + if a.answer.RpcError? then [] else LookUpSteps(a.answer, a.bids)
  }

  function AllAnswers(answers: seq<Answered>): seq<Step> {
    if answers == [] then [] else AllAnswers(answers[..|answers| - 1]) + AnswerSteps(answers[|answers| - 1])
  }

  class Provider {
    var bundles: map<BundleId, BundleRow>
    var txs: map<TxHash, TxRow>
    var links: set<Link>
    var clock: int
    const capacity: nat

    // Where each task stands; the tick loops keep their own up to date.
    var mem: Mempool
    var exec: Executor
    var ver: Verifier

    // The run so far, and the point in it where the present tick began.
    ghost var run: Record
    ghost var mark: Record

    // How many statements have failed.
    ghost var faults: nat

    function Tables(): Db reads this { Db(bundles, txs, links) }

    function View(): State reads this { State(Tables(), clock, mem, exec, ver) }

    ghost predicate Valid()
      reads this
    {
      ValidRecord(capacity, run) && run.last == View() && GoesOnFrom(mark, run)
    }

    /** What a task has done in the present tick. */
    ghost function Steps(me: Task): seq<Step>
      reads this
    {
      Own(me, mark, run)
    }

    constructor (db: Db, now: int, slots: nat)
      requires DbInv(db)
      ensures Valid() && capacity == slots && View() == State(db, now, MIdle, EIdle, VIdle)
      ensures run == BootedIn(View())
    {
      bundles, txs, links, clock := db.bundles, db.txs, db.links, now;
      mem, exec, ver := MIdle, EIdle, VIdle;
      capacity, faults := slots, 0;
      run, mark := BootedIn(State(db, now, MIdle, EIdle, VIdle)), BootedIn(State(db, now, MIdle, EIdle, VIdle));
    }

    /** Step `st` was just done by its task. */
    ghost method Did(st: Step)
      requires ValidRecord(capacity, run) && GoesOnFrom(mark, run)
      requires Next(capacity, run.last, st) == Some(View())
      modifies this`run
      ensures Valid() && run == Stepped(old(run), st, View())
      ensures forall me :: Steps(me) == old(Steps(me)) + if TaskOf(st) == me then [st] else []
    {
      OwnGrows(mark, run, st, View());
      run := Stepped(run, st, View());
    }

    /** A step of one of the other tasks, of an HTTP submit or of the clock. */
    method Take(st: Step)
      requires Valid() && Enabled(capacity, View(), st)
      modifies this
      ensures Valid() && mark == old(mark) && faults == old(faults) && View() == Apply(capacity, old(View()), st)
      ensures forall me :: me != TaskOf(st) ==> Steps(me) == old(Steps(me))
    {
      var s := Apply(capacity, View(), st);
      bundles, txs, links, clock := s.db.bundles, s.db.txs, s.db.links, s.now;
      mem, exec, ver := s.mem, s.exec, s.ver;
      Did(st);
    }

    /** While task `me` waits, the rest of the system runs. */
    method Interfere(me: Task)
      requires Valid()
      modifies this
      ensures Valid() && mark == old(mark) && faults == old(faults) && Steps(me) == old(Steps(me))
      ensures me.MempoolTask? ==> mem == old(mem)
      ensures me.ExecutorTask? ==> exec == old(exec)
      ensures me.VerifierTask? ==> ver == old(ver)
    {
      var turns: nat := *;
      while turns > 0
        invariant Valid() && mark == old(mark) && faults == old(faults) && Steps(me) == old(Steps(me))
        invariant me.MempoolTask? ==> mem == old(mem)
        invariant me.ExecutorTask? ==> exec == old(exec)
        invariant me.VerifierTask? ==> ver == old(ver)
      {
        var st: Step := *;
        if TaskOf(st) != me && Enabled(capacity, View(), st) {
          Take(st);
        }
        turns := turns - 1;
      }
    }

    // ---- statements ----

    method SetStatus(id: BundleId, status: BundleStatus) returns (ok: bool)
      modifies this`bundles, this`faults
      ensures faults == old(faults) + if ok then 0 else 1
      ensures Tables() == if ok then SetBundleStatus(old(Tables()), id, status) else old(Tables())
    {
      ok := *;
      if ok && id in bundles {
        bundles := bundles[id := bundles[id].(status := status)];
      }
      if !ok {
        faults := faults + 1;
      }
    }

    method MarkBundleFailed(id: BundleId) returns (ok: bool)
      modifies this`bundles, this`faults
      ensures faults == old(faults) + if ok then 0 else 1
      ensures Tables() == if ok then MarkFailed(old(Tables()), id) else old(Tables())
    {
      ok := *;
      if ok && id in bundles && bundles[id].status in {Pending, Processing} {
        var row := bundles[id];
        bundles := bundles[id := row.(status := Failed, retryCount := row.retryCount + 1)];
      }
      if !ok {
        faults := faults + 1;
      }
    }

    /** The primary key refuses a hash already there. */
    method CreateTransaction(h: TxHash) returns (ok: bool)
      modifies this`txs, this`faults
      ensures faults == old(faults) + if ok then 0 else 1
      ensures ok ==> h !in old(txs)
      ensures Tables() == if ok then InsertTx(old(Tables()), h, clock) else old(Tables())
    {
      ok := *;
      ok := ok && h !in txs;
      if ok {
        txs := txs[h := TxRow(Unverified, clock)];
      }
      if !ok {
        faults := faults + 1;
      }
    }

    method LinkTransaction(b: BundleId, h: TxHash) returns (ok: bool)
      modifies this`links, this`faults
      ensures faults == old(faults) + if ok then 0 else 1
      ensures Tables() == if ok then InsertLink(old(Tables()), b, h) else old(Tables())
    {
      ok := *;
      if ok {
        links := links + {Link(b, h)};
      }
      if !ok {
        faults := faults + 1;
      }
    }

    method SetTransactionStatus(h: TxHash, status: TxStatus) returns (ok: bool)
      modifies this`txs, this`faults
      ensures faults == old(faults) + if ok then 0 else 1
      ensures Tables() == if ok then SetTxStatus(old(Tables()), h, status) else old(Tables())
    {
      ok := *;
      if ok && h in txs {
        txs := txs[h := txs[h].(status := status)];
      }
      if !ok {
        faults := faults + 1;
      }
    }

    // ---- queries ----

    method ListByStatus(status: BundleStatus, limit: nat) returns (rows: Option<seq<Listed>>)
      modifies this`faults
      ensures faults == old(faults) + if rows.Some? then 0 else 1
      ensures rows.Some? ==> IsListing(Tables(), status, limit, rows.value)
    {
      var left := set b | b in bundles && bundles[b].status == status;
      ghost var all := left;
      var found: seq<Listed> := [];
      while left != {}
        invariant left <= all
        invariant AllStill(Tables(), found, status) && faults == old(faults)
        invariant forall b :: b in all <==> b in left || Lists(found, b)
        invariant forall i :: 0 <= i < |found| ==> found[i].id !in left
      {
        var b :| b in left;
        left := left - {b};
        var row := Listed(b, bundles[b].ttl, bundles[b].createdAt);
        MoreListed(found, row);
        found := found + [row];
      }
      var sorted := Sort(found, Newest());
      var cut := if limit < |sorted| then sorted[..limit] else sorted;
      SortedListing(Tables(), status, limit, found, cut);
      var ok: bool := *;
      rows := if ok then Some(cut) else None;
      if !ok {
        faults := faults + 1;
      }
    }

    method ListUnverified(limit: nat) returns (hashes: Option<seq<TxHash>>)
      modifies this`faults
      ensures faults == old(faults) + if hashes.Some? then 0 else 1
      ensures hashes.Some? ==> IsTxListing(Tables(), limit, hashes.value)
    {
      var left := set h | h in txs && txs[h].status.Unverified?;
      var found: seq<TxHash> := [];
      while left != {}
        invariant DistinctHashes(found)
        invariant forall i :: 0 <= i < |found| ==> found[i] in txs && txs[found[i]].status.Unverified?
        invariant forall h :: h in txs && txs[h].status.Unverified? ==> h in left || h in found
        invariant forall h :: h in left ==> h in txs && txs[h].status.Unverified? && h !in found
      {
        var h :| h in left;
        left := left - {h};
        found := found + [h];
      }
      var sorted := Sort(found, OldestTx(txs));
      var cut := if limit < |sorted| then sorted[..limit] else sorted;
      SortedTxListing(Tables(), limit, found, cut);
      var ok: bool := *;
      hashes := if ok then Some(cut) else None;
      if !ok {
        faults := faults + 1;
      }
    }

    method ListTransactionsForBundle(b: BundleId) returns (hashes: Option<set<TxHash>>)
      modifies this`faults
      ensures faults == old(faults) + if hashes.Some? then 0 else 1
      ensures hashes.Some? ==> forall h :: h in hashes.value <==> Link(b, h) in links
      ensures hashes.Some? ==> (hashes.value != {} <==> IsLinked(Tables(), b))
    {
      var found := set l | l in links && l.bundle == b :: l.tx;
      forall h ensures h in found <==> Link(b, h) in links {
        if Link(b, h) in links { assert Link(b, h).bundle == b; }
      }
      assert forall l :: l in links && l.bundle == b ==> l == Link(b, l.tx) && l.tx in found;
      var ok: bool := *;
      hashes := if ok then Some(found) else None;
      if !ok {
        faults := faults + 1;
      }
    }

    method ListBundlesForTransaction(h: TxHash) returns (bids: Option<seq<BundleId>>)
      modifies this`faults
      ensures faults == old(faults) + if bids.Some? then 0 else 1
      ensures bids.Some? ==> IsBundlesOf(Tables(), h, bids.value)
    {
      var left := set l | l in links && l.tx == h;
      var found: seq<BundleId> := [];
      while left != {}
        invariant forall i, j :: 0 <= i < j < |found| ==> found[i] != found[j]
        invariant forall i :: 0 <= i < |found| ==> Link(found[i], h) in links && Link(found[i], h) !in left
        invariant forall l :: l in links && l.tx == h ==> l in left || l.bundle in found
        invariant forall l :: l in left ==> l in links && l.tx == h
      {
        var l :| l in left;
        assert l == Link(l.bundle, h);
        left := left - {l};
        found := found + [l.bundle];
      }
      var ok: bool := *;
      bids := if ok then Some(found) else None;
      if !ok {
        faults := faults + 1;
      }
    }

    // ---- mempool tick ----

    method MempoolReadClock() returns (now: int)
      requires Valid() && mem.MIdle?
      modifies this`mem, this`run
      ensures Valid() && mem == Started(now) && now == clock
      ensures Steps(MempoolTask) == old(Steps(MempoolTask)) + [MReadClock]
    {
      now := clock;
      mem := Started(now);
      Did(MReadClock);
    }

    method MempoolGivesUp()
      requires Valid() && !mem.MIdle?
      modifies this`mem, this`run
      ensures Valid() && mem.MIdle? && Steps(MempoolTask) == old(Steps(MempoolTask)) + [MAbort]
    {
      mem := MIdle;
      Did(MAbort);
    }

    method PartitionPending(now: int, pending: seq<Listed>)
      requires Valid() && mem == Started(now) && IsListing(Tables(), Pending, PENDING_LIMIT, pending)
      modifies this`mem, this`run
      ensures Valid() && mem == Sweeping(PastTtl(pending, now), WithinTtl(pending, now))
      ensures Steps(MempoolTask) == old(Steps(MempoolTask)) + [MListPending(pending)]
    {
      mem := Sweeping(PastTtl(pending, now), WithinTtl(pending, now));
      Did(MListPending(pending));
    }

    method ExpireNext(expired: seq<Listed>, live: seq<Listed>) returns (ok: bool)
      requires Valid() && mem == Sweeping(expired, live) && expired != []
      modifies this`bundles, this`mem, this`run, this`faults
      ensures Valid() && mem == if ok then Sweeping(expired[1..], live) else old(mem)
      ensures Tables() == if ok then SetBundleStatus(old(Tables()), expired[0].id, Expired) else old(Tables())
      ensures Steps(MempoolTask) == old(Steps(MempoolTask)) + if ok then [MExpireOne] else []
      ensures faults == old(faults) + if ok then 0 else 1
    {
      ok := SetStatus(expired[0].id, Expired);
      if ok {
        mem := Sweeping(expired[1..], live);
        Did(MExpireOne);
      }
    }

    method TakeOldest(live: seq<Listed>, processing: seq<Listed>) returns (taken: seq<Listed>)
      requires Valid() && mem == Sweeping([], live) && IsListing(Tables(), Processing, capacity, processing)
      modifies this`mem, this`run
      ensures Valid() && mem == Promoting(taken) && taken == ToPromote(live, FreeSlots(capacity, |processing|))
      ensures |taken| <= |live|
      ensures |processing| + |taken| == capacity || (|taken| == |live| && |processing| + |taken| <= capacity)
      ensures Steps(MempoolTask) == old(Steps(MempoolTask)) + [MCountProcessing(processing)]
    {
      var free := FreeSlots(capacity, |processing|);
      var sorted := Sort(live, Older());
      OlderIsAPreorder();
      SortSorts(live, Older());
      taken := if free < |sorted| then sorted[..free] else sorted;
      mem := Promoting(taken);
      Did(MCountProcessing(processing));
    }

    method PromoteNext(taken: seq<Listed>) returns (ok: bool)
      requires Valid() && mem == Promoting(taken) && taken != []
      modifies this`bundles, this`mem, this`run, this`faults
      ensures Valid() && mem == if ok then Promoting(taken[1..]) else old(mem)
      ensures Tables() == if ok then SetBundleStatus(old(Tables()), taken[0].id, Processing) else old(Tables())
      ensures Steps(MempoolTask) == old(Steps(MempoolTask)) + if ok then [MPromoteOne] else []
      ensures faults == old(faults) + if ok then 0 else 1
    {
      ok := SetStatus(taken[0].id, Processing);
      if ok {
        mem := Promoting(taken[1..]);
        Did(MPromoteOne);
      }
    }

    method MempoolEnds()
      requires Valid() && mem == Promoting([])
      modifies this`mem, this`run
      ensures Valid() && mem.MIdle? && run == Stepped(old(run), MEnd, View())
      ensures Steps(MempoolTask) == old(Steps(MempoolTask)) + [MEnd]
    {
      mem := MIdle;
      Did(MEnd);
    }

    method SweepOne(expired: seq<Listed>, live: seq<Listed>) returns (ok: bool)
      requires Valid() && mem == Sweeping(expired, live) && expired != []
      modifies this
      ensures Valid() && mark == old(mark) && faults == old(faults) + if ok then 0 else 1
      ensures mem == if ok then Sweeping(expired[1..], live) else MIdle
      ensures Steps(MempoolTask) == old(Steps(MempoolTask)) + [if ok then MExpireOne else MAbort]
    {
      Interfere(MempoolTask);
      ok := ExpireNext(expired, live);
      if !ok {
        MempoolGivesUp();
      }
    }

    /** One EXPIRED write for each row in turn, given up at the first that fails. */
    method Sweep(expired: seq<Listed>, live: seq<Listed>) returns (ok: bool, ghost n: nat)
      requires Valid() && mem == Sweeping(expired, live)
      modifies this
      ensures Valid() && mark == old(mark)
      ensures mem == if ok then Sweeping([], live) else MIdle
      ensures faults == old(faults) + if ok then 0 else 1
      ensures if ok then n == |expired| else n < |expired|
      ensures Steps(MempoolTask) == old(Steps(MempoolTask)) + (Times(n, MExpireOne) + if ok then [] else [MAbort])
    {
      ghost var base, now := Steps(MempoolTask), Steps(MempoolTask);
      assert base + Times(0, MExpireOne) == base;
      var i := 0;
      while i < |expired|
        invariant 0 <= i <= |expired|
        invariant Valid() && mem == Sweeping(expired[i..], live) && mark == old(mark) && faults == old(faults)
        invariant Steps(MempoolTask) == now == base + Times(i, MExpireOne)
      {
        var written := SweepOne(expired[i..], live);
        if !written {
          TwoStretches(base, Times(i, MExpireOne), [MAbort]);
          return false, i;
        }
        now := now + [MExpireOne];
        TimesGrow(base, i, MExpireOne);
        i := i + 1;
      }
      TwoStretches(base, Times(i, MExpireOne), []);
      return true, i;
    }

    method PromoteOne(taken: seq<Listed>) returns (ok: bool)
      requires Valid() && mem == Promoting(taken) && taken != []
      modifies this
      ensures Valid() && mark == old(mark) && faults == old(faults) + if ok then 0 else 1
      ensures mem == if ok then Promoting(taken[1..]) else MIdle
      ensures Steps(MempoolTask) == old(Steps(MempoolTask)) + [if ok then MPromoteOne else MAbort]
    {
      Interfere(MempoolTask);
      ok := PromoteNext(taken);
      if !ok {
        MempoolGivesUp();
      }
    }

    /** One PROCESSING write for each row in turn, given up at the first that fails. */
    method Promote(taken: seq<Listed>) returns (ok: bool, ghost n: nat)
      requires Valid() && mem == Promoting(taken)
      modifies this
      ensures Valid() && mark == old(mark)
      ensures mem == if ok then Promoting([]) else MIdle
      ensures faults == old(faults) + if ok then 0 else 1
      ensures if ok then n == |taken| else n < |taken|
      ensures Steps(MempoolTask) == old(Steps(MempoolTask)) + (Times(n, MPromoteOne) + if ok then [] else [MAbort])
    {
      ghost var base, now := Steps(MempoolTask), Steps(MempoolTask);
      assert base + Times(0, MPromoteOne) == base;
      var i := 0;
      while i < |taken|
        invariant 0 <= i <= |taken|
        invariant Valid() && mem == Promoting(taken[i..]) && mark == old(mark) && faults == old(faults)
        invariant Steps(MempoolTask) == now == base + Times(i, MPromoteOne)
      {
        var written := PromoteOne(taken[i..]);
        if !written {
          TwoStretches(base, Times(i, MPromoteOne), [MAbort]);
          return false, i;
        }
        now := now + [MPromoteOne];
        TimesGrow(base, i, MPromoteOne);
        i := i + 1;
      }
      TwoStretches(base, Times(i, MPromoteOne), []);
      return true, i;
    }

    /** List the pending rows and split them at the TTL. */
    method ListPending(now: int) returns (pending: Option<seq<Listed>>)
      requires Valid() && mem == Started(now)
      modifies this
      ensures Valid() && mark == old(mark) && faults == old(faults) + if pending.Some? then 0 else 1
      ensures mem
          == if pending.Some? then Sweeping(PastTtl(pending.value, now), WithinTtl(pending.value, now)) else MIdle
      ensures pending.Some? ==> Steps(MempoolTask) == old(Steps(MempoolTask)) + [MListPending(pending.value)]
      ensures pending.Some? ==> IsListing(Tables(), Pending, 256, pending.value)
    {
      Interfere(MempoolTask);
      pending := ListByStatus(Pending, PENDING_LIMIT);
      if pending.Some? {
        PartitionPending(now, pending.value);
      } else {
        MempoolGivesUp();
      }
    }

    /** The first half of a tick: list, split, sweep. */
    method SweepPending() returns (ok: bool, now: int, pending: seq<Listed>)
      requires Valid() && mem.MIdle? && mark == run
      modifies this
      ensures Valid() && mark == old(mark) && faults == old(faults) + if ok then 0 else 1
      ensures mem == if ok then Sweeping([], WithinTtl(pending, now)) else MIdle
      ensures ok ==> Steps(MempoolTask) == SweepSteps(now, pending)
    {
      Interfere(MempoolTask);
      now := MempoolReadClock();
      pending := [];
      var listed := ListPending(now);
      if listed.None? {
        return false, now, pending;
      }
      pending := listed.value;
      assert Steps(MempoolTask) == [MReadClock, MListPending(pending)];
      ghost var n;
      ok, n := Sweep(PastTtl(pending, now), WithinTtl(pending, now));
    }

    /** Count the slots in use and take the oldest live rows for the free ones. */
    method FillSlots(live: seq<Listed>) returns (taken: Option<seq<Listed>>, ghost processing: seq<Listed>)
      requires Valid() && mem == Sweeping([], live)
      modifies this
      ensures Valid() && mark == old(mark) && faults == old(faults) + if taken.Some? then 0 else 1
      ensures mem == if taken.Some? then Promoting(taken.value) else MIdle
      ensures taken.Some? ==> taken.value == ToPromote(live, FreeSlots(capacity, |processing|))
      ensures taken.Some? ==> |taken.value| <= |live|
      ensures taken.Some? ==>
                |processing| + |taken.value| == capacity
                || (|taken.value| == |live| && |processing| + |taken.value| <= capacity)
      ensures taken.Some? ==> Steps(MempoolTask) == old(Steps(MempoolTask)) + [MCountProcessing(processing)]
    {
      processing := [];
      Interfere(MempoolTask);
      var listed := ListByStatus(Processing, capacity);
      if listed.None? {
        MempoolGivesUp();
        return None, processing;
      }
      processing := listed.value;
      var rows := TakeOldest(live, listed.value);
      return Some(rows), processing;
    }

    /** The second half: count, sort, promote. */
    method PromoteLive(live: seq<Listed>) returns (ok: bool, ghost processing: seq<Listed>, ghost n: nat)
      requires Valid() && mem == Sweeping([], live)
      modifies this
      ensures Valid() && mem.MIdle? && mark == old(mark) && faults == old(faults) + if ok then 0 else 1
      ensures ok ==> run.Stepped? && run.step == MEnd
      ensures ok ==> n <= |live|
      ensures ok ==> |processing| + n == capacity || (n == |live| && |processing| + n <= capacity)
      ensures ok ==> Steps(MempoolTask) == old(Steps(MempoolTask)) + PromoteSteps(processing, n)
    {
      var taken;
      taken, processing := FillSlots(live);
      if taken.None? {
        return false, processing, 0;
      }
      ok, n := Promote(taken.value);
      if ok {
        MempoolEnds();
      }
    }

    /** Sweep what is past its TTL, then promote the oldest live rows into the free slots: all of it, or
        some statement failed. */
    method MempoolTick()
      returns (ok: bool, ghost now: int, ghost pending: seq<Listed>, ghost processing: seq<Listed>, ghost n: nat)
      requires Valid() && mem.MIdle?
      modifies this
      ensures Valid() && mem.MIdle? && mark == old(run)
      ensures ok <==> faults == old(faults)
      ensures ok ==> run.Stepped? && run.step == MEnd
      ensures ok ==> Steps(MempoolTask) == SweepSteps(now, pending) + PromoteSteps(processing, n)
      ensures ok ==> n <= |WithinTtl(pending, now)|
      ensures ok ==>
                |processing| + n == capacity || (n == |WithinTtl(pending, now)| && |processing| + n <= capacity)
    {
      mark := run;
      var swept, at, rows := SweepPending();
      now, pending, processing, n := at, rows, [], 0;
      if !swept {
        return false, now, pending, processing, n;
      }
      ok, processing, n := PromoteLive(WithinTtl(rows, at));
    }

    // ---- executor tick ----

    method ExecutorGivesUp()
      requires Valid() && !exec.EIdle?
      modifies this`exec, this`run
      ensures Valid() && exec.EIdle? && Steps(ExecutorTask) == old(Steps(ExecutorTask)) + [EAbort]
    {
      exec := EIdle;
      Did(EAbort);
    }

    method ExecutorLists(rows: seq<Listed>)
      requires Valid() && exec.EIdle? && IsListing(Tables(), Processing, capacity, rows)
      modifies this`exec, this`run
      ensures Valid() && exec == Executing(CheckLinks, rows)
      ensures Steps(ExecutorTask) == old(Steps(ExecutorTask)) + [EListProcessing(rows)]
    {
      exec := Executing(CheckLinks, rows);
      Did(EListProcessing(rows));
    }

    method ExecutorEnds()
      requires Valid() && exec == Executing(CheckLinks, [])
      modifies this`exec, this`run
      ensures Valid() && exec.EIdle? && run == Stepped(old(run), EEnd, View())
      ensures Steps(ExecutorTask) == old(Steps(ExecutorTask)) + [EEnd]
    {
      exec := EIdle;
      Did(EEnd);
    }

    method SkipIfLinked(rest: seq<Listed>, existing: set<TxHash>)
      requires Valid() && exec == Executing(CheckLinks, rest) && rest != []
      requires existing != {} <==> IsLinked(Tables(), rest[0].id)
      modifies this`exec, this`run
      ensures Valid()
      ensures exec == if existing != {} then Executing(CheckLinks, rest[1..]) else Executing(Gate, rest)
      ensures Steps(ExecutorTask) == old(Steps(ExecutorTask)) + [ECheckLinks]
    {
      exec := if existing != {} then Executing(CheckLinks, rest[1..]) else Executing(Gate, rest);
      Did(ECheckLinks);
    }

    method TtlGate(rest: seq<Listed>) returns (past: bool)
      requires Valid() && exec == Executing(Gate, rest) && rest != []
      modifies this`exec, this`run
      ensures Valid() && (past <==> rest[0].ttl < clock)
      ensures exec == Executing(if past then MarkExpired else SubmitTx, rest)
      ensures Steps(ExecutorTask) == old(Steps(ExecutorTask)) + [EReadClock]
    {
      past := rest[0].ttl < clock;
      exec := Executing(if past then MarkExpired else SubmitTx, rest);
      Did(EReadClock);
    }

    method ExpireHead(rest: seq<Listed>) returns (ok: bool)
      requires Valid() && exec == Executing(MarkExpired, rest) && rest != []
      modifies this`bundles, this`exec, this`run, this`faults
      ensures Valid() && exec == if ok then Executing(CheckLinks, rest[1..]) else EIdle
      ensures Tables() == if ok then SetBundleStatus(old(Tables()), rest[0].id, Expired) else old(Tables())
      ensures Steps(ExecutorTask) == old(Steps(ExecutorTask)) + [if ok then EExpire else EAbort]
      ensures faults == old(faults) + if ok then 0 else 1
    {
      ok := SetStatus(rest[0].id, Expired);
      if ok {
        exec := Executing(CheckLinks, rest[1..]);
        Did(EExpire);
      } else {
        ExecutorGivesUp();
      }
    }

    method FailHead(rest: seq<Listed>) returns (ok: bool)
      requires Valid() && exec == Executing(MarkFailedStage, rest) && rest != []
      modifies this`bundles, this`exec, this`run, this`faults
      ensures Valid() && exec == if ok then Executing(CheckLinks, rest[1..]) else EIdle
      ensures Tables() == if ok then MarkFailed(old(Tables()), rest[0].id) else old(Tables())
      ensures Steps(ExecutorTask) == old(Steps(ExecutorTask)) + [if ok then EMarkFailed else EAbort]
      ensures faults == old(faults) + if ok then 0 else 1
    {
      ok := MarkBundleFailed(rest[0].id);
      if ok {
        exec := Executing(CheckLinks, rest[1..]);
        Did(EMarkFailed);
      } else {
        ExecutorGivesUp();
      }
    }

    /** Everything of `submit_one` up to the RPC's answer: a hash, or some failure. */
    method Send(rest: seq<Listed>) returns (sent: bool, hash: TxHash)
      requires Valid() && exec == Executing(SubmitTx, rest) && rest != []
      modifies this`exec, this`run
      ensures Valid() && exec == Executing(if sent then CreateTx(hash) else MarkFailedStage, rest)
      ensures Steps(ExecutorTask) == old(Steps(ExecutorTask)) + [if sent then ESubmitSends(hash) else ESubmitFails]
    {
      sent := *;
      hash := *;
      if sent {
        exec := Executing(CreateTx(hash), rest);
        Did(ESubmitSends(hash));
      } else {
        exec := Executing(MarkFailedStage, rest);
        Did(ESubmitFails);
      }
    }

    method StoreTx(hash: TxHash, rest: seq<Listed>) returns (ok: bool)
      requires Valid() && exec == Executing(CreateTx(hash), rest) && rest != []
      modifies this`txs, this`exec, this`run, this`faults
      ensures Valid() && exec == Executing(if ok then LinkTx(hash) else MarkFailedStage, rest)
      ensures Tables() == if ok then InsertTx(old(Tables()), hash, clock) else old(Tables())
      ensures Steps(ExecutorTask) == old(Steps(ExecutorTask)) + [if ok then ECreateTx else ECreateFails]
      ensures faults >= old(faults)
    {
      ok := CreateTransaction(hash);
      if ok {
        exec := Executing(LinkTx(hash), rest);
        Did(ECreateTx);
      } else {
        exec := Executing(MarkFailedStage, rest);
        Did(ECreateFails);
      }
    }

    method StoreLink(hash: TxHash, rest: seq<Listed>) returns (ok: bool)
      requires Valid() && exec == Executing(LinkTx(hash), rest) && rest != []
      modifies this`links, this`exec, this`run, this`faults
      ensures Valid()
      ensures exec == if ok then Executing(CheckLinks, rest[1..]) else Executing(MarkFailedStage, rest)
      ensures Tables() == if ok then InsertLink(old(Tables()), rest[0].id, hash) else old(Tables())
      ensures Steps(ExecutorTask) == old(Steps(ExecutorTask)) + [if ok then ELinkTx else ELinkFails]
      ensures faults >= old(faults)
    {
      ok := LinkTransaction(rest[0].id, hash);
      if ok {
        exec := Executing(CheckLinks, rest[1..]);
        Did(ELinkTx);
      } else {
        exec := Executing(MarkFailedStage, rest);
        Did(ELinkFails);
      }
    }

    /** The two INSERTs that follow a send. */
    method StoreAndLink(hash: TxHash, rest: seq<Listed>) returns (ok: bool, ghost o: Outcome)
      requires Valid() && exec == Executing(CreateTx(hash), rest) && rest != []
      modifies this
      ensures Valid() && mark == old(mark) && faults >= old(faults)
      ensures exec == if ok then Executing(CheckLinks, rest[1..]) else Executing(MarkFailedStage, rest)
      ensures if ok then o == Sent(hash) else o == NotStored(hash) || o == NotLinked(hash)
      ensures Steps(ExecutorTask) == old(Steps(ExecutorTask)) + AfterSend(o)
    {
      var created := StoreTx(hash, rest);
      if !created {
        return false, NotStored(hash);
      }
      Interfere(ExecutorTask);
      ok := StoreLink(hash, rest);
      o := if ok then Sent(hash) else NotLinked(hash);
    }

    /** `submit_one`: send, then INSERT the transaction, then INSERT its link. */
    method SubmitOne(rest: seq<Listed>) returns (ok: bool, ghost o: Outcome)
      requires Valid() && exec == Executing(SubmitTx, rest) && rest != []
      modifies this
      ensures Valid() && mark == old(mark) && faults >= old(faults)
      ensures exec == if ok then Executing(CheckLinks, rest[1..]) else Executing(MarkFailedStage, rest)
      ensures o.Sent? == ok && (!ok ==> o.NotSent? || o.NotStored? || o.NotLinked?)
      ensures Steps(ExecutorTask) == old(Steps(ExecutorTask)) + SubmitSteps(o)
    {
      var sent, hash := Send(rest);
      if !sent {
        return false, NotSent;
      }
      Interfere(ExecutorTask);
      ok, o := StoreAndLink(hash, rest);
    }

    /** Submit, and mark FAILED what could not be submitted. */
    method SubmitOrFail(rest: seq<Listed>) returns (ok: bool, ghost o: Outcome)
      requires Valid() && exec == Executing(SubmitTx, rest) && rest != []
      modifies this
      ensures Valid() && mark == old(mark) && faults >= old(faults) && (!ok ==> faults > old(faults))
      ensures exec == if ok then Executing(CheckLinks, rest[1..]) else EIdle
      ensures !o.Skipped? && !o.Late?
      ensures Steps(ExecutorTask) == old(Steps(ExecutorTask)) + Done(GatedSteps(o), ok)
    {
      ghost var base := Steps(ExecutorTask);
      ok, o := SubmitOne(rest);
      if !ok {
        Interfere(ExecutorTask);
        ok := FailHead(rest);
      }
      SubmissionDone(base, o, ok);
    }

    /** The gate, and whatever happens before the write or the submission that it leads to. */
    method CrossGate(rest: seq<Listed>) returns (past: bool)
      requires Valid() && exec == Executing(Gate, rest) && rest != []
      modifies this
      ensures Valid() && mark == old(mark) && faults == old(faults)
      ensures exec == Executing(if past then MarkExpired else SubmitTx, rest)
      ensures Steps(ExecutorTask) == old(Steps(ExecutorTask)) + [EReadClock]
    {
      Interfere(ExecutorTask);
      past := TtlGate(rest);
      Interfere(ExecutorTask);
    }

    /** The TTL gate: expire what is past it, submit the rest. */
    method PassGate(rest: seq<Listed>) returns (ok: bool, ghost o: Outcome)
      requires Valid() && exec == Executing(Gate, rest) && rest != []
      modifies this
      ensures Valid() && mark == old(mark) && faults >= old(faults) && (!ok ==> faults > old(faults))
      ensures exec == if ok then Executing(CheckLinks, rest[1..]) else EIdle
      ensures !o.Skipped?
      ensures Steps(ExecutorTask) == old(Steps(ExecutorTask)) + ([EReadClock] + Done(GatedSteps(o), ok))
    {
      ghost var base := Steps(ExecutorTask);
      var past := CrossGate(rest);
      if past {
        o := Late;
        ok := ExpireHead(rest);
        assert Done(GatedSteps(o), ok) == [if ok then EExpire else EAbort];
      } else {
        ok, o := SubmitOrFail(rest);
      }
      TwoStretches(base, [EReadClock], Done(GatedSteps(o), ok));
    }

    /** Whether the bundle in hand is linked, passing over it if so; None if that cannot be found out. */
    method FindLinks(rest: seq<Listed>) returns (linked: Option<bool>)
      requires Valid() && exec == Executing(CheckLinks, rest) && rest != []
      modifies this
      ensures Valid() && mark == old(mark) && faults == old(faults) + if linked.Some? then 0 else 1
      ensures linked.Some? ==> exec == if linked.value then Executing(CheckLinks, rest[1..]) else Executing(Gate, rest)
      ensures linked.None? ==> exec == EIdle
      ensures Steps(ExecutorTask) == old(Steps(ExecutorTask)) + [if linked.Some? then ECheckLinks else EAbort]
    {
      Interfere(ExecutorTask);
      var existing := ListTransactionsForBundle(rest[0].id);
      if existing.None? {
        ExecutorGivesUp();
        return None;
      }
      SkipIfLinked(rest, existing.value);
      return Some(existing.value != {});
    }

    /** One bundle of the executor's list: skip it if linked, expire it past its TTL, submit it. */
    method ExecuteOne(rest: seq<Listed>) returns (ok: bool, ghost o: Outcome)
      requires Valid() && exec == Executing(CheckLinks, rest) && rest != []
      modifies this
      ensures Valid() && mark == old(mark) && faults >= old(faults) && (!ok ==> faults > old(faults))
      ensures exec == if ok then Executing(CheckLinks, rest[1..]) else EIdle
      ensures Steps(ExecutorTask) == old(Steps(ExecutorTask)) + Done(OutcomeSteps(o), ok)
    {
      ghost var base := Steps(ExecutorTask);
      var linked := FindLinks(rest);
      ok, o := linked.Some?, Skipped;
      if linked.Some? && !linked.value {
        ok, o := PassGate(rest);
      }
      OutcomeMade(base, o, ok);
    }

    /** Every listed bundle in turn, up to the first that ends the tick. */
    method ExecuteAll(rows: seq<Listed>) returns (ok: bool, ghost os: seq<Outcome>)
      requires Valid() && exec == Executing(CheckLinks, rows)
      modifies this
      ensures Valid() && mark == old(mark) && (!ok ==> faults > old(faults))
      ensures exec == if ok then Executing(CheckLinks, []) else EIdle
      ensures if ok then |os| == |rows| else 0 < |os| <= |rows|
      ensures Steps(ExecutorTask) == old(Steps(ExecutorTask)) + DoneOutcomes(os, ok)
    {
      os := [];
      ghost var base, now := Steps(ExecutorTask), Steps(ExecutorTask);
      assert base + AllOutcomes([]) == base;
      ok := true;
      var i := 0;
      while i < |rows|
        invariant 0 <= i <= |rows| && |os| == i
        invariant Valid() && exec == Executing(CheckLinks, rows[i..]) && mark == old(mark) && faults >= old(faults)
        invariant Steps(ExecutorTask) == now == base + AllOutcomes(os)
      {
        ghost var o;
        ok, o := ExecuteOne(rows[i..]);
        now := now + Done(OutcomeSteps(o), ok);
        OutcomesGrow(base, os, o, ok);
        os := os + [o];
        if !ok {
          return;
        }
        i := i + 1;
      }
      ok := true;
    }

    /** An executor's tick begins. */
    method ListProcessing() returns (rows: Option<seq<Listed>>)
      requires Valid() && exec.EIdle?
      modifies this
      ensures Valid() && mark == old(run) && faults == old(faults) + if rows.Some? then 0 else 1
      ensures exec == if rows.Some? then Executing(CheckLinks, rows.value) else EIdle
      ensures Steps(ExecutorTask) == if rows.Some? then [EListProcessing(rows.value)] else []
    {
      mark := run;
      Interfere(ExecutorTask);
      rows := ListByStatus(Processing, capacity);
      if rows.Some? {
        ExecutorLists(rows.value);
      }
    }

    /** The executor's tick; only a statement that failed ends it early. */
    method ExecutorTick() returns (ok: bool, ghost rows: seq<Listed>, ghost os: seq<Outcome>)
      requires Valid() && exec.EIdle?
      modifies this
      ensures Valid() && exec.EIdle? && mark == old(run)
      ensures !ok ==> faults > old(faults)
      ensures ok ==> run.Stepped? && run.step == EEnd
      ensures ok ==> |os| == |rows| && Steps(ExecutorTask) == [EListProcessing(rows)] + DoneOutcomes(os, true) + [EEnd]
      ensures !ok ==> |os| <= |rows|
      ensures !ok ==> Steps(ExecutorTask) == if os == [] then [] else [EListProcessing(rows)] + DoneOutcomes(os, false)
    {
      rows, os := [], [];
      var processing := ListProcessing();
      if processing.None? {
        return false, rows, os;
      }
      rows := processing.value;
      ok, os := ExecuteAll(processing.value);
      if ok {
        ExecutorEnds();
      }
    }

    // ---- verifier tick ----

    method VerifierGivesUp()
      requires Valid() && !ver.VIdle?
      modifies this`ver, this`run
      ensures Valid() && ver.VIdle? && Steps(VerifierTask) == old(Steps(VerifierTask)) + [VAbort]
    {
      ver := VIdle;
      Did(VAbort);
    }

    method VerifierLists(hashes: seq<TxHash>)
      requires Valid() && ver.VIdle? && IsTxListing(Tables(), UNVERIFIED_LIMIT, hashes)
      modifies this`ver, this`run
      ensures Valid() && ver == Verifying(AskRpc, hashes)
      ensures Steps(VerifierTask) == old(Steps(VerifierTask)) + [VListUnverified(hashes)]
    {
      ver := Verifying(AskRpc, hashes);
      Did(VListUnverified(hashes));
    }

    method VerifierEnds()
      requires Valid() && ver == Verifying(AskRpc, [])
      modifies this`ver, this`run
      ensures Valid() && ver.VIdle? && run == Stepped(old(run), VEnd, View())
      ensures Steps(VerifierTask) == old(Steps(VerifierTask)) + [VEnd]
    {
      ver := VIdle;
      Did(VEnd);
    }

    method GetTransaction(rest: seq<TxHash>) returns (answer: RpcAnswer)
      requires Valid() && ver == Verifying(AskRpc, rest) && rest != []
      modifies this`ver, this`run
      ensures Valid()
      ensures ver == if answer.RpcError? then Verifying(AskRpc, rest[1..]) else Verifying(ListLinked(answer), rest)
      ensures Steps(VerifierTask) == old(Steps(VerifierTask)) + [VAnswer(answer)]
    {
      answer := *;
      ver := if answer.RpcError? then Verifying(AskRpc, rest[1..]) else Verifying(ListLinked(answer), rest);
      Did(VAnswer(answer));
    }

    method HoldBundles(answer: RpcAnswer, bids: seq<BundleId>, rest: seq<TxHash>)
      requires Valid() && ver == Verifying(ListLinked(answer), rest) && rest != []
      requires IsBundlesOf(Tables(), rest[0], bids)
      modifies this`ver, this`run
      ensures Valid()
      ensures ver == if answer.NotFound? then Verifying(AskRpc, rest[1..]) else Verifying(WriteTx(answer, bids), rest)
      ensures Steps(VerifierTask) == old(Steps(VerifierTask)) + [VListLinked(bids)]
    {
      ver := if answer.NotFound? then Verifying(AskRpc, rest[1..]) else Verifying(WriteTx(answer, bids), rest);
      Did(VListLinked(bids));
    }

    method SettleTx(answer: RpcAnswer, bids: seq<BundleId>, rest: seq<TxHash>) returns (ok: bool)
      requires Valid() && ver == Verifying(WriteTx(answer, bids), rest) && rest != []
      modifies this`txs, this`ver, this`run, this`faults
      ensures Valid() && ver == if ok then Verifying(WriteBundles(answer, bids), rest) else VIdle
      ensures Tables() == if ok then SetTxStatus(old(Tables()), rest[0], TxOutcome(answer)) else old(Tables())
      ensures Steps(VerifierTask) == old(Steps(VerifierTask)) + [if ok then VWriteTx else VAbort]
      ensures faults == old(faults) + if ok then 0 else 1
    {
      ok := SetTransactionStatus(rest[0], TxOutcome(answer));
      if ok {
        ver := Verifying(WriteBundles(answer, bids), rest);
        Did(VWriteTx);
      } else {
        VerifierGivesUp();
      }
    }

    method SettleBundle(answer: RpcAnswer, bids: seq<BundleId>, rest: seq<TxHash>) returns (ok: bool)
      requires Valid() && ver == Verifying(WriteBundles(answer, bids), rest) && rest != [] && bids != []
      modifies this`bundles, this`ver, this`run, this`faults
      ensures Valid() && ver == if ok then Verifying(WriteBundles(answer, bids[1..]), rest) else VIdle
      ensures Tables() == if ok then WriteOutcome(old(Tables()), bids[0], answer) else old(Tables())
      ensures Steps(VerifierTask) == old(Steps(VerifierTask)) + [if ok then VWriteBundle else VAbort]
      ensures faults == old(faults) + if ok then 0 else 1
    {
      if answer.Success? {
        ok := SetStatus(bids[0], Completed);
      } else {
        ok := MarkBundleFailed(bids[0]);
      }
      if ok {
        ver := Verifying(WriteBundles(answer, bids[1..]), rest);
        Did(VWriteBundle);
      } else {
        VerifierGivesUp();
      }
    }

    method VerifierMovesOn(answer: RpcAnswer, rest: seq<TxHash>)
      requires Valid() && ver == Verifying(WriteBundles(answer, []), rest) && rest != []
      modifies this`ver, this`run
      ensures Valid() && ver == Verifying(AskRpc, rest[1..])
      ensures Steps(VerifierTask) == old(Steps(VerifierTask)) + [VNextTx]
    {
      ver := Verifying(AskRpc, rest[1..]);
      Did(VNextTx);
    }

    method WriteNext(answer: RpcAnswer, bids: seq<BundleId>, rest: seq<TxHash>) returns (ok: bool)
      requires Valid() && ver == Verifying(WriteBundles(answer, bids), rest) && rest != [] && bids != []
      modifies this
      ensures Valid() && mark == old(mark) && faults == old(faults) + if ok then 0 else 1
      ensures ver == if ok then Verifying(WriteBundles(answer, bids[1..]), rest) else VIdle
      ensures Steps(VerifierTask) == old(Steps(VerifierTask)) + [if ok then VWriteBundle else VAbort]
    {
      Interfere(VerifierTask);
      ok := SettleBundle(answer, bids, rest);
    }

    /** The bundles of one settled transaction, one UPDATE each, given up at the first that fails. */
    method WriteOutcomes(answer: RpcAnswer, bids: seq<BundleId>, rest: seq<TxHash>) returns (ok: bool, ghost n: nat)
      requires Valid() && ver == Verifying(WriteBundles(answer, bids), rest) && rest != []
      modifies this
      ensures Valid() && mark == old(mark) && faults == old(faults) + if ok then 0 else 1
      ensures ver == if ok then Verifying(AskRpc, rest[1..]) else VIdle
      ensures if ok then n == |bids| else n < |bids|
      ensures Steps(VerifierTask)
          == old(Steps(VerifierTask)) + (Times(n, VWriteBundle) + [if ok then VNextTx else VAbort])
    {
      ghost var base, now := Steps(VerifierTask), Steps(VerifierTask);
      assert base + Times(0, VWriteBundle) == base;
      var i := 0;
      while i < |bids|
        invariant 0 <= i <= |bids|
        invariant Valid() && ver == Verifying(WriteBundles(answer, bids[i..]), rest)
        invariant mark == old(mark) && faults == old(faults)
        invariant Steps(VerifierTask) == now == base + Times(i, VWriteBundle)
      {
        var written := WriteNext(answer, bids[i..], rest);
        if !written {
          TwoStretches(base, Times(i, VWriteBundle), [VAbort]);
          return false, i;
        }
        now := now + [VWriteBundle];
        TimesGrow(base, i, VWriteBundle);
        i := i + 1;
      }
      assert bids[i..] == [];
      VerifierMovesOn(answer, rest);
      TwoStretches(base, Times(i, VWriteBundle), [VNextTx]);
      return true, i;
    }

    /** A final answer: the transaction's status, then its bundles'. */
    method Settle(answer: RpcAnswer, bids: seq<BundleId>, rest: seq<TxHash>) returns (ok: bool)
      requires Valid() && ver == Verifying(WriteTx(answer, bids), rest) && rest != []
      modifies this
      ensures Valid() && mark == old(mark) && faults == old(faults) + if ok then 0 else 1
      ensures ver == if ok then Verifying(AskRpc, rest[1..]) else VIdle
      ensures ok ==> Steps(VerifierTask) == old(Steps(VerifierTask)) + SettleSteps(bids)
    {
      ok := SettleTx(answer, bids, rest);
      if ok {
        ghost var n;
        ok, n := WriteOutcomes(answer, bids, rest);
      }
    }

    /** The bundles of an answered transaction, held for writing if the answer is final. */
    method FindBundles(answer: RpcAnswer, rest: seq<TxHash>) returns (bids: Option<seq<BundleId>>)
      requires Valid() && ver == Verifying(ListLinked(answer), rest) && rest != []
      modifies this
      ensures Valid() && mark == old(mark) && faults == old(faults) + if bids.Some? then 0 else 1
      ensures bids.Some? ==>
                ver == if answer.NotFound? then Verifying(AskRpc, rest[1..])
                    else Verifying(WriteTx(answer, bids.value), rest)
      ensures bids.None? ==> ver == VIdle
      ensures bids.Some? ==> Steps(VerifierTask) == old(Steps(VerifierTask)) + [VListLinked(bids.value)]
    {
      bids := ListBundlesForTransaction(rest[0]);
      if bids.Some? {
        HoldBundles(answer, bids.value, rest);
        Interfere(VerifierTask);
      } else {
        VerifierGivesUp();
      }
    }

    /** Look the bundles up, and settle what has a final answer. */
    method LookUpBundles(answer: RpcAnswer, rest: seq<TxHash>) returns (ok: bool, ghost bids: seq<BundleId>)
      requires Valid() && ver == Verifying(ListLinked(answer), rest) && rest != [] && !answer.RpcError?
      modifies this
      ensures Valid() && mark == old(mark) && faults == old(faults) + if ok then 0 else 1
      ensures ver == if ok then Verifying(AskRpc, rest[1..]) else VIdle
      ensures ok ==> Steps(VerifierTask) == old(Steps(VerifierTask)) + LookUpSteps(answer, bids)
    {
      ghost var base := Steps(VerifierTask);
      bids := [];
      var found := FindBundles(answer, rest);
      ok := found.Some?;
      if found.Some? {
        bids := found.value;
        if !answer.NotFound? {
          ok := Settle(answer, found.value, rest);
        }
      }
      TwoStretches(base, [VListLinked(bids)], SettleSteps(bids));
    }

    method Ask(rest: seq<TxHash>) returns (answer: RpcAnswer)
      requires Valid() && ver == Verifying(AskRpc, rest) && rest != []
      modifies this
      ensures Valid() && mark == old(mark) && faults == old(faults)
      ensures ver == if answer.RpcError? then Verifying(AskRpc, rest[1..]) else Verifying(ListLinked(answer), rest)
      ensures Steps(VerifierTask) == old(Steps(VerifierTask)) + [VAnswer(answer)]
    {
      Interfere(VerifierTask);
      answer := GetTransaction(rest);
      Interfere(VerifierTask);
    }

    /** One transaction of the verifier's list. */
    method VerifyOne(rest: seq<TxHash>) returns (ok: bool, ghost a: Answered)
      requires Valid() && ver == Verifying(AskRpc, rest) && rest != []
      modifies this
      ensures Valid() && mark == old(mark) && faults == old(faults) + if ok then 0 else 1
      ensures ver == if ok then Verifying(AskRpc, rest[1..]) else VIdle
      ensures ok ==> Steps(VerifierTask) == old(Steps(VerifierTask)) + AnswerSteps(a)
    {
      ghost var base := Steps(VerifierTask);
      var answer := Ask(rest);
      ghost var bids := [];
      ok := true;
      if !answer.RpcError? {
        ok, bids := LookUpBundles(answer, rest);
      }
      a := Answered(answer, bids);
      AnswerMade(base, a);
    }

    /** Every listed transaction in turn, up to the first that ends the tick. */
    method VerifyAll(hashes: seq<TxHash>) returns (ok: bool, ghost answers: seq<Answered>)
      requires Valid() && ver == Verifying(AskRpc, hashes)
      modifies this
      ensures Valid() && mark == old(mark) && faults == old(faults) + if ok then 0 else 1
      ensures ver == if ok then Verifying(AskRpc, []) else VIdle
      ensures ok ==> |answers| == |hashes| && Steps(VerifierTask) == old(Steps(VerifierTask)) + AllAnswers(answers)
    {
      answers := [];
      ghost var base, now := Steps(VerifierTask), Steps(VerifierTask);
      assert base + AllAnswers([]) == base;
      var i := 0;
      while i < |hashes|
        invariant 0 <= i <= |hashes| && |answers| == i
        invariant Valid() && ver == Verifying(AskRpc, hashes[i..]) && mark == old(mark) && faults == old(faults)
        invariant Steps(VerifierTask) == now == base + AllAnswers(answers)
      {
        var done;
        ghost var a;
        done, a := VerifyOne(hashes[i..]);
        if !done {
          return false, answers;
        }
        now := now + AnswerSteps(a);
        AnswersGrow(base, answers, a);
        answers := answers + [a];
        i := i + 1;
      }
      return true, answers;
    }

    /** A verifier's tick begins. */
    method ListToVerify() returns (hashes: Option<seq<TxHash>>)
      requires Valid() && ver.VIdle?
      modifies this
      ensures Valid() && mark == old(run) && faults == old(faults) + if hashes.Some? then 0 else 1
      ensures ver == if hashes.Some? then Verifying(AskRpc, hashes.value) else VIdle
      ensures Steps(VerifierTask) == if hashes.Some? then [VListUnverified(hashes.value)] else []
      ensures hashes.Some? ==> IsTxListing(Tables(), 64, hashes.value)
    {
      mark := run;
      Interfere(VerifierTask);
      hashes := ListUnverified(UNVERIFIED_LIMIT);
      if hashes.Some? {
        VerifierLists(hashes.value);
      }
    }

    /** The verifier's tick; only a statement that failed ends it early. */
    method VerifierTick() returns (ok: bool, ghost hashes: seq<TxHash>, ghost answers: seq<Answered>)
      requires Valid() && ver.VIdle?
      modifies this
      ensures Valid() && ver.VIdle? && mark == old(run)
      ensures ok <==> faults == old(faults)
      ensures ok ==> run.Stepped? && run.step == VEnd
      ensures ok ==> |answers| == |hashes|
      ensures ok ==> Steps(VerifierTask) == [VListUnverified(hashes)] + AllAnswers(answers) + [VEnd]
    {
      hashes, answers := [], [];
      var unverified := ListToVerify();
      if unverified.None? {
        return false, hashes, answers;
      }
      hashes := unverified.value;
      ok, answers := VerifyAll(unverified.value);
      if ok {
        VerifierEnds();
      }
    }
  }

  lemma SubmissionDone(base: seq<Step>, o: Outcome, ok: bool)
    requires !o.Skipped? && !o.Late?
    ensures o.Sent? ==> base + SubmitSteps(o) == base + Done(GatedSteps(o), true)
    ensures !o.Sent? ==>
              (base + SubmitSteps(o)) + [if ok then EMarkFailed else EAbort] == base + Done(GatedSteps(o), ok)
  {}

  lemma DoneFromHead(st: Step, rest: seq<Step>, ok: bool)
    requires rest != []
    ensures Done([st] + rest, ok) == [st] + Done(rest, ok)
  {
    assert ([st] + rest)[..|rest|] == [st] + rest[..|rest| - 1];
  }

  lemma TwoStretches(base: seq<Step>, a: seq<Step>, b: seq<Step>)
    ensures (base + a) + b == base + (a + b)
  {}

  lemma TimesGrow(base: seq<Step>, n: nat, st: Step)
    ensures (base + Times(n, st)) + [st] == base + Times(n + 1, st)
  {
    assert Times(n + 1, st) == Times(n, st) + [st];
    TwoStretches(base, Times(n, st), [st]);
  }

  lemma OutcomeMade(base: seq<Step>, o: Outcome, ok: bool)
    ensures o.Skipped? ==> base + [if ok then ECheckLinks else EAbort] == base + Done(OutcomeSteps(o), ok)
    ensures !o.Skipped? ==>
              (base + [ECheckLinks]) + ([EReadClock] + Done(GatedSteps(o), ok)) == base + Done(OutcomeSteps(o), ok)
  {
    if !o.Skipped? {
      DoneFromHead(EReadClock, GatedSteps(o), ok);
      DoneFromHead(ECheckLinks, [EReadClock] + GatedSteps(o), ok);
      TwoStretches(base, [ECheckLinks], [EReadClock] + Done(GatedSteps(o), ok));
    }
  }

  lemma AnswerMade(base: seq<Step>, a: Answered)
    ensures a.answer.RpcError? ==> base + [VAnswer(a.answer)] == base + AnswerSteps(a)
    ensures !a.answer.RpcError? ==>
              (base + [VAnswer(a.answer)]) + LookUpSteps(a.answer, a.bids) == base + AnswerSteps(a)
  {}

  lemma OutcomesGrow(base: seq<Step>, os: seq<Outcome>, o: Outcome, ok: bool)
    ensures (base + AllOutcomes(os)) + Done(OutcomeSteps(o), ok) == base + DoneOutcomes(os + [o], ok)
  {
    assert (os + [o])[..|os|] == os;
    assert DoneOutcomes(os + [o], ok) == AllOutcomes(os) + Done(OutcomeSteps(o), ok);
    TwoStretches(base, AllOutcomes(os), Done(OutcomeSteps(o), ok));
  }

  lemma AnswersGrow(base: seq<Step>, answers: seq<Answered>, a: Answered)
    ensures base + AllAnswers(answers + [a]) == (base + AllAnswers(answers)) + AnswerSteps(a)
  {
    assert (answers + [a])[..|answers|] == answers;
  }

  /** Whatever the loops and the rest of the system have done together, the ownership invariant and
      the slot capacity hold of the state they leave. */
  lemma LoopsAreSafe(capacity: nat, r: Record, bound: nat)
    requires ValidRecord(capacity, r) && capacity <= bound && |InProcessing(StatesOf(r)[0].db)| <= bound
    ensures Inv(r.last) && |InProcessing(r.last.db)| <= bound
  {
    RecordIsRun(capacity, r);
    InvThroughout(capacity, StatesOf(r), StepsOf(r), |StepsOf(r)|);
    CapacityRespected(capacity, StatesOf(r), StepsOf(r), |StepsOf(r)|, bound);
  }

  /** The next step of the executor after step `i` is step `j`. */
  ghost predicate NextOfExecutor(steps: seq<Step>, i: nat, j: nat) {
    && i < j < |steps| && TaskOf(steps[i]).ExecutorTask? && TaskOf(steps[j]).ExecutorTask?
    && forall k :: i < k < j ==> !TaskOf(steps[k]).ExecutorTask?
  }

  lemma {:induction false} ExecutorWaits(capacity: nat, states: seq<State>, steps: seq<Step>, i: nat, j: nat)
    requires IsRun(capacity, states, steps) && i < j <= |steps|
    requires forall k :: i < k < j ==> !TaskOf(steps[k]).ExecutorTask?
    ensures states[j].exec == states[i + 1].exec
    decreases j
  {
    if j > i + 1 { ExecutorWaits(capacity, states, steps, i, j - 1); }
  }

  /** Each outcome is the one that is due, whatever the other tasks do meanwhile: a bundle is passed over
      exactly if it was linked when looked up, and past the gate expired exactly if its TTL had passed
      when the clock was read, unless the executor stops there. */
  lemma OutcomesAreDue(capacity: nat, states: seq<State>, steps: seq<Step>, i: nat, j: nat)
    requires IsRun(capacity, states, steps) && NextOfExecutor(steps, i, j) && !steps[j].EAbort?
    ensures steps[i].ECheckLinks? ==> (steps[j].EReadClock? <==> !IsLinked(states[i].db, states[i].exec.rest[0].id))
    ensures steps[i].ECheckLinks? && !steps[j].EReadClock? ==> steps[j].ECheckLinks? || steps[j].EEnd?
    ensures steps[i].EReadClock? ==> (steps[j].EExpire? <==> states[i].exec.rest[0].ttl < states[i].now)
    ensures steps[i].EReadClock? && !steps[j].EExpire? ==> steps[j].ESubmitSends? || steps[j].ESubmitFails?
  {
    ExecutorWaits(capacity, states, steps, i, j);
  }

  lemma MoreListed(rows: seq<Listed>, r: Listed)
    ensures forall b :: Lists(rows + [r], b) <==> Lists(rows, b) || r.id == b
  {
    forall b ensures Lists(rows + [r], b) <==> Lists(rows, b) || r.id == b {
      if r.id == b { assert (rows + [r])[|rows|].id == b; }
      if Lists(rows, b) {
        var i :| 0 <= i < |rows| && rows[i].id == b;
        assert (rows + [r])[i].id == b;
      }
    }
  }

  /** Sorting all rows of a status newest first and cutting gives a listing of it. */
  lemma SortedListing(db: Db, status: BundleStatus, limit: nat, found: seq<Listed>, rows: seq<Listed>)
    requires AllStill(db, found, status)
    requires forall b :: b in db.bundles && db.bundles[b].status == status ==> Lists(found, b)
    requires var sorted := Sort(found, Newest()); rows == if limit < |sorted| then sorted[..limit] else sorted
    ensures IsListing(db, status, limit, rows)
  {
    var sorted := Sort(found, Newest());
    assert TotalPreorder(Newest());
    SortSorts(found, Newest());
    PermutationKeeps(db, found, sorted, status);
    forall b | b in db.bundles && db.bundles[b].status == status ensures Lists(sorted, b) {
      PermutationLists(found, sorted, b);
    }
    CutListing(db, status, limit, sorted, rows);
  }

  /** The newest `limit` of all rows of a status are a listing of it. */
  lemma CutListing(db: Db, status: BundleStatus, limit: nat, sorted: seq<Listed>, rows: seq<Listed>)
    requires AllStill(db, sorted, status) && SortedBy(sorted, Newest())
    requires forall b :: b in db.bundles && db.bundles[b].status == status ==> Lists(sorted, b)
    requires rows == if limit < |sorted| then sorted[..limit] else sorted
    ensures IsListing(db, status, limit, rows)
  {
    forall i, j | 0 <= i < j < |sorted| ensures sorted[j].createdAt <= sorted[i].createdAt {
      assert Newest()(sorted[i], sorted[j]);
    }
    forall b | b in db.bundles && db.bundles[b].status == status && !Lists(rows, b)
      ensures |rows| == limit && forall i :: 0 <= i < |rows| ==> db.bundles[b].createdAt <= rows[i].createdAt {
      var m :| 0 <= m < |sorted| && sorted[m].id == b;
      assert HasStatus(db, sorted[m], status);
    }
  }

  /** Sorting the unverified transactions oldest first and cutting gives a listing of them. */
  lemma SortedTxListing(db: Db, limit: nat, found: seq<TxHash>, hs: seq<TxHash>)
    requires DistinctHashes(found) && forall h :: h in found <==> h in db.txs && db.txs[h].status.Unverified?
    requires var sorted := Sort(found, OldestTx(db.txs)); hs == if limit < |sorted| then sorted[..limit] else sorted
    ensures IsTxListing(db, limit, hs)
  {
    var sorted := Sort(found, OldestTx(db.txs));
    assert TotalPreorder(OldestTx(db.txs));
    SortSorts(found, OldestTx(db.txs));
    DistinctHashesByMultiset(found, sorted);
    forall h ensures h in sorted <==> h in found {
      assert h in sorted <==> h in multiset(sorted);
      assert h in found <==> h in multiset(found);
    }
    CutTxListing(db, limit, sorted, hs);
  }

  /** The oldest `limit` of all unverified transactions are a listing of them. */
  lemma CutTxListing(db: Db, limit: nat, sorted: seq<TxHash>, hs: seq<TxHash>)
    requires SortedBy(sorted, OldestTx(db.txs)) && DistinctHashes(sorted)
    requires forall h :: h in sorted <==> h in db.txs && db.txs[h].status.Unverified?
    requires hs == if limit < |sorted| then sorted[..limit] else sorted
    ensures IsTxListing(db, limit, hs)
  {
    forall i | 0 <= i < |sorted| ensures sorted[i] in db.txs && db.txs[sorted[i]].status.Unverified? {
      assert sorted[i] in sorted;
    }
    forall i, j | 0 <= i < j < |sorted| ensures db.txs[sorted[i]].createdAt <= db.txs[sorted[j]].createdAt {
      assert OldestTx(db.txs)(sorted[i], sorted[j]);
    }
    forall h | h in db.txs && db.txs[h].status.Unverified? && h !in hs
      ensures |hs| == limit && forall i :: 0 <= i < |hs| ==> db.txs[hs[i]].createdAt <= db.txs[h].createdAt {
      var m :| 0 <= m < |sorted| && sorted[m] == h;
    }
  }

  lemma {:induction false} DistinctHashesByMultiset(found: seq<TxHash>, sorted: seq<TxHash>)
    requires DistinctHashes(found) && multiset(sorted) == multiset(found)
    ensures DistinctHashes(sorted)
  {
    SingleHashes(found);
    forall i, j | 0 <= i < j < |sorted| ensures sorted[i] != sorted[j] {
      if sorted[i] == sorted[j] { TwoHashes(sorted, i, j); }
    }
  }

  lemma TwoHashes(hs: seq<TxHash>, i: nat, j: nat)
    requires i < j < |hs| && hs[i] == hs[j]
    ensures multiset(hs)[hs[i]] >= 2
  {
    assert hs == hs[..i] + [hs[i]] + hs[i + 1..j] + [hs[j]] + hs[j + 1..];
  }

  lemma {:induction false} SingleHashes(hs: seq<TxHash>)
    requires DistinctHashes(hs)
    ensures forall h :: multiset(hs)[h] <= 1
  {
    if hs != [] {
      SingleHashes(hs[1..]);
      assert hs == [hs[0]] + hs[1..];
      forall h ensures multiset(hs)[h] <= 1 {
        if multiset(hs[1..])[h] > 0 { assert h in hs[1..]; }
      }
    }
  }
}

/** The batched gap scan over an email's holding keys, with requests and payments interleaved.
    A scan reads its batches one by one while the chain moves on; payers create UTXOs only on keys
    that some request handed out. */
module HoldingScan {
  import opened Wrappers
  import opened ScVals
  import opened HoldingKeys

  const SCAN_BATCH: nat := 20
  const SCAN_CAP: nat := 200
  const MAX_TARGETS: nat := 10

  /** On-chain balances by key index; a key that never existed has none and reads as -1. */
  type Chain = map<nat, nat>

  function Balance(chain: Chain, i: nat): int { if i in chain then chain[i] else -1 }

  function Batch(chain: Chain, from: nat): (batch: seq<int>)
    ensures |batch| == SCAN_BATCH && forall o :: 0 <= o < SCAN_BATCH ==> batch[o] == Balance(chain, from + o)
  {
    seq(SCAN_BATCH, o requires 0 <= o => Balance(chain, from + o))
  }

  predicate AllUnused(batch: seq<int>) { forall o :: 0 <= o < |batch| ==> batch[o] == -1 }

  /** The last batch read was wholly unused. */
  predicate SawUnusedBatch(seen: seq<int>) {
    |seen| >= SCAN_BATCH && forall j :: |seen| - SCAN_BATCH <= j < |seen| ==> seen[j] == -1
  }

  predicate Finished(seen: seq<int>) { |seen| >= SCAN_CAP || SawUnusedBatch(seen) }

  /** The indices that read as never used, in order. */
  function Free(seen: seq<int>): seq<nat> {
    if seen == [] then []
    else Free(seen[..|seen| - 1]) + if seen[|seen| - 1] == -1 then [|seen| - 1] else []
  }

  /** The indices that read as funded, with their balances, in order. */
  function Held(seen: seq<int>): seq<(nat, int)> {
    if seen == [] then []
    else Held(seen[..|seen| - 1]) + if seen[|seen| - 1] > 0 then [(|seen| - 1, seen[|seen| - 1])] else []
  }

  /** `unwrap_or(1).clamp(1, MAX_TARGETS)` */
  function Count(asked: Option<nat>): (n: nat)
    ensures 1 <= n <= 10
    ensures asked == None ==> n == 1
    ensures asked.Some? && 1 <= asked.value <= 10 ==> n == asked.value
    ensures asked.Some? && !(1 <= asked.value <= 10) ==> n == if asked.value == 0 then 1 else 10
  {
    var n := if asked.Some? then asked.value else 1;
    if n < 1 then 1 else if n > MAX_TARGETS then MAX_TARGETS else n
  }

  function Targets(seen: seq<int>, count: nat): Option<seq<nat>> {
    if |Free(seen)| < count then None else Some(Free(seen)[..count])
  }

  // ---- the scan itself ----

  /** The chain each batch is answered from, by the batch's first index; none if the RPC fails. */
  type Answers = map<nat, Chain>

  /** The whole batch of keys from an index derives. */
  ghost predicate Derives(derive: Derivation, from: nat) {
    forall k :: from <= k < from + SCAN_BATCH ==> derive(k).Some?
  }

  /** The balances read from `index` on: up to the first wholly unused batch, or the cap. */
  ghost function ScanFrom(derive: Derivation, answers: Answers, index: nat): (seen: Option<seq<int>>)
    decreases SCAN_CAP - index
  {
    if index >= SCAN_CAP then Some([])
    else if index !in answers || !Derives(derive, index) then None
    else
      var batch := Batch(answers[index], index);
      if AllUnused(batch) then Some(batch) else Prepend(batch, ScanFrom(derive, answers, index + SCAN_BATCH))
  }

  ghost function Prepend(batch: seq<int>, rest: Option<seq<int>>): Option<seq<int>> {
    match rest
    case None => None
    case Some(seen) => Some(batch + seen)
  }

  datatype Row = Row(index: nat, key: seq<byte>, balance: int)

  /** Rows in index order, each with its own key, whose balances are `seen`. */
  ghost predicate RowsOf(rows: seq<Row>, derive: Derivation, seen: seq<int>) {
    && |rows| == |seen|
    && forall i :: 0 <= i < |rows| ==>
         derive(i) == Some(rows[i].key) && rows[i].index == i && rows[i].balance == seen[i]
  }

  /** Scan batch by batch until one is wholly unused or the cap is reached. */
  method ScanHolding(derive: Derivation, answers: Answers) returns (r: Option<seq<Row>>)
    ensures r.None? <==> ScanFrom(derive, answers, 0).None?
    ensures r.Some? ==> RowsOf(r.value, derive, ScanFrom(derive, answers, 0).value)
  {
    var out: seq<Row> := [];
    var index := 0;
    ghost var seen: seq<int>, whole := [], ScanFrom(derive, answers, 0);
    assert whole.Some? ==> [] + whole.value == whole.value;
    while index < SCAN_CAP
      invariant |seen| == index && RowsOf(out, derive, seen)
      invariant whole == Prepend(seen, ScanFrom(derive, answers, index))
      decreases SCAN_CAP - index
    {
      ScanOneMore(derive, answers, index, seen);
      var batch := DeriveBatch(derive, index);
      if batch.None? || index !in answers {
        return None;
      }
      var balances := Batch(answers[index], index);
      out := AppendRows(out, batch.value, balances, derive, seen);
      index, seen := index + SCAN_BATCH, seen + balances;
      if AllUnused(balances) {
        return Some(out);
      }
    }
    assert seen + [] == seen;
    return Some(out);
  }

  lemma PrependTwice(a: seq<int>, b: seq<int>, rest: Option<seq<int>>)
    ensures Prepend(a, Prepend(b, rest)) == Prepend(a + b, rest)
  {
    if rest.Some? { assert a + (b + rest.value) == (a + b) + rest.value; }
  }

  lemma ScanOneMore(derive: Derivation, answers: Answers, index: nat, seen: seq<int>)
    requires index < SCAN_CAP
    ensures var whole := Prepend(seen, ScanFrom(derive, answers, index));
      if index !in answers || !Derives(derive, index) then whole == None
      else
        var batch := Batch(answers[index], index);
        if AllUnused(batch) then whole == Some(seen + batch)
        else whole == Prepend(seen + batch, ScanFrom(derive, answers, index + SCAN_BATCH))
  {
    if index in answers && Derives(derive, index) {
      PrependTwice(seen, Batch(answers[index], index), ScanFrom(derive, answers, index + SCAN_BATCH));
    }
  }

  method DeriveBatch(derive: Derivation, from: nat) returns (batch: Option<seq<seq<byte>>>)
    ensures batch.Some? <==> Derives(derive, from)
    ensures batch.Some? ==> |batch.value| == 20
    ensures batch.Some? ==> forall o :: 0 <= o < 20 ==> derive(from + o) == Some(batch.value[o])
  {
    var keys: seq<seq<byte>> := [];
    for o := 0 to SCAN_BATCH
      invariant |keys| == o && forall k :: 0 <= k < o ==> derive(from + k) == Some(keys[k])
    {
      var key := derive(from + o);
      if key.None? {
        return None;
      }
      keys := keys + [key.value];
    }
    forall k | from <= k < from + SCAN_BATCH ensures derive(k).Some? {
      assert derive(from + (k - from)) == Some(keys[k - from]);
    }
    return Some(keys);
  }

  method AppendRows(rows: seq<Row>, batch: seq<seq<byte>>, balances: seq<int>, derive: Derivation, ghost seen: seq<int>)
    returns (out: seq<Row>)
    requires RowsOf(rows, derive, seen) && |batch| == |balances|
    requires forall o :: 0 <= o < |batch| ==> derive(|rows| + o) == Some(batch[o])
    ensures RowsOf(out, derive, seen + balances)
  {
    out := rows;
    for o := 0 to |batch|
      invariant RowsOf(out, derive, seen + balances[..o])
    {
      out := out + [Row(|rows| + o, batch[o], balances[o])];
    }
    assert balances[..|batch|] == balances;
  }

  // ---- the world the scans run in ----

  datatype Request = GetTargets(count: Option<nat>) | GetHeld

  /** A scan in flight: the balances read so far. For the record it also keeps the chains they were
      read from and the keys that existed when it began. */
  datatype Scan = Scan(request: Request, seen: seq<int>, answers: Answers, usedAtStart: set<nat>)

  /** `handed` collects every index ever handed out. */
  datatype World = World(chain: Chain, handed: set<nat>, scans: map<nat, Scan>)

  datatype Step =
    | Begin(id: nat, request: Request)
    | Read(id: nat)
    | Finish(id: nat)
    | Abort(id: nat)
    | Create(index: nat, amount: nat)
    | Move(index: nat, amount: nat)

  function Next(w: World, step: Step): Option<World> {
    match step
    case Begin(id, request) =>
      if id in w.scans then None
      else Some(w.(scans := w.scans[id := Scan(request, [], map[], w.chain.Keys)]))
    case Read(id) =>
      if id !in w.scans || Finished(w.scans[id].seen) then None
      else
        var s := w.scans[id];
        var read := s.(seen := s.seen + Batch(w.chain, |s.seen|), answers := s.answers[|s.seen| := w.chain]);
        Some(w.(scans := w.scans[id := read]))
    case Finish(id) =>
      if id !in w.scans || !Finished(w.scans[id].seen) then None
      else
        var s := w.scans[id];
        Some(w.(scans := w.scans - {id}, handed := w.handed + HandedBy(s)))
    case Abort(id) => Some(w.(scans := w.scans - {id}))
    case Create(i, amount) =>
      if i !in w.handed || i in w.chain then None else Some(w.(chain := w.chain[i := amount]))
    case Move(i, amount) =>
      if i !in w.chain then None else Some(w.(chain := w.chain[i := amount]))
  }

  /** The indices a finished request hands out. */
  function HandedBy(s: Scan): set<nat> {
    match s.request
    case GetHeld => {}
    case GetTargets(count) =>
      var targets := Targets(s.seen, Count(count));
      if targets.None? then {} else set i | i in targets.value
  }

  const START := World(map[], {}, map[])

  function Run(steps: seq<Step>): Option<World> {
    if steps == [] then Some(START)
    else
      match Run(steps[..|steps| - 1])
      case None => None
      case Some(w) => Next(w, steps[|steps| - 1])
  }

  // ---- gaps ----

  /** How many indices below `n` are unused. */
  function Gaps(used: set<nat>, n: nat): nat {
    if n == 0 then 0 else Gaps(used, n - 1) + if n - 1 in used then 0 else 1
  }

  lemma {:induction false} GapsShrink(used: set<nat>, more: set<nat>, n: nat)
    requires used <= more
    ensures Gaps(more, n) <= Gaps(used, n)
  {
    if n > 0 { GapsShrink(used, more, n - 1); }
  }

  lemma {:induction false} GapsGrow(used: set<nat>, a: nat, b: nat)
    requires a <= b
    ensures Gaps(used, a) <= Gaps(used, b)
    ensures (forall j :: a <= j < b ==> j !in used) ==> Gaps(used, b) == Gaps(used, a) + b - a
  {
    if a < b { GapsGrow(used, a, b - 1); }
  }

  ghost predicate FewGaps(chain: Chain, handed: set<nat>) {
    && chain.Keys <= handed
    && forall i :: i in handed ==> Gaps(chain.Keys, i) < MAX_TARGETS
  }

  /** Past a wholly unused batch no key exists. */
  lemma UnusedBatchIsPast(chain: Chain, handed: set<nat>, b: nat)
    requires FewGaps(chain, handed)
    requires forall j :: b <= j < b + SCAN_BATCH ==> j !in chain
    ensures forall i :: i in chain ==> i < b
  {
    GapsGrow(chain.Keys, b, b + SCAN_BATCH);
    forall i | i in chain ensures i < b {
      assert i in handed;
      if b + SCAN_BATCH <= i { GapsGrow(chain.Keys, b + SCAN_BATCH, i); }
    }
  }

  /** What read as used, and more, is used. */
  ghost predicate ReadsAreUsed(seen: seq<int>, used: set<nat>) {
    forall j :: 0 <= j < |seen| && seen[j] != -1 ==> j in used
  }

  /** The k-th index read as unused has at most k unused ones below it, whatever was used since. */
  lemma {:induction false} FreeRank(seen: seq<int>, used: set<nat>)
    requires ReadsAreUsed(seen, used)
    ensures Gaps(used, |seen|) <= |Free(seen)|
    ensures forall k :: 0 <= k < |Free(seen)| ==> Free(seen)[k] < |seen| && Gaps(used, Free(seen)[k]) <= k
  {
    if seen != [] { FreeRank(seen[..|seen| - 1], used); }
  }

  // ---- the invariant of every run ----

  ghost predicate ScanOk(s: Scan, used: set<nat>) {
    && |s.seen| % SCAN_BATCH == 0
    && s.usedAtStart <= used
    && ReadsAreUsed(s.seen, used)
    && (forall i :: i in s.usedAtStart && i < |s.seen| ==> s.seen[i] >= 0)
    && (SawUnusedBatch(s.seen) ==> forall i :: i in s.usedAtStart ==> i < |s.seen|)
  }

  ghost predicate Inv(w: World) {
    && FewGaps(w.chain, w.handed)
    && forall id :: id in w.scans ==> ScanOk(w.scans[id], w.chain.Keys)
  }

  lemma ReadKeeps(s: Scan, chain: Chain, handed: set<nat>)
    requires FewGaps(chain, handed) && ScanOk(s, chain.Keys)
    ensures ScanOk(s.(seen := s.seen + Batch(chain, |s.seen|), answers := s.answers[|s.seen| := chain]), chain.Keys)
  {
    var b := |s.seen|;
    var seen := s.seen + Batch(chain, b);
    forall j | b <= j < b + SCAN_BATCH ensures seen[j] == Balance(chain, j) {
      assert seen[j] == Batch(chain, b)[j - b];
    }
    if SawUnusedBatch(seen) {
      forall j | b <= j < b + SCAN_BATCH ensures j !in chain { assert seen[j] == -1; }
      UnusedBatchIsPast(chain, handed, b);
    }
  }

  lemma HandingOutKeeps(s: Scan, chain: Chain, handed: set<nat>)
    requires FewGaps(chain, handed) && ScanOk(s, chain.Keys)
    ensures FewGaps(chain, handed + HandedBy(s))
  {
    FreeRank(s.seen, chain.Keys);
  }

  lemma ChainGrowthKeeps(chain: Chain, handed: set<nat>, i: nat, amount: nat)
    requires FewGaps(chain, handed) && i in handed
    ensures FewGaps(chain[i := amount], handed)
  {
    forall j | j in handed ensures Gaps(chain[i := amount].Keys, j) < MAX_TARGETS {
      GapsShrink(chain.Keys, chain[i := amount].Keys, j);
    }
  }

  lemma StepKeepsInv(w: World, step: Step)
    requires Inv(w) && Next(w, step).Some?
    ensures Inv(Next(w, step).value)
  {
    match step
    case Read(id) => ReadKeeps(w.scans[id], w.chain, w.handed);
    case Finish(id) => HandingOutKeeps(w.scans[id], w.chain, w.handed);
    case Create(i, amount) => ChainGrowthKeeps(w.chain, w.handed, i, amount);
    case Move(i, amount) => ChainGrowthKeeps(w.chain, w.handed, i, amount);
    case _ =>
  }

  lemma {:induction false} InvThroughout(steps: seq<Step>)
    requires Run(steps).Some?
    ensures Inv(Run(steps).value)
  {
    if steps != [] {
      InvThroughout(steps[..|steps| - 1]);
      StepKeepsInv(Run(steps[..|steps| - 1]).value, steps[|steps| - 1]);
    }
  }

  // ---- a scan in flight is the scan above, interrupted ----

  /** `seen` is what a scan has read from `index` on, batch by batch, without stopping early. */
  ghost predicate Reads(answers: Answers, index: nat, seen: seq<int>)
    decreases |seen|
  {
    seen == [] || (
      && |seen| >= SCAN_BATCH && index < SCAN_CAP && index in answers
      && seen[..SCAN_BATCH] == Batch(answers[index], index)
      && (|seen| == SCAN_BATCH
          || (!AllUnused(seen[..SCAN_BATCH]) && Reads(answers, index + SCAN_BATCH, seen[SCAN_BATCH..]))))
  }

  lemma {:induction false} ReadsOneMore(answers: Answers, index: nat, seen: seq<int>, chain: Chain)
    requires Reads(answers, index, seen) && index + |seen| < SCAN_CAP && !SawUnusedBatch(seen)
    ensures Reads(answers[index + |seen| := chain], index, seen + Batch(chain, index + |seen|))
    decreases |seen|
  {
    var batch := Batch(chain, index + |seen|);
    if seen == [] {
      assert (seen + batch)[..SCAN_BATCH] == batch;
    } else {
      assert (seen + batch)[..SCAN_BATCH] == seen[..SCAN_BATCH];
      assert (seen + batch)[SCAN_BATCH..] == seen[SCAN_BATCH..] + batch;
      ReadsOneMore(answers, index + SCAN_BATCH, seen[SCAN_BATCH..], chain);
    }
  }

  lemma {:induction false} FinishedReads(derive: Derivation, answers: Answers, index: nat, seen: seq<int>)
    requires Reads(answers, index, seen) && (index + |seen| >= SCAN_CAP || SawUnusedBatch(seen))
    requires forall k: nat :: derive(k).Some?
    ensures ScanFrom(derive, answers, index) == Some(seen)
    decreases |seen|
  {
    if seen != [] {
      var batch, rest := seen[..SCAN_BATCH], seen[SCAN_BATCH..];
      assert seen == batch + rest;
      if rest != [] {
        FinishedReads(derive, answers, index + SCAN_BATCH, rest);
      } else {
        assert batch == seen;
        assert AllUnused(batch) || !SawUnusedBatch(seen);
        assert index + SCAN_BATCH >= SCAN_CAP ==> ScanFrom(derive, answers, index + SCAN_BATCH) == Some([]);
      }
    }
  }

  lemma {:induction false} ScansRead(steps: seq<Step>, id: nat)
    requires Run(steps).Some? && id in Run(steps).value.scans
    ensures var s := Run(steps).value.scans[id]; Reads(s.answers, 0, s.seen)
  {
    if steps != [] {
      var before, last := steps[..|steps| - 1], steps[|steps| - 1];
      var w := Run(before).value;
      if id in w.scans {
        ScansRead(before, id);
        if last == Read(id) { ReadsOneMore(w.scans[id].answers, 0, w.scans[id].seen, w.chain); }
      }
    }
  }

  /** What a finished scan of a run has read is what `ScanHolding` returns on the same answers. */
  lemma RunsScan(steps: seq<Step>, id: nat, derive: Derivation)
    requires Run(steps).Some? && id in Run(steps).value.scans && Finished(Run(steps).value.scans[id].seen)
    requires forall k: nat :: derive(k).Some?
    ensures var s := Run(steps).value.scans[id]; ScanFrom(derive, s.answers, 0) == Some(s.seen)
  {
    ScansRead(steps, id);
    FinishedReads(derive, Run(steps).value.scans[id].answers, 0, Run(steps).value.scans[id].seen);
  }

  // ---- what it gives ----

  /** In every run, fewer than ten never-used indices lie below any used one. */
  lemma FewNeverUsedBelow(steps: seq<Step>, i: nat)
    requires Run(steps).Some? && i in Run(steps).value.chain
    ensures Gaps(Run(steps).value.chain.Keys, i) < 10
  {
    InvThroughout(steps);
  }

  lemma {:induction false} FreeCounts(seen: seq<int>, used: set<nat>)
    requires forall j :: 0 <= j < |seen| && j in used ==> seen[j] != -1
    ensures |Free(seen)| <= Gaps(used, |seen|)
  {
    if seen != [] { FreeCounts(seen[..|seen| - 1], used); }
  }

  lemma {:induction false} UnusedTail(seen: seq<int>, n: nat)
    requires n <= |seen| && forall j :: n <= j < |seen| ==> seen[j] == -1
    ensures |Free(seen)| >= |seen| - n
    decreases |seen|
  {
    if n < |seen| { UnusedTail(seen[..|seen| - 1], n); }
  }

  lemma {:induction false} SeenAtMostCap(steps: seq<Step>, id: nat)
    requires Run(steps).Some? && id in Run(steps).value.scans
    ensures |Run(steps).value.scans[id].seen| <= SCAN_CAP && |Run(steps).value.scans[id].seen| % SCAN_BATCH == 0
  {
    if steps != [] {
      var before := steps[..|steps| - 1];
      var w := Run(before).value;
      if id in w.scans {
        SeenAtMostCap(before, id);
      }
    }
  }

  /** No key at or past the cap is ever handed out. */
  lemma {:induction false} HandedBelowCap(steps: seq<Step>)
    requires Run(steps).Some?
    ensures forall i :: i in Run(steps).value.handed ==> i < 200
  {
    if steps != [] {
      var before, last := steps[..|steps| - 1], steps[|steps| - 1];
      HandedBelowCap(before);
      if last.Finish? {
        SeenAtMostCap(before, last.id);
        FreeIsExact(Run(before).value.scans[last.id].seen);
      }
    }
  }

  /** In every run, a finished scan has read as used every key that existed when it began. */
  lemma ScanMissesNone(steps: seq<Step>, id: nat, i: nat)
    requires Run(steps).Some? && id in Run(steps).value.scans
    requires var s := Run(steps).value.scans[id]; Finished(s.seen) && i in s.usedAtStart
    ensures var s := Run(steps).value.scans[id]; i < |s.seen| && s.seen[i] >= 0
  {
    InvThroughout(steps);
    HandedBelowCap(steps);
  }

  lemma FreeBounds(s: Scan, used: set<nat>)
    requires ScanOk(s, used) && Finished(s.seen) && |s.seen| <= SCAN_CAP
    ensures |Free(s.seen)| >= MAX_TARGETS || |s.seen| == SCAN_CAP
    ensures Gaps(used, |s.seen|) <= |Free(s.seen)| <= Gaps(s.usedAtStart, |s.seen|) <= Gaps(s.usedAtStart, SCAN_CAP)
  {
    FreeRank(s.seen, used);
    FreeCounts(s.seen, s.usedAtStart);
    GapsGrow(s.usedAtStart, |s.seen|, SCAN_CAP);
    if SawUnusedBatch(s.seen) { UnusedTail(s.seen, |s.seen| - SCAN_BATCH); }
  }

  /** When a request for targets fails. It fails only if fewer than `count` of the first 200 keys are
      unused now, and it does fail if fewer than `count` of them were unused when it began. */
  lemma TargetsFailExactlyWhen(steps: seq<Step>, id: nat, count: Option<nat>)
    requires Run(steps).Some? && id in Run(steps).value.scans
    requires Finished(Run(steps).value.scans[id].seen)
    ensures var w := Run(steps).value; var s := w.scans[id];
      && (Targets(s.seen, Count(count)).None? ==> Gaps(w.chain.Keys, 200) < Count(count))
      && (Gaps(s.usedAtStart, 200) < Count(count) ==> Targets(s.seen, Count(count)).None?)
      && (s.usedAtStart == w.chain.Keys ==>
            (Targets(s.seen, Count(count)).None? <==> Gaps(w.chain.Keys, 200) < Count(count)))
  {
    InvThroughout(steps);
    SeenAtMostCap(steps, id);
    FreeBounds(Run(steps).value.scans[id], Run(steps).value.chain.Keys);
  }

  /** The targets handed out are the first `count` indices that read as unused. */
  lemma {:induction false} FreeIsExact(seen: seq<int>)
    ensures forall k :: 0 <= k < |Free(seen)| ==> Free(seen)[k] < |seen| && seen[Free(seen)[k]] == -1
    ensures forall i: nat :: i < |seen| && seen[i] == -1 ==> i in Free(seen)
    ensures forall k, l :: 0 <= k < l < |Free(seen)| ==> Free(seen)[k] < Free(seen)[l]
  {
    if seen != [] { FreeIsExact(seen[..|seen| - 1]); }
  }

  /** The held list is exactly the funded readings, in index order. */
  lemma {:induction false} HeldIsExact(seen: seq<int>)
    ensures forall i: nat, v :: (i, v) in Held(seen) <==> i < |seen| && seen[i] == v && v > 0
    ensures forall k, l :: 0 <= k < l < |Held(seen)| ==> Held(seen)[k].0 < Held(seen)[l].0
  {
    if seen != [] {
      var n := |seen| - 1;
      var v := seen[n];
      HeldIsExact(seen[..n]);
      HeldGrows(Held(seen[..n]), seen[..n], v);
      assert seen == seen[..n] + [v];
    }
  }

  lemma HeldGrows(held: seq<(nat, int)>, seen: seq<int>, v: int)
    requires forall i: nat, x :: (i, x) in held <==> i < |seen| && seen[i] == x && x > 0
    requires forall k, l :: 0 <= k < l < |held| ==> held[k].0 < held[l].0
    ensures var more := held + if v > 0 then [(|seen|, v)] else [];
      && (forall i: nat, x :: (i, x) in more <==> i < |seen + [v]| && (seen + [v])[i] == x && x > 0)
      && (forall k, l :: 0 <= k < l < |more| ==> more[k].0 < more[l].0)
  {
    forall k | 0 <= k < |held| ensures held[k].0 < |seen| {
      var (i, x) := held[k];
      assert (i, x) in held;
    }
  }

  lemma TwoRead(steps: seq<Step>, scan: Scan)
    requires steps == [Begin(0, GetTargets(Some(2))), Read(0)]
    requires scan == Scan(GetTargets(Some(2)), Batch(map[], 0), map[0 := map[]], {})
    ensures Run(steps) == Some(World(map[], {}, map[0 := scan]))
  {
    var begun := World(map[], {}, map[0 := scan.(seen := [], answers := map[])]);
    assert Run(steps[..1]) == Some(begun) by {
      assert steps[..1][..0] == [];
      assert START.chain.Keys == {} && START.scans[0 := scan.(seen := [], answers := map[])] == begun.scans;
    }
    assert [] + scan.seen == scan.seen && map[][0 := map[]] == scan.answers && begun.scans[0 := scan] == map[0 := scan];
  }

  /** A first request for two targets is handed 0 and 1. */
  lemma TwoHandedOut(steps: seq<Step>)
    requires steps == [Begin(0, GetTargets(Some(2))), Read(0), Finish(0)]
    ensures Run(steps).Some? && Run(steps).value.chain == map[] && 1 in Run(steps).value.handed
  {
    var scan := Scan(GetTargets(Some(2)), Batch(map[], 0), map[0 := map[]], {});
    TwoRead(steps[..2], scan);
    TwoFree(scan.seen);
    assert 1 in HandedBy(scan);
    RunOneMore(steps[..2], Finish(0));
    assert steps == steps[..2] + [Finish(0)];
  }

  /** The sequence of used keys need not be an unbroken run from 0: a payer handed two targets may
      create on the second alone. */
  lemma UsedKeysMayHaveGaps()
    ensures exists steps :: Run(steps).Some? && 1 in Run(steps).value.chain && 0 !in Run(steps).value.chain
  {
    var steps := [Begin(0, GetTargets(Some(2))), Read(0), Finish(0)];
    TwoHandedOut(steps);
    RunOneMore(steps, Create(1, 7));
    var w := Run(steps + [Create(1, 7)]).value;
    assert 1 in w.chain && 0 !in w.chain;
  }

  lemma RunOneMore(steps: seq<Step>, step: Step)
    ensures Run(steps + [step]) == match Run(steps) case None => None case Some(w) => Next(w, step)
  {
    assert (steps + [step])[..|steps|] == steps;
  }

  lemma TwoFree(seen: seq<int>)
    requires |seen| == SCAN_BATCH && AllUnused(seen)
    ensures |Free(seen)| >= 2 && 1 in Free(seen)[..2]
  {
    UnusedTail(seen, 0);
    FreeIsExact(seen);
    var free := Free(seen);
    assert 0 in free && 1 in free;
    var k :| 0 <= k < |free| && free[k] == 1;
    forall l | 2 <= l < |free| ensures free[l] != 1 {
      assert free[0] < free[1] < free[l];
    }
    assert free[..2][k] == 1;
  }
}

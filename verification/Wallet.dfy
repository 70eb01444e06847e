/** The payer's derived keys: balances read with a gap limit, reservations, greedy selection.
    A key is known by its derivation index, which is its position in `derived`. */
module Wallet {
  import opened Wrappers
  import opened Fees
  import opened HoldingScan

  const BATCH_SIZE: nat := 10
  const MIN_SCAN_BATCHES: nat := 3

  /** `balance` is the last one read; -1 for a key that did not exist or was never read. */
  datatype Utxo = Utxo(balance: int, reserved: bool)

  predicate IsFree(u: Utxo) { u.balance < 0 && !u.reserved }

  predicate IsFunded(u: Utxo) { u.balance > 0 && !u.reserved }

  /** Indices of the funded keys, in order. */
  function Funded(derived: seq<Utxo>): seq<nat> {
    if derived == [] then []
    else Funded(derived[..|derived| - 1]) + if IsFunded(derived[|derived| - 1]) then [|derived| - 1] else []
  }

  lemma {:induction false} FundedIsExact(derived: seq<Utxo>)
    ensures forall k :: 0 <= k < |Funded(derived)| ==>
              var i := Funded(derived)[k]; i < |derived| && derived[i].balance > 0 && !derived[i].reserved
    ensures forall i: nat :: i < |derived| && derived[i].balance > 0 && !derived[i].reserved ==> i in Funded(derived)
    ensures forall k, l :: 0 <= k < l < |Funded(derived)| ==> Funded(derived)[k] < Funded(derived)[l]
  {
    if derived != [] { FundedIsExact(derived[..|derived| - 1]); }
  }

  /** The balances of the funded keys, in order. */
  function FundedBalances(derived: seq<Utxo>): seq<int> {
    if derived == [] then []
    else
      FundedBalances(derived[..|derived| - 1])
      + if IsFunded(derived[|derived| - 1]) then [derived[|derived| - 1].balance] else []
  }

  lemma {:induction false} FundedHold(derived: seq<Utxo>)
    ensures |FundedBalances(derived)| == |Funded(derived)|
    ensures forall k :: 0 <= k < |Funded(derived)| ==>
              Funded(derived)[k] < |derived| && FundedBalances(derived)[k] == derived[Funded(derived)[k]].balance
    ensures AllPositive(FundedBalances(derived))
  {
    if derived != [] { FundedHold(derived[..|derived| - 1]); }
  }

  function Positive(x: int): int { if x > 0 then x else 0 }

  /** The sum of the positive balances. */
  function BalanceOf(derived: seq<Utxo>): int {
    if derived == [] then 0 else BalanceOf(derived[..|derived| - 1]) + Positive(derived[|derived| - 1].balance)
  }

  /** The coins on the keys below an index. */
  function CoinsBelow(chain: Chain, n: nat): int {
    if n == 0 then 0 else CoinsBelow(chain, n - 1) + Positive(Balance(chain, n - 1))
  }

  // ---- where a refresh stops ----

  predicate Touched(chain: Chain, batch: nat) {
    exists i :: batch * BATCH_SIZE <= i < (batch + 1) * BATCH_SIZE && i in chain
  }

  ghost predicate TouchedUpTo(chain: Chain, n: nat) {
    forall b :: MIN_SCAN_BATCHES - 1 <= b < n ==> Touched(chain, b)
  }

  /** A touched batch begins below any bound on the keys. */
  lemma TouchedIsBounded(chain: Chain, batch: nat, bound: nat)
    requires Touched(chain, batch) && Bounded(chain, bound)
    ensures batch < bound
  {}

  /** `n` batches are read: the first count from three on whose last batch is untouched. */
  ghost predicate StopsAfter(chain: Chain, n: nat) {
    && n >= MIN_SCAN_BATCHES && !Touched(chain, n - 1)
    && TouchedUpTo(chain, n - 1)
  }

  /** A bound on the existing keys; a chain holds finitely many. */
  ghost predicate Bounded(chain: Chain, bound: nat) { forall i :: i in chain ==> i < bound }

  lemma {:induction false} SomeBound(chain: Chain) returns (bound: nat)
    ensures Bounded(chain, bound)
    decreases |chain|
  {
    if chain == map[] {
      return 0;
    }
    var i :| i in chain;
    var rest := chain - {i};
    assert i !in rest && rest.Keys == chain.Keys - {i};
    bound := SomeBound(rest);
    bound := if i < bound then bound else i + 1;
    assert forall j :: j in chain ==> j == i || j in rest;
  }

  const FRESH := Utxo(-1, false)

  function Get(derived: seq<Utxo>, i: nat): Utxo { if i < |derived| then derived[i] else FRESH }

  /** A key after reading its balance: a reservation lasts only while the key does not exist. */
  function Reread(u: Utxo, now: int): Utxo { Utxo(now, u.reserved && now < 0) }

  /** The keys once those below `n` are derived and read; the others are as they were. */
  function RereadBelow(derived: seq<Utxo>, chain: Chain, n: nat): (after: seq<Utxo>)
    ensures |after| == if |derived| < n then n else |derived|
    ensures forall i :: 0 <= i < n ==> after[i] == Reread(Get(derived, i), Balance(chain, i))
    ensures forall i :: n <= i < |derived| ==> after[i] == derived[i]
  {
    seq(if |derived| < n then n else |derived|,
        i requires 0 <= i => if i < n then Reread(Get(derived, i), Balance(chain, i)) else Get(derived, i))
  }

  /** What a refresh leaves: of the keys read the balance on chain, and a reservation only where there was one
      and the key does not exist; the others as they were. */
  lemma RereadMeans(derived: seq<Utxo>, chain: Chain, n: nat)
    ensures var after := RereadBelow(derived, chain, n);
      && |after| == (if |derived| < n then n else |derived|)
      && (forall i :: 0 <= i < n ==> after[i].balance == if i in chain then chain[i] else -1)
      && (forall i :: 0 <= i < n ==> (after[i].reserved <==> i < |derived| && derived[i].reserved && i !in chain))
      && (forall i :: n <= i < |after| ==> after[i] == derived[i])
  {}

  lemma RereadOneMore(derived: seq<Utxo>, chain: Chain, batch: nat, mid: seq<Utxo>, after: seq<Utxo>)
    requires mid == RereadBelow(derived, chain, batch * BATCH_SIZE)
      || (mid == RereadBelow(derived, chain, batch * BATCH_SIZE) + FreshBatch() && |derived| <= batch * BATCH_SIZE)
    requires (batch + 1) * BATCH_SIZE <= |mid| && after == ReadInto(mid, chain, batch * BATCH_SIZE, BATCH_SIZE)
    ensures after == RereadBelow(derived, chain, (batch + 1) * BATCH_SIZE)
  {
    var n := batch * BATCH_SIZE;
    assert forall i :: n <= i < n + BATCH_SIZE ==> mid[i] == Get(derived, i);
  }

  function FreshBatch(): (batch: seq<Utxo>)
    ensures |batch| == BATCH_SIZE && forall o :: 0 <= o < BATCH_SIZE ==> batch[o] == FRESH
  {
    seq(BATCH_SIZE, o => FRESH)
  }

  /** `count` balances read into the keys from an index on. */
  function ReadInto(derived: seq<Utxo>, chain: Chain, from: nat, count: nat): (after: seq<Utxo>)
    ensures |after| == |derived|
    ensures forall i :: 0 <= i < |after| ==>
              after[i] == (if from <= i < from + count then Reread(derived[i], Balance(chain, i)) else derived[i])
  {
    seq(|derived|, i requires 0 <= i < |derived| =>
      if from <= i < from + count then Reread(derived[i], Balance(chain, i)) else derived[i])
  }

  /** Balances read so far belong to keys that exist: keys never cease to. */
  ghost predicate ReadFrom(derived: seq<Utxo>, chain: Chain) {
    forall i :: 0 <= i < |derived| && derived[i].balance >= 0 ==> i in chain
  }

  /** The keys with the chosen ones reserved, each of which was free or not yet derived. */
  ghost predicate Reserved(before: seq<Utxo>, after: seq<Utxo>, chosen: seq<nat>) {
    && |before| <= |after|
    && (forall k, l :: 0 <= k < l < |chosen| ==> chosen[k] < chosen[l])
    && (forall i :: i in chosen ==> i < |after| && IsFree(Get(before, i)))
    && forall i :: 0 <= i < |after| ==>
         after[i] == if i in chosen then Utxo(Get(before, i).balance, true) else Get(before, i)
  }

  class Keys {
    var derived: seq<Utxo>
    /** Every key handed out by a reservation since the seed was set. */
    ghost var handed: set<nat>

    ghost predicate Valid()
      reads this
    {
      && |derived| % BATCH_SIZE == 0
      && forall i :: i in handed ==> i < |derived| && !IsFree(derived[i])
    }

    constructor ()
      ensures Valid() && derived == [] && handed == {}
    {
      derived, handed := [], {};
    }

    method DeriveBatch()
      modifies this`derived
      ensures |derived| == |old(derived)| + 10 && derived[..|old(derived)|] == old(derived)
      ensures forall i :: |old(derived)| <= i < |derived| ==> derived[i] == Utxo(-1, false)
      ensures derived == old(derived) + FreshBatch()
    {
      var start := |derived|;
      for i := start to start + BATCH_SIZE
        invariant derived == old(derived) + FreshBatch()[..i - start]
      {
        derived := derived + [FRESH];
      }
      assert FreshBatch()[..BATCH_SIZE] == FreshBatch();
    }

    /** Read one batch of balances into the derived keys. */
    method ReadBatch(chain: Chain, batch: nat) returns (touched: bool)
      requires (batch + 1) * BATCH_SIZE <= |derived|
      modifies this`derived
      ensures derived == ReadInto(old(derived), chain, batch * BATCH_SIZE, BATCH_SIZE)
      ensures touched <==> exists i :: batch * 10 <= i < batch * 10 + 10 && i in chain
      ensures touched == Touched(chain, batch)
    {
      var from := batch * BATCH_SIZE;
      touched := false;
      for o := 0 to BATCH_SIZE
        invariant derived == ReadInto(old(derived), chain, from, o)
        invariant touched <==> exists i :: from <= i < from + o && i in chain
      {
        var b := Balance(chain, from + o);
        derived := derived[from + o := Utxo(b, if b >= 0 then false else derived[from + o].reserved)];
        if b >= 0 {
          touched := true;
        }
      }
    }

    /** Read batch after batch, deriving as needed, until three are read and the last is untouched. */
    method RefreshBalances(chain: Chain) returns (ghost n: nat)
      requires Valid() && ReadFrom(derived, chain)
      modifies this`derived
      ensures Valid() && ReadFrom(derived, chain)
      ensures n >= 3 && !Touched(chain, n - 1) && forall b :: 2 <= b < n - 1 ==> Touched(chain, b)
      ensures StopsAfter(chain, n) && derived == RereadBelow(old(derived), chain, n * 10)
      ensures forall m :: StopsAfter(chain, m) ==> m == n
    {
      ghost var bound := SomeBound(chain);
      var batch := 0;
      while true
        invariant derived == RereadBelow(old(derived), chain, batch * BATCH_SIZE)
        invariant TouchedUpTo(chain, batch)
        decreases bound + MIN_SCAN_BATCHES - batch
      {
        ghost var was := derived;
        while |derived| < (batch + 1) * BATCH_SIZE
          invariant derived == was || (derived == was + FreshBatch() && |old(derived)| <= batch * BATCH_SIZE)
          decreases |derived| < (batch + 1) * BATCH_SIZE
        {
          DeriveBatch();
        }
        ghost var mid := derived;
        var touched := ReadBatch(chain, batch);
        RereadOneMore(old(derived), chain, batch, mid, derived);
        batch := batch + 1;
        if batch >= MIN_SCAN_BATCHES && !touched {
          forall m | StopsAfter(chain, m) ensures m == batch { StopIsUnique(chain, m, batch); }
          return batch;
        }
        if touched { TouchedIsBounded(chain, batch - 1, bound); }
      }
    }

    /** Reserve the first `n` free keys, deriving more when there are none. */
    method ReserveFreeUtxos(n: nat) returns (out: seq<nat>)
      requires Valid()
      modifies this
      ensures Valid() && |out| == n && Reserved(old(derived), derived, out) && OnlyLaterFree(derived, out)
      ensures forall i :: i in out ==> i !in old(handed)
      ensures forall i :: i in out && i < |old(derived)| ==> old(derived)[i].balance < 0 && !old(derived)[i].reserved
      ensures forall i, k :: 0 <= i < |old(derived)| && 0 <= k < |out| && i < out[k] && i !in out ==>
                old(derived)[i].balance >= 0 || old(derived)[i].reserved
      ensures handed == old(handed) + IndexSet(out)
    {
      out := [];
      while |out| < n
        invariant |out| <= n && |derived| % BATCH_SIZE == 0 && handed == old(handed)
        invariant Reserved(old(derived), derived, out) && OnlyLaterFree(derived, out)
        decreases n - |out|, if FirstFree(derived, 0).Some? then 0 else 1
      {
        var found := FirstFree(derived, 0);
        if found.None? {
          NoneFree(old(derived), derived, out);
          DeriveBatch();
        } else {
          OneFree(old(derived), derived, out);
          derived := derived[found.value := Utxo(derived[found.value].balance, true)];
          out := out + [found.value];
        }
      }
      handed := handed + IndexSet(out);
    }

    /** Take funded keys in order until they cover the total. */
    method SelectFunded(total: int) returns (r: Option<(seq<nat>, int)>)
      ensures var amounts := FundedBalances(derived);
        match r
        case None => ShortUpTo(amounts, |amounts|, total)
        case Some((selected, change)) =>
          && |selected| <= |amounts| && |selected| <= |Funded(derived)| && selected == Funded(derived)[..|selected|]
          && Covers(amounts, |selected|, total) && change == SumTo(amounts, |selected|) - total
    {
      var funded := Funded(derived);
      FundedHold(derived);
      ghost var amounts := FundedBalances(derived);
      var selected: seq<nat> := [];
      var acc := 0;
      for i := 0 to |funded|
        invariant selected == funded[..i] && acc == SumTo(amounts, i) && ShortUpTo(amounts, i, total)
      {
        selected := selected + [funded[i]];
        acc := acc + derived[funded[i]].balance;
        if acc >= total {
          return Some((selected, acc - total));
        }
      }
      return None;
    }
  }

  function IndexSet(out: seq<nat>): set<nat> { set i | i in out }

  /** The sum of the first `k` amounts. */
  function SumTo(amounts: seq<int>, k: nat): int
    requires k <= |amounts|
  {
    if k == 0 then 0 else SumTo(amounts, k - 1) + amounts[k - 1]
  }

  lemma {:induction false} SumToIsTotal(amounts: seq<int>, k: nat)
    requires k <= |amounts|
    ensures SumTo(amounts, k) == Total(amounts[..k])
  {
    if k > 0 {
      SumToIsTotal(amounts, k - 1);
      assert amounts[..k][..k - 1] == amounts[..k - 1];
    }
  }

  /** No positive number of amounts, up to `n`, reaches the total. */
  ghost predicate ShortUpTo(amounts: seq<int>, n: nat, total: int) {
    forall k :: 0 < k <= n && k <= |amounts| ==> SumTo(amounts, k) < total
  }

  /** The first `n` amounts, and no fewer, reach the total; at least one is taken. */
  ghost predicate Covers(amounts: seq<int>, n: nat, total: int) {
    0 < n <= |amounts| && SumTo(amounts, n) >= total && ShortUpTo(amounts, n - 1, total)
  }

  /** Free keys lie past the last one chosen. */
  ghost predicate OnlyLaterFree(derived: seq<Utxo>, chosen: seq<nat>) {
    chosen != [] ==> forall i :: 0 <= i < |derived| && IsFree(derived[i]) ==> chosen[|chosen| - 1] < i
  }

  lemma OneMoreReserved(before: seq<Utxo>, now: seq<Utxo>, chosen: seq<nat>, f: nat)
    requires Reserved(before, now, chosen) && f < |now| && IsFree(now[f])
    requires forall k :: 0 <= k < |chosen| ==> chosen[k] < f
    ensures Reserved(before, now[f := Utxo(now[f].balance, true)], chosen + [f])
  {
    var after, all := now[f := Utxo(now[f].balance, true)], chosen + [f];
    assert forall i :: i in all <==> i in chosen || i == f;
    forall i | 0 <= i < |after|
      ensures after[i] == if i in all then Utxo(Get(before, i).balance, true) else Get(before, i) {
      assert now[i] == if i in chosen then Utxo(Get(before, i).balance, true) else Get(before, i);
    }
  }

  lemma OneFree(before: seq<Utxo>, now: seq<Utxo>, chosen: seq<nat>)
    requires Reserved(before, now, chosen) && OnlyLaterFree(now, chosen) && FirstFree(now, 0).Some?
    ensures var f := FirstFree(now, 0).value;
      f < |now| && Reserved(before, now[f := Utxo(now[f].balance, true)], chosen + [f])
      && OnlyLaterFree(now[f := Utxo(now[f].balance, true)], chosen + [f])
  {
    FirstFreeMeans(now, 0);
    var f := FirstFree(now, 0).value;
    forall k | 0 <= k < |chosen| ensures chosen[k] < f {
      assert chosen[k] <= chosen[|chosen| - 1];
    }
    OneMoreReserved(before, now, chosen, f);
  }

  lemma NoneFree(before: seq<Utxo>, now: seq<Utxo>, chosen: seq<nat>)
    requires Reserved(before, now, chosen) && FirstFree(now, 0).None?
    ensures Reserved(before, now + FreshBatch(), chosen) && OnlyLaterFree(now + FreshBatch(), chosen)
    ensures FirstFree(now + FreshBatch(), 0).Some?
  {
    FirstFreeMeans(now, 0);
    FirstFreeMeans(now + FreshBatch(), 0);
    assert IsFree((now + FreshBatch())[|now|]);
    assert chosen != [] ==> chosen[|chosen| - 1] in chosen;
  }

  function FirstFree(derived: seq<Utxo>, i: nat): Option<nat>
    decreases |derived| - i
  {
    if i >= |derived| then None
    else if IsFree(derived[i]) then Some(i)
    else FirstFree(derived, i + 1)
  }

  lemma {:induction false} FirstFreeMeans(derived: seq<Utxo>, i: nat)
    ensures match FirstFree(derived, i)
      case None => forall k :: i <= k < |derived| ==> !IsFree(derived[k])
      case Some(f) => i <= f < |derived| && IsFree(derived[f]) && forall k :: i <= k < f ==> !IsFree(derived[k])
    decreases |derived| - i
  {
    if i < |derived| { FirstFreeMeans(derived, i + 1); }
  }

  // ---- the balance after a refresh ----

  lemma {:induction false} BalanceGrows(derived: seq<Utxo>, chain: Chain, n: nat)
    requires n <= |derived|
    requires forall i :: 0 <= i < n ==> derived[i].balance == Balance(chain, i)
    ensures BalanceOf(derived) == CoinsBelow(chain, n) + BalanceOf(derived[n..])
    decreases |derived|
  {
    if n == |derived| {
      if n > 0 { BalanceGrows(derived[..n - 1], chain, n - 1); }
      assert derived[..|derived|] == derived && n > 0 ==> derived[..n - 1][n - 1..] == [];
    } else {
      var front := derived[..|derived| - 1];
      BalanceGrows(front, chain, n);
      assert front[n..] == derived[n..][..|derived| - n - 1];
    }
  }

  lemma {:induction false} NothingRead(derived: seq<Utxo>)
    requires forall i :: 0 <= i < |derived| ==> derived[i].balance < 0
    ensures BalanceOf(derived) == 0
  {
    if derived != [] { NothingRead(derived[..|derived| - 1]); }
  }

  lemma {:induction false} CoinsPast(chain: Chain, n: nat, m: nat)
    requires n <= m
    ensures CoinsBelow(chain, n) <= CoinsBelow(chain, m)
    ensures CoinsBelow(chain, n) == CoinsBelow(chain, m) <==> forall i :: n <= i < m && i in chain ==> chain[i] == 0
    decreases m
  {
    if n < m { CoinsPast(chain, n, m - 1); }
  }

  /** The chain's total in the wallet's keys, for any bound on them. */
  ghost predicate ChainTotal(chain: Chain, total: int) {
    exists bound: nat :: Bounded(chain, bound) && total == CoinsBelow(chain, bound)
  }

  /** No batch from the third on lies untouched before an existing key. */
  ghost predicate NoGapBatch(chain: Chain) {
    forall b, i :: MIN_SCAN_BATCHES - 1 <= b && i in chain && (b + 1) * BATCH_SIZE <= i ==> Touched(chain, b)
  }

  /** Under that condition a refresh leaves the wallet's balance at the on-chain total. */
  lemma BalanceIsChainTotal(before: seq<Utxo>, chain: Chain, n: nat, total: int)
    requires ReadFrom(before, chain) && StopsAfter(chain, n) && NoGapBatch(chain) && ChainTotal(chain, total)
    ensures BalanceOf(RereadBelow(before, chain, n * BATCH_SIZE)) == total
  {
    var after, m := RereadBelow(before, chain, n * BATCH_SIZE), n * BATCH_SIZE;
    var last: nat := n - 1;
    assert !Touched(chain, last) && m == (last + 1) * BATCH_SIZE;
    BalanceGrows(after, chain, m);
    NothingRead(after[m..]);
    var bound: nat :| Bounded(chain, bound) && total == CoinsBelow(chain, bound);
    if bound <= m { CoinsPast(chain, bound, m); } else { CoinsPast(chain, m, bound); }
  }

  /** For a wallet that has derived no further than the refresh reads: its balance is the on-chain
      total exactly when no coins lie on keys past the point where the refresh stops. */
  lemma BalanceIsChainTotalExactlyWhen(before: seq<Utxo>, chain: Chain, n: nat, total: int)
    requires StopsAfter(chain, n) && |before| <= n * BATCH_SIZE && ChainTotal(chain, total)
    ensures BalanceOf(RereadBelow(before, chain, n * BATCH_SIZE)) == total
       <==> forall i :: i in chain && n * BATCH_SIZE <= i ==> chain[i] == 0
  {
    var after, m := RereadBelow(before, chain, n * BATCH_SIZE), n * BATCH_SIZE;
    BalanceGrows(after, chain, m);
    assert after[m..] == [];
    var bound: nat :| Bounded(chain, bound) && total == CoinsBelow(chain, bound);
    if bound <= m { CoinsPast(chain, bound, m); } else { CoinsPast(chain, m, bound); }
  }

  /** Where a refresh stops does not depend on the wallet. */
  lemma StopIsUnique(chain: Chain, n: nat, m: nat)
    requires StopsAfter(chain, n) && StopsAfter(chain, m)
    ensures n == m
  {}

  // ---- greedy selection ----

  ghost predicate AllPositive(amounts: seq<int>) { forall i :: 0 <= i < |amounts| ==> amounts[i] > 0 }

  lemma {:induction false} SumToGrows(amounts: seq<int>, k: nat, n: nat)
    requires AllPositive(amounts) && k <= n <= |amounts|
    ensures SumTo(amounts, k) <= SumTo(amounts, n)
    decreases n
  {
    if k < n { SumToGrows(amounts, k, n - 1); }
  }

  /** Selection from positive amounts fails exactly when they all together fall short of a positive
      total; when it succeeds for one, the change is smaller than the last amount selected. */
  lemma SelectionFailsExactlyWhen(amounts: seq<int>, total: int)
    requires AllPositive(amounts) && total > 0
    ensures ShortUpTo(amounts, |amounts|, total) <==> SumTo(amounts, |amounts|) < total
    ensures forall n: nat :: Covers(amounts, n, total) ==> 0 <= SumTo(amounts, n) - total < amounts[n - 1]
  {
    forall k | 0 < k <= |amounts| ensures SumTo(amounts, k) <= SumTo(amounts, |amounts|) {
      SumToGrows(amounts, k, |amounts|);
    }
    forall n: nat | Covers(amounts, n, total) ensures 0 <= SumTo(amounts, n) - total < amounts[n - 1] {
      assert n > 1 ==> SumTo(amounts, n - 1) < total;
    }
  }
}

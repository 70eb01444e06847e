/** Matching UTXO keys against an account's holding keys, which are derived by index. The submit
    path derives them lazily and keeps them; the naive search starts over for every key. */
module HoldingKeys {
  import opened Wrappers
  import opened ScVals

  const HOLDING_MATCH_CAP: nat := 200

  /** The public key at an index, or a derivation error. */
  type Derivation = nat -> Option<seq<byte>>

  datatype MatchError = NotHeld | DerivationFailed

  /** Try the indices from `i` on, one by one. */
  function Search(derive: Derivation, pk: seq<byte>, i: nat): Result<nat, MatchError>
    decreases HOLDING_MATCH_CAP - i
  {
    if i >= HOLDING_MATCH_CAP then Err(NotHeld)
    else if derive(i).None? then Err(DerivationFailed)
    else if derive(i).value == pk then Ok(i)
    else Search(derive, pk, i + 1)
  }

  /** The search finds the least index deriving the key, and says it is not held exactly when the
      first 200 indices all derive other keys. */
  lemma {:induction false} SearchMeans(derive: Derivation, pk: seq<byte>, i: nat)
    requires i <= HOLDING_MATCH_CAP
    ensures forall k :: Search(derive, pk, i) == Ok(k) <==>
              i <= k < 200 && derive(k) == Some(pk) && Others(derive, pk, i, k)
    ensures Search(derive, pk, i) == Err(NotHeld) <==> Others(derive, pk, i, 200)
    decreases HOLDING_MATCH_CAP - i
  {
    if i < HOLDING_MATCH_CAP {
      SearchMeans(derive, pk, i + 1);
      if Others(derive, pk, i + 1, HOLDING_MATCH_CAP) && derive(i).Some? && derive(i).value != pk {
        assert Others(derive, pk, i, HOLDING_MATCH_CAP);
      }
    }
  }

  /** Every index from `i` up to `k` derives some key other than `pk`. */
  ghost predicate Others(derive: Derivation, pk: seq<byte>, i: nat, k: nat) {
    forall j :: i <= j < k ==> derive(j).Some? && derive(j).value != pk
  }

  lemma {:induction false} SearchSkips(derive: Derivation, pk: seq<byte>, i: nat, n: nat)
    requires i <= n <= HOLDING_MATCH_CAP && Others(derive, pk, i, n)
    ensures Search(derive, pk, i) == Search(derive, pk, n)
    decreases n - i
  {
    if i < n { SearchSkips(derive, pk, i + 1, n); }
  }

  /** A key that some index derives is found no later, if the derivations up to there succeed. */
  lemma {:induction false} SearchFinds(derive: Derivation, pk: seq<byte>, i: nat, n: nat)
    requires i <= n < HOLDING_MATCH_CAP && derive(n) == Some(pk)
    requires forall j :: i <= j < n ==> derive(j).Some?
    ensures Search(derive, pk, i).Ok? && Search(derive, pk, i).value <= n
    decreases n - i
  {
    if i < n && derive(i).value != pk { SearchFinds(derive, pk, i + 1, n); }
  }

  /** A slot position and the UTXO key found there. */
  type Wanted = (nat, seq<byte>)

  /** Naive search for each key in turn, stopping at the first failure. */
  function Matched(derive: Derivation, wanted: seq<Wanted>): Result<seq<(nat, nat)>, MatchError> {
    if wanted == [] then Ok([])
    else
      var before :- Matched(derive, wanted[..|wanted| - 1]);
      var last := wanted[|wanted| - 1];
      var index :- Search(derive, last.1, 0);
      Ok(before + [(last.0, index)])
  }

  lemma {:induction false} FirstMissWins(derive: Derivation, wanted: seq<Wanted>, i: nat)
    requires i < |wanted| && Matched(derive, wanted[..i]).Ok? && Search(derive, wanted[i].1, 0).Err?
    ensures Matched(derive, wanted) == Err(Search(derive, wanted[i].1, 0).error)
    decreases |wanted|
  {
    var front := wanted[..|wanted| - 1];
    if i == |wanted| - 1 {
      assert front == wanted[..i];
    } else {
      assert front[..i] == wanted[..i];
      FirstMissWins(derive, front, i);
    }
  }

  /** The cache holds the keys of the first indices, in order. */
  predicate IsPrefix(derive: Derivation, keys: seq<seq<byte>>) {
    |keys| <= HOLDING_MATCH_CAP && forall i :: 0 <= i < |keys| ==> derive(i) == Some(keys[i])
  }

  /** `keys.iter().position(..)` */
  method Position(keys: seq<seq<byte>>, pk: seq<byte>) returns (found: Option<nat>)
    ensures found.Some? ==> found.value < |keys| && keys[found.value] == pk && pk !in keys[..found.value]
    ensures found.None? ==> pk !in keys
  {
    for i := 0 to |keys|
      invariant pk !in keys[..i]
    {
      if keys[i] == pk {
        return Some(i);
      }
    }
    return None;
  }

  /** One key against the cache, deriving further keys only until it is found. */
  method MatchOne(derive: Derivation, cached: seq<seq<byte>>, pk: seq<byte>)
    returns (keys: seq<seq<byte>>, r: Result<nat, MatchError>)
    requires IsPrefix(derive, cached)
    ensures IsPrefix(derive, keys) && cached <= keys
    ensures r == Search(derive, pk, 0)
    ensures r.Ok? && r.value < |cached| ==> keys == cached
    ensures r.Ok? && |cached| <= r.value ==> |keys| == r.value + 1
  {
    keys := cached;
    var found := Position(keys, pk);
    if found.Some? {
      assert Others(derive, pk, 0, found.value) by {
        forall j | 0 <= j < found.value ensures derive(j).Some? && derive(j).value != pk {
          assert keys[..found.value][j] == keys[j];
        }
      }
      SearchSkips(derive, pk, 0, found.value);
      return keys, Ok(found.value);
    }
    assert Others(derive, pk, 0, |keys|);
    while |keys| < HOLDING_MATCH_CAP
      invariant IsPrefix(derive, keys) && cached <= keys
      invariant Others(derive, pk, 0, |keys|)
      decreases HOLDING_MATCH_CAP - |keys|
    {
      var next := derive(|keys|);
      SearchSkips(derive, pk, 0, |keys|);
      if next.None? {
        return keys, Err(DerivationFailed);
      }
      keys := keys + [next.value];
      if next.value == pk {
        return keys, Ok(|keys| - 1);
      }
    }
    SearchSkips(derive, pk, 0, |keys|);
    return keys, Err(NotHeld);
  }

  /** All keys of a bundle, the cache carried from one to the next: the same answers as naively. */
  method MatchKeys(derive: Derivation, wanted: seq<Wanted>) returns (r: Result<seq<(nat, nat)>, MatchError>)
    ensures r == Matched(derive, wanted)
  {
    var keys: seq<seq<byte>> := [];
    var resolved: seq<(nat, nat)> := [];
    for i := 0 to |wanted|
      invariant IsPrefix(derive, keys)
      invariant Matched(derive, wanted[..i]) == Ok(resolved)
    {
      assert wanted[..i + 1][..i] == wanted[..i];
      var index;
      keys, index := MatchOne(derive, keys, wanted[i].1);
      if index.Err? {
        FirstMissWins(derive, wanted, i);
        return Err(index.error);
      }
      resolved := resolved + [(wanted[i].0, index.value)];
    }
    assert wanted[..|wanted|] == wanted;
    return Ok(resolved);
  }

  /** Slot by slot: each wanted key is resolved, in order, to the least index deriving it. */
  lemma {:induction false} MatchedMeans(derive: Derivation, wanted: seq<Wanted>)
    requires Matched(derive, wanted).Ok?
    ensures |Matched(derive, wanted).value| == |wanted|
    ensures forall i :: 0 <= i < |wanted| ==>
      var m := Matched(derive, wanted).value[i];
      m.0 == wanted[i].0 && m.1 < HOLDING_MATCH_CAP
      && derive(m.1) == Some(wanted[i].1) && Others(derive, wanted[i].1, 0, m.1)
  {
    if wanted != [] {
      MatchedMeans(derive, wanted[..|wanted| - 1]);
      SearchMeans(derive, wanted[|wanted| - 1].1, 0);
    }
  }

  /** Some wanted key is derived by none of the first 200 indices. */
  ghost predicate SomeNotHeld(derive: Derivation, wanted: seq<Wanted>) {
    exists i :: 0 <= i < |wanted| && Others(derive, wanted[i].1, 0, HOLDING_MATCH_CAP)
  }

  lemma NotHeldSplits(derive: Derivation, wanted: seq<Wanted>)
    requires wanted != []
    ensures SomeNotHeld(derive, wanted) <==>
      SomeNotHeld(derive, wanted[..|wanted| - 1]) || Others(derive, wanted[|wanted| - 1].1, 0, HOLDING_MATCH_CAP)
  {
    var front := wanted[..|wanted| - 1];
    assert forall i :: 0 <= i < |front| ==> front[i] == wanted[i];
    if SomeNotHeld(derive, front) {
      var i :| 0 <= i < |front| && Others(derive, front[i].1, 0, HOLDING_MATCH_CAP);
      assert Others(derive, wanted[i].1, 0, HOLDING_MATCH_CAP);
    }
  }

  ghost predicate NeverFails(derive: Derivation) { forall i :: 0 <= i < HOLDING_MATCH_CAP ==> derive(i).Some? }

  lemma {:induction false} NoDerivationFails(derive: Derivation, pk: seq<byte>, i: nat)
    requires NeverFails(derive)
    ensures Search(derive, pk, i).Err? ==> Search(derive, pk, i) == Err(NotHeld)
    decreases HOLDING_MATCH_CAP - i
  {
    if i < HOLDING_MATCH_CAP { NoDerivationFails(derive, pk, i + 1); }
  }

  ghost predicate SomeUnfound(derive: Derivation, wanted: seq<Wanted>) {
    exists i :: 0 <= i < |wanted| && Search(derive, wanted[i].1, 0).Err?
  }

  /** A bundle is refused exactly when the search fails for some unsigned spend. */
  lemma {:induction false} RefusedExactlyWhen(derive: Derivation, wanted: seq<Wanted>)
    ensures Matched(derive, wanted).Err? <==> SomeUnfound(derive, wanted)
  {
    if wanted != [] {
      var front, last := wanted[..|wanted| - 1], wanted[|wanted| - 1];
      RefusedExactlyWhen(derive, front);
      if SomeUnfound(derive, front) {
        var i :| 0 <= i < |front| && Search(derive, front[i].1, 0).Err?;
        assert wanted[i] == front[i];
      }
      assert forall i :: 0 <= i < |front| ==> wanted[i] == front[i];
    }
  }

  /** Where derivation itself never fails, exactly when some unsigned spend matches none of the
      first 200 keys, and for that reason. */
  lemma {:induction false} RefusedAsNotHeld(derive: Derivation, wanted: seq<Wanted>)
    requires NeverFails(derive)
    ensures Matched(derive, wanted).Err? <==> SomeNotHeld(derive, wanted)
    ensures Matched(derive, wanted).Err? ==> Matched(derive, wanted) == Err(NotHeld)
  {
    if wanted != [] {
      var last := wanted[|wanted| - 1];
      RefusedAsNotHeld(derive, wanted[..|wanted| - 1]);
      NotHeldSplits(derive, wanted);
      SearchMeans(derive, last.1, 0);
      NoDerivationFails(derive, last.1, 0);
      var r := Search(derive, last.1, 0);
      assert r == Err(NotHeld) <==> Others(derive, last.1, 0, HOLDING_MATCH_CAP);
      var front := Matched(derive, wanted[..|wanted| - 1]);
      assert front.Ok? && r.Ok? ==> Matched(derive, wanted).Ok?;
    }
  }
}

/** The `Signatures` value the channel-auth contract checks: a map from signer keys to signatures,
    with the users' P256 signatures ordered by UTXO key and the provider's Ed25519 one last. */
module SignatureMap {
  import opened Wrappers
  import opened ScVals
  import Mlxdr
  import opened SpendSlots
  import opened Sorting

  // ---- the order of byte strings ----

  predicate LexLe(a: seq<byte>, b: seq<byte>) {
    a == [] || (b != [] && (a[0] < b[0] || (a[0] == b[0] && LexLe(a[1..], b[1..]))))
  }

  lemma {:induction false} LexTotal(a: seq<byte>, b: seq<byte>)
    ensures LexLe(a, b) || LexLe(b, a)
    ensures LexLe(a, b) && LexLe(b, a) ==> a == b
  {
    if a != [] && b != [] {
      LexTotal(a[1..], b[1..]);
      assert a == [a[0]] + a[1..] && b == [b[0]] + b[1..];
    }
  }

  lemma {:induction false} LexReflexive(a: seq<byte>)
    ensures LexLe(a, a)
  {
    if a != [] { LexReflexive(a[1..]); }
  }

  lemma {:induction false} LexTransitive(a: seq<byte>, b: seq<byte>, c: seq<byte>)
    requires LexLe(a, b) && LexLe(b, c)
    ensures LexLe(a, c)
  {
    if a != [] && a[0] == b[0] && b[0] == c[0] { LexTransitive(a[1..], b[1..], c[1..]); }
  }

  predicate ByUtxo(x: SpendSignature, y: SpendSignature) { LexLe(x.utxo, y.utxo) }

  lemma ByUtxoIsPreorder()
    ensures TotalPreorder(ByUtxo)
  {
    forall x: SpendSignature, y: SpendSignature ensures ByUtxo(x, y) || ByUtxo(y, x) {
      LexTotal(x.utxo, y.utxo);
    }
    forall x: SpendSignature, y: SpendSignature, z: SpendSignature | ByUtxo(x, y) && ByUtxo(y, z) ensures ByUtxo(x, z) {
      LexTransitive(x.utxo, y.utxo, z.utxo);
    }
  }

  // ---- building the value ----

  function Tagged(tag: string, bytes: seq<byte>): ScVal { VecOf([ScSymbol(tag), ScBytes(bytes)]) }

  function P256Entry(s: SpendSignature): ScMapEntry {
    ScMapEntry(Tagged("P256", s.utxo), VecOf([Tagged("P256", s.sig), ScU32(s.exp)]))
  }

  function P256Entries(spends: seq<SpendSignature>): (es: seq<ScMapEntry>)
    ensures |es| == |spends| && forall i :: 0 <= i < |es| ==> es[i] == P256Entry(spends[i])
  {
    seq(|spends|, i requires 0 <= i < |spends| => P256Entry(spends[i]))
  }

  function ProviderEntry(provider: seq<byte>, sig: seq<byte>, exp: u32): ScMapEntry {
    ScMapEntry(Tagged("Provider", provider), VecOf([Tagged("Ed25519", sig), ScU32(exp)]))
  }

  function Entries(spends: seq<SpendSignature>, provider: seq<byte>, sig: seq<byte>, exp: u32): seq<ScMapEntry> {
    P256Entries(Sort(spends, ByUtxo)) + [ProviderEntry(provider, sig, exp)]
  }

  function SignaturesValue(spends: seq<SpendSignature>, provider: seq<byte>, sig: seq<byte>, exp: u32): ScVal {
    VecOf([ScMap(Some(Entries(spends, provider, sig, exp)))])
  }

  method BuildSignatures(spends: seq<SpendSignature>, provider: seq<byte>, sig: seq<byte>, exp: u32) returns (v: ScVal)
    ensures v == SignaturesValue(spends, provider, sig, exp)
  {
    var sorted := Sort(spends, ByUtxo);
    var entries: seq<ScMapEntry> := [];
    for i := 0 to |sorted|
      invariant entries == P256Entries(sorted[..i])
    {
      entries := entries + [P256Entry(sorted[i])];
    }
    assert sorted[..|sorted|] == sorted;
    entries := entries + [ProviderEntry(provider, sig, exp)];
    return VecOf([ScMap(Some(entries))]);
  }

  // ---- what the contract reads ----

  function Lookup(entries: seq<ScMapEntry>, key: ScVal): Option<ScVal> {
    if entries == [] then None
    else if entries[0].key == key then Some(entries[0].val)
    else Lookup(entries[1..], key)
  }

  /** The signature and expiration filed under a tagged key. */
  function SignatureUnder(v: ScVal, tag: string, id: seq<byte>): Option<ScVal> {
    if v.ScVec? && v.items.Some? && |v.items.value| == 1 && v.items.value[0].ScMap? && v.items.value[0].entries.Some?
    then Lookup(v.items.value[0].entries.value, Tagged(tag, id))
    else None
  }

  /** The first signature in slot order for a UTXO key. */
  function FirstFor(spends: seq<SpendSignature>, utxo: seq<byte>): Option<SpendSignature> {
    if spends == [] then None
    else if spends[0].utxo == utxo then Some(spends[0])
    else FirstFor(spends[1..], utxo)
  }

  lemma TagsDiffer()
    ensures "P256" != "Provider"
  {
    assert "P256"[1] == '2' && "Provider"[1] == 'r';
  }

  lemma {:induction false} LookupSpend(spends: seq<SpendSignature>, last: ScMapEntry, utxo: seq<byte>)
    requires last.key != Tagged("P256", utxo)
    ensures Lookup(P256Entries(spends) + [last], Tagged("P256", utxo))
         == match FirstFor(spends, utxo) case None => None case Some(s) => Some(P256Entry(s).val)
  {
    var all := P256Entries(spends) + [last];
    if spends == [] {
      assert all[1..] == [];
    } else {
      LookupSpend(spends[1..], last, utxo);
      assert all[0].key == VecOf([ScSymbol("P256"), ScBytes(spends[0].utxo)]);
      assert all[0].key == Tagged("P256", utxo) ==> all[0].key.items.value[1] == ScBytes(utxo);
      assert all[1..] == P256Entries(spends[1..]) + [last];
    }
  }

  lemma {:induction false} LookupProvider(spends: seq<SpendSignature>, last: ScMapEntry, provider: seq<byte>)
    requires last.key == Tagged("Provider", provider)
    ensures Lookup(P256Entries(spends) + [last], Tagged("Provider", provider)) == Some(last.val)
  {
    var all := P256Entries(spends) + [last];
    if spends != [] {
      LookupProvider(spends[1..], last, provider);
      TagsDiffer();
      assert all[0].key.items.value[0] != Tagged("Provider", provider).items.value[0];
      assert all[1..] == P256Entries(spends[1..]) + [last];
    }
  }

  lemma {:induction false} FirstOfClass(spends: seq<SpendSignature>, like: SpendSignature)
    ensures FirstFor(spends, like.utxo)
         == if Class(spends, ByUtxo, like) == [] then None else Some(Class(spends, ByUtxo, like)[0])
  {
    if spends != [] {
      FirstOfClass(spends[1..], like);
      LexTotal(spends[0].utxo, like.utxo);
      LexReflexive(like.utxo);
    }
  }

  /** Under the provider's key the contract finds the provider's signature, and under every UTXO key
      the first signature the slots carry for it, or nothing if they carry none: sorting for the
      map changes no answer. */
  lemma ContractFinds(spends: seq<SpendSignature>, provider: seq<byte>, sig: seq<byte>, exp: u32, utxo: seq<byte>)
    ensures var v := SignaturesValue(spends, provider, sig, exp);
      && SignatureUnder(v, "Provider", provider) == Some(VecOf([Tagged("Ed25519", sig), ScU32(exp)]))
      && SignatureUnder(v, "P256", utxo)
         == match FirstFor(spends, utxo)
            case None => None
            case Some(s) => Some(VecOf([Tagged("P256", s.sig), ScU32(s.exp)]))
  {
    var sorted := Sort(spends, ByUtxo);
    var last := ProviderEntry(provider, sig, exp);
    var like := SpendSignature(utxo, [], 0);
    TagsDiffer();
    assert last.key.items.value[0] != Tagged("P256", utxo).items.value[0];
    LookupProvider(sorted, last, provider);
    LookupSpend(sorted, last, utxo);
    ByUtxoIsPreorder();
    SortIsStable(spends, ByUtxo, like);
    FirstOfClass(spends, like);
    FirstOfClass(sorted, like);
  }

  // ---- the host's ordering rule ----

  predicate SymbolLe(a: string, b: string) {
    a == "" || (b != "" && (a[0] < b[0] || (a[0] == b[0] && SymbolLe(a[1..], b[1..]))))
  }

  predicate IsKey(k: ScVal) {
    k.ScVec? && k.items.Some? && |k.items.value| == 2 && k.items.value[0].ScSymbol? && k.items.value[1].ScBytes?
  }

  /** Strictly before in the host's order, for keys that are a symbol followed by bytes. */
  predicate KeyLess(x: ScVal, y: ScVal) {
    && IsKey(x) && IsKey(y)
    && var a, b := x.items.value[0].sym, y.items.value[0].sym;
      var p, q := x.items.value[1].bytes, y.items.value[1].bytes;
      if a == b then p != q && LexLe(p, q) else SymbolLe(a, b)
  }

  /** The host accepts a map whose keys strictly increase. */
  ghost predicate HostAccepts(entries: seq<ScMapEntry>) {
    forall i, j :: 0 <= i < j < |entries| ==> KeyLess(entries[i].key, entries[j].key)
  }

  ghost predicate DistinctUtxos(spends: seq<SpendSignature>) {
    forall i, j :: 0 <= i < j < |spends| ==> spends[i].utxo != spends[j].utxo
  }

  ghost predicate SmallClasses(spends: seq<SpendSignature>) {
    forall like :: |Class(spends, ByUtxo, like)| <= 1
  }

  lemma {:induction false} NoClass(spends: seq<SpendSignature>, like: SpendSignature)
    ensures Class(spends, ByUtxo, like) == [] <==> forall i :: 0 <= i < |spends| ==> spends[i].utxo != like.utxo
  {
    if spends != [] {
      NoClass(spends[1..], like);
      LexTotal(spends[0].utxo, like.utxo);
      LexReflexive(like.utxo);
      assert forall i :: 0 < i < |spends| ==> spends[i] == spends[1..][i - 1];
    }
  }

  lemma {:induction false} DistinctMeans(spends: seq<SpendSignature>)
    ensures DistinctUtxos(spends) <==> SmallClasses(spends)
  {
    if spends != [] {
      var head, rest := spends[0], spends[1..];
      DistinctMeans(rest);
      LexReflexive(head.utxo);
      NoClass(rest, head);
      assert Class(spends, ByUtxo, head) == [head] + Class(rest, ByUtxo, head);
      assert DistinctUtxos(spends) <==> DistinctUtxos(rest) && Class(rest, ByUtxo, head) == [] by {
        assert forall i :: 0 < i < |spends| ==> spends[i] == rest[i - 1];
        assert forall i :: 0 <= i < |rest| ==> rest[i] == spends[i + 1];
      }
      forall like ensures |Class(rest, ByUtxo, like)| <= |Class(spends, ByUtxo, like)| {}
      forall like | Class(rest, ByUtxo, head) == []
        ensures |Class(spends, ByUtxo, like)| <= 1 || Class(spends, ByUtxo, like) == Class(rest, ByUtxo, like) {
        LexTotal(head.utxo, like.utxo);
        NoClass(rest, like);
      }
    }
  }

  /** The host's ordering rule holds exactly when no UTXO is signed for twice. */
  lemma OrderedExactlyWhen(spends: seq<SpendSignature>, provider: seq<byte>, sig: seq<byte>, exp: u32)
    ensures HostAccepts(Entries(spends, provider, sig, exp)) <==> DistinctUtxos(spends)
  {
    var sorted := Sort(spends, ByUtxo);
    ByUtxoIsPreorder();
    SortSorts(spends, ByUtxo);
    forall like ensures Class(sorted, ByUtxo, like) == Class(spends, ByUtxo, like) {
      SortIsStable(spends, ByUtxo, like);
    }
    DistinctMeans(spends);
    DistinctMeans(sorted);
    SortedIsOrdered(sorted, ProviderEntry(provider, sig, exp), provider);
  }

  lemma SortedIsOrdered(sorted: seq<SpendSignature>, last: ScMapEntry, provider: seq<byte>)
    requires SortedBy(sorted, ByUtxo) && last.key == Tagged("Provider", provider)
    ensures HostAccepts(P256Entries(sorted) + [last]) <==> DistinctUtxos(sorted)
  {
    var all := P256Entries(sorted) + [last];
    forall i, j | 0 <= i < j < |sorted| ensures KeyLess(all[i].key, all[j].key) <==> sorted[i].utxo != sorted[j].utxo {
      SpendKeys(sorted[i], sorted[j]);
      assert ByUtxo(sorted[i], sorted[j]);
    }
    forall i | 0 <= i < |sorted| ensures KeyLess(all[i].key, last.key) {
      SpendBeforeProvider(sorted[i], provider);
    }
  }

  lemma SpendKeys(x: SpendSignature, y: SpendSignature)
    ensures KeyLess(P256Entry(x).key, P256Entry(y).key) <==> x.utxo != y.utxo && ByUtxo(x, y)
  {}

  lemma SpendBeforeProvider(x: SpendSignature, provider: seq<byte>)
    ensures KeyLess(P256Entry(x).key, Tagged("Provider", provider))
  {
    TagsDiffer();
    var a, b := "P256", "Provider";
    assert a[1..][0] == '2' && b[1..][0] == 'r';
    assert SymbolLe(a[1..], b[1..]);
  }

  // ---- the argument's own map ----

  /** The argument sent to the channel is a map whose keys are four symbols in the host's strict order. */
  lemma OperationIsOrdered(b: Mlxdr.Buckets<ScVal>)
    ensures var v := Mlxdr.ChannelOperation(b);
      && v.ScMap? && v.entries.Some? && |v.entries.value| == 4
      && (forall i :: 0 <= i < 4 ==> v.entries.value[i].key.ScSymbol?)
      && forall i, j :: 0 <= i < j < 4 ==>
           var x, y := v.entries.value[i].key.sym, v.entries.value[j].key.sym; x != y && SymbolLe(x, y)
  {
    assert "create"[0] == 'c' && "deposit"[0] == 'd' && "spend"[0] == 's' && "withdraw"[0] == 'w';
    assert 'c' < 'd' < 's' < 'w';
  }
}

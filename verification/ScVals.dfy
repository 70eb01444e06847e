/** Soroban values as trees, the fixed-width integers they hold, and the library codecs between
    them and text: base64 (section 4 of RFC 4648) around XDR (RFC 4506). */
module ScVals {
  import opened Wrappers

  const TWO_32: int := 0x1_0000_0000
  const TWO_64: int := 0x1_0000_0000_0000_0000
  const TWO_127: int := 0x8000_0000_0000_0000_0000_0000_0000_0000
  const TWO_128: int := 0x1_0000_0000_0000_0000_0000_0000_0000_0000

  newtype byte = x: int | 0 <= x < 256
  type u32 = x: int | 0 <= x < TWO_32
  type u64 = x: int | 0 <= x < TWO_64
  type i64 = x: int | -0x8000_0000_0000_0000 <= x < 0x8000_0000_0000_0000
  type i128 = x: int | -TWO_127 <= x < TWO_127

  datatype ScAddress = Account(pk32: seq<byte>) | Contract(hash: seq<byte>) | OtherAddress(kind: nat)

  datatype ScMapEntry = ScMapEntry(key: ScVal, val: ScVal)

  datatype ScVal =
    | ScVec(items: Option<seq<ScVal>>)
    | ScMap(entries: Option<seq<ScMapEntry>>)
    | ScBytes(bytes: seq<byte>)
    | ScI128(hi: i64, lo: u64)
    | ScU32(n: u32)
    | ScBool(b: bool)
    | ScSymbol(sym: string)
    | ScAddr(address: ScAddress)
    | ScNonceKey(nonce: i64)
    | ScOther(kind: nat)

  function VecOf(items: seq<ScVal>): ScVal { ScVec(Some(items)) }

  // ---- i128 as a signed high and an unsigned low half ----

  function Join(hi: i64, lo: u64): (v: i128) { hi * TWO_64 + lo }

  /** `v >> 64` keeps the sign; the low half is `v as u128` masked. */
  function Split(v: i128): (parts: ScVal) { ScI128(v / TWO_64, v % TWO_64) }

  /** Splitting and joining are inverse, for every i128 and every pair of halves. */
  lemma SplitJoin(v: i128, hi: i64, lo: u64)
    ensures Join(Split(v).hi, Split(v).lo) == v
    ensures Split(Join(hi, lo)) == ScI128(hi, lo)
  {}

  // ---- wrapping i128 arithmetic of the release build ----

  predicate InI128(x: int) { -TWO_127 <= x < TWO_127 }

  function Wrap(x: int): (y: i128) { (x + TWO_127) % TWO_128 - TWO_127 }

  lemma WrapIsExactInRange(x: int)
    ensures Wrap(x) == x <==> InI128(x)
  {}

  lemma WrapSkips(x: int, k: int)
    ensures Wrap(x + k * TWO_128) == Wrap(x)
  {
    var q, r := (x + TWO_127) / TWO_128, (x + TWO_127) % TWO_128;
    assert x + k * TWO_128 + TWO_127 == (q + k) * TWO_128 + r;
  }

  /** Wrapping operands first makes no difference to a wrapped sum or difference. */
  lemma WrapLifts(a: int, b: int)
    ensures Wrap(Wrap(a) + b) == Wrap(a + b)
    ensures Wrap(a + Wrap(b)) == Wrap(a + b)
    ensures Wrap(a - Wrap(b)) == Wrap(a - b)
  {
    var k, l := (a + TWO_127) / TWO_128, (b + TWO_127) / TWO_128;
    assert Wrap(a) == a - k * TWO_128 && Wrap(b) == b - l * TWO_128;
    WrapSkips(a + b, -k);
    WrapSkips(a + b, -l);
    WrapSkips(a - b, l);
  }

  // ---- library codecs ----

  datatype Codec = Codec(
    b64Decode: string -> Option<seq<byte>>,
    b64Encode: seq<byte> -> string,
    fromXdr: seq<byte> -> Option<ScVal>,
    toXdr: ScVal -> Option<seq<byte>>)

  /** What is assumed of the libraries: what they encode they decode again. */
  ghost predicate RoundTrips(c: Codec) {
    && (forall bytes :: c.b64Decode(c.b64Encode(bytes)) == Some(bytes))
    && (forall v :: c.toXdr(v).Some? ==> c.fromXdr(c.toXdr(v).value) == Some(v))
  }
}

/** Bytes, little-endian numbers and concatenation: what the codecs are written in. */
module Basics {

  datatype Option<+T> = None | Some(value: T)

  datatype Result<+T> = Ok(value: T) | Err(error: Error)

  /** The failures the storage and crypto layers distinguish. */
  datatype Error =
    | ShortRead
    | BadMagic
    | TooShort
    | Forged
    | OutOfRange
    | PastEnd
    | UnsafePath
    | NotFound
    | NoVaultKey
    | MissingChunk
    | TooManyChunks
    | ChunkTooBig
    | WriteFailed

  function Get<K, V>(m: map<K, V>, k: K): Option<V> {
    if k in m then Some(m[k]) else None
  }

  type byte = b: int | 0 <= b < 256
  type Bytes = seq<byte>

  function Zeros(n: nat): (z: Bytes)
    ensures |z| == n
  {
    seq(n, _ => 0)
  }

  type Bytes12 = b: Bytes | |b| == 12 witness Zeros(12)
  type Bytes16 = b: Bytes | |b| == 16 witness Zeros(16)
  type Bytes32 = b: Bytes | |b| == 32 witness Zeros(32)

  const U32: nat := 0x1_0000_0000
  const U64: nat := 0x1_0000_0000_0000_0000

  type u32 = n: nat | n < U32

  // ── Little-endian integers ──────────────────────────────────────────────

  function Pow256(w: nat): (p: nat)
    ensures p > 0
  {
    if w == 0 then 1 else 256 * Pow256(w - 1)
  }

  /** The low `w` bytes of `n`, least significant first. */
  function Le(n: nat, w: nat): (b: Bytes)
    ensures |b| == w
  {
    if w == 0 then [] else [n % 256] + Le(n / 256, w - 1)
  }

  function FromLe(b: Bytes): nat {
    if b == [] then 0 else b[0] + 256 * FromLe(b[1..])
  }

  /** A number that fits its field is read back from the bytes written for it. */
  lemma {:induction false} LeRoundTrip(n: nat, w: nat)
    requires n < Pow256(w)
    ensures FromLe(Le(n, w)) == n
  {
    if w == 0 {
    } else {
      LeRoundTrip(n / 256, w - 1);
      assert Le(n, w)[1..] == Le(n / 256, w - 1);
    }
  }

  /** And the other way round: the bytes of a field are those of the number read from it. */
  lemma {:induction false} LeOfFromLe(b: Bytes)
    ensures FromLe(b) < Pow256(|b|) && Le(FromLe(b), |b|) == b
  {
    if b != [] {
      LeOfFromLe(b[1..]);
      var n := FromLe(b[1..]);
      assert (b[0] + 256 * n) % 256 == b[0] && (b[0] + 256 * n) / 256 == n;
      assert b == [b[0]] + b[1..];
    }
  }

  /** Byte `k` counts the multiples of 256 to the power of `k`: least significant first. */
  lemma {:induction false} LeDigit(n: nat, w: nat, k: nat)
    requires k < w
    ensures Le(n, w)[k] == n / Pow256(k) % 256
  {
    if k > 0 {
      LeDigit(n / 256, w - 1, k - 1);
      DivideTwice(n, Pow256(k - 1));
    }
  }

  lemma DivideTwice(n: nat, d: nat)
    requires d > 0
    ensures n / 256 / d == n / (256 * d)
  {
    var q := n / 256 / d;
    var r := n / 256 - q * d;
    assert n == 256 * (q * d + r) + n % 256;
    assert 256 * (q * d + r) == q * (256 * d) + 256 * r;
    assert 256 * r + n % 256 < 256 * d;
    QuotientIs(n, 256 * d, q, 256 * r + n % 256);
  }

  lemma QuotientIs(n: nat, d: nat, q: nat, r: nat)
    requires d > 0 && n == q * d + r && r < d
    ensures n / d == q
  {
    var q' := n / d;
    assert n == q' * d + n % d;
    assert q' < q ==> (q' + 1) * d <= q * d;
    assert q < q' ==> (q + 1) * d <= q' * d;
  }

  lemma Pow256Of4And8()
    ensures Pow256(4) == U32 && Pow256(8) == U64
  {
    assert Pow256(2) == 65536 by { assert Pow256(1) == 256; }
    assert Pow256(4) == 256 * (256 * Pow256(2));
    assert Pow256(6) == 256 * (256 * Pow256(4));
    assert Pow256(8) == 256 * (256 * Pow256(6));
  }

  /** The 4-byte and 8-byte fields of the formats. */
  lemma LeExact(n: nat)
    ensures n < U32 ==> FromLe(Le(n, 4)) == n
    ensures n < U64 ==> FromLe(Le(n, 8)) == n
  {
    Pow256Of4And8();
    if n < U32 { LeRoundTrip(n, 4); }
    if n < U64 { LeRoundTrip(n, 8); }
  }

  /** A number that fits 32 bits is not changed by a 32-bit field. */
  lemma FieldKeeps(n: u32)
    ensures n % U32 == n
  {
  }

  // ── Concatenation of chunks ─────────────────────────────────────────────

  /** The chunks one after the other. */
  function Concat(cs: seq<Bytes>): Bytes {
    if cs == [] then [] else Concat(cs[..|cs| - 1]) + cs[|cs| - 1]
  }

  /** The summed length of the chunks: what the vault header calls the original size. */
  function TotalSize(cs: seq<Bytes>): (n: nat)
    ensures n == |Concat(cs)|
  {
    if cs == [] then 0 else TotalSize(cs[..|cs| - 1]) + |cs[|cs| - 1]|
  }

  lemma ConcatTake(cs: seq<Bytes>, k: nat)
    requires k < |cs|
    ensures Concat(cs[..k + 1]) == Concat(cs[..k]) + cs[k]
    ensures TotalSize(cs[..k + 1]) == TotalSize(cs[..k]) + |cs[k]|
  {
    assert cs[..k + 1][..k] == cs[..k];
  }

  // ── Substrings and subsets ──────────────────────────────────────────────

  lemma SubsetSize<T>(a: set<T>, b: set<T>)
    requires a <= b
    ensures |a| <= |b|
  {
    assert b == a + (b - a);
  }

  lemma SliceOfPrefix(s: Bytes, t: Bytes, a: nat, b: nat)
    requires a <= b <= |s| <= |t| && t[..|s|] == s
    ensures t[a..b] == s[a..b]
  {
    assert forall i | 0 <= i < b - a :: t[a..b][i] == t[..|s|][a + i];
  }
}

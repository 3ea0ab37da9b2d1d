/**
 Byte buffers and the little-endian integer layout used by `DataView` with
 `littleEndian = true`.
 */
module Bytes {

  type byte = x: int | 0 <= x < 256
  type Bytes = seq<byte>

  /** An opaque IEEE-754 single (`writeFloat` / `readFloat`): its four stored bytes. */
  type Float32 = b: Bytes | |b| == 4 witness [0, 0, 0, 0]

  /** An opaque IEEE-754 double (`writeDouble` / `readDouble`): its eight stored bytes. */
  type Float64 = b: Bytes | |b| == 8 witness [0, 0, 0, 0, 0, 0, 0, 0]

  /** Position of the next bool within the current byte. */
  type BitIndex = k: nat | k < 8

  /** Largest value `writeUInt32` accepts. */
  const MAX_U32: int := 0xffff_ffff

  function Pow256(k: nat): (p: nat)
    ensures p >= 1
  {
    if k == 0 then 1 else 256 * Pow256(k - 1)
  }

  /** The `k` little-endian bytes of `v` (least significant byte first). */
  function LE(v: nat, k: nat): (b: Bytes)
    requires v < Pow256(k)
    ensures |b| == k
  {
    if k == 0 then [] else [v % 256] + LE(v / 256, k - 1)
  }

  /** The unsigned value of little-endian bytes. */
  function FromLE(b: Bytes): (v: nat)
    ensures v < Pow256(|b|)
  {
    if |b| == 0 then 0 else b[0] + 256 * FromLE(b[1..])
  }

  /** Reading back what `LE` wrote gives the value again. */
  lemma {:induction false} FromLEOfLE(v: nat, k: nat)
    requires v < Pow256(k)
    ensures FromLE(LE(v, k)) == v
  {
    if k > 0 {
      var b := LE(v, k);
      assert b[1..] == LE(v / 256, k - 1);
      FromLEOfLE(v / 256, k - 1);
    }
  }

  /** Every byte pattern is the layout of exactly one value. */
  lemma {:induction false} LEOfFromLE(b: Bytes)
    ensures LE(FromLE(b), |b|) == b
  {
    if |b| > 0 {
      var v := FromLE(b);
      assert v % 256 == b[0] && v / 256 == FromLE(b[1..]);
      LEOfFromLE(b[1..]);
      assert b == [b[0]] + b[1..];
    }
  }

  /** Two's-complement reading of a `k`-byte unsigned value (DataView getIntN). */
  function Signed(u: nat, k: nat): int {
    if 2 * u >= Pow256(k) then u - Pow256(k) else u
  }

  /** The length-prefixed layout of a string or byte field: u32 length, then the bytes. */
  function Lp(data: Bytes): (r: Bytes)
    requires |data| <= MAX_U32
    ensures |r| == 4 + |data|
  {
    assert Pow256(4) == MAX_U32 + 1;
    LE(|data|, 4) + data
  }

  function Min(a: int, b: int): int {
    if a <= b then a else b
  }

  /**
   `TypedArray.prototype.slice` / `subarray` with non-negative bounds: both ends
   are clamped to the length, and a reversed range is empty.
   */
  function Slice(s: Bytes, from: nat, to: nat): (r: Bytes)
    ensures from <= to <= |s| ==> r == s[from..to]
    ensures from <= |s| <= to ==> r == s[from..]
    ensures |s| <= from ==> r == []
  {
    var end := Min(to, |s|);
    if end <= from then [] else s[from..end]
  }

  lemma ConcatAssoc<T>(a: seq<T>, b: seq<T>, c: seq<T>)
    ensures a + b + c == a + (b + c)
  {
  }

  /** `new Uint8Array(n)`: `n` zero bytes. */
  function Zeros(n: nat): (z: Bytes)
    ensures |z| == n
    ensures forall i | 0 <= i < n :: z[i] == 0
  {
    if n == 0 then [] else [0] + Zeros(n - 1)
  }

  /** `buffer.set(data, at)` once the range check has passed. */
  function Splice(buf: Bytes, at: nat, data: Bytes): (r: Bytes)
    requires at + |data| <= |buf|
    ensures |r| == |buf|
    ensures r[at..at + |data|] == data
    ensures r[..at] == buf[..at]
    ensures r[at + |data|..] == buf[at + |data|..]
  {
    buf[..at] + data + buf[at + |data|..]
  }

  /** Bit `k` (0 = least significant) of a byte. */
  function Bit(b: byte, k: nat): bool
    requires k < 8
  {
    BvBit(b as bv8, k)
  }

  function BvBit(x: bv8, k: nat): bool
    requires k < 8
  {
    (x >> k) & 1 == 1
  }

  lemma BvSetBit(x: bv8, k: nat, j: nat)
    requires k < 8 && j < 8
    ensures BvBit(x | (1 << k), j) == (j == k || BvBit(x, j))
  {
  }

  function BvOr(b: byte, k: nat): bv8
    requires k < 8
  {
    (b as bv8) | ((1 as bv8) << k)
  }

  lemma SetBitFacts(b: byte, k: nat)
    requires k < 8
    ensures 0 <= BvOr(b, k) as int < 256
    ensures (BvOr(b, k) as int) as bv8 == BvOr(b, k)
    ensures forall j | 0 <= j < 8 :: BvBit(BvOr(b, k), j) == (j == k || BvBit(b as bv8, j))
  {
    forall j | 0 <= j < 8
      ensures BvBit(BvOr(b, k), j) == (j == k || BvBit(b as bv8, j))
    {
      BvSetBit(b as bv8, k, j);
    }
  }

  /** `b | (1 << k)`: bit `k` set, every other bit kept. */
  function SetBit(b: byte, k: nat): (r: byte)
    requires k < 8
    ensures Bit(r, k)
    ensures forall j | 0 <= j < 8 && j != k :: Bit(r, j) == Bit(b, j)
  {
    SetBitFacts(b, k);
    BvOr(b, k) as int
  }

  lemma SliceOfConcat(a: Bytes, b: Bytes, c: Bytes)
    ensures (a + b + c)[|a|..|a| + |b|] == b
    ensures (a + b + c)[..|a| + |b|] == a + b
    ensures (a + b + c)[|a|..] == b + c
  {
    assert (a + b + c)[|a|..|a| + |b|] == b;
  }
}

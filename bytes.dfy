/** Byte-level arithmetic shared by the decoder: little- and big-endian
    values of byte strings, the inverse encoding, std::byteswap, flag tests on
    a datatype byte and the population count of a channel mask. */
module Bytes {

  type byte = x: int | 0 <= x < 256

  function Pow256(n: nat): (p: nat)
    ensures p >= 1
  {
    if n == 0 then 1 else 256 * Pow256(n - 1)
  }

  lemma Pow256Values()
    ensures Pow256(1) == 0x100 && Pow256(2) == 0x1_0000 && Pow256(3) == 0x100_0000
    ensures Pow256(4) == 0x1_0000_0000 && Pow256(8) == 0x1_0000_0000_0000_0000
  {
    assert Pow256(4) == 256 * Pow256(3);
  }

  lemma {:induction false} Pow256Monotone(m: nat, n: nat)
    requires m <= n
    ensures Pow256(m) <= Pow256(n)
  {
    if m < n {
      Pow256Monotone(m, n - 1);
    }
  }

  /** The unsigned value of `s` read least significant byte first: what a
      little-endian host finds in an integer whose bytes are `s`. */
  function LittleEndian(s: seq<byte>): (v: nat)
    ensures v < Pow256(|s|)
  {
    if s == [] then 0 else s[0] + 256 * LittleEndian(s[1..])
  }

  /** The unsigned value of `s` read most significant byte first. */
  function BigEndian(s: seq<byte>): (v: nat)
    ensures v < Pow256(|s|)
  {
    if s == [] then 0 else 256 * BigEndian(s[..|s| - 1]) + s[|s| - 1]
  }

  /** The `n` bytes of `v`, least significant first; the inverse of LittleEndian. */
  function ToLittleEndian(v: nat, n: nat): (s: seq<byte>)
    requires v < Pow256(n)
    ensures |s| == n
    ensures LittleEndian(s) == v
  {
    if n == 0 then []
    else
      assert v / 256 < Pow256(n - 1);
      var rest := ToLittleEndian(v / 256, n - 1);
      assert ([v % 256] + rest)[1..] == rest;
      [v % 256] + rest
  }

  lemma {:induction false} ToLittleEndianOfLittleEndian(s: seq<byte>)
    ensures ToLittleEndian(LittleEndian(s), |s|) == s
  {
    if s != [] {
      var v := LittleEndian(s);
      assert v % 256 == s[0] && v / 256 == LittleEndian(s[1..]);
      ToLittleEndianOfLittleEndian(s[1..]);
    }
  }

  function Zeros(n: nat): (s: seq<byte>)
    ensures |s| == n && forall i :: 0 <= i < n ==> s[i] == 0
  {
    seq(n, _ => 0)
  }

  /** Zero bytes appended above the last byte do not change a little-endian value. */
  lemma {:induction false} LittleEndianZeroPadded(s: seq<byte>, k: nat)
    ensures LittleEndian(s + Zeros(k)) == LittleEndian(s)
  {
    if s == [] {
      assert s + Zeros(k) == Zeros(k);
      LittleEndianOfZeros(k);
    } else {
      assert (s + Zeros(k))[1..] == s[1..] + Zeros(k);
      LittleEndianZeroPadded(s[1..], k);
    }
  }

  /** The `n` bytes of the value of a shorter byte string are that string
      followed by zeros. */
  lemma ToLittleEndianZeroPadded(s: seq<byte>, n: nat)
    requires |s| <= n
    ensures LittleEndian(s) < Pow256(n)
    ensures ToLittleEndian(LittleEndian(s), n) == s + Zeros(n - |s|)
  {
    Pow256Monotone(|s|, n);
    var whole := s + Zeros(n - |s|);
    LittleEndianZeroPadded(s, n - |s|);
    ToLittleEndianOfLittleEndian(whole);
  }

  lemma {:induction false} LittleEndianOfZeros(k: nat)
    ensures LittleEndian(Zeros(k)) == 0
  {
    if k > 0 {
      assert Zeros(k)[1..] == Zeros(k - 1);
      LittleEndianOfZeros(k - 1);
    }
  }

  function Reverse(s: seq<byte>): (r: seq<byte>)
    ensures |r| == |s|
    ensures forall i :: 0 <= i < |s| ==> r[i] == s[|s| - 1 - i]
  {
    if s == [] then [] else [s[|s| - 1]] + Reverse(s[..|s| - 1])
  }

  /** Reading bytes most significant first is reading the reversed bytes least
      significant first. */
  lemma {:induction false} BigEndianIsReversedLittleEndian(s: seq<byte>)
    ensures BigEndian(s) == LittleEndian(Reverse(s))
  {
    if s != [] {
      var init := s[..|s| - 1];
      assert Reverse(s)[1..] == Reverse(init);
      BigEndianIsReversedLittleEndian(init);
    }
  }

  /** std::byteswap on an unsigned integer of `n` bytes. */
  function ByteSwap(v: nat, n: nat): (r: nat)
    requires v < Pow256(n)
    ensures r < Pow256(n)
  {
    LittleEndian(Reverse(ToLittleEndian(v, n)))
  }

  /** Swapping the bytes of a value whose bytes are `s` gives the big-endian
      value of `s`. */
  lemma ByteSwapOfLittleEndian(s: seq<byte>)
    ensures ByteSwap(LittleEndian(s), |s|) == BigEndian(s)
  {
    ToLittleEndianOfLittleEndian(s);
    BigEndianIsReversedLittleEndian(s);
  }

  /** The value a uint32_t `v` takes when converted to int (modulo 2^32 into
      the range of a 32-bit two's-complement integer). */
  function AsInt32(v: nat): (i: int)
    requires v < 0x1_0000_0000
    ensures -0x8000_0000 <= i < 0x8000_0000
    ensures (i - v) % 0x1_0000_0000 == 0
  {
    if v < 0x8000_0000 then v else v - 0x1_0000_0000
  }

  /** The uint32_t whose conversion to int is `i`. */
  function FromInt32(i: int): (v: nat)
    requires -0x8000_0000 <= i < 0x8000_0000
    ensures v < 0x1_0000_0000
    ensures AsInt32(v) == i
  {
    if i < 0 then i + 0x1_0000_0000 else i
  }

  /** Bit `k` of a byte is set: `x & (1 << k) != 0`. Spelled out per bit
      with constant divisors, which the solver handles cheaply. */
  predicate BitSet(x: byte, k: nat)
    requires k < 8
  {
    match k
    case 0 => x % 2 == 1
    case 1 => x / 2 % 2 == 1
    case 2 => x / 4 % 2 == 1
    case 3 => x / 8 % 2 == 1
    case 4 => x / 16 % 2 == 1
    case 5 => x / 32 % 2 == 1
    case 6 => x / 64 % 2 == 1
    case _ => x / 128 % 2 == 1
  }

  /** BitSet agrees with the bitwise and of C++ on every byte. */
  lemma BitSetIsBitwiseAnd(x: byte, k: nat)
    requires k < 8
    ensures BitSet(x, k) <==> (x as bv8) & ((1 as bv8) << k) != 0
  {
  }

  /** The number of set bits among the low `bits` bits of `m`
      (std::bitset<bits>(m).count()). */
  function Popcount(m: nat, bits: nat): (c: nat)
    ensures c <= bits
  {
    if bits == 0 then 0 else m % 2 + Popcount(m / 2, bits - 1)
  }

  lemma {:induction false} PopcountOfZero(bits: nat)
    ensures Popcount(0, bits) == 0
  {
    if bits > 0 {
      PopcountOfZero(bits - 1);
    }
  }
}

/** The MD5 message digest over a block function: padding and length of sections 3.1 and 3.2 of RFC 1321. */
module Md5Model {
  const BLOCK := 64
  const TWO_32 := 0x1_0000_0000
  const TWO_64 := 0x1_0000_0000_0000_0000

  type Byte = b: int | 0 <= b < 256
  type Word = w: int | 0 <= w < TWO_32

  datatype State = State(a: Word, b: Word, c: Word, d: Word)

  type Transform = (State, seq<Byte>) -> State

  /** Section 3.3 of RFC 1321. */
  const INIT := State(0x67452301, 0xefcdab89, 0x98badcfe, 0x10325476)

  /** The low-order `n` bytes of a number, lowest first. */
  function Bytes(x: nat, n: nat): (r: seq<Byte>)
    ensures |r| == n
  {
    if n == 0 then [] else [x % 256] + Bytes(x / 256, n - 1)
  }

  /** How many zeroes bring a message of `n` bytes and the byte that marks its end to 56 modulo 64: the fewest. */
  function Zeroes(n: nat): (k: nat)
    ensures k < BLOCK && (n + 1 + k) % BLOCK == 56
  {
    (119 - n % BLOCK) % BLOCK
  }

  function Nulls(k: nat): (r: seq<Byte>)
    ensures |r| == k && forall i | 0 <= i < k :: r[i] == 0
  {
    seq(k, _ => 0)
  }

  function BitLength(m: seq<Byte>): nat {
    8 * |m| % TWO_64
  }

  /** The padded message. */
  function Padded(m: seq<Byte>): seq<Byte> {
    m + [0x80] + Nulls(Zeroes(|m|)) + Bytes(BitLength(m), 8)
  }

  /** Takes the whole blocks of `m` through the block function, one by one; leaves a rest of less than a block. */
  function Fold(f: Transform, s: State, m: seq<Byte>): State
    decreases |m|
  {
    if |m| < BLOCK then s else Fold(f, f(s, m[..BLOCK]), m[BLOCK..])
  }

  function DigestOf(f: Transform, m: seq<Byte>): (r: seq<Byte>)
    ensures |r| == 16
  {
    Output(Fold(f, INIT, Padded(m)))
  }

  function Output(s: State): (r: seq<Byte>)
    ensures |r| == 16
  {
    Bytes(s.a, 4) + Bytes(s.b, 4) + Bytes(s.c, 4) + Bytes(s.d, 4)
  }

  /** The initial words, as the bytes that section 3.3 of RFC 1321 lists, in the order in which a digest goes out. */
  lemma InitBytes()
    ensures Output(INIT) == [0x01, 0x23, 0x45, 0x67, 0x89, 0xab, 0xcd, 0xef, 0xfe, 0xdc, 0xba, 0x98, 0x76, 0x54, 0x32, 0x10]
  {
    hide Bytes;
    FourBytes(INIT.a);
    FourBytes(INIT.b);
    FourBytes(INIT.c);
    FourBytes(INIT.d);
  }

  // ----------------------------------------------------------------- blocks

  lemma {:induction false} FoldStep(f: Transform, s: State, m: seq<Byte>, block: seq<Byte>)
    requires |m| % BLOCK == 0 && |block| == BLOCK
    ensures Fold(f, s, m + block) == f(Fold(f, s, m), block)
    decreases |m|
  {
    if m == [] {
      assert m + block == block && block[..BLOCK] == block;
      assert Fold(f, s, block) == Fold(f, f(s, block), block[BLOCK..]);
    } else {
      assert (m + block)[..BLOCK] == m[..BLOCK] && (m + block)[BLOCK..] == m[BLOCK..] + block;
      FoldStep(f, f(s, m[..BLOCK]), m[BLOCK..], block);
    }
  }

  lemma {:induction false} FoldRest(f: Transform, s: State, m: seq<Byte>, rest: seq<Byte>)
    requires |m| % BLOCK == 0 && |rest| < BLOCK
    ensures Fold(f, s, m + rest) == Fold(f, s, m)
    decreases |m|
  {
    if m == [] {
      assert m + rest == rest;
    } else {
      assert (m + rest)[..BLOCK] == m[..BLOCK] && (m + rest)[BLOCK..] == m[BLOCK..] + rest;
      FoldRest(f, f(s, m[..BLOCK]), m[BLOCK..], rest);
    }
  }

  /** The whole blocks of a message, and the rest. */
  function Whole(m: seq<Byte>): (w: seq<Byte>)
    ensures |w| % BLOCK == 0 && |w| == |m| - |m| % BLOCK
  {
    m[..|m| - |m| % BLOCK]
  }

  function Rest(m: seq<Byte>): (r: seq<Byte>)
    ensures |r| == |m| % BLOCK < BLOCK && Whole(m) + r == m
  {
    m[|m| - |m| % BLOCK..]
  }

  // -------------------------------------------------------------- the count

  lemma NextByte(x: nat, k: nat, n: nat)
    requires n > 0
    ensures Bytes(x + 256 * k, n) == [x % 256] + Bytes(x / 256 + k, n - 1)
  {
    assert (x + 256 * k) % 256 == x % 256 && (x + 256 * k) / 256 == x / 256 + k;
  }

  lemma FourBytes(x: nat)
    ensures Bytes(x, 4) == [x % 256, x / 256 % 256, x / 256 / 256 % 256, x / 256 / 256 / 256 % 256]
  {
    assert Bytes(x / 256 / 256, 2) == [x / 256 / 256 % 256, x / 256 / 256 / 256 % 256];
  }

  /** The low-order word first. */
  lemma WordsFirst(low: Word, high: Word)
    ensures Bytes(low + high * TWO_32, 8) == Bytes(low, 4) + Bytes(high, 4)
  {
    hide Bytes;
    var x1 := low / 256;
    var x2 := x1 / 256;
    var x3 := x2 / 256;
    assert x3 / 256 == 0;
    NextByte(low, high * 0x100_0000, 8);
    NextByte(x1, high * 0x1_0000, 7);
    NextByte(x2, high * 0x100, 6);
    NextByte(x3, high, 5);
    FourBytes(low);
  }

  /** Adding a length to a 64-bit count kept in two words, with the carry from the low word to the high one. */
  lemma Counts(n: nat, len: nat, low: Word, high: Word)
    requires 8 * n % TWO_64 == low + high * TWO_32
    ensures 8 * (n + len) % TWO_64 == CountLow(low, len) + CountHigh(low, high, len) * TWO_32
  {
    var shifted, sum := 8 * len % TWO_32, low + 8 * len % TWO_32;
    var carry := if CountLow(low, len) < low then 1 else 0;
    assert 8 * len == len / 0x2000_0000 * TWO_32 + shifted;
    assert sum == carry * TWO_32 + CountLow(low, len);
    var top := high + carry + len / 0x2000_0000;
    assert top == top / TWO_32 * TWO_32 + CountHigh(low, high, len);
    var q := 8 * n / TWO_64;
    assert 8 * (n + len) == (q + top / TWO_32) * TWO_64 + (CountLow(low, len) + CountHigh(low, high, len) * TWO_32);
  }

  function CountLow(low: Word, len: nat): Word {
    (low + 8 * len % TWO_32) % TWO_32
  }

  function CountHigh(low: Word, high: Word, len: nat): Word {
    (high + (if CountLow(low, len) < low then 1 else 0) + len / 0x2000_0000) % TWO_32
  }

  /** The low word of the count tells how many bytes are waiting for a block. */
  lemma Waiting(n: nat, low: Word, high: Word)
    requires 8 * n % TWO_64 == low + high * TWO_32
    ensures low / 8 % BLOCK == n % BLOCK
  {
    LowBits(n, 8 * n / TWO_64 * TWO_32 + high, low);
  }

  lemma LowBits(n: nat, k: nat, low: Word)
    requires 8 * n == k * TWO_32 + low
    ensures low / 8 % BLOCK == n % BLOCK
  {
    assert n == 0x80_0000 * k * BLOCK + low / 8;
  }

  // ---------------------------------------------------------------- padding

  /** Padding makes a whole number of blocks. */
  lemma PaddedLength(m: seq<Byte>)
    ensures |Padded(m)| % BLOCK == 0 && |m| + 9 <= |Padded(m)| <= |m| + 72
  {
    hide Bytes, BitLength;
    Whole56(|m| + 1 + Zeroes(|m|));
  }

  lemma Whole56(x: nat)
    requires x % BLOCK == 56
    ensures (x + 8) % BLOCK == 0
  {
  }

  lemma FewZeroes(n: nat)
    ensures Zeroes(n) == if n % BLOCK < 56 then 55 - n % BLOCK else 119 - n % BLOCK
  {
  }

  lemma Regroup(w: seq<Byte>, r: seq<Byte>, mark: seq<Byte>, z: seq<Byte>, l: seq<Byte>)
    ensures w + r + mark + z + l == w + (r + mark + z + l)
  {
  }

  lemma RegroupTwo(w: seq<Byte>, r: seq<Byte>, mark: seq<Byte>, y: seq<Byte>, z: seq<Byte>, l: seq<Byte>)
    ensures w + r + mark + (y + z) + l == w + (r + mark + y) + (z + l)
  {
  }

  /** The last block or two: what is left of the message, the mark, zeroes and the length. */
  lemma PadOne(f: Transform, m: seq<Byte>)
    requires |m| % BLOCK < 56
    ensures Fold(f, INIT, Padded(m)) ==
      f(Fold(f, INIT, m), Rest(m) + [0x80] + Nulls(55 - |m| % BLOCK) + Bytes(BitLength(m), 8))
  {
    hide Bytes, BitLength, Fold;
    var last := Rest(m) + [0x80] + Nulls(55 - |m| % BLOCK) + Bytes(BitLength(m), 8);
    FewZeroes(|m|);
    Regroup(Whole(m), Rest(m), [0x80], Nulls(Zeroes(|m|)), Bytes(BitLength(m), 8));
    FoldStep(f, INIT, Whole(m), last);
    FoldRest(f, INIT, Whole(m), Rest(m));
  }

  lemma PaddedTwo(m: seq<Byte>)
    requires |m| % BLOCK >= 56
    ensures Padded(m) ==
      Whole(m) + (Rest(m) + [0x80] + Nulls(63 - |m| % BLOCK)) + (Nulls(56) + Bytes(BitLength(m), 8))
  {
    hide Bytes, BitLength;
    FewZeroes(|m|);
    assert Nulls(Zeroes(|m|)) == Nulls(63 - |m| % BLOCK) + Nulls(56);
    RegroupTwo(Whole(m), Rest(m), [0x80], Nulls(63 - |m| % BLOCK), Nulls(56), Bytes(BitLength(m), 8));
  }

  lemma FoldTwo(f: Transform, w: seq<Byte>, first: seq<Byte>, last: seq<Byte>)
    requires |w| % BLOCK == 0 && |first| == BLOCK && |last| == BLOCK
    ensures Fold(f, INIT, w + first + last) == f(f(Fold(f, INIT, w), first), last)
  {
    hide Fold;
    FoldStep(f, INIT, w + first, last);
    FoldStep(f, INIT, w, first);
  }

  lemma PadTwo(f: Transform, m: seq<Byte>)
    requires |m| % BLOCK >= 56
    ensures Fold(f, INIT, Padded(m)) ==
      f(f(Fold(f, INIT, m), Rest(m) + [0x80] + Nulls(63 - |m| % BLOCK)), Nulls(56) + Bytes(BitLength(m), 8))
  {
    hide Bytes, BitLength, Fold, Padded;
    PaddedTwo(m);
    FoldTwo(f, Whole(m), Rest(m) + [0x80] + Nulls(63 - |m| % BLOCK), Nulls(56) + Bytes(BitLength(m), 8));
    FoldRest(f, INIT, Whole(m), Rest(m));
  }
}

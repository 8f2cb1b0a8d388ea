/** The MD5 context that the filter driver feeds data to piece by piece. */
module Md5 {
  import opened Md5Model

  lemma SplitAt(m: seq<Byte>, w: seq<Byte>, r: seq<Byte>)
    requires m == w + r && |w| % BLOCK == 0 && |r| < BLOCK
    ensures Whole(m) == w && Rest(m) == r
  {
    assert |m| % BLOCK == |r|;
  }

  /** A message made up of whole blocks and a rest that is waiting. */
  lemma Absorbed(f: Transform, m: seq<Byte>, w: seq<Byte>, r: seq<Byte>)
    requires m == w + r && |w| % BLOCK == 0 && |r| < BLOCK
    ensures Fold(f, INIT, m) == Fold(f, INIT, w) && Whole(m) == w && Rest(m) == r
  {
    FoldRest(f, INIT, w, r);
    SplitAt(m, w, r);
  }

  lemma AddMod(h: nat, c: nat, x: nat)
    ensures ((h + c) % TWO_32 + x) % TWO_32 == (h + c + x) % TWO_32
  {
  }

  lemma Aligned(n: nat, start: nat)
    requires start == if n % BLOCK > 0 then BLOCK - n % BLOCK else 0
    ensures (n + start) % BLOCK == 0
  {
  }

  class Context {
    const transform: Transform
    var buf: State
    var low: Word
    var high: Word
    const input: array<Byte>

    /** All that was fed in so far. */
    ghost var message: seq<Byte>

    ghost predicate Valid()
      reads this, input
    {
      && input.Length == BLOCK
      && BitLength(message) == low + high * TWO_32
      && buf == Fold(transform, INIT, message)
      && input[..|message| % BLOCK] == Rest(message)
    }

    /** `MD5Init`. */
    constructor (transform: Transform)
      ensures Valid() && message == [] && this.transform == transform && fresh(input)
    {
      this.transform := transform;
      buf := INIT;
      low, high := 0, 0;
      input := new Byte[BLOCK](_ => 0);
      message := [];
    }

    /** Copies `bytes` into the input block at `at`. */
    method Put(at: nat, bytes: seq<Byte>)
      requires input.Length == BLOCK && at + |bytes| <= BLOCK
      modifies input
      ensures input[..at + |bytes|] == old(input[..at]) + bytes
      ensures input[at + |bytes|..] == old(input[at + |bytes|..])
    {
      forall i | 0 <= i < |bytes| {
        input[at + i] := bytes[i];
      }
    }

    /** Takes the input block through the block function. */
    method Absorb()
      requires input.Length == BLOCK
      modifies this`buf
      ensures buf == transform(old(buf), input[..])
    {
      buf := transform(buf, input[..]);
    }

    /** The bit count, 64 bits in two words. */
    method Count(len: nat)
      requires BitLength(message) == low + high * TWO_32
      modifies this`low, this`high
      ensures 8 * (|message| + len) % TWO_64 == low + high * TWO_32
    {
      Counts(|message|, len, low, high);
      var t := low;
      low := (t + 8 * len % TWO_32) % TWO_32;
      ghost var h := high;
      if low < t {
        high := (high + 1) % TWO_32;
      }
      AddMod(h, if low < t then 1 else 0, len / 0x2000_0000);
      high := (high + len / 0x2000_0000) % TWO_32;
    }

    /** The block loop of `MD5Update`, from `start` on, and what is left over. */
    method Blocks(data: seq<Byte>, start: nat, ghost m: seq<Byte>)
      requires input.Length == BLOCK && start <= |data|
      requires (|m| + start) % BLOCK == 0 && buf == Fold(transform, INIT, m + data[..start])
      modifies this`buf, input
      ensures buf == Fold(transform, INIT, m + data)
      ensures input[..|m + data| % BLOCK] == Rest(m + data)
    {
      var pos := start;
      while |data| - pos >= BLOCK
        invariant start <= pos <= |data| && |m + data[..pos]| % BLOCK == 0
        invariant buf == Fold(transform, INIT, m + data[..pos])
      {
        var block := data[pos..pos + BLOCK];
        Put(0, block);
        assert input[..] == block;
        FoldStep(transform, INIT, m + data[..pos], block);
        assert m + data[..pos + BLOCK] == m + data[..pos] + block;
        Absorb();
        pos := pos + BLOCK;
      }
      Put(0, data[pos..]);
      assert m + data == m + data[..pos] + data[pos..];
      Absorbed(transform, m + data, m + data[..pos], data[pos..]);
    }

    /** The leading chunk of `MD5Update`, when it completes the block that is waiting. */
    method Fill(data: seq<Byte>, used: nat, ghost m: seq<Byte>)
      requires input.Length == BLOCK && used == |m| % BLOCK && BLOCK - used <= |data|
      requires buf == Fold(transform, INIT, m) && input[..used] == Rest(m)
      modifies this`buf, input
      ensures buf == Fold(transform, INIT, m + data[..BLOCK - used])
    {
      hide Fold;
      ghost var block := Rest(m) + data[..BLOCK - used];
      Put(used, data[..BLOCK - used]);
      assert input[..] == block;
      FoldStep(transform, INIT, Whole(m), block);
      Absorbed(transform, m, Whole(m), Rest(m));
      assert m + data[..BLOCK - used] == Whole(m) + block;
      Absorb();
    }

    /** The leading chunk of `MD5Update`, when it does not. */
    method Keep(data: seq<Byte>, used: nat, ghost m: seq<Byte>)
      requires input.Length == BLOCK && used == |m| % BLOCK && |data| < BLOCK - used
      requires buf == Fold(transform, INIT, m) && input[..used] == Rest(m)
      modifies input
      ensures buf == Fold(transform, INIT, m + data) && input[..|m + data| % BLOCK] == Rest(m + data)
    {
      hide Fold;
      Put(used, data);
      assert m + data == Whole(m) + (Rest(m) + data);
      Absorbed(transform, m + data, Whole(m), Rest(m) + data);
      Absorbed(transform, m, Whole(m), Rest(m));
    }

    /** `MD5Update`: feeds in `data`, of a length that fits in 32 bits. */
    method Update(data: seq<Byte>)
      requires Valid() && |data| < TWO_32
      modifies this, input
      ensures Valid() && message == old(message) + data
    {
      hide Fold, Rest, Whole;
      Waiting(|message|, low, high);
      var used := low / 8 % BLOCK;
      Count(|data|);
      ghost var m := message;
      message := m + data;
      var start := 0;
      if used > 0 {
        start := BLOCK - used;
        if |data| < start {
          Keep(data, used, m);
          return;
        }
        Fill(data, used, m);
      }
      Aligned(|m|, start);
      assert used == 0 ==> m + data[..start] == m;
      Blocks(data, start, m);
    }

    /** The padding of `MD5Final` up to the length: a second block is begun when it does not fit into the first. */
    method Pad(count: nat)
      requires Valid() && count == |message| % BLOCK
      modifies this`buf, input
      ensures |input[..56]| == 56
      ensures Fold(transform, INIT, Padded(message)) == transform(buf, input[..56] + Bytes(BitLength(message), 8))
    {
      hide Fold, Padded, Bytes, BitLength;
      Put(count, [0x80]);
      var room := BLOCK - 1 - count;
      if room < 8 {
        PadTwo(transform, message);
        Put(BLOCK - room, Nulls(room));
        assert input[..] == Rest(message) + [0x80] + Nulls(room);
        Absorb();
        Put(0, Nulls(56));
        assert input[..56] == Nulls(56);
      } else {
        PadOne(transform, message);
        Put(BLOCK - room, Nulls(room - 8));
        assert input[..56] == Rest(message) + [0x80] + Nulls(room - 8);
      }
    }

    /**
     `MD5Final`: pads and puts out the digest. Clearing the context afterwards reaches no further than the size of
     a pointer to it, the first word of the state.
     */
    method Final() returns (digest: seq<Byte>)
      requires Valid()
      modifies this, input
      ensures digest == DigestOf(transform, old(message))
      ensures buf == Fold(transform, INIT, Padded(old(message))).(a := 0)
      ensures BitLength(old(message)) == low + high * TWO_32
    {
      hide Fold, Padded, Bytes;
      Waiting(|message|, low, high);
      Pad(low / 8 % BLOCK);
      WordsFirst(low, high);
      ghost var head := input[..56];
      Put(56, Bytes(low, 4));
      Put(60, Bytes(high, 4));
      assert input[..] == head + (Bytes(low, 4) + Bytes(high, 4));
      Absorb();
      digest := Output(buf);
      buf := buf.(a := 0);
    }
  }

  function Concat(chunks: seq<seq<Byte>>): seq<Byte> {
    if chunks == [] then [] else Concat(chunks[..|chunks| - 1]) + chunks[|chunks| - 1]
  }

  /** However a message is cut up into pieces, its digest is the same. */
  method Digest(transform: Transform, chunks: seq<seq<Byte>>) returns (digest: seq<Byte>)
    requires forall i | 0 <= i < |chunks| :: |chunks[i]| < TWO_32
    ensures digest == DigestOf(transform, Concat(chunks))
  {
    var ctx := new Context(transform);
    for i := 0 to |chunks|
      invariant ctx.Valid() && ctx.message == Concat(chunks[..i]) && fresh(ctx) && fresh(ctx.input)
    {
      assert chunks[..i + 1][..i] == chunks[..i];
      ctx.Update(chunks[i]);
    }
    assert chunks[..|chunks|] == chunks;
    digest := ctx.Final();
  }
}

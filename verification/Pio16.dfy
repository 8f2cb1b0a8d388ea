/** The 16-bit programmed-I/O writer of the DP8390 driver: a gathered packet, written to the card word by word. */
module Pio16 {
  import opened Basics

  const IOVEC_NR := 16
  const ETH_MIN_PACK_SIZE := 60
  const ETH_MAX_PACK_SIZE_TAGGED := 1518

  type Byte = b: int | 0 <= b < 256

  /** The segments one after the other. */
  function Flat(vec: seq<seq<Byte>>): seq<Byte> {
    if vec == [] then [] else vec[0] + Flat(vec[1..])
  }

  /** What is asked for: `count` bytes from `offset` on. */
  predicate Enough(vec: seq<seq<Byte>>, offset: nat, count: nat) {
    offset + count <= |Flat(vec)|
  }

  function Slice(vec: seq<seq<Byte>>, offset: nat, count: nat): (r: seq<Byte>)
    requires Enough(vec, offset, count)
    ensures |r| == count
  {
    Flat(vec)[offset..offset + count]
  }

  /** Stepping over a segment that `offset` lies behind. */
  lemma SkipSegment(vec: seq<seq<Byte>>, offset: nat, count: nat)
    requires vec != [] && |vec[0]| <= offset
    ensures Enough(vec, offset, count) <==> Enough(vec[1..], offset - |vec[0]|, count)
    ensures Enough(vec, offset, count) ==> Slice(vec, offset, count) == Slice(vec[1..], offset - |vec[0]|, count)
  {
  }

  /** Bytes that lie in the first segment. */
  lemma TakeBytes(vec: seq<seq<Byte>>, offset: nat, count: nat, n: nat)
    requires vec != [] && n <= count && offset + n <= |vec[0]|
    ensures Enough(vec, offset, count) <==> Enough(vec, offset + n, count - n)
    ensures Enough(vec, offset, count) ==>
      Slice(vec, offset, count) == vec[0][offset..offset + n] + Slice(vec, offset + n, count - n)
  {
  }

  /** A byte that waits for the other half of its word. */
  function Held(odd: bool, lo: Byte): seq<Byte> {
    if odd then [lo] else []
  }

  /**
   What one segment contributes: words are put out for the byte held back before, if any, and for pairs of bytes;
   a last byte that is left over is held back in turn.
   */
  method Burst(seg: seq<Byte>, at: nat, wanted: nat, wasOdd: bool, held: Byte)
    returns (out: seq<Byte>, offset: nat, count: nat, odd: bool, lo: Byte)
    requires at < |seg| && wanted > 0
    ensures offset == at + Min(|seg| - at, wanted) && count == wanted - Min(|seg| - at, wanted)
    ensures |out| % 2 == 0
    ensures Held(wasOdd, held) + seg[at..offset] == out + Held(odd, lo)
  {
    out, offset, count, odd, lo := [], at, wanted, wasOdd, held;
    var bytes := Min(|seg| - offset, count);
    if odd {
      out := [lo, seg[offset]];
      count, offset, bytes, odd := count - 1, offset + 1, bytes - 1, false;
      if bytes == 0 {
        return;
      }
    }
    ghost var from := offset;
    assert Held(wasOdd, held) + seg[at..from] == out;
    var more;
    more, odd, lo := Pairs(seg, offset, bytes, lo);
    Join(Held(wasOdd, held), seg[at..from], seg[from..from + bytes], seg[at..from + bytes]);
    Join(out, more, Held(odd, lo), seg[from..from + bytes]);
    out := out + more;
    count, offset := count - bytes, offset + bytes;
  }

  /** The pairs among `n` bytes of a segment, and the byte left over, if any. */
  method Pairs(seg: seq<Byte>, at: nat, n: nat, was: Byte) returns (out: seq<Byte>, odd: bool, lo: Byte)
    requires at + n <= |seg|
    ensures |out| % 2 == 0 && out + Held(odd, lo) == seg[at..at + n]
  {
    out, odd, lo := [], false, was;
    var offset, bytes := at, n;
    var even := bytes / 2 * 2;
    if even != 0 {
      out := seg[offset..offset + even];
      offset, bytes := offset + even, bytes - even;
    }
    if bytes != 0 {
      assert bytes == 1;
      lo, odd := seg[offset], true;
    }
  }

  lemma Join(a: seq<Byte>, b: seq<Byte>, c: seq<Byte>, bc: seq<Byte>)
    requires b + c == bc
    ensures a + b + c == a + bc
  {
  }

  /** What was put out and is held back, followed by what is still wanted from `rest`, is what was asked for. */
  ghost predicate Sent(vec: seq<seq<Byte>>, start: nat, total: nat, out: seq<Byte>, held: seq<Byte>,
      rest: seq<seq<Byte>>, offset: nat, count: nat)
  {
    && |out| % 2 == 0 && |held| <= 1 && |out| + |held| + count == total
    && (Enough(vec, start, total) <==> Enough(rest, offset, count))
    && (count < total ==> Enough(rest, offset, 0))
    && (Enough(vec, start, total) && Enough(rest, offset, count) ==>
      Slice(vec, start, total) == out + held + Slice(rest, offset, count))
  }

  lemma RanOut(vec: seq<seq<Byte>>, start: nat, total: nat, out: seq<Byte>, held: seq<Byte>, rest: seq<seq<Byte>>,
      offset: nat, count: nat)
    requires Sent(vec, start, total, out, held, rest, offset, count) && count > 0
    ensures rest == [] ==> !Enough(vec, start, total)
  {
  }

  lemma SentSkip(vec: seq<seq<Byte>>, start: nat, total: nat, out: seq<Byte>, held: seq<Byte>, rest: seq<seq<Byte>>,
      offset: nat, count: nat)
    requires Sent(vec, start, total, out, held, rest, offset, count) && rest != [] && |rest[0]| <= offset
    ensures Sent(vec, start, total, out, held, rest[1..], offset - |rest[0]|, count)
  {
    SkipSegment(rest, offset, count);
    SkipSegment(rest, offset, 0);
  }

  lemma InSegment(rest: seq<seq<Byte>>, offset: nat)
    requires rest != [] && offset <= |rest[0]|
    ensures Enough(rest, offset, 0)
  {
  }

  lemma Regroup(out: seq<Byte>, held: seq<Byte>, taken: seq<Byte>, more: seq<Byte>, held': seq<Byte>, tail: seq<Byte>)
    requires held + taken == more + held'
    ensures out + held + (taken + tail) == out + more + held' + tail
  {
    assert out + held + (taken + tail) == out + (held + taken) + tail;
    assert out + more + held' + tail == out + (more + held') + tail;
  }

  lemma SentNone(vec: seq<seq<Byte>>, start: nat, total: nat)
    ensures Sent(vec, start, total, [], [], vec[0..], start, total)
  {
    assert vec[0..] == vec;
  }

  lemma SentMore(vec: seq<seq<Byte>>, start: nat, total: nat, out: seq<Byte>, held: seq<Byte>, rest: seq<seq<Byte>>,
      offset: nat, count: nat, more: seq<Byte>, held': seq<Byte>, n: nat)
    requires Sent(vec, start, total, out, held, rest, offset, count)
    requires rest != [] && n <= count && offset + n <= |rest[0]| && |more| % 2 == 0 && |held'| <= 1
    requires held + rest[0][offset..offset + n] == more + held'
    ensures Sent(vec, start, total, out + more, held', rest, offset + n, count - n)
  {
    hide Flat, Enough, Slice;
    TakeBytes(rest, offset, count, n);
    InSegment(rest, offset + n);
    assert |held + rest[0][offset..offset + n]| == |held| + n;
    if Enough(rest, offset, count) {
      Regroup(out, held, rest[0][offset..offset + n], more, held', Slice(rest, offset + n, count - n));
    }
  }

  lemma SentAll(vec: seq<seq<Byte>>, start: nat, total: nat, out: seq<Byte>, held: seq<Byte>, rest: seq<seq<Byte>>,
      offset: nat)
    requires Sent(vec, start, total, out, held, rest, offset, 0)
    ensures |out| + |held| == total && |out| % 2 == 0
    ensures total > 0 ==> Enough(vec, start, total) && Slice(vec, start, total) == out + held
  {
  }

  /** A gather list, of which at most `IOVEC_NR` segments are at hand at a time. */
  class Iovec {
    const vec: seq<seq<Byte>>
    /** How many segments are left (`iod_iovec_s`), and how many were passed (`iod_iovec_offset`). */
    var left: nat
    var passed: nat
    const window: array<seq<Byte>>

    ghost predicate Valid()
      reads this, window
    {
      && window.Length == IOVEC_NR
      && passed + left == |vec|
      && forall k | 0 <= k < IOVEC_NR && k < left :: window[k] == vec[passed + k]
    }

    constructor (vec: seq<seq<Byte>>)
      ensures Valid() && this.vec == vec && passed == 0 && fresh(window)
    {
      this.vec := vec;
      left, passed := |vec|, 0;
      window := new seq<Byte>[IOVEC_NR](k => if 0 <= k < |vec| then vec[k] else []);
    }

    /** `dp_next_iovec_s`: the next segments; its assertion fails when there are none. */
    method Next() returns (ok: bool)
      requires Valid()
      modifies this, window
      ensures Valid()
      ensures ok <==> old(left) > IOVEC_NR
      ensures ok ==> passed == old(passed) + IOVEC_NR
      ensures !ok ==> passed == old(passed)
    {
      if left <= IOVEC_NR {
        return false;
      }
      left := left - IOVEC_NR;
      passed := passed + IOVEC_NR;
      forall k | 0 <= k < Min(IOVEC_NR, left) {
        window[k] := vec[passed + k];
      }
      return true;
    }

    /**
     `dp_pio16_user2nic_s`: the bytes in the order in which the card gets them, two to a word.
     Not `ok` is a failed assertion.
     */
    method Write(start: nat, total: nat) returns (ok: bool, out: seq<Byte>)
      requires Valid()
      modifies this, window
      ensures ok <==> total == 0 || Enough(vec[old(passed)..], start, total)
      ensures ok ==> |out| == (total + 1) / 2 * 2
      ensures ok && total > 0 ==> out[..total] == Slice(vec[old(passed)..], start, total)
    {
      hide Flat, Enough, Slice, Sent;
      ghost var all := vec[passed..];
      SentNone(all, start, total);
      var count, offset, i, odd, lo, hi := total, start, 0, false, 0, 0;
      out := [];
      while count > 0
        invariant Valid()
        invariant 0 <= count <= total && 0 <= i <= IOVEC_NR && i <= left && 0 <= offset
        invariant Sent(all, start, total, out, Held(odd, lo), vec[passed + i..], offset, count)
        decreases count, |vec| - passed - i, i
      {
        ghost var rest := vec[passed + i..];
        if i >= IOVEC_NR {
          RanOut(all, start, total, out, Held(odd, lo), rest, offset, count);
          ok := Next();
          if !ok {
            return;
          }
          i := 0;
          continue;
        }
        if i >= left {
          RanOut(all, start, total, out, Held(odd, lo), rest, offset, count);
          return false, out;
        }
        assert rest[0] == window[i] && rest[1..] == vec[passed + (i + 1)..];
        if offset >= |window[i]| {
          SentSkip(all, start, total, out, Held(odd, lo), rest, offset, count);
          offset := offset - |window[i]|;
          i := i + 1;
          continue;
        }
        ghost var at, wanted, was := offset, count, Held(odd, lo);
        var more;
        more, offset, count, odd, lo := Burst(window[i], offset, count, odd, lo);
        SentMore(all, start, total, out, was, rest, at, wanted, more, Held(odd, lo), offset - at);
        out := out + more;
      }
      SentAll(all, start, total, out, Held(odd, lo), vec[passed + i..], offset);
      if odd {
        out := out + [lo, hi];
      }
      ok := true;
    }

    /** `calc_iovec_size_s`: how many bytes the segments hold. */
    method CalcSize() returns (size: nat)
      requires Valid()
      modifies this, window
      ensures size == |Flat(vec[old(passed)..])|
    {
      ghost var total := |Flat(vec[passed..])|;
      size := 0;
      var i := 0;
      while i < left
        invariant Valid() && 0 <= i <= IOVEC_NR && i <= left
        invariant size + |Flat(vec[passed + i..])| == total
        decreases |vec| - passed - i, i
      {
        if i >= IOVEC_NR {
          var ok := Next();
          assert ok;
          i := 0;
          continue;
        }
        ghost var rest := vec[passed + i..];
        assert rest[0] == window[i] && rest[1..] == vec[passed + (i + 1)..];
        size := size + |window[i]|;
        i := i + 1;
      }
    }
  }

  /**
   Sending a packet, as `do_vwrite_s` does: the whole of it goes out, and the assertions on the way all hold. None is
   the panic on a packet that is no Ethernet packet.
   */
  method Send(vec: seq<seq<Byte>>) returns (r: Option<seq<Byte>>)
    ensures r.Some? <==> ETH_MIN_PACK_SIZE <= |Flat(vec)| <= ETH_MAX_PACK_SIZE_TAGGED
    ensures r.Some? ==> |r.value| == (|Flat(vec)| + 1) / 2 * 2 && r.value[..|Flat(vec)|] == Flat(vec)
  {
    var iovec := new Iovec(vec);
    var copy := new Iovec(vec);
    assert vec[0..] == vec;
    var size := copy.CalcSize();
    if size < ETH_MIN_PACK_SIZE || size > ETH_MAX_PACK_SIZE_TAGGED {
      return None;
    }
    var ok, out := iovec.Write(0, size);
    assert ok;
    return Some(out);
  }
}

/** The direct scatter/gather path of the ATA driver: the table of physical regions for one transfer. */
module Dma {
  import opened Basics

  const N_PRDTE := 1024
  const PAGE := 0x1_0000
  const EOT := 0x80

  /** Part of a user buffer, physically contiguous. */
  datatype Segment = Segment(phys: nat, size: nat)

  /** A table entry; the count is a 16-bit word in which 0 stands for 64K. */
  datatype Entry = Entry(base: nat, count: nat, flags: nat)

  function Length(e: Entry): nat {
    if e.count == 0 then PAGE else e.count
  }

  /** A run of addresses. */
  function Span(base: nat, n: nat): (r: seq<nat>)
    ensures |r| == n
  {
    seq(n, i => base + i)
  }

  /** The bytes of the segments, by address, in order. */
  function Flat(segs: seq<Segment>): seq<nat> {
    if segs == [] then [] else Span(segs[0].phys, segs[0].size) + Flat(segs[1..])
  }

  /** The bytes a table covers, by address, in order. */
  function Covers(table: seq<Entry>): seq<nat> {
    if table == [] then [] else Span(table[0].base, Length(table[0])) + Covers(table[1..])
  }

  /** The part of the first segment that is asked for can be done directly: it is there, even-sized and even-aligned. */
  predicate HeadOk(segs: seq<Segment>, size: nat) {
    segs != [] && var n := Min(segs[0].size, size); n > 0 && n % 2 == 0 && segs[0].phys % 2 == 0
  }

  /** So can every part. */
  predicate Clean(segs: seq<Segment>, size: nat) {
    size == 0 || (HeadOk(segs, size) && Clean(segs[1..], size - Min(segs[0].size, size)))
  }

  /** How many bytes lie before the first part that cannot. */
  function CleanBytes(segs: seq<Segment>, size: nat): nat {
    if size == 0 || !HeadOk(segs, size) then 0
    else Min(segs[0].size, size) + CleanBytes(segs[1..], size - Min(segs[0].size, size))
  }

  /** What is wrong with that part is its size. */
  predicate BadSize(segs: seq<Segment>, size: nat) {
    size > 0 && segs != [] &&
    var n := Min(segs[0].size, size);
    if HeadOk(segs, size) then BadSize(segs[1..], size - n) else n == 0 || n % 2 == 1
  }

  /** The part of `n` bytes at `phys` that lies in its 64K page. */
  function InPage(phys: nat, n: nat): (r: nat)
    requires n > 0
    ensures 0 < r <= n && r <= PAGE && phys / PAGE == (phys + r - 1) / PAGE
    ensures phys % 2 == 0 && n % 2 == 0 ==> r % 2 == 0
  {
    if phys / PAGE != (phys + n - 1) / PAGE then (phys / PAGE + 1) * PAGE - phys else n
  }

  /** What is left of the segments after `n` bytes of the first. */
  function Advance(segs: seq<Segment>, n: nat): seq<Segment>
    requires segs != [] && n <= segs[0].size
  {
    if n < segs[0].size then [Segment(segs[0].phys + n, segs[0].size - n)] + segs[1..] else segs[1..]
  }

  function Piece(segs: seq<Segment>, size: nat): (n: nat)
    requires segs != [] && segs[0].size > 0 && size > 0
    ensures 0 < n <= segs[0].size && n <= size && n <= PAGE
    ensures segs[0].phys % 2 == 0 && Min(segs[0].size, size) % 2 == 0 ==> n % 2 == 0
  {
    InPage(segs[0].phys, Min(segs[0].size, size))
  }

  /** The table for the first `size` bytes of the segments. */
  function Table(segs: seq<Segment>, size: nat): seq<Entry>
    requires Clean(segs, size)
    decreases size
  {
    if size == 0 then []
    else
      var n := Piece(segs, size);
      CleanAdvance(segs, size);
      [Entry(segs[0].phys, n % PAGE, 0)] + Table(Advance(segs, n), size - n)
  }

  lemma CleanAdvance(segs: seq<Segment>, size: nat)
    requires size > 0 && HeadOk(segs, size)
    ensures var n := Piece(segs, size); Clean(segs, size) <==> Clean(Advance(segs, n), size - n)
  {
    hide InPage, Piece;
    var n := Piece(segs, size);
    var next := Advance(segs, n);
    if n < segs[0].size {
      assert next[0] == Segment(segs[0].phys + n, segs[0].size - n) && next[1..] == segs[1..];
      if n < size {
        assert Min(next[0].size, size - n) == Min(segs[0].size, size) - n;
      }
    }
  }

  lemma {:induction false} CleanBytesIs(segs: seq<Segment>, size: nat)
    ensures CleanBytes(segs, size) <= size && Clean(segs, CleanBytes(segs, size))
    ensures Clean(segs, size) <==> CleanBytes(segs, size) == size
    ensures size > 0 && HeadOk(segs, size) ==>
      CleanBytes(segs, size) > 0 && Min(segs[0].size, CleanBytes(segs, size)) == Min(segs[0].size, size)
  {
    if size > 0 && HeadOk(segs, size) {
      CleanBytesIs(segs[1..], size - Min(segs[0].size, size));
    }
  }

  /** One entry on, the first part that cannot be done directly is still the same. */
  lemma FlawAdvance(segs: seq<Segment>, size: nat)
    requires size > 0 && HeadOk(segs, size)
    ensures var n := Piece(segs, size); var next := Advance(segs, n);
      CleanBytes(segs, size) == n + CleanBytes(next, size - n) && (BadSize(segs, size) <==> BadSize(next, size - n))
  {
    hide InPage, Piece;
    var n := Piece(segs, size);
    var next := Advance(segs, n);
    if n < segs[0].size {
      assert next[0] == Segment(segs[0].phys + n, segs[0].size - n) && next[1..] == segs[1..];
      if n < size {
        assert Min(next[0].size, size - n) == Min(segs[0].size, size) - n;
        assert HeadOk(next, size - n);
      }
    }
  }

  // -------------------------------------------------------------- properties

  ghost predicate EntryOk(e: Entry) {
    && e.base % 2 == 0 && Length(e) % 2 == 0 && Length(e) > 0
    && e.count < PAGE && e.base / PAGE == (e.base + Length(e) - 1) / PAGE
  }

  lemma PieceOk(segs: seq<Segment>, size: nat)
    requires size > 0 && HeadOk(segs, size)
    ensures EntryOk(Entry(segs[0].phys, Piece(segs, size) % PAGE, 0))
  {
    hide InPage;
    LengthIs(segs[0].phys, Piece(segs, size));
  }

  lemma LengthIs(base: nat, n: nat)
    requires 0 < n <= PAGE
    ensures Length(Entry(base, n % PAGE, 0)) == n
  {
  }

  /** Every entry is aligned, of even size and not empty, and inside one 64K page. */
  lemma {:induction false} TableOk(segs: seq<Segment>, size: nat)
    requires Clean(segs, size)
    ensures forall i | 0 <= i < |Table(segs, size)| :: EntryOk(Table(segs, size)[i]) && Table(segs, size)[i].flags == 0
    ensures size > 0 ==> |Table(segs, size)| > 0
    decreases size
  {
    hide Piece, InPage, EntryOk, Advance;
    if size > 0 {
      var n := Piece(segs, size);
      CleanAdvance(segs, size);
      TableOk(Advance(segs, n), size - n);
      PieceOk(segs, size);
    }
  }

  lemma SpanSplit(base: nat, m: nat, n: nat)
    ensures Span(base, m + n) == Span(base, m) + Span(base + m, n)
  {
  }

  lemma FlatCons(s: Segment, rest: seq<Segment>)
    ensures Flat([s] + rest) == Span(s.phys, s.size) + Flat(rest)
  {
    assert ([s] + rest)[1..] == rest;
  }

  lemma FlatAdvance(segs: seq<Segment>, n: nat)
    requires segs != [] && n <= segs[0].size
    ensures Flat(segs) == Span(segs[0].phys, n) + Flat(Advance(segs, n))
  {
    hide Span, Flat;
    assert segs == [segs[0]] + segs[1..];
    FlatCons(segs[0], segs[1..]);
    if n < segs[0].size {
      SpanSplit(segs[0].phys, n, segs[0].size - n);
      FlatCons(Segment(segs[0].phys + n, segs[0].size - n), segs[1..]);
      Associate(Span(segs[0].phys, n), Span(segs[0].phys + n, segs[0].size - n), Flat(segs[1..]));
    }
  }

  lemma Associate(a: seq<nat>, b: seq<nat>, c: seq<nat>)
    ensures a + b + c == a + (b + c)
  {
  }

  lemma TakeMore(a: seq<nat>, b: seq<nat>, size: nat)
    requires |a| <= size <= |a| + |b|
    ensures (a + b)[..size] == a + b[..size - |a|]
  {
  }

  /** The table covers just the bytes asked for, in order. */
  lemma {:induction false} TableCovers(segs: seq<Segment>, size: nat)
    requires Clean(segs, size)
    ensures size <= |Flat(segs)| && Covers(Table(segs, size)) == Flat(segs)[..size]
    decreases size
  {
    hide Span, Piece, InPage, Flat, Advance;
    if size > 0 {
      var n := Piece(segs, size);
      var next := Advance(segs, n);
      CleanAdvance(segs, size);
      TableCovers(next, size - n);
      FlatAdvance(segs, n);
      var table := Table(segs, size);
      assert table[1..] == Table(next, size - n);
      LengthIs(segs[0].phys, n);
      TakeMore(Span(segs[0].phys, n), Flat(next), size);
    }
  }

  // ------------------------------------------------------------- the builder

  datatype Outcome = Done | Fallback | Panic

  /** The buffers from `offset` bytes into the first on, which starts `addrOffset` bytes behind its address. */
  function From(iov: seq<Segment>, addrOffset: nat, offset: nat): seq<Segment>
    requires iov != [] ==> offset <= iov[0].size
  {
    if iov == [] then []
    else [Segment(iov[0].phys + addrOffset + offset, iov[0].size - offset)] + iov[1..]
  }

  /** The last entry carries the end-of-table flag, and no other. */
  function Marked(table: seq<Entry>): seq<Entry>
    requires table != []
  {
    table[|table| - 1 := table[|table| - 1].(flags := EOT)]
  }

  lemma {:induction false} MarkedCovers(table: seq<Entry>)
    requires table != []
    ensures Covers(Marked(table)) == Covers(table)
  {
    if |table| > 1 {
      MarkedCovers(table[1..]);
      assert Marked(table)[1..] == Marked(table[1..]);
    }
  }

  /** What the card relies on: aligned, even, non-empty entries inside a page each, and the last one marked. */
  lemma MarkedOk(segs: seq<Segment>, size: nat)
    requires Clean(segs, size) && size > 0
    ensures Table(segs, size) != [] && size <= |Flat(segs)|
    ensures var t := Marked(Table(segs, size));
      && Covers(t) == Flat(segs)[..size]
      && forall i | 0 <= i < |t| :: EntryOk(t[i]) && t[i].flags == if i == |t| - 1 then EOT else 0
  {
    TableOk(segs, size);
    TableCovers(segs, size);
    MarkedCovers(Table(segs, size));
  }

  /** How many 64K pages `n` bytes at `phys` touch. */
  function Touched(phys: nat, n: nat): nat
    requires n > 0
  {
    (phys + n - 1) / PAGE - phys / PAGE + 1
  }

  /** How many the parts of a request touch, each counted by itself. */
  function Pages(segs: seq<Segment>, size: nat): nat
    requires Clean(segs, size)
  {
    if size == 0 then 0
    else var n := Min(segs[0].size, size); Touched(segs[0].phys, n) + Pages(segs[1..], size - n)
  }

  /** Crossing into the next page, there is one page less to touch. */
  lemma NextPage(phys: nat, n: nat)
    requires n > 0
    ensures var r := InPage(phys, n); Touched(phys, n) == 1 + if r < n then Touched(phys + r, n - r) else 0
  {
  }

  lemma PagesAdvance(segs: seq<Segment>, size: nat)
    requires size > 0 && Clean(segs, size)
    ensures var n := Piece(segs, size);
      Clean(Advance(segs, n), size - n) && Pages(segs, size) == 1 + Pages(Advance(segs, n), size - n)
  {
    hide InPage, Touched, Clean;
    HeadIsOk(segs, size);
    CleanAdvance(segs, size);
    var n, m := Piece(segs, size), Min(segs[0].size, size);
    NextPage(segs[0].phys, m);
    var next := Advance(segs, n);
    if n < segs[0].size {
      assert next[0] == Segment(segs[0].phys + n, segs[0].size - n) && next[1..] == segs[1..];
      if n < size {
        assert Min(next[0].size, size - n) == m - n;
      }
    }
  }

  lemma HeadIsOk(segs: seq<Segment>, size: nat)
    requires size > 0 && Clean(segs, size)
    ensures HeadOk(segs, size) && Clean(segs[1..], size - Min(segs[0].size, size))
  {
  }

  /** The table has an entry for each page that a part touches. */
  lemma {:induction false} TableLength(segs: seq<Segment>, size: nat)
    requires Clean(segs, size)
    ensures |Table(segs, size)| == Pages(segs, size)
    decreases size
  {
    hide InPage, Advance, Piece;
    if size > 0 {
      PagesAdvance(segs, size);
      TableLength(Advance(segs, Piece(segs, size)), size - Piece(segs, size));
    }
  }

  /** A request that can be done directly does not touch more pages than the table has entries. */
  ghost predicate Fits(segs: seq<Segment>, size: nat) {
    Clean(segs, size) && Pages(segs, size) <= N_PRDTE
  }

  /** The loop gets as far as a part of bad size, which is an error of its caller. */
  ghost predicate Panics(segs: seq<Segment>, size: nat) {
    BadSize(segs, size) && (CleanBytesIs(segs, size); Pages(segs, CleanBytes(segs, size))) <= N_PRDTE
  }

  /** What the loop fills in before it stops. */
  lemma StartLength(segs: seq<Segment>, size: nat)
    ensures Clean(segs, CleanBytes(segs, size)) && |Start(segs, size)| == Pages(segs, CleanBytes(segs, size))
  {
    CleanBytesIs(segs, size);
    TableLength(segs, CleanBytes(segs, size));
  }

  /** The table up to the first part that cannot be done directly. */
  function Start(segs: seq<Segment>, size: nat): seq<Entry> {
    CleanBytesIs(segs, size);
    Table(segs, CleanBytes(segs, size))
  }

  /** `filled` is the start of the table for `size` bytes of `segs`; what follows is that for `left` bytes of `rest`. */
  ghost predicate Partly(segs: seq<Segment>, size: nat, filled: seq<Entry>, rest: seq<Segment>, left: nat) {
    && left <= |Flat(rest)| && left <= size
    && CleanBytes(segs, size) == size - left + CleanBytes(rest, left)
    && (BadSize(segs, size) <==> BadSize(rest, left))
    && Start(segs, size) == filled + Start(rest, left)
  }

  lemma StartMore(segs: seq<Segment>, size: nat)
    requires size > 0 && HeadOk(segs, size)
    ensures var n := Piece(segs, size);
      Start(segs, size) == [Entry(segs[0].phys, n % PAGE, 0)] + Start(Advance(segs, n), size - n)
  {
    hide InPage, Advance;
    FlawAdvance(segs, size);
    CleanBytesIs(segs, size);
    var clean := CleanBytes(segs, size);
    assert Piece(segs, clean) == Piece(segs, size);
    CleanBytesIs(Advance(segs, Piece(segs, size)), size - Piece(segs, size));
  }

  lemma PartlyMore(segs: seq<Segment>, size: nat, filled: seq<Entry>, rest: seq<Segment>, left: nat)
    requires Partly(segs, size, filled, rest, left) && left > 0 && HeadOk(rest, left)
    ensures var n := Piece(rest, left);
      Partly(segs, size, filled + [Entry(rest[0].phys, n % PAGE, 0)], Advance(rest, n), left - n)
  {
    hide Flat, Advance, Piece, InPage, Start, CleanBytes, BadSize;
    FlawAdvance(rest, left);
    FlatAdvance(rest, Piece(rest, left));
    StartMore(rest, left);
  }

  /** At a part that cannot be done directly, the table is as far as it gets. */
  lemma Stuck(segs: seq<Segment>, size: nat, filled: seq<Entry>, rest: seq<Segment>, left: nat)
    requires Partly(segs, size, filled, rest, left) && left > 0 && !HeadOk(rest, left)
    ensures !Clean(segs, size) && Start(segs, size) == filled
    ensures rest != [] && (BadSize(segs, size) <==> Min(rest[0].size, left) == 0 || Min(rest[0].size, left) % 2 == 1)
  {
    CleanBytesIs(segs, size);
    assert Start(rest, left) == [];
  }

  /** At a part that can, it goes further. */
  lemma Going(segs: seq<Segment>, size: nat, filled: seq<Entry>, rest: seq<Segment>, left: nat)
    requires Partly(segs, size, filled, rest, left) && left > 0 && HeadOk(rest, left)
    ensures |Start(segs, size)| > |filled|
    ensures Clean(segs, size) ==> Start(segs, size) == Table(segs, size)
  {
    hide InPage, Advance;
    StartMore(rest, left);
    CleanBytesIs(segs, size);
  }

  lemma SomethingLeft(segs: seq<Segment>, size: nat, filled: seq<Entry>, rest: seq<Segment>, left: nat)
    requires Partly(segs, size, filled, rest, left) && left > 0
    ensures rest != []
  {
  }

  lemma PartlyNone(segs: seq<Segment>, size: nat)
    requires size <= |Flat(segs)|
    ensures Partly(segs, size, [], segs, size)
  {
  }

  lemma PartlyAll(segs: seq<Segment>, size: nat, filled: seq<Entry>, rest: seq<Segment>)
    requires Partly(segs, size, filled, rest, 0)
    ensures Clean(segs, size) && Table(segs, size) == filled && (|filled| <= N_PRDTE ==> Fits(segs, size))
    ensures !Panics(segs, size)
  {
    CleanBytesIs(segs, size);
    TableLength(segs, size);
    assert Start(rest, 0) == [];
  }

  /** What the checks on one part decide. */
  lemma Decides(segs: seq<Segment>, size: nat, filled: seq<Entry>, rest: seq<Segment>, left: nat)
    requires Partly(segs, size, filled, rest, left) && left > 0 && rest != [] && |filled| <= N_PRDTE
    ensures var n := Min(rest[0].size, left);
      if n == 0 || n % 2 == 1 then Panics(segs, size) && !Fits(segs, size)
      else if rest[0].phys % 2 == 1 || |filled| == N_PRDTE then !Panics(segs, size) && !Fits(segs, size)
      else HeadOk(rest, left)
  {
    hide InPage, Advance, Table, Pages, Partly, Start;
    StartLength(segs, size);
    CleanBytesIs(segs, size);
    if HeadOk(rest, left) {
      Going(segs, size, filled, rest, left);
    } else {
      Stuck(segs, size, filled, rest, left);
    }
  }

  lemma FromHead(iov: seq<Segment>, i: nat, addrOffset: nat, offset: nat)
    requires i <= |iov| && (i < |iov| ==> offset <= iov[i].size) && From(iov[i..], addrOffset, offset) != []
    ensures i < |iov| && iov[i..][0] == iov[i] && iov[i..][1..] == iov[i + 1..]
    ensures From(iov[i..], addrOffset, offset)[0] == Segment(iov[i].phys + addrOffset + offset, iov[i].size - offset)
  {
  }

  lemma FromNext(iov: seq<Segment>, addrOffset: nat, offset: nat, n: nat)
    requires iov != [] && offset + n <= iov[0].size
    ensures Advance(From(iov, addrOffset, offset), n) ==
      if offset + n < iov[0].size then From(iov, addrOffset, offset + n) else From(iov[1..], 0, 0)
  {
    if offset + n == iov[0].size && iov[1..] != [] {
      assert From(iov[1..], 0, 0) == iov[1..];
    }
  }

  /** The loop of `setup_dma`. */
  method Fill(prdt: array<Entry>, iov: seq<Segment>, firstOffset: nat, total: nat) returns (r: Outcome, j: nat)
    requires prdt.Length == N_PRDTE && total <= |Flat(From(iov, firstOffset, 0))|
    modifies prdt
    ensures r == Done <==> Fits(From(iov, firstOffset, 0), total)
    ensures r == Panic <==> Panics(From(iov, firstOffset, 0), total)
    ensures r == Done ==> j <= N_PRDTE && prdt[..j] == Table(From(iov, firstOffset, 0), total)
  {
    hide Flat, InPage, Clean, Table, Partly, From, Advance, Fits, Panics;
    ghost var segs := From(iov, firstOffset, 0);
    var size, i, offset, addrOffset := total, 0, 0, firstOffset;
    j := 0;
    assert iov[0..] == iov;
    PartlyNone(segs, total);
    assert prdt[..0] == [];
    while size > 0
      invariant 0 <= size <= total && 0 <= i <= |iov| && 0 <= offset && (i < |iov| ==> offset <= iov[i].size)
      invariant j <= N_PRDTE
      invariant Partly(segs, total, prdt[..j], From(iov[i..], addrOffset, offset), size)
    {
      ghost var rest := From(iov[i..], addrOffset, offset);
      SomethingLeft(segs, total, prdt[..j], rest, size);
      FromHead(iov, i, addrOffset, offset);
      Decides(segs, total, prdt[..j], rest, size);
      var n := Min(iov[i].size - offset, size);
      if n == 0 || n % 2 == 1 {
        return Panic, j;
      }
      var phys := iov[i].phys + offset + addrOffset;
      if phys % 2 == 1 {
        return Fallback, j;
      }
      n := InPage(phys, n);
      if j >= N_PRDTE {
        return Fallback, j;
      }
      PartlyMore(segs, total, prdt[..j], rest, size);
      ghost var before := prdt[..j];
      prdt[j] := Entry(phys, n % PAGE, 0);
      assert prdt[..j + 1] == before + [Entry(phys, n % PAGE, 0)];
      FromNext(iov[i..], addrOffset, offset, n);
      j := j + 1;
      offset := offset + n;
      if offset >= iov[i].size {
        i, offset, addrOffset := i + 1, 0, 0;
      }
      size := size - n;
    }
    PartlyAll(segs, total, prdt[..j], From(iov[i..], addrOffset, offset));
    r := Done;
  }

  lemma NoTable(segs: seq<Segment>, size: nat)
    requires Clean(segs, size)
    ensures Table(segs, size) == [] <==> size == 0
  {
  }

  lemma NothingAsked(segs: seq<Segment>)
    ensures Fits(segs, 0)
  {
  }

  /** `setup_dma` for `total` bytes of the buffers, up to the choice of a bounce buffer. */
  method SetupDma(prdt: array<Entry>, iov: seq<Segment>, firstOffset: nat, total: nat) returns (r: Outcome, j: nat)
    requires prdt.Length == N_PRDTE && total <= |Flat(From(iov, firstOffset, 0))|
    modifies prdt
    ensures r == Done <==> total > 0 && Fits(From(iov, firstOffset, 0), total)
    ensures r == Panic <==> total == 0 || Panics(From(iov, firstOffset, 0), total)
    ensures r == Done ==> 0 < j <= N_PRDTE && Covers(prdt[..j]) == Flat(From(iov, firstOffset, 0))[..total]
    ensures r == Done ==> forall i | 0 <= i < j :: EntryOk(prdt[i]) && prdt[i].flags == if i == j - 1 then EOT else 0
  {
    hide Flat, From, Clean, Table, Covers, EntryOk, BadSize, Start;
    NothingAsked(From(iov, firstOffset, 0));
    r, j := Fill(prdt, iov, firstOffset, total);
    if r == Done {
      ghost var table := Table(From(iov, firstOffset, 0), total);
      NoTable(From(iov, firstOffset, 0), total);
      if j == 0 {
        return Panic, j;
      }
      MarkedOk(From(iov, firstOffset, 0), total);
      prdt[j - 1] := prdt[j - 1].(flags := EOT);
      assert prdt[..j] == Marked(table);
    }
  }
}

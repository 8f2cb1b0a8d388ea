/** The middle layer of the filter driver: transfers in the interspersed-checksum format. */
module SumFilter {
  import opened Basics
  import opened SumLayout
  import opened SumModel
  import opened SumImage

  /** Position `x` of the image of a request from `first` on has checksums. */
  predicate IsSum(g: nat, first: nat, x: nat)
    requires g > 0
  {
    Index(g + 1, PhysOf(g, first) + x) == g
  }

  ghost predicate SumsSame(g: nat, first: nat, a: seq<Sector>, b: seq<Sector>)
    requires g > 0 && |a| == |b|
  {
    forall x | 0 <= x < |a| && IsSum(g, first, x) :: a[x] == b[x]
  }

  /** `memcpy` of whole sectors. */
  method Copy(from: array<Sector>, src: nat, to: array<Sector>, dst: nat, count: nat)
    requires from != to && src + count <= from.Length && dst + count <= to.Length
    modifies to
    ensures to[..] == Patch(old(to[..]), dst, from[src..src + count])
    ensures to[..dst + count] == old(to[..dst]) + from[src..src + count]
    ensures to[dst + count..] == old(to[dst + count..])
  {
    forall i | 0 <= i < count {
      to[dst + i] := from[src + i];
    }
  }

  /** `expand`: contiguous data to interspersed format; the checksum sectors are not touched. */
  method Expand(g: nat, first: nat, buffer: array<Sector>, n: nat, ext: array<Sector>)
    requires 0 < g && 0 < n <= buffer.Length && ext != buffer && ReqSize(g, first, n) <= ext.Length
    modifies ext
    ensures Spread(g, ext[..], first, buffer[..n])
    ensures SumsSame(g, first, ext[..], old(ext[..]))
  {
    hide Group, Index, Slot;
    var src, dst, left := 0, 0, n;
    var groupLeft := g - Index(g, first);
    while left > 0
      invariant src + left == n
      invariant left > 0 ==> dst == Offset(g, first, src) && groupLeft == g - Index(g, first + src)
      invariant Spread(g, ext[..], first, buffer[..src])
      invariant SumsSame(g, first, ext[..], old(ext[..]))
    {
      var count := Min(left, groupLeft);
      NextTo(g, first, src, count - 1);
      InRequest(g, first, src + count - 1, n);
      NextOver(g, first, src);
      SpreadMore(g, first, ext[..], buffer[..], src, count);
      SumsStay(g, first, ext[..], old(ext[..]), src, buffer[src..src + count]);
      Copy(buffer, src, ext, dst, count);
      src := src + count;
      dst := dst + count + 1;
      left := left - count;
      groupLeft := g;
    }
  }

  /** Sectors left in a group lie next to each other. */
  lemma NextTo(g: nat, first: nat, src: nat, j: nat)
    requires g > 0 && Index(g, first + src) + j < g
    ensures Offset(g, first, src + j) == Offset(g, first, src) + j
  {
    Within(g, first + src, j);
    assert first + src + j == first + (src + j);
  }

  lemma StartsAt(g: nat, first: nat)
    requires g > 0
    ensures Offset(g, first, 0) == 0
  {
  }

  /** The next group follows one checksum sector on. */
  lemma NextOver(g: nat, first: nat, src: nat)
    requires g > 0
    ensures var j := g - Index(g, first + src);
      Index(g, first + (src + j)) == 0 && Offset(g, first, src + j) == Offset(g, first, src) + j + 1
  {
    NextGroup(g, first + src);
    var j := g - Index(g, first + src);
    assert first + src + j == first + (src + j);
  }

  lemma InRequest(g: nat, first: nat, i: nat, n: nat)
    requires g > 0 && i < n
    ensures Offset(g, first, i) < ReqSize(g, first, n)
  {
    PhysMonoLe(g, first + i, first + n - 1);
  }

  lemma SpreadMore(g: nat, first: nat, img: seq<Sector>, data: seq<Sector>, src: nat, count: nat)
    requires g > 0 && src + count <= |data| && count <= g - Index(g, first + src)
    requires Spread(g, img, first, data[..src]) && Offset(g, first, src) + count <= |img|
    ensures Spread(g, Patch(img, Offset(g, first, src), data[src..src + count]), first, data[..src + count])
  {
    hide Group, Index, Slot;
    var after := Patch(img, Offset(g, first, src), data[src..src + count]);
    forall i | 0 <= i < src + count
      ensures Offset(g, first, i) < |after| && after[Offset(g, first, i)] == data[..src + count][i]
    {
      if i < src {
        PhysMono(g, first + i, first + src);
        assert img[Offset(g, first, i)] == data[..src][i];
      } else {
        Within(g, first + src, i - src);
        assert first + src + (i - src) == first + i;
      }
    }
  }

  lemma SumsStay(g: nat, first: nat, img: seq<Sector>, start: seq<Sector>, src: nat, data: seq<Sector>)
    requires g > 0 && |data| <= g - Index(g, first + src) && |start| == |img| && SumsSame(g, first, img, start)
    requires Offset(g, first, src) + |data| <= |img|
    ensures SumsSame(g, first, Patch(img, Offset(g, first, src), data), start)
  {
    forall x: nat | Offset(g, first, src) <= x < Offset(g, first, src) + |data| ensures !IsSum(g, first, x) {
      HasData(g, first, src, x - Offset(g, first, src));
    }
  }

  lemma HasData(g: nat, first: nat, src: nat, j: nat)
    requires g > 0 && Index(g, first + src) + j < g
    ensures !IsSum(g, first, Offset(g, first, src) + j)
  {
    NextTo(g, first, src, j);
    Unclassify(g, first + (src + j));
  }

  /** One round of the loops that walk through the first `size` sectors of an image, a group at a time. */
  lemma Stride(g: nat, first: nat, size: nat, k: nat, left: nat, count: nat)
    requires g > 0 && left > 0 && Offset(g, first, k) + left == size && count == Min(left, g - Index(g, first + k))
    ensures count > 0 && Offset(g, first, k) + count <= size && k + count <= CollapseSize(g, first, size)
    ensures left > count + 1 ==>
      Offset(g, first, k + count) == Offset(g, first, k) + count + 1 && Index(g, first + (k + count)) == 0
    ensures left <= count + 1 ==> size <= Offset(g, first, k + count)
  {
    hide Group, Index, PhysOf, CollapseSize;
    IndexBound(g, first + k);
    NextTo(g, first, k, count - 1);
    CollapseCounts(g, first, size, k + count - 1);
    if count < g - Index(g, first + k) {
      NextTo(g, first, k, count);
    } else {
      NextOver(g, first, k);
    }
  }

  lemma IndexBound(g: nat, nr: nat)
    requires g > 0
    ensures Index(g, nr) < g
  {
  }

  /** `collapse`: the data among the first `size` sectors of the image, back to contiguous format. */
  method Collapse(g: nat, first: nat, ext: array<Sector>, size: nat, buffer: array<Sector>) returns (n: nat)
    requires 0 < g && size <= ext.Length && ext != buffer && CollapseSize(g, first, size) <= buffer.Length
    modifies buffer
    ensures n == CollapseSize(g, first, size)
    ensures Spread(g, ext[..], first, buffer[..n])
    ensures buffer[n..] == old(buffer[n..])
  {
    hide Group, Index, PhysOf, CollapseSize;
    CollapseCounts(g, first, size, 0);
    StartsAt(g, first);
    var src, dst, left := 0, 0, size;
    var groupLeft := g - Index(g, first);
    while left > 0
      invariant 0 <= left && 0 <= dst <= CollapseSize(g, first, size)
      invariant left > 0 ==> src == Offset(g, first, dst) && src + left == size
      invariant left > 0 ==> groupLeft == g - Index(g, first + dst)
      invariant left == 0 ==> size <= Offset(g, first, dst)
      invariant Spread(g, ext[..], first, buffer[..dst])
      invariant buffer[dst..] == old(buffer[dst..])
    {
      var count := Min(left, groupLeft);
      Stride(g, first, size, dst, left, count);
      SpreadBack(g, first, ext[..], buffer[..dst], count);
      Copy(ext, src, buffer, dst, count);
      src := src + count + 1;
      dst := dst + count;
      left := left - Min(count + 1, left);
      groupLeft := g;
    }
    n := dst;
    CollapseCounts(g, first, size, dst);
  }

  lemma SpreadBack(g: nat, first: nat, img: seq<Sector>, data: seq<Sector>, count: nat)
    requires g > 0 && count <= g - Index(g, first + |data|)
    requires Spread(g, img, first, data) && Offset(g, first, |data|) + count <= |img|
    ensures Spread(g, img, first, data + img[Offset(g, first, |data|)..Offset(g, first, |data|) + count])
  {
    hide Group, Index, Slot;
    var src := |data|;
    var more := data + img[Offset(g, first, src)..Offset(g, first, src) + count];
    forall i | 0 <= i < |more| ensures Offset(g, first, i) < |img| && img[Offset(g, first, i)] == more[i] {
      if i >= src {
        Within(g, first + src, i - src);
        assert first + src + (i - src) == first + i;
      }
    }
  }

  class Filter {
    const c: Config
    /** The raw disk under the filter. */
    const disk: array<Sector>

    constructor (c: Config, disk: array<Sector>)
      ensures this.c == c && this.disk == disk
    {
      this.c := c;
      this.disk := disk;
    }

    /** `make_group_sum`: checksums of `count` sectors of a group, from sector `index` of the group on. */
    method MakeGroupSum(ext: array<Sector>, at: nat, sumAt: nat, sector: nat, index: nat, count: nat)
      requires Usable(c) && index + count <= c.group && at + count <= sumAt < ext.Length
      modifies ext
      ensures forall x | 0 <= x < ext.Length && x != sumAt :: ext[x] == old(ext[x])
      ensures SlotsMatch(c, ext[..], at, sumAt, sector, index, count)
      ensures SlotsKept(c, old(ext[sumAt]), ext[sumAt], index, count) && Tail(c, ext[sumAt]) == Tail(c, old(ext[sumAt]))
    {
      hide Slot, SetSlot, Tail;
      var k := 0;
      while k < count
        invariant k <= count
        invariant forall x | 0 <= x < ext.Length && x != sumAt :: ext[x] == old(ext[x])
        invariant SlotsMatch(c, ext[..], at, sumAt, sector, index, k)
        invariant SlotsKept(c, old(ext[sumAt]), ext[sumAt], index, k) && Tail(c, ext[sumAt]) == Tail(c, old(ext[sumAt]))
      {
        var v := c.digest(sector + k, ext[at + k]);
        SlotsSet(c, ext[sumAt], index + k, v);
        TailKept(c, ext[sumAt], index + k, v);
        ext[sumAt] := SetSlot(c, ext[sumAt], index + k, v);
        k := k + 1;
      }
    }

    /** `check_group_sum`, with the same parameters: false asks for the request to be redone. */
    method CheckGroupSum(ext: array<Sector>, at: nat, sumAt: nat, sector: nat, index: nat, count: nat) returns (ok: bool)
      requires Usable(c) && index + count <= c.group && at + count <= sumAt < ext.Length
      ensures ok <==> !c.badSumError || SlotsMatch(c, ext[..], at, sumAt, sector, index, count)
    {
      hide Group, Index, Slot;
      var k := 0;
      while k < count
        invariant k <= count
        invariant c.badSumError ==> SlotsMatch(c, ext[..], at, sumAt, sector, index, k)
      {
        if Slot(c, ext[sumAt], index + k) != c.digest(sector + k, ext[at + k]) {
          if c.badSumError {
            return false;
          }
        }
        k := k + 1;
      }
      return true;
    }

    /** `read_sectors`: raw sectors, zeroes past the end of the disk. */
    method ReadSectors(buf: array<Sector>, at: nat, phys: nat, count: nat)
      requires buf != disk && at + count <= buf.Length
      modifies buf
      ensures buf[..] == Patch(old(buf[..]), at, Raw(disk[..], phys, count))
    {
      forall i | 0 <= i < count {
        buf[at + i] := if phys + i < disk.Length then disk[phys + i] else Zero();
      }
    }

    /**
     Checksums of a group from sector `index` of it to its end; the checksum sector is read in if needed, and starts as
     zeroes if not.
     */
    method FinishGroup(ext: array<Sector>, ghost base: nat, at: nat, cur: nat, index: nat)
      requires Usable(c) && ext != disk && index == Index(c.group, cur)
      requires base + at == PhysOf(c.group, cur) && at + c.group - index < ext.Length
      modifies ext
      ensures GroupMade(c, disk[..], old(ext[..]), ext[..], base, cur, c.group - index)
      ensures Tail(c, ext[at + c.group - index]) ==
        Tail(c, if index > 0 then DiskAt(disk[..], PhysOf(c.group, cur) + c.group - index) else Zero())
    {
      hide Group, Index, Slot, Tail;
      var groupLeft := c.group - index;
      if index > 0 {
        ReadSectors(ext, at + groupLeft, PhysOf(c.group, cur) + groupLeft, 1);
      } else {
        ext[at + groupLeft] := Zero();
      }
      MakeGroupSum(ext, at, at + groupLeft, cur, index, groupLeft);
    }

    /** Checksums of `count` sectors of a group that goes on after them; the rest of the group is read in. */
    method StartGroup(ext: array<Sector>, ghost base: nat, at: nat, cur: nat, index: nat, count: nat)
      requires Usable(c) && ext != disk && index == Index(c.group, cur) && index + count < c.group
      requires base + at == PhysOf(c.group, cur) && at + c.group - index < ext.Length
      modifies ext
      ensures GroupMade(c, disk[..], old(ext[..]), ext[..], base, cur, count)
    {
      hide Group, Index, PhysOf, Slot, SlotsKept, SlotsMatch, GroupMade, Patch, Raw;
      var gap := c.group - index - count;
      ghost var before := ext[..];
      EndOfGroup(c.group, cur);
      ReadSectors(ext, at + count, PhysOf(c.group, cur) + count, gap + 1);
      ghost var mid := ext[..];
      MakeGroupSum(ext, at, at + count + gap, cur, index, count);
      GroupStarted(c, disk[..], before, mid, ext[..], base, cur, count, at, at + count + gap, index);
    }

    /** One round of the loop of `make_sum`. */
    method AddFull(ext: array<Sector>, first: nat, ghost data: seq<Sector>, at: nat, k: nat, index: nat)
      requires Usable(c) && ext != disk && k < |data| && ext.Length == ExtSize(c.group, first, |data|)
      requires at == Offset(c.group, first, k) && index == Index(c.group, first + k) && c.group - index <= |data| - k
      requires Progress(c, disk[..], ext[..], first, data, k)
      modifies ext
      ensures Progress(c, disk[..], ext[..], first, data, k + (c.group - index))
      ensures k + (c.group - index) == |data| ==> Assembled(c, disk[..], ext[..], first, data)
    {
      hide Group, Index, Slot, Progress, Assembled, GroupMade;
      ghost var before := ext[..];
      LastSum(c.group, first, |data|, k);
      FinishGroup(ext, PhysOf(c.group, first), at, first + k, index);
      MadeProgress(c, disk[..], before, ext[..], first, data, k, c.group - index);
      if k + (c.group - index) == |data| {
        MadeAll(c, disk[..], before, ext[..], first, data, k);
      }
    }

    /** The end of `make_sum`. */
    method AddLast(ext: array<Sector>, first: nat, n: nat, ghost data: seq<Sector>, at: nat, k: nat, index: nat)
      requires Usable(c) && ext != disk && k < n == |data| && ext.Length == ExtSize(c.group, first, n)
      requires at == Offset(c.group, first, k) && index == Index(c.group, first + k) && n - k < c.group - index
      requires Progress(c, disk[..], ext[..], first, data, k)
      modifies ext
      ensures Assembled(c, disk[..], ext[..], first, data)
    {
      hide Group, Index, Slot, Progress, Assembled, GroupMade;
      ghost var before := ext[..];
      LastSum(c.group, first, n, k);
      StartGroup(ext, PhysOf(c.group, first), at, first + k, index, n - k);
      MadeProgress(c, disk[..], before, ext[..], first, data, k, n - k);
      MadeAll(c, disk[..], before, ext[..], first, data, k);
    }

    /**
     `make_sum`: checksums for the data in the image. Reads in the checksum sector of a group that the request
     starts inside of, and for one that it ends inside of also the data that follows.
     */
    method MakeSum(ext: array<Sector>, first: nat, n: nat, ghost data: seq<Sector>)
      requires Usable(c) && ext != disk && n == |data| > 0 && ext.Length == ExtSize(c.group, first, n)
      requires Spread(c.group, ext[..], first, data)
      modifies ext
      ensures Assembled(c, disk[..], ext[..], first, data)
    {
      hide Group, Index, PhysOf, SumOf, Spread, Assembled, Summed, SumsKept;
      var at, k, index := 0, 0, Index(c.group, first);
      StartsAt(c.group, first);
      NoneSummed(c, ext[..], PhysOf(c.group, first), first);
      while n - k >= c.group - index
        invariant 0 <= k <= n && 0 <= index < c.group
        invariant k < n ==> at == Offset(c.group, first, k)
        invariant index == Index(c.group, first + k)
        invariant Progress(c, disk[..], ext[..], first, data, k)
        invariant k == n ==> Assembled(c, disk[..], ext[..], first, data)
        decreases n - k
      {
        NextOver(c.group, first, k);
        AddFull(ext, first, data, at, k, index);
        at := at + (c.group - index) + 1;
        k := k + (c.group - index);
        index := 0;
      }
      if k < n {
        AddLast(ext, first, n, data, at, k, index);
      }
    }

    /** `check_sum` over the first `size` sectors of the image: false asks for the request to be redone. */
    method CheckSum(ext: array<Sector>, first: nat, n: nat, size: nat) returns (ok: bool)
      requires Usable(c) && n > 0 && ext.Length == ExtSize(c.group, first, n) && size <= ReqSize(c.group, first, n)
      ensures 0 <= CollapseSize(c.group, first, size)
      ensures c.badSumError ==>
        (ok <==> Summed(c, ext[..], PhysOf(c.group, first), first, first + CollapseSize(c.group, first, size)))
      ensures !c.badSumError ==> ok
    {
      hide Group, Index, PhysOf, SumOf, Slot, CollapseSize;
      CollapseCounts(c.group, first, size, 0);
      StartsAt(c.group, first);
      ghost var base, total := PhysOf(c.group, first), CollapseSize(c.group, first, size) as nat;
      var at, left, k, index := 0, size, 0, Index(c.group, first);
      while left > 0
        invariant 0 <= left && 0 <= k <= total
        invariant left > 0 ==> at == Offset(c.group, first, k) && at + left == size && index == Index(c.group, first + k)
        invariant left == 0 ==> size <= Offset(c.group, first, k)
        invariant !c.badSumError || Summed(c, ext[..], base, first, first + k)
      {
        var groupLeft := c.group - index;
        var count := Min(left, groupLeft);
        Stride(c.group, first, size, k, left, count);
        SumInImage(c.group, first, n, size, k);
        GroupSummed(c, ext[..], base, first + k, count);
        SummedParts(c, ext[..], base, first, first + k, first + k + count, first + total);
        var good := CheckGroupSum(ext, at, at + groupLeft, first + k, index, count);
        if !good {
          return false;
        }
        at := at + count + 1;
        left := left - Min(count + 1, left);
        k := k + count;
        index := 0;
      }
      CollapseCounts(c.group, first, size, k);
      return true;
    }

    /** How many of `count` raw sectors from `pos` on are on the disk. */
    function Avail(pos: nat, count: nat): (size: nat)
      ensures size <= count && (size > 0 ==> pos + size <= disk.Length) && (size < count ==> disk.Length <= pos + size)
    {
      if disk.Length <= pos then 0 else Min(count, disk.Length - pos)
    }

    /** `read_write` for reading; a request is cut off at the end of the disk. */
    method ReadDisk(pos: nat, buf: array<Sector>, count: nat) returns (size: nat)
      requires buf != disk && count <= buf.Length
      modifies buf
      ensures size == Avail(pos, count)
      ensures forall x | 0 <= x < size :: buf[x] == disk[pos + x]
    {
      size := Avail(pos, count);
      forall i | 0 <= i < size {
        buf[i] := disk[pos + i];
      }
    }

    /** `read_write` for writing; a request is cut off at the end of the disk. */
    method WriteDisk(pos: nat, buf: array<Sector>, count: nat) returns (size: nat)
      requires buf != disk && count == buf.Length
      modifies disk
      ensures size == Avail(pos, count)
      ensures disk[..] == Overwrite(old(disk[..]), pos, buf[..])
    {
      size := Avail(pos, count);
      forall i | 0 <= i < size {
        disk[pos + i] := buf[i];
      }
    }

    /** `check_write`: reads back what was written and compares. */
    method CheckWrite(pos: nat, ext: array<Sector>, size: nat) returns (ok: bool)
      requires ext != disk && size <= ext.Length && (size > 0 ==> pos + size <= disk.Length)
      ensures ok <==> forall x | 0 <= x < size :: ext[x] == disk[pos + x]
    {
      if size == 0 {
        return true;
      }
      var rb := new Sector[size];
      var got := ReadDisk(pos, rb, size);
      ok := ext[..got] == rb[..got];
      assert ok ==> forall x | 0 <= x < size :: ext[..got][x] == rb[..got][x];
    }

    /** The image to write for `n` sectors of `buffer` at logical sector `first`. */
    method Prepare(first: nat, buffer: array<Sector>, n: nat) returns (ext: array<Sector>)
      requires Usable(c) && 0 < n <= buffer.Length && buffer != disk
      ensures fresh(ext) && Assembled(c, disk[..], ext[..], first, buffer[..n])
    {
      hide Group, Index, Slot;
      CollapseInverts(c.group, first, n);
      ext := new Sector[ExtSize(c.group, first, n)];
      Expand(c.group, first, buffer, n, ext);
      MakeSum(ext, first, n, buffer[..n]);
    }

    /** `transfer` for writing `n` sectors of `buffer` at logical sector `first`. */
    method Write(first: nat, buffer: array<Sector>, n: nat) returns (redo: bool, size: nat)
      requires Usable(c) && 0 < n <= buffer.Length && buffer != disk
      modifies disk
      ensures !redo && Wrote(c, old(disk[..]), disk[..], first, buffer[..n])
      ensures first + n <= Sectors(c, disk[..]) ==> size == n
      ensures size <= n && CutOff(c, disk.Length, first, n, size)
    {
      hide Group, Index, Slot;
      var base, reqSize := PhysOf(c.group, first), ReqSize(c.group, first, n);
      var ext := Prepare(first, buffer, n);
      WriteImage(c, disk[..], ext[..], first, buffer[..n]);
      var resSize := WriteDisk(base, ext, ext.Length);
      var good := CheckWrite(base, ext, resSize);
      redo := !good;
      TransferSize(c, disk[..], first, n, resSize);
      SizeExact(c, disk.Length, first, n, resSize);
      size := CollapseSize(c.group, first, Min(reqSize, resSize));
    }

    /** The image of `n` sectors at `first` as read from the disk, how much of it is there, and whether it passes. */
    method Fetch(first: nat, n: nat) returns (ext: array<Sector>, size: nat, good: bool)
      requires Usable(c) && n > 0
      ensures fresh(ext) && size <= ext.Length && 0 <= CollapseSize(c.group, first, size) <= n
      ensures CutOff(c, disk.Length, first, n, CollapseSize(c.group, first, size))
      ensures size > 0 ==> PhysOf(c.group, first) + size <= disk.Length
      ensures forall x | 0 <= x < size :: ext[x] == disk[PhysOf(c.group, first) + x]
      ensures first + n <= Sectors(c, disk[..]) ==> CollapseSize(c.group, first, size) == n
      ensures !c.badSumError ==> good
      ensures c.badSumError && good ==> AllSummed(c, disk[..], first, n)
      ensures AllSummed(c, disk[..], first, n) && !good ==> Severed(c, disk[..], first, n)
    {
      hide Group, Index, PhysOf, SumOf, Slot, CollapseSize, Capacity, Summed, CutOff, AllSummed, Severed;
      CollapseInverts(c.group, first, n);
      ext := new Sector[ExtSize(c.group, first, n)];
      var resSize := ReadDisk(PhysOf(c.group, first), ext, ext.Length);
      TransferSize(c, disk[..], first, n, resSize);
      SizeExact(c, disk.Length, first, n, resSize);
      size := Min(ReqSize(c.group, first, n), resSize);
      good := CheckSum(ext, first, n, size);
      ImageOfDisk(c, disk[..], ext[..], first, n, CollapseSize(c.group, first, size));
    }

    /** `transfer` for reading `n` sectors at logical sector `first` into `buffer`. */
    method Read(first: nat, buffer: array<Sector>, n: nat) returns (redo: bool, size: nat)
      requires Usable(c) && 0 < n <= buffer.Length && buffer != disk
      modifies buffer
      ensures disk[..] == old(disk[..])
      ensures !Severed(c, disk[..], first, n) ==> (redo <==> c.badSumError && !AllSummed(c, disk[..], first, n))
      ensures redo ==> c.badSumError
      ensures c.badSumError && !AllSummed(c, disk[..], first, n) ==> redo
      ensures first + n <= Sectors(c, disk[..]) && !redo ==>
        size == n && buffer[..n] == View(c, disk[..])[first..first + n]
      ensures !redo ==> size <= n && CutOff(c, disk.Length, first, n, size)
      ensures !redo ==> forall i | 0 <= i < size :: buffer[i] == DiskAt(disk[..], PhysOf(c.group, first + i))
    {
      hide Group, Index, PhysOf, CollapseSize, Capacity, View, AllSummed, Severed, CutOff, DiskAt, Spread;
      var ext, moved, good := Fetch(first, n);
      if !good {
        return true, moved;
      }
      size := Collapse(c.group, first, ext, moved, buffer);
      redo := false;
      ReadPart(c, disk[..], ext[..], first, moved, buffer[..size]);
      if first + n <= Sectors(c, disk[..]) {
        ViewPart(c, disk[..], first, buffer[..n]);
      }
    }
  }

  /** A request for sectors that are offered is not cut off, and its size comes back as its length. */
  lemma TransferSize(c: Config, disk: seq<Sector>, first: nat, n: nat, resSize: nat)
    requires Fits(c) && n > 0
    ensures var size := CollapseSize(c.group, first, Min(ReqSize(c.group, first, n), resSize)); 0 <= size <= n
    ensures first + n <= Sectors(c, disk) ==> PhysOf(c.group, first) + ExtSize(c.group, first, n) <= |disk|
    ensures ExtSize(c.group, first, n) <= resSize ==>
      CollapseSize(c.group, first, Min(ReqSize(c.group, first, n), resSize)) == n
  {
    CollapseInverts(c.group, first, n);
    CapacityExact(c.group, |disk|, first + n - 1);
    var size := Min(ReqSize(c.group, first, n), resSize);
    CollapseCounts(c.group, first, size, n);
    CollapseCounts(c.group, first, ReqSize(c.group, first, n), n);
  }

  predicate OnDisk(c: Config, length: nat, nr: nat)
    requires Fits(c)
  {
    PhysOf(c.group, nr) < length
  }

  /** The first `size` sectors of a request are those whose data is on the disk. */
  ghost predicate CutOff(c: Config, length: nat, first: nat, n: nat, size: nat)
    requires Fits(c)
  {
    forall nr: nat | first <= nr < first + n :: nr < first + size <==> OnDisk(c, length, nr)
  }

  lemma SizeExact(c: Config, length: nat, first: nat, n: nat, resSize: nat)
    requires Fits(c) && n > 0
    requires resSize <= ExtSize(c.group, first, n) && (resSize > 0 ==> PhysOf(c.group, first) + resSize <= length)
    requires resSize < ExtSize(c.group, first, n) ==> length <= PhysOf(c.group, first) + resSize
    ensures var size := CollapseSize(c.group, first, Min(ReqSize(c.group, first, n), resSize));
      size >= 0 && CutOff(c, length, first, n, size)
  {
    var req := ReqSize(c.group, first, n);
    var size := Min(req, resSize);
    CollapseCounts(c.group, first, size, 0);
    forall nr: nat | first <= nr < first + n
      ensures nr < first + CollapseSize(c.group, first, size) <==> OnDisk(c, length, nr)
    {
      PhysMonoLe(c.group, first, nr);
      CollapseCounts(c.group, first, size, nr - first);
      InRequest(c.group, first, nr - first, n);
      CollapseInverts(c.group, first, n);
    }
  }

  /** What a read that may be cut off gives. */
  lemma ReadPart(c: Config, disk: seq<Sector>, img: seq<Sector>, first: nat, size: nat, data: seq<Sector>)
    requires Fits(c) && size <= |img| && |data| == CollapseSize(c.group, first, size)
    requires size > 0 ==> PhysOf(c.group, first) + size <= |disk|
    requires forall x | 0 <= x < size :: img[x] == disk[PhysOf(c.group, first) + x]
    requires Spread(c.group, img, first, data)
    ensures forall i | 0 <= i < |data| :: data[i] == DiskAt(disk, PhysOf(c.group, first + i))
  {
    forall i | 0 <= i < |data| ensures data[i] == DiskAt(disk, PhysOf(c.group, first + i)) {
      CollapseCounts(c.group, first, size, i);
      assert img[Offset(c.group, first, i)] == data[i];
    }
  }

  /** The sectors of a request that the disk offers are all good. */
  ghost predicate AllSummed(c: Config, disk: seq<Sector>, first: nat, n: nat)
    requires Fits(c)
  {
    forall nr: nat | first <= nr < first + n && nr < Sectors(c, disk) :: Good(c, disk, nr)
  }

  /** The disk ends after the data of some sector of a request, and before its checksum. */
  ghost predicate Severed(c: Config, disk: seq<Sector>, first: nat, n: nat)
    requires Fits(c)
  {
    exists nr: nat :: first <= nr < first + n && OnDisk(c, |disk|, nr) && Sectors(c, disk) <= nr
  }

  /** An image that was read from the disk, as far as it goes, matches its checksums where the disk does. */
  lemma ImageOfDisk(c: Config, disk: seq<Sector>, img: seq<Sector>, first: nat, n: nat, total: nat)
    requires Fits(c) && n > 0 && |img| == ExtSize(c.group, first, n)
    requires total <= n && CutOff(c, |disk|, first, n, total)
    requires forall x | 0 <= x < |img| && PhysOf(c.group, first) + x < |disk| :: img[x] == disk[PhysOf(c.group, first) + x]
    ensures Summed(c, img, PhysOf(c.group, first), first, first + total) ==> AllSummed(c, disk, first, n)
    ensures AllSummed(c, disk, first, n) && !Severed(c, disk, first, n) ==>
      Summed(c, img, PhysOf(c.group, first), first, first + total)
  {
    forall nr: nat | first <= nr < first + n && nr < Sectors(c, disk)
      ensures OnDisk(c, |disk|, nr) && Holds(c, img, PhysOf(c.group, first), nr)
      ensures Matches(c, img, PhysOf(c.group, first), nr) <==> Good(c, disk, nr)
    {
      Placement(c.group, first, n, nr);
      LastSum(c.group, first, n, nr - first);
      CapacityExact(c.group, |disk|, nr);
    }
    if AllSummed(c, disk, first, n) && !Severed(c, disk, first, n) {
      forall nr: nat | first <= nr < first + total
        ensures Holds(c, img, PhysOf(c.group, first), nr) && Matches(c, img, PhysOf(c.group, first), nr)
      {
        assert OnDisk(c, |disk|, nr);
        assert Good(c, disk, nr);
      }
    }
  }

  lemma ViewPart(c: Config, disk: seq<Sector>, first: nat, data: seq<Sector>)
    requires Fits(c) && first + |data| <= Sectors(c, disk)
    requires forall i | 0 <= i < |data| :: data[i] == DiskAt(disk, PhysOf(c.group, first + i))
    ensures data == View(c, disk)[first..first + |data|]
  {
    forall i | 0 <= i < |data| ensures data[i] == View(c, disk)[first + i] {
      CapacityExact(c.group, |disk|, first + i);
    }
  }

  /** `collapse` undoes `expand`: data spread out and gathered again, with the size `expand_sizes` gave, is the same. */
  lemma CollapseExpand(g: nat, first: nat, img: seq<Sector>, data: seq<Sector>, out: seq<Sector>)
    requires g > 0 && |data| > 0 && Spread(g, img, first, data)
    requires |out| == CollapseSize(g, first, ReqSize(g, first, |data|)) && Spread(g, img, first, out)
    ensures out == data
  {
    CollapseInverts(g, first, |data|);
    forall i | 0 <= i < |data| ensures out[i] == data[i] {
      assert img[Offset(g, first, i)] == data[i];
    }
  }

  /** The rest of a group read in, and then the checksums before it made. */
  lemma GroupStarted(c: Config, disk: seq<Sector>, before: seq<Sector>, mid: seq<Sector>, after: seq<Sector>, base: nat,
      cur: nat, count: nat, at: nat, sumAt: nat, index: nat)
    requires Fits(c) && base + at == PhysOf(c.group, cur) && base + sumAt == SumOf(c.group, cur)
    requires index == Index(c.group, cur) && index + count < c.group
    requires at + count <= sumAt < |before| && |after| == |before|
    requires mid == Patch(before, at + count, Raw(disk, base + at + count, sumAt - at - count + 1))
    requires forall x | 0 <= x < |after| && x != sumAt :: after[x] == mid[x]
    requires SlotsMatch(c, after, at, sumAt, cur, index, count) && SlotsKept(c, mid[sumAt], after[sumAt], index, count)
    ensures GroupMade(c, disk, before, after, base, cur, count)
  {
    hide Group, Index, PhysOf, SumOf, Slot, SlotsMatch, SlotsKept;
    var raw := Raw(disk, base + at + count, sumAt - at - count + 1);
    forall x | at + count <= x <= sumAt ensures mid[x] == DiskAt(disk, base + x) {
      assert mid[x] == raw[x - at - count];
    }
  }

  /** The checksum sector of a data sector within the request is in the image, at the end of its group. */
  lemma SumInImage(g: nat, first: nat, n: nat, size: nat, k: nat)
    requires g > 0 && n > 0 && size <= ReqSize(g, first, n) && Offset(g, first, k) < size
    ensures k < n
    ensures SumOf(g, first + k) == PhysOf(g, first) + Offset(g, first, k) + g - Index(g, first + k)
    ensures SumOf(g, first + k) < PhysOf(g, first) + ExtSize(g, first, n)
  {
    CollapseInverts(g, first, n);
    CollapseCounts(g, first, ReqSize(g, first, n), k);
    LastSum(g, first, n, k);
  }

  lemma LastSum(g: nat, first: nat, n: nat, k: nat)
    requires g > 0 && k < n
    ensures SumOf(g, first + k) < PhysOf(g, first) + ExtSize(g, first, n)
  {
    Placement(g, first, n, first + k);
  }
}

/** The buffer with interspersed checksums that one request moves, and what writing it does to the disk. */
module SumImage {
  import opened SumLayout
  import opened SumModel

  function GroupStart(g: nat, nr: nat): nat
    requires g > 0
  {
    nr - Index(g, nr)
  }

  function GroupEnd(g: nat, nr: nat): nat
    requires g > 0
  {
    nr - Index(g, nr) + g
  }

  /** Logical sectors from `lo` up to `hi` match their checksums in the image. */
  ghost predicate Summed(c: Config, img: seq<Sector>, base: nat, lo: nat, hi: nat)
    requires Fits(c)
  {
    forall nr: nat | lo <= nr < hi :: Holds(c, img, base, nr) && Matches(c, img, base, nr)
  }

  /** The image has the disk's checksums of the logical sectors from `lo` up to `hi`. */
  ghost predicate SumsKept(c: Config, disk: seq<Sector>, img: seq<Sector>, base: nat, lo: nat, hi: nat)
    requires Fits(c)
  {
    forall nr: nat | lo <= nr < hi ::
      && base <= SumOf(c.group, nr) < base + |img|
      && SumIn(c, img, base, nr) == Slot(c, DiskAt(disk, SumOf(c.group, nr)), Index(c.group, nr))
  }

  /** The image has the disk's data of the logical sectors from `lo` up to `hi`. */
  ghost predicate DataKept(c: Config, disk: seq<Sector>, img: seq<Sector>, base: nat, lo: nat, hi: nat)
    requires Fits(c)
  {
    forall nr: nat | lo <= nr < hi ::
      Holds(c, img, base, nr) && DataIn(c, img, base, nr) == DiskAt(disk, PhysOf(c.group, nr))
  }

  /** The contiguous `data` stands at its places in the image. */
  ghost predicate Spread(g: nat, img: seq<Sector>, first: nat, data: seq<Sector>)
    requires g > 0
  {
    forall i | 0 <= i < |data| :: Offset(g, first, i) < |img| && img[Offset(g, first, i)] == data[i]
  }

  /** An image ready to write `data` at `first`. */
  ghost predicate Assembled(c: Config, disk: seq<Sector>, img: seq<Sector>, first: nat, data: seq<Sector>)
    requires Fits(c)
  {
    var base := PhysOf(c.group, first);
    && |data| > 0
    && |img| == ExtSize(c.group, first, |data|)
    && Spread(c.group, img, first, data)
    && Summed(c, img, base, first, first + |data|)
    && SumsKept(c, disk, img, base, GroupStart(c.group, first), first)
    && SumsKept(c, disk, img, base, first + |data|, GroupEnd(c.group, first + |data| - 1))
    && DataKept(c, disk, img, base, first + |data|, GroupEnd(c.group, first + |data| - 1))
  }

  // --------------------------------------------------- groups of checksums

  lemma {:induction false} GroupBase(g: nat, a: nat)
    requires g > 0
    ensures Group(g, GroupStart(g, a)) == Group(g, a) && Index(g, GroupStart(g, a)) == 0
  {
    if a >= g {
      GroupBase(g, a - g);
    }
  }

  lemma SameGroup(g: nat, a: nat, b: nat)
    requires g > 0 && GroupStart(g, a) <= b < GroupEnd(g, a)
    ensures Group(g, b) == Group(g, a) && Index(g, b) == b - GroupStart(g, a)
    ensures SumOf(g, b) == SumOf(g, a) && PhysOf(g, b) == PhysOf(g, a) + b - a
  {
    GroupBase(g, a);
    Within(g, GroupStart(g, a), b - GroupStart(g, a));
  }

  lemma EarlierGroup(g: nat, a: nat, b: nat)
    requires g > 0 && a < GroupStart(g, b)
    ensures Group(g, a) < Group(g, b) && SumOf(g, a) < GroupStart(g, b) + Group(g, b) <= PhysOf(g, b)
  {
    GroupBase(g, b);
    if GroupStart(g, b) < GroupEnd(g, a) {
      SameGroup(g, a, GroupStart(g, b));
    }
    NextGroup(g, a);
    GroupMono(g, GroupEnd(g, a), GroupStart(g, b));
  }

  /** A change to a checksum sector does not touch the sectors of earlier groups. */
  lemma SummedFrame(c: Config, before: seq<Sector>, after: seq<Sector>, base: nat, lo: nat, hi: nat, cur: nat)
    requires Fits(c) && Summed(c, before, base, lo, hi) && hi <= GroupStart(c.group, cur)
    requires |after| == |before| && base <= SumOf(c.group, cur)
    requires forall x | 0 <= x < |before| && base + x < GroupStart(c.group, cur) + Group(c.group, cur) :: after[x] == before[x]
    ensures Summed(c, after, base, lo, hi)
  {
    hide Group, Index, Slot;
    forall nr: nat | lo <= nr < hi ensures Holds(c, after, base, nr) && Matches(c, after, base, nr) {
      assert Matches(c, before, base, nr);
      EarlierGroup(c.group, nr, cur);
    }
  }

  /** Slots `index` on of the checksum sector at `sumAt` are those of `count` sectors from `at` on, `sector` the first. */
  ghost predicate SlotsMatch(c: Config, img: seq<Sector>, at: nat, sumAt: nat, sector: nat, index: nat, count: nat)
    requires Fits(c) && index + count <= c.group && at + count <= |img| && sumAt < |img|
  {
    forall i: nat | index <= i < index + count ::
      Slot(c, img[sumAt], i) == c.digest(sector + i - index, img[at + i - index])
  }

  /** The slots of a checksum sector other than `count` from `index` on are as they were. */
  ghost predicate SlotsKept(c: Config, was: Sector, now: Sector, index: nat, count: nat)
    requires Fits(c)
  {
    forall i: nat | i < c.group && !(index <= i < index + count) :: Slot(c, now, i) == Slot(c, was, i)
  }

  /** Slots matching in part of a group are logical sectors matching their checksums. */
  lemma GroupSummed(c: Config, img: seq<Sector>, base: nat, cur: nat, count: nat)
    requires Fits(c) && Index(c.group, cur) + count <= c.group
    requires base <= PhysOf(c.group, cur) && SumOf(c.group, cur) < base + |img|
    requires PhysOf(c.group, cur) + count <= base + |img|
    ensures SlotsMatch(c, img, PhysOf(c.group, cur) - base, SumOf(c.group, cur) - base, cur, Index(c.group, cur), count)
       <==> Summed(c, img, base, cur, cur + count)
  {
    hide Group, Index, Slot, SlotsMatch, Summed;
    var at, sumAt, index := PhysOf(c.group, cur) - base, SumOf(c.group, cur) - base, Index(c.group, cur);
    if SlotsMatch(c, img, at, sumAt, cur, index, count) {
      SlotsToSummed(c, img, base, cur, count, at, sumAt, index);
    }
    if Summed(c, img, base, cur, cur + count) {
      SummedToSlots(c, img, base, cur, count, at, sumAt, index);
    }
  }

  lemma SlotsToSummed(c: Config, img: seq<Sector>, base: nat, cur: nat, count: nat, at: nat, sumAt: nat, index: nat)
    requires Fits(c) && index == Index(c.group, cur) && index + count <= c.group
    requires base + at == PhysOf(c.group, cur) && base + sumAt == SumOf(c.group, cur)
    requires at + count <= |img| && sumAt < |img| && SlotsMatch(c, img, at, sumAt, cur, index, count)
    ensures Summed(c, img, base, cur, cur + count)
  {
    hide Group, Index, PhysOf, SumOf, Slot, Matches, Holds;
    forall nr: nat | cur <= nr < cur + count ensures Holds(c, img, base, nr) && Matches(c, img, base, nr) {
      SlotOf(c, img, base, cur, nr, at, sumAt, index);
      assert Slot(c, img[sumAt], index + nr - cur) == c.digest(nr, img[at + nr - cur]);
    }
  }

  lemma SummedToSlots(c: Config, img: seq<Sector>, base: nat, cur: nat, count: nat, at: nat, sumAt: nat, index: nat)
    requires Fits(c) && index == Index(c.group, cur) && index + count <= c.group
    requires base + at == PhysOf(c.group, cur) && base + sumAt == SumOf(c.group, cur)
    requires at + count <= |img| && sumAt < |img| && Summed(c, img, base, cur, cur + count)
    ensures SlotsMatch(c, img, at, sumAt, cur, index, count)
  {
    hide Group, Index, PhysOf, SumOf, Slot, Matches, Holds;
    forall i: nat | index <= i < index + count
      ensures Slot(c, img[sumAt], i) == c.digest(cur + i - index, img[at + i - index])
    {
      var nr := cur + i - index;
      SlotOf(c, img, base, cur, nr, at, sumAt, index);
      assert Matches(c, img, base, nr);
    }
  }

  lemma SlotOf(c: Config, img: seq<Sector>, base: nat, cur: nat, nr: nat, at: nat, sumAt: nat, index: nat)
    requires Fits(c) && index == Index(c.group, cur) && cur <= nr < cur + c.group - index
    requires base + at == PhysOf(c.group, cur) && base + sumAt == SumOf(c.group, cur) && sumAt < |img|
    ensures Holds(c, img, base, nr) && at + nr - cur < |img|
    ensures Matches(c, img, base, nr) <==>
      Slot(c, img[sumAt], index + nr - cur) == c.digest(nr, img[at + nr - cur])
  {
    hide Slot;
    SameGroup(c.group, cur, nr);
  }

  lemma NoneSummed(c: Config, img: seq<Sector>, base: nat, lo: nat)
    requires Fits(c)
    ensures Summed(c, img, base, lo, lo)
  {
  }

  lemma SummedParts(c: Config, img: seq<Sector>, base: nat, lo: nat, mid: nat, hi: nat, end: nat)
    requires Fits(c) && lo <= mid <= hi <= end
    ensures Summed(c, img, base, lo, mid) && Summed(c, img, base, mid, hi) ==> Summed(c, img, base, lo, hi)
    ensures Summed(c, img, base, lo, end) ==> Summed(c, img, base, mid, hi)
  {
  }

  /** Slots of a group's checksum sector that were left as read from the disk. */
  lemma GroupKept(c: Config, disk: seq<Sector>, img: seq<Sector>, base: nat, cur: nat, lo: nat, hi: nat)
    requires Fits(c) && GroupStart(c.group, cur) <= lo && hi <= GroupEnd(c.group, cur)
    requires base <= SumOf(c.group, cur) < base + |img|
    requires forall i: nat | lo <= GroupStart(c.group, cur) + i < hi ::
      Slot(c, img[SumOf(c.group, cur) - base], i) == Slot(c, DiskAt(disk, SumOf(c.group, cur)), i)
    ensures SumsKept(c, disk, img, base, lo, hi)
  {
    hide Group, Index, Slot;
    forall nr: nat | lo <= nr < hi
      ensures base <= SumOf(c.group, nr) < base + |img|
      ensures SumIn(c, img, base, nr) == Slot(c, DiskAt(disk, SumOf(c.group, nr)), Index(c.group, nr))
    {
      SameGroup(c.group, cur, nr);
      assert lo <= GroupStart(c.group, cur) + Index(c.group, nr) < hi;
    }
  }

  /** `count` raw sectors from `phys` on. */
  function Raw(disk: seq<Sector>, phys: nat, count: nat): (r: seq<Sector>)
    ensures |r| == count && forall i | 0 <= i < count :: r[i] == DiskAt(disk, phys + i)
  {
    seq<Sector>(count, i requires 0 <= i < count => DiskAt(disk, phys + i))
  }

  /**
   One group of an image is complete: `count` sectors from `cur` on have their checksums, and the rest of the
   group, if any, is as on the disk.
   */
  ghost predicate GroupMade(c: Config, disk: seq<Sector>, before: seq<Sector>, after: seq<Sector>, base: nat, cur: nat,
      count: nat)
    requires Fits(c)
  {
    var g := c.group;
    var index := Index(g, cur);
    && base <= PhysOf(g, cur) && SumOf(g, cur) < base + |after| && |after| == |before|
    && index + count <= g && PhysOf(g, cur) + count <= SumOf(g, cur)
    && (forall x | 0 <= x < |after| && !(PhysOf(g, cur) + count <= base + x <= SumOf(g, cur)) :: after[x] == before[x])
    && (forall x | 0 <= x < |after| && PhysOf(g, cur) + count <= base + x < SumOf(g, cur) ::
      after[x] == DiskAt(disk, base + x))
    && SlotsMatch(c, after, PhysOf(g, cur) - base, SumOf(g, cur) - base, cur, index, count)
    && SlotsKept(c, DiskAt(disk, SumOf(g, cur)), after[SumOf(g, cur) - base], index, count)
  }

  /** The groups up to `first + k` are complete, in an image for `data` at `first`. */
  ghost predicate Progress(c: Config, disk: seq<Sector>, img: seq<Sector>, first: nat, data: seq<Sector>, k: nat)
    requires Fits(c)
  {
    var base := PhysOf(c.group, first);
    && k <= |data|
    && (k > 0 ==> k == |data| || Index(c.group, first + k) == 0)
    && Spread(c.group, img, first, data)
    && Summed(c, img, base, first, first + k)
    && (k > 0 ==> SumsKept(c, disk, img, base, GroupStart(c.group, first), first))
  }

  lemma SpreadKeeps(g: nat, before: seq<Sector>, after: seq<Sector>, first: nat, data: seq<Sector>, lo: nat, hi: nat)
    requires g > 0 && Spread(g, before, first, data) && |after| == |before|
    requires forall x | 0 <= x < |after| && !(lo <= PhysOf(g, first) + x <= hi) :: after[x] == before[x]
    requires forall nr: nat | first <= nr < first + |data| :: !(lo <= PhysOf(g, nr) <= hi)
    ensures Spread(g, after, first, data)
  {
    hide Group;
    forall i | 0 <= i < |data| ensures Offset(g, first, i) < |after| && after[Offset(g, first, i)] == data[i] {
      assert before[Offset(g, first, i)] == data[i];
    }
  }

  lemma MadeSpread(c: Config, disk: seq<Sector>, before: seq<Sector>, after: seq<Sector>, first: nat, data: seq<Sector>,
      k: nat, count: nat)
    requires Fits(c) && Spread(c.group, before, first, data)
    requires GroupMade(c, disk, before, after, PhysOf(c.group, first), first + k, count)
    requires 0 < count && k + count <= |data| && (k + count == |data| || Index(c.group, first + k) + count == c.group)
    ensures Spread(c.group, after, first, data)
  {
    hide Group, Index, PhysOf, SumOf, SlotsMatch, SlotsKept, Spread;
    var g := c.group;
    var lo, hi := PhysOf(g, first + k) + count, SumOf(g, first + k);
    EndOfGroup(g, first + k);
    forall nr: nat | first <= nr < first + |data| ensures !(lo <= PhysOf(g, nr) <= hi) {
      if nr < first + k + count {
        Below(g, first, k, count, nr - first);
      } else {
        NotSum(g, nr, first + k);
      }
    }
    SpreadKeeps(g, before, after, first, data, lo, hi);
  }

  lemma EndOfGroup(g: nat, cur: nat)
    requires g > 0
    ensures SumOf(g, cur) == PhysOf(g, cur) + g - Index(g, cur)
  {
  }

  lemma Below(g: nat, first: nat, k: nat, count: nat, i: nat)
    requires g > 0 && 0 < count && Index(g, first + k) + count <= g && i < k + count
    ensures PhysOf(g, first + i) < PhysOf(g, first + k) + count
  {
    Within(g, first + k, count - 1);
    PhysMonoLe(g, first + i, first + k + (count - 1));
  }

  lemma NotSum(g: nat, a: nat, b: nat)
    requires g > 0
    ensures PhysOf(g, a) != SumOf(g, b)
  {
    Unclassify(g, a);
    Unclassify(g, b);
  }

  lemma MadeSummed(c: Config, disk: seq<Sector>, before: seq<Sector>, after: seq<Sector>, first: nat, k: nat, count: nat)
    requires Fits(c) && Summed(c, before, PhysOf(c.group, first), first, first + k)
    requires GroupMade(c, disk, before, after, PhysOf(c.group, first), first + k, count)
    requires k > 0 ==> Index(c.group, first + k) == 0
    ensures Summed(c, after, PhysOf(c.group, first), first, first + k + count)
  {
    hide Group, Slot;
    var base := PhysOf(c.group, first);
    GroupSummed(c, after, base, first + k, count);
    if k > 0 {
      SummedFrame(c, before, after, base, first, first + k, first + k);
    }
  }

  lemma MadeKeeps(c: Config, disk: seq<Sector>, before: seq<Sector>, after: seq<Sector>, first: nat, k: nat, count: nat)
    requires Fits(c)
    requires k > 0 ==> SumsKept(c, disk, before, PhysOf(c.group, first), GroupStart(c.group, first), first)
    requires GroupMade(c, disk, before, after, PhysOf(c.group, first), first + k, count)
    requires k > 0 ==> Index(c.group, first + k) == 0
    ensures SumsKept(c, disk, after, PhysOf(c.group, first), GroupStart(c.group, first), first)
  {
    hide Group, Index, Slot;
    var g, base := c.group, PhysOf(c.group, first);
    if k == 0 {
      GroupKept(c, disk, after, base, first, GroupStart(g, first), first);
    } else {
      forall nr: nat | GroupStart(g, first) <= nr < first
        ensures base <= SumOf(g, nr) < base + |after|
        ensures SumIn(c, after, base, nr) == Slot(c, DiskAt(disk, SumOf(g, nr)), Index(g, nr))
      {
        assert SumIn(c, before, base, nr) == Slot(c, DiskAt(disk, SumOf(g, nr)), Index(g, nr));
        EarlierGroup(g, nr, first + k);
      }
    }
  }

  /** Completing one more group. */
  lemma MadeProgress(c: Config, disk: seq<Sector>, before: seq<Sector>, after: seq<Sector>, first: nat,
      data: seq<Sector>, k: nat, count: nat)
    requires Fits(c) && Progress(c, disk, before, first, data, k) && k < |data|
    requires GroupMade(c, disk, before, after, PhysOf(c.group, first), first + k, count)
    requires 0 < count && k + count <= |data| && (k + count == |data| || Index(c.group, first + k) + count == c.group)
    ensures Progress(c, disk, after, first, data, k + count)
  {
    MadeSpread(c, disk, before, after, first, data, k, count);
    MadeSummed(c, disk, before, after, first, k, count);
    MadeKeeps(c, disk, before, after, first, k, count);
    NextGroup(c.group, first + k);
    assert first + k + count == first + (k + count);
  }

  /** When the last group is complete, so is the image. */
  lemma MadeAll(c: Config, disk: seq<Sector>, before: seq<Sector>, after: seq<Sector>, first: nat, data: seq<Sector>,
      k: nat)
    requires Fits(c) && k < |data| && Progress(c, disk, after, first, data, |data|)
    requires |after| == ExtSize(c.group, first, |data|)
    requires GroupMade(c, disk, before, after, PhysOf(c.group, first), first + k, |data| - k)
    ensures Assembled(c, disk, after, first, data)
  {
    hide Group, Index, Slot;
    var g, base, cur, end := c.group, PhysOf(c.group, first), first + k, first + |data|;
    SameGroup(g, cur, end - 1);
    assert GroupEnd(g, cur) == GroupEnd(g, end - 1);
    GroupKept(c, disk, after, base, cur, end, GroupEnd(g, cur));
    forall nr: nat | end <= nr < GroupEnd(g, cur)
      ensures Holds(c, after, base, nr) && DataIn(c, after, base, nr) == DiskAt(disk, PhysOf(g, nr))
    {
      SameGroup(g, cur, nr);
    }
  }

  // ------------------------------------------------------ writing an image

  /** How the raw sectors of logical sector `nr` lie with respect to the image of a request. */
  lemma Placement(g: nat, first: nat, n: nat, nr: nat)
    requires g > 0 && n > 0
    ensures var base := PhysOf(g, first); var end := base + ExtSize(g, first, n);
      && (nr < first ==> PhysOf(g, nr) < base)
      && (nr < GroupStart(g, first) ==> SumOf(g, nr) < base)
      && (first <= nr ==> base <= PhysOf(g, nr))
      && (nr < GroupEnd(g, first + n - 1) ==> SumOf(g, nr) < end)
      && (GroupStart(g, first) <= nr ==> base <= SumOf(g, nr))
      && (GroupEnd(g, first + n - 1) <= nr ==> end <= PhysOf(g, nr))
  {
    var last := first + n - 1;
    PhysMonoLe(g, first, last);
    if nr < first {
      PhysMono(g, nr, first);
    } else {
      PhysMonoLe(g, first, nr);
    }
    if nr < GroupStart(g, first) {
      EarlierGroup(g, nr, first);
    } else if nr < first {
      SameGroup(g, first, nr);
    }
    LastGroup(g, last, nr);
  }

  lemma LastGroup(g: nat, last: nat, nr: nat)
    requires g > 0
    ensures nr < GroupEnd(g, last) <==> SumOf(g, nr) <= SumOf(g, last)
    ensures GroupEnd(g, last) <= nr ==> SumOf(g, last) < PhysOf(g, nr)
  {
    if nr < GroupStart(g, last) {
      EarlierGroup(g, nr, last);
    } else if nr < GroupEnd(g, last) {
      SameGroup(g, last, nr);
    } else {
      NextGroup(g, last);
      PhysMonoLe(g, GroupEnd(g, last), nr);
    }
  }

  /** Writing an assembled image leaves the sectors the request does not cover alone. */
  lemma OthersKept(c: Config, disk: seq<Sector>, img: seq<Sector>, first: nat, data: seq<Sector>, nr: nat)
    requires Fits(c) && Assembled(c, disk, img, first, data)
    requires nr < Sectors(c, disk) && !(first <= nr < first + |data|)
    ensures var after := Overwrite(disk, PhysOf(c.group, first), img);
      DataOf(c, after, nr) == DataOf(c, disk, nr) && Stored(c, after, nr) == Stored(c, disk, nr)
  {
    if nr < first {
      BeforeKept(c, disk, img, first, data, nr);
    } else {
      AfterKept(c, disk, img, first, data, nr);
    }
  }

  lemma BeforeKept(c: Config, disk: seq<Sector>, img: seq<Sector>, first: nat, data: seq<Sector>, nr: nat)
    requires Fits(c) && Assembled(c, disk, img, first, data)
    requires nr < Sectors(c, disk) && nr < first
    ensures var after := Overwrite(disk, PhysOf(c.group, first), img);
      DataOf(c, after, nr) == DataOf(c, disk, nr) && Stored(c, after, nr) == Stored(c, disk, nr)
  {
    hide Group, Index, Slot, Capacity, Summed, DataKept, Spread;
    var base := PhysOf(c.group, first);
    Placement(c.group, first, |data|, nr);
    CapacityExact(c.group, |disk|, nr);
    if GroupStart(c.group, first) <= nr {
      GroupBefore(c.group, first, |data|, nr);
      assert SumIn(c, img, base, nr) == Slot(c, DiskAt(disk, SumOf(c.group, nr)), Index(c.group, nr));
    }
  }

  lemma AfterKept(c: Config, disk: seq<Sector>, img: seq<Sector>, first: nat, data: seq<Sector>, nr: nat)
    requires Fits(c) && Assembled(c, disk, img, first, data)
    requires nr < Sectors(c, disk) && first + |data| <= nr
    ensures var after := Overwrite(disk, PhysOf(c.group, first), img);
      DataOf(c, after, nr) == DataOf(c, disk, nr) && Stored(c, after, nr) == Stored(c, disk, nr)
  {
    hide Group, Index, Slot, Capacity, GroupEnd, GroupStart, Summed, Spread;
    var base := PhysOf(c.group, first);
    Placement(c.group, first, |data|, nr);
    CapacityExact(c.group, |disk|, nr);
    if nr < GroupEnd(c.group, first + |data| - 1) {
      assert DataIn(c, img, base, nr) == DiskAt(disk, PhysOf(c.group, nr));
      assert SumIn(c, img, base, nr) == Slot(c, DiskAt(disk, SumOf(c.group, nr)), Index(c.group, nr));
    }
  }

  lemma GroupBefore(g: nat, first: nat, n: nat, nr: nat)
    requires g > 0 && n > 0 && nr < first
    ensures nr < GroupEnd(g, first + n - 1)
  {
  }

  /** Writing an assembled image writes the request's sectors, under good checksums. */
  lemma TheseWritten(c: Config, disk: seq<Sector>, img: seq<Sector>, first: nat, data: seq<Sector>, nr: nat)
    requires Fits(c) && Assembled(c, disk, img, first, data)
    requires nr < Sectors(c, disk) && first <= nr < first + |data|
    ensures var after := Overwrite(disk, PhysOf(c.group, first), img);
      DataOf(c, after, nr) == data[nr - first] && Good(c, after, nr)
  {
    hide Group, Index, Slot;
    CapacityExact(c.group, |disk|, nr);
    assert Matches(c, img, PhysOf(c.group, first), nr);
    assert img[Offset(c.group, first, nr - first)] == data[nr - first];
  }

  lemma WriteImage(c: Config, disk: seq<Sector>, img: seq<Sector>, first: nat, data: seq<Sector>)
    requires Fits(c) && Assembled(c, disk, img, first, data)
    ensures Wrote(c, disk, Overwrite(disk, PhysOf(c.group, first), img), first, data)
  {
    hide Group, Index, Slot;
    var after := Overwrite(disk, PhysOf(c.group, first), img);
    var view := Overwrite(View(c, disk), first, data);
    forall nr: nat | nr < Sectors(c, disk)
      ensures DataOf(c, after, nr) == view[nr]
      ensures first <= nr < first + |data| ==> Good(c, after, nr)
      ensures !(first <= nr < first + |data|) ==> Stored(c, after, nr) == Stored(c, disk, nr)
    {
      if first <= nr < first + |data| {
        TheseWritten(c, disk, img, first, data, nr);
      } else {
        OthersKept(c, disk, img, first, data, nr);
      }
    }
    assert View(c, after) == view;
  }
}

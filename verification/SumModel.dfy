/**
 The filter driver's checksummed disk, and the plain sector array it stands for.

 Sizes and positions count sectors; the entry points refuse requests that are not sector-aligned.
 */
module SumModel {
  import opened Basics
  import opened SumLayout

  const SECTOR_SIZE := 512

  type Sector = s: seq<bv8> | |s| == SECTOR_SIZE witness seq(SECTOR_SIZE, _ => 0)

  function Zero(): Sector {
    seq(SECTOR_SIZE, _ => 0)
  }

  /**
   Configuration: data sectors per group (NR_SUM_SEC), bytes per checksum (SUM_SIZE), the checksum of a sector
   under its number, and whether a bad checksum is an error (BAD_SUM_ERROR).
   */
  datatype Config = Config(group: nat, sumSize: nat, digest: (nat, Sector) -> seq<bv8>, badSumError: bool)

  predicate Fits(c: Config) {
    c.group > 0 && c.sumSize * c.group <= SECTOR_SIZE
  }

  ghost predicate Usable(c: Config) {
    Fits(c) && forall nr: nat, d: Sector :: |c.digest(nr, d)| == c.sumSize
  }

  // ------------------------------------------------------- checksum sectors

  lemma SlotFits(c: Config, i: nat)
    requires Fits(c) && i < c.group
    ensures i * c.sumSize + c.sumSize <= SECTOR_SIZE
  {
    MulStep(i, c.group, c.sumSize);
  }

  /** Where the `i`-th checksum starts. */
  function SlotAt(c: Config, i: nat): (at: nat)
    requires Fits(c) && i < c.group
    ensures at + c.sumSize <= SECTOR_SIZE
  {
    SlotFits(c, i);
    i * c.sumSize
  }

  lemma Apart(c: Config, i: nat, j: nat)
    requires Fits(c) && i < j < c.group
    ensures SlotAt(c, i) + c.sumSize <= SlotAt(c, j)
  {
    MulStep(i, j, c.sumSize);
  }

  /** The `i`-th checksum in a checksum sector. */
  function Slot(c: Config, sec: Sector, i: nat): seq<bv8>
    requires Fits(c) && i < c.group
  {
    sec[SlotAt(c, i)..SlotAt(c, i) + c.sumSize]
  }

  function Patch<T>(s: seq<T>, at: nat, v: seq<T>): (r: seq<T>)
    requires at + |v| <= |s|
    ensures |r| == |s|
  {
    s[..at] + v + s[at + |v|..]
  }

  lemma Patched<T>(s: seq<T>, at: nat, v: seq<T>, b: nat)
    requires at + |v| <= |s| && b + |v| <= |s|
    ensures b == at ==> Patch(s, at, v)[b..b + |v|] == v
    ensures b + |v| <= at || at + |v| <= b ==> Patch(s, at, v)[b..b + |v|] == s[b..b + |v|]
  {
  }

  function SetSlot(c: Config, sec: Sector, i: nat, v: seq<bv8>): Sector
    requires Fits(c) && i < c.group && |v| == c.sumSize
  {
    Patch(sec, SlotAt(c, i), v)
  }

  lemma SlotSet(c: Config, sec: Sector, i: nat, v: seq<bv8>, j: nat)
    requires Fits(c) && i < c.group && |v| == c.sumSize && j < c.group
    ensures j == i ==> Slot(c, SetSlot(c, sec, i, v), j) == v
    ensures j != i ==> Slot(c, SetSlot(c, sec, i, v), j) == Slot(c, sec, j)
  {
    if j < i {
      Apart(c, j, i);
    } else if i < j {
      Apart(c, i, j);
    }
    Patched(sec, SlotAt(c, i), v, SlotAt(c, j));
  }

  /** What lies behind the last checksum of a checksum sector. */
  function Tail(c: Config, sec: Sector): seq<bv8>
    requires Fits(c)
  {
    sec[c.sumSize * c.group..]
  }

  lemma TailKept(c: Config, sec: Sector, i: nat, v: seq<bv8>)
    requires Fits(c) && i < c.group && |v| == c.sumSize
    ensures Tail(c, SetSlot(c, sec, i, v)) == Tail(c, sec)
  {
    MulStep(i, c.group, c.sumSize);
  }

  lemma SlotsSet(c: Config, sec: Sector, i: nat, v: seq<bv8>)
    requires Fits(c) && i < c.group && |v| == c.sumSize
    ensures Slot(c, SetSlot(c, sec, i, v), i) == v
    ensures forall j: nat | j < c.group && j != i :: Slot(c, SetSlot(c, sec, i, v), j) == Slot(c, sec, j)
  {
    forall j: nat | j < c.group
      ensures Slot(c, SetSlot(c, sec, i, v), j) == if j == i then v else Slot(c, sec, j)
    {
      SlotSet(c, sec, i, v, j);
    }
  }

  // ------------------------------------------------------------ disk images

  /** What `read_sectors` finds at raw sector `x`: zeroes past the end. */
  function DiskAt(disk: seq<Sector>, x: nat): Sector {
    if x < |disk| then disk[x] else Zero()
  }

  /** `img` holds the raw sectors from `base` on, and among them the data and checksum of `nr`. */
  predicate Holds(c: Config, img: seq<Sector>, base: nat, nr: nat)
    requires Fits(c)
  {
    base <= PhysOf(c.group, nr) && SumOf(c.group, nr) < base + |img|
  }

  function DataIn(c: Config, img: seq<Sector>, base: nat, nr: nat): Sector
    requires Fits(c) && Holds(c, img, base, nr)
  {
    img[PhysOf(c.group, nr) - base]
  }

  function SumIn(c: Config, img: seq<Sector>, base: nat, nr: nat): seq<bv8>
    requires Fits(c) && base <= SumOf(c.group, nr) < base + |img|
  {
    Slot(c, img[SumOf(c.group, nr) - base], Index(c.group, nr))
  }

  /** The stored checksum of `nr` is that of its data. */
  predicate Matches(c: Config, img: seq<Sector>, base: nat, nr: nat)
    requires Fits(c) && Holds(c, img, base, nr)
  {
    SumIn(c, img, base, nr) == c.digest(nr, DataIn(c, img, base, nr))
  }

  // ------------------------------------------------------- logical sectors

  function Sectors(c: Config, disk: seq<Sector>): nat
    requires Fits(c)
  {
    Capacity(c.group, |disk|)
  }

  /** The data of a logical sector of a disk. */
  function DataOf(c: Config, disk: seq<Sector>, nr: nat): Sector
    requires Fits(c) && nr < Sectors(c, disk)
  {
    CapacityExact(c.group, |disk|, nr);
    DataIn(c, disk, 0, nr)
  }

  function View(c: Config, disk: seq<Sector>): (view: seq<Sector>)
    requires Fits(c)
    ensures |view| == Sectors(c, disk)
    ensures forall nr | 0 <= nr < |view| :: view[nr] == DataOf(c, disk, nr)
  {
    seq(Sectors(c, disk), nr requires 0 <= nr < Sectors(c, disk) => DataOf(c, disk, nr))
  }

  predicate Good(c: Config, disk: seq<Sector>, nr: nat)
    requires Fits(c) && nr < Sectors(c, disk)
  {
    CapacityExact(c.group, |disk|, nr);
    Matches(c, disk, 0, nr)
  }

  ghost predicate AllGood(c: Config, disk: seq<Sector>)
    requires Fits(c)
  {
    forall nr: nat | nr < Sectors(c, disk) :: Good(c, disk, nr)
  }

  /** The stored checksum of `nr`. */
  function Stored(c: Config, disk: seq<Sector>, nr: nat): seq<bv8>
    requires Fits(c) && nr < Sectors(c, disk)
  {
    CapacityExact(c.group, |disk|, nr);
    SumIn(c, disk, 0, nr)
  }

  /** What a write of `data` at `first` does to a plain array of sectors. */
  function Overwrite(view: seq<Sector>, first: nat, data: seq<Sector>): (r: seq<Sector>)
    ensures |r| == |view|
  {
    seq(|view|, nr requires 0 <= nr < |view| => if first <= nr < first + |data| then data[nr - first] else view[nr])
  }

  /** The whole effect of writing `data` at logical sector `first`, on every logical sector of the disk. */
  ghost predicate Wrote(c: Config, before: seq<Sector>, after: seq<Sector>, first: nat, data: seq<Sector>)
    requires Fits(c)
  {
    && |after| == |before|
    && View(c, after) == Overwrite(View(c, before), first, data)
    && (forall nr: nat | nr < Sectors(c, before) && first <= nr < first + |data| :: Good(c, after, nr))
    && (forall nr: nat | nr < Sectors(c, before) && !(first <= nr < first + |data|) ::
      Stored(c, after, nr) == Stored(c, before, nr))
  }

  // ----------------------------------------------------------------- runs

  datatype Write = Write(first: nat, data: seq<Sector>)

  ghost predicate IsRun(c: Config, disks: seq<seq<Sector>>, writes: seq<Write>)
    requires Fits(c)
  {
    && |disks| == |writes| + 1
    && forall i | 0 <= i < |writes| :: Wrote(c, disks[i], disks[i + 1], writes[i].first, writes[i].data)
  }

  /** What was last written to `nr`. */
  function LastWritten(writes: seq<Write>, nr: nat): Option<Sector> {
    if writes == [] then None
    else
      var w := writes[|writes| - 1];
      if w.first <= nr < w.first + |w.data| then Some(w.data[nr - w.first])
      else LastWritten(writes[..|writes| - 1], nr)
  }

  /**
   After any writes, a sector that was ever written holds what was last written to it, under a good checksum;
   any other still holds what it did, under the checksum it had.
   */
  lemma {:induction false} RunReads(c: Config, disks: seq<seq<Sector>>, writes: seq<Write>, nr: nat)
    requires Fits(c) && IsRun(c, disks, writes) && nr < Sectors(c, disks[0])
    ensures |disks[|writes|]| == |disks[0]|
    ensures var end := disks[|writes|]; match LastWritten(writes, nr)
      case Some(d) => View(c, end)[nr] == d && Good(c, end, nr)
      case None => View(c, end)[nr] == View(c, disks[0])[nr] && Stored(c, end, nr) == Stored(c, disks[0], nr)
  {
    if writes != [] {
      var k := |writes| - 1;
      RunReads(c, disks[..|writes|], writes[..k], nr);
      assert Wrote(c, disks[k], disks[k + 1], writes[k].first, writes[k].data);
      WroteKeeps(c, disks[k], disks[k + 1], writes[k].first, writes[k].data, nr);
    }
  }

  /** A sector that a write does not cover stays good, or bad. */
  lemma WroteKeeps(c: Config, before: seq<Sector>, after: seq<Sector>, first: nat, data: seq<Sector>, nr: nat)
    requires Fits(c) && Wrote(c, before, after, first, data) && nr < Sectors(c, before)
    ensures !(first <= nr < first + |data|) ==> (Good(c, after, nr) <==> Good(c, before, nr))
  {
    if !(first <= nr < first + |data|) {
      assert View(c, after)[nr] == Overwrite(View(c, before), first, data)[nr] == View(c, before)[nr];
      assert Stored(c, after, nr) == Stored(c, before, nr);
    }
  }

  /** A disk on which every checksum is good stays so. */
  lemma {:induction false} RunStaysGood(c: Config, disks: seq<seq<Sector>>, writes: seq<Write>)
    requires Fits(c) && IsRun(c, disks, writes)
    requires AllGood(c, disks[0])
    ensures AllGood(c, disks[|writes|])
  {
    if writes != [] {
      var k := |writes| - 1;
      RunStaysGood(c, disks[..|writes|], writes[..k]);
      var end := disks[k + 1];
      assert Wrote(c, disks[k], end, writes[k].first, writes[k].data);
      forall nr: nat | nr < Sectors(c, end) ensures Good(c, end, nr) {
        WroteKeeps(c, disks[k], end, writes[k].first, writes[k].data, nr);
      }
    }
  }
}

/**
 Where the filter driver keeps its data on the raw disk: after every `g` data sectors comes one sector
 with their checksums.
 */
module SumLayout {
  import opened Basics

  /** The group of `g` that `nr` falls in, and its place there. */
  function Group(g: nat, nr: nat): nat
    requires g > 0
  {
    if nr < g then 0 else 1 + Group(g, nr - g)
  }

  function Index(g: nat, nr: nat): (i: nat)
    requires g > 0
    ensures i < g && i <= nr
  {
    if nr < g then nr else Index(g, nr - g)
  }

  /** The sector with the data of logical sector `nr`: one further for each group passed. */
  function PhysOf(g: nat, nr: nat): nat
    requires g > 0
  {
    nr + Group(g, nr)
  }

  /** The sector with the checksum of logical sector `nr`: the one that ends its group. */
  function SumOf(g: nat, nr: nat): nat
    requires g > 0
  {
    PhysOf(g, nr) + g - Index(g, nr)
  }

  // --------------------------------------------------- the formulas in use

  lemma {:induction false} Divides(g: nat, nr: nat)
    requires g > 0
    ensures Group(g, nr) * g + Index(g, nr) == nr
  {
    if nr >= g {
      Divides(g, nr - g);
      assert (Group(g, nr - g) + 1) * g == Group(g, nr - g) * g + g;
    }
  }

  /** A quotient and remainder are the quotient and the remainder. */
  lemma Quotient(g: nat, nr: nat, q: nat, r: nat)
    requires r < g && q * g + r == nr
    ensures nr / g == q && nr % g == r
  {
    var q', r' := nr / g, nr % g;
    assert nr == q' * g + r';
    if q' < q {
      MulStep(q', q, g);
    } else if q < q' {
      MulStep(q, q', g);
    }
  }

  lemma IsDiv(g: nat, nr: nat)
    requires g > 0
    ensures Group(g, nr) == nr / g && Index(g, nr) == nr % g
  {
    Divides(g, nr);
    Quotient(g, nr, Group(g, nr), Index(g, nr));
  }

  /** LOG2PHYS and SEC2SUM_NR. */
  lemma Macros(g: nat, nr: nat)
    requires g > 0
    ensures PhysOf(g, nr) == nr / g * (g + 1) + nr % g
    ensures SumOf(g, nr) == nr / g * (g + 1) + g
  {
    IsDiv(g, nr);
    Divides(g, nr);
    var q := Group(g, nr);
    assert q * (g + 1) == q * g + q;
  }

  // -------------------------------------------------------- moving through

  /** Moving on within a group. */
  lemma {:induction false} Within(g: nat, nr: nat, j: nat)
    requires g > 0 && Index(g, nr) + j < g
    ensures Group(g, nr + j) == Group(g, nr) && Index(g, nr + j) == Index(g, nr) + j
    ensures PhysOf(g, nr + j) == PhysOf(g, nr) + j && SumOf(g, nr + j) == SumOf(g, nr)
  {
    if nr >= g {
      Within(g, nr - g, j);
      assert nr - g + j == nr + j - g;
    }
  }

  /** Moving on to the start of the next group skips one checksum sector. */
  lemma {:induction false} NextGroup(g: nat, nr: nat)
    requires g > 0
    ensures var j := g - Index(g, nr);
      && Group(g, nr + j) == Group(g, nr) + 1 && Index(g, nr + j) == 0
      && PhysOf(g, nr + j) == PhysOf(g, nr) + j + 1 && SumOf(g, nr) == PhysOf(g, nr) + j
  {
    if nr >= g {
      NextGroup(g, nr - g);
      assert nr - g + (g - Index(g, nr)) == nr + (g - Index(g, nr)) - g;
    }
  }

  lemma {:induction false} GroupMono(g: nat, a: nat, b: nat)
    requires g > 0 && a <= b
    ensures Group(g, a) <= Group(g, b)
  {
    if a >= g {
      GroupMono(g, a - g, b - g);
    }
  }

  lemma PhysMono(g: nat, a: nat, b: nat)
    requires g > 0 && a < b
    ensures PhysOf(g, a) < PhysOf(g, b)
  {
    GroupMono(g, a, b);
  }

  lemma PhysMonoLe(g: nat, a: nat, b: nat)
    requires g > 0 && a <= b
    ensures PhysOf(g, a) <= PhysOf(g, b)
  {
    GroupMono(g, a, b);
  }

  /** A data sector is never a checksum sector, and tells its logical sector. */
  lemma {:induction false} Unclassify(g: nat, nr: nat)
    requires g > 0
    ensures Group(g + 1, PhysOf(g, nr)) == Group(g, nr) && Index(g + 1, PhysOf(g, nr)) == Index(g, nr)
    ensures Group(g + 1, SumOf(g, nr)) == Group(g, nr) && Index(g + 1, SumOf(g, nr)) == g
  {
    if nr >= g {
      Unclassify(g, nr - g);
      assert PhysOf(g, nr) == PhysOf(g, nr - g) + (g + 1) && SumOf(g, nr) == SumOf(g, nr - g) + (g + 1);
    }
  }

  lemma {:induction false} SumsFit(g: nat, b: nat)
    requires g > 0
    ensures b < g ==> Group(g + 1, b) == 0
    ensures b >= g ==> Group(g + 1, b) <= b - g
  {
    if b >= g + 1 {
      SumsFit(g, b - (g + 1));
    }
  }

  /** Every raw sector is the data of one logical sector, or the checksums of one group. */
  lemma {:induction false} Classify(g: nat, x: nat)
    requires g > 0
    ensures Group(g + 1, x) <= x
    ensures Index(g + 1, x) < g ==> PhysOf(g, x - Group(g + 1, x)) == x
    ensures Index(g + 1, x) == g ==> Group(g + 1, x) < x && SumOf(g, x - Group(g + 1, x) - 1) == x
  {
    SumsFit(g, x);
    if x > g {
      SumsFit(g, x - (g + 1));
      Classify(g, x - (g + 1));
    }
  }

  // ------------------------------------------------------------------ sizes

  /** `convert`, in sectors: how many logical sectors a raw disk of `n` sectors offers. */
  function Capacity(g: nat, n: nat): nat
    requires g > 0
  {
    if n < g + 1 then 0 else g + Capacity(g, n - (g + 1))
  }

  lemma {:induction false} CapacityFormula(g: nat, n: nat)
    requires g > 0
    ensures Capacity(g, n) == n / (g + 1) * g
  {
    IsDiv(g + 1, n);
    CapacityGroups(g, n);
  }

  lemma {:induction false} CapacityGroups(g: nat, n: nat)
    requires g > 0
    ensures Capacity(g, n) == Group(g + 1, n) * g
  {
    if n >= g + 1 {
      CapacityGroups(g, n - (g + 1));
      assert (Group(g + 1, n - (g + 1)) + 1) * g == Group(g + 1, n - (g + 1)) * g + g;
    }
  }

  /** A logical sector is offered exactly when the checksum sector of its group is on the disk. */
  lemma {:induction false} CapacityExact(g: nat, n: nat, nr: nat)
    requires g > 0
    ensures nr < Capacity(g, n) <==> SumOf(g, nr) < n
  {
    if n >= g + 1 && nr >= g {
      CapacityExact(g, n - (g + 1), nr - g);
    }
  }

  /** `expand_sizes`: sectors from the first to the last data sector of a request. */
  function ReqSize(g: nat, first: nat, n: nat): nat
    requires g > 0 && n > 0
  {
    PhysMonoLe(g, first, first + n - 1);
    PhysOf(g, first + n - 1) - PhysOf(g, first) + 1
  }

  /** `expand_sizes`: sectors from the first data sector to the last checksum sector. */
  function ExtSize(g: nat, first: nat, n: nat): nat
    requires g > 0 && n > 0
  {
    PhysMonoLe(g, first, first + n - 1);
    SumOf(g, first + n - 1) - PhysOf(g, first) + 1
  }

  /** `collapse_size`: how many of `size` raw sectors from `first` on hold data. */
  function CollapseSize(g: nat, first: nat, size: nat): int
    requires g > 0
  {
    size - Group(g + 1, size + Index(g, first))
  }

  lemma CollapseFormula(g: nat, first: nat, size: nat)
    requires g > 0
    ensures CollapseSize(g, first, size) ==
      (size + first % g) - first % g - (size + first % g) / (g + 1)
  {
    IsDiv(g, first);
    IsDiv(g + 1, size + first % g);
  }

  /** The distance on disk from the first data sector to that of the `i`-th sector of a request. */
  function Offset(g: nat, first: nat, i: nat): nat
    requires g > 0
  {
    PhysMonoLe(g, first, first + i);
    PhysOf(g, first + i) - PhysOf(g, first)
  }

  lemma {:induction false} OffsetIs(g: nat, first: nat, i: nat)
    requires g > 0
    ensures Offset(g, first, i) + Index(g, first) == PhysOf(g, Index(g, first) + i)
  {
    if first >= g {
      OffsetIs(g, first - g, i);
      assert first - g + i == first + i - g;
    }
  }

  /** Of the first `b` raw sectors, all but the checksum sectors among them hold data. */
  lemma {:induction false} DataBelow(g: nat, a: nat, b: nat)
    requires g > 0
    ensures PhysOf(g, a) < b <==> a < b - Group(g + 1, b)
  {
    if b >= g + 1 {
      if a >= g {
        DataBelow(g, a - g, b - (g + 1));
      } else {
        SumsFit(g, b - (g + 1));
      }
    }
  }

  /** The `i`-th sector of a request lies within the first `size` raw sectors exactly when `collapse_size` counts it. */
  lemma CollapseCounts(g: nat, first: nat, size: nat, i: nat)
    requires g > 0
    ensures 0 <= CollapseSize(g, first, size) <= size
    ensures Offset(g, first, i) < size <==> i < CollapseSize(g, first, size)
  {
    var r := Index(g, first);
    OffsetIs(g, first, i);
    DataBelow(g, r + i, size + r);
    SumsFit(g, size + r);
  }

  /** Undoing the size computation of a request gives back its length. */
  lemma CollapseInverts(g: nat, first: nat, n: nat)
    requires g > 0 && n > 0
    ensures CollapseSize(g, first, ReqSize(g, first, n)) == n
    ensures ReqSize(g, first, n) == Offset(g, first, n - 1) + 1 && n <= ReqSize(g, first, n) < ExtSize(g, first, n)
  {
    var size := ReqSize(g, first, n);
    CollapseCounts(g, first, size, n - 1);
    CollapseCounts(g, first, size, n);
    assert first + (n - 1) == first + n - 1;
    PhysMono(g, first + n - 1, first + n);
    GroupMono(g, first, first + n - 1);
  }
}

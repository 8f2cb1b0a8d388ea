/**
 The packet buffer pool of the Ethernet driver, as blocks of units.

 Unit 0 is the header of a block of size 0 that is always free; the blocks proper start at unit 1 and end at `n`.
 */
module NetbuffModel {
  import opened Basics

  /** Blocks by their first unit, with their sizes; the free ones. */
  datatype Pool = Pool(n: nat, size: map<nat, nat>, free: set<nat>)

  /** Block `a` ends where another starts, or at the end of the pool. */
  predicate Closed(p: Pool, a: nat)
    requires a in p.size
  {
    a + p.size[a] == p.n || a + p.size[a] in p.size
  }

  ghost predicate Tiled(p: Pool) {
    && p.n >= 2 && 1 in p.size && p.free <= p.size.Keys
    && (forall a | a in p.size :: 1 <= a && p.size[a] > 0 && a + p.size[a] <= p.n)
    && AllClosed(p) && Apart(p)
  }

  ghost predicate AllClosed(p: Pool) {
    forall a {:trigger Closed(p, a)} | a in p.size :: Closed(p, a)
  }

  /** Blocks do not overlap. */
  ghost predicate Apart(p: Pool) {
    forall a, b | a in p.size && b in p.size && a < b :: a + p.size[a] <= b
  }

  /** No free block follows block `a`. */
  predicate Alone(p: Pool, a: nat)
    requires a in p.size
  {
    a + p.size[a] !in p.free
  }

  /** No two free blocks lie next to each other. */
  ghost predicate Coalesced(p: Pool) {
    forall a {:trigger Alone(p, a)} | a in p.free && a in p.size :: Alone(p, a)
  }

  ghost predicate Inv(p: Pool) {
    Tiled(p) && Coalesced(p)
  }

  function Fresh(n: nat): Pool
    requires n >= 2
  {
    Pool(n, map[1 := n - 1], {1})
  }

  // -------------------------------------------------------------- operations

  /** What `alloc_buff` does with the free block `a` it settles on: all of it, or its top part. */
  function Carve(p: Pool, a: nat, units: nat): Pool
    requires a in p.size && units <= p.size[a]
  {
    if p.size[a] == units then p.(free := p.free - {a})
    else p.(size := p.size[a := p.size[a] - units][a + p.size[a] - units := units])
  }

  function Carved(p: Pool, a: nat, units: nat): nat
    requires a in p.size && units <= p.size[a]
  {
    a + p.size[a] - units
  }

  /** Joins block `a` with the one that follows it, if both are free. */
  function Join(p: Pool, a: nat): Pool
    requires p.free <= p.size.Keys
  {
    if a in p.free && a + p.size[a] in p.free then
      var b := a + p.size[a];
      Pool(p.n, (p.size - {b})[a := p.size[a] + p.size[b]], p.free - {b})
    else p
  }

  function Release(p: Pool, b: nat): Pool {
    p.(free := p.free + {b})
  }

  /** The free block that ends where `b` starts. */
  ghost function Below(p: Pool, b: nat): Option<nat>
    requires p.free <= p.size.Keys
  {
    if exists a :: a in p.free && a + p.size[a] == b
    then var a :| a in p.free && a + p.size[a] == b; Some(a)
    else None
  }

  /** `free_buff`: block `b` becomes free, and one with the free blocks next to it. */
  ghost function Give(p: Pool, b: nat): Pool
    requires p.free <= p.size.Keys && b in p.size
  {
    var q := Join(Release(p, b), b);
    match Below(q, b) {
      case Some(a) => Join(q, a)
      case None => q
    }
  }

  // -------------------------------------------------------------- invariants

  lemma FreshInv(n: nat)
    requires n >= 2
    ensures Inv(Fresh(n))
  {
  }

  lemma Bounds(p: Pool, a: nat)
    requires Inv(p) && a in p.size
    ensures Tiled(p) && Coalesced(p) && p.free <= p.size.Keys && 1 <= a && 0 < p.size[a] && a + p.size[a] <= p.n
  {
  }

  lemma Order(p: Pool, a: nat, b: nat)
    requires Tiled(p) && a in p.size && b in p.size && a < b
    ensures a + p.size[a] <= b
  {
  }

  lemma CarveTiled(p: Pool, a: nat, units: nat)
    requires Tiled(p) && a in p.size && 0 < units <= p.size[a]
    ensures Tiled(Carve(p, a, units))
  {
    var q := Carve(p, a, units);
    if units == p.size[a] {
      forall x | x in q.size ensures Closed(q, x) {
        assert Closed(p, x);
      }
    } else {
      SplitKeys(p, a, units);
      SplitClosed(p, a, units);
      SplitApart(p, a, units);
    }
  }

  lemma SplitKeys(p: Pool, a: nat, units: nat)
    requires Tiled(p) && a in p.size && 0 < units < p.size[a]
    ensures var q := Carve(p, a, units); var b := Carved(p, a, units);
      && b !in p.size && q.size.Keys == p.size.Keys + {b}
      && q.n == p.n && q.free == p.free && q.size[b] == units && q.size[a] == p.size[a] - units && forall x | x in p.size && x != a :: q.size[x] == p.size[x]
  {
    var b := Carved(p, a, units);
    if b in p.size {
      Order(p, a, b);
    }
  }

  lemma SplitClosed(p: Pool, a: nat, units: nat)
    requires Tiled(p) && a in p.size && 0 < units < p.size[a]
    ensures AllClosed(Carve(p, a, units))
  {
    hide Apart, Carve;
    var q, b := Carve(p, a, units), Carved(p, a, units);
    SplitKeys(p, a, units);
    forall x | x in q.size ensures Closed(q, x) {
      assert Closed(p, if x == b then a else x);
    }
  }

  lemma SplitApart(p: Pool, a: nat, units: nat)
    requires Tiled(p) && a in p.size && 0 < units < p.size[a]
    ensures Apart(Carve(p, a, units))
  {
    var q, b := Carve(p, a, units), Carved(p, a, units);
    SplitKeys(p, a, units);
    forall x, y | x in q.size && y in q.size && x < y ensures x + q.size[x] <= y {
      var x', y' := if x == b then a else x, if y == b then a else y;
      if x' < y' {
        Order(p, x', y');
      }
    }
  }

  lemma CarveInv(p: Pool, a: nat, units: nat)
    requires Inv(p) && a in p.free && 0 < units <= p.size[a]
    ensures Inv(Carve(p, a, units))
  {
    CarveTiled(p, a, units);
    if units == p.size[a] {
      WholeAlone(p, a);
    } else {
      SplitKeys(p, a, units);
      SplitAlone(p, Carve(p, a, units), a, Carved(p, a, units));
    }
  }

  lemma WholeAlone(p: Pool, a: nat)
    requires Coalesced(p) && a in p.size
    ensures Coalesced(Carve(p, a, p.size[a]))
  {
    var q := Carve(p, a, p.size[a]);
    forall x | x in q.free && x in q.size ensures Alone(q, x) {
      assert Alone(p, x);
    }
  }

  lemma SplitAlone(p: Pool, q: Pool, a: nat, b: nat)
    requires Coalesced(p) && p.free <= p.size.Keys && a in p.free && q.free == p.free
    requires b !in p.size && q.size.Keys == p.size.Keys + {b} && a + q.size[a] == b
    requires forall x | x in p.size && x != a :: q.size[x] == p.size[x]
    ensures Coalesced(q)
  {
    forall x | x in q.free && x in q.size ensures Alone(q, x) {
      assert Alone(p, x);
    }
  }

  lemma JoinKeys(p: Pool, a: nat)
    requires Tiled(p) && a in p.free && a + p.size[a] in p.free
    ensures var q := Join(p, a); var b := a + p.size[a];
      && a != b && q.size.Keys == p.size.Keys - {b} && q.size[a] == p.size[a] + p.size[b]
      && forall x | x in q.size && x != a :: q.size[x] == p.size[x]
  {
  }

  lemma EndsOnce(p: Pool, a: nat, x: nat)
    requires Tiled(p) && a in p.size && x in p.size && x + p.size[x] == a + p.size[a]
    ensures x == a
  {
  }

  lemma JoinClosed(p: Pool, a: nat)
    requires Tiled(p) && a in p.free && a + p.size[a] in p.free
    ensures AllClosed(Join(p, a))
  {
    var q, b := Join(p, a), a + p.size[a];
    JoinKeys(p, a);
    forall x | x in q.size ensures Closed(q, x) {
      if x == a {
        assert Closed(p, b);
      } else {
        assert Closed(p, x);
        if x + p.size[x] == b {
          EndsOnce(p, a, x);
        }
      }
    }
  }

  lemma JoinApart(p: Pool, a: nat)
    requires Tiled(p) && a in p.free && a + p.size[a] in p.free
    ensures Apart(Join(p, a))
  {
    var q, b := Join(p, a), a + p.size[a];
    JoinKeys(p, a);
    forall x, y | x in q.size && y in q.size && x < y ensures x + q.size[x] <= y {
      Order(p, x, y);
      if x == a && b < y {
        Order(p, b, y);
      }
    }
  }

  /** `q` has block `b` in one with the block `e` that follows it. */
  ghost predicate Merged(p: Pool, q: Pool, b: nat, e: nat) {
    && b in p.size && e in p.size && b != e && b + p.size[b] == e && q.n == p.n
    && q.size.Keys == p.size.Keys - {e} && q.size[b] == p.size[b] + p.size[e]
    && (forall x | x in q.size && x != b :: q.size[x] == p.size[x])
    && q.free == p.free - {e}
  }

  lemma JoinMerges(p: Pool, a: nat)
    requires Tiled(p) && a in p.free && a + p.size[a] in p.free
    ensures Merged(p, Join(p, a), a, a + p.size[a])
  {
    JoinKeys(p, a);
  }

  lemma JoinNone(p: Pool, a: nat)
    requires p.free <= p.size.Keys && !(a in p.free && a + p.size[a] in p.free)
    ensures Join(p, a) == p
  {
  }

  lemma JoinTiled(p: Pool, a: nat)
    requires Tiled(p)
    ensures Tiled(Join(p, a))
  {
    hide AllClosed, Apart, Join;
    if a in p.free && a + p.size[a] in p.free {
      JoinMerges(p, a);
      JoinClosed(p, a);
      JoinApart(p, a);
    } else {
      JoinNone(p, a);
    }
  }

  lemma ReleaseTiled(p: Pool, b: nat)
    requires Tiled(p) && b in p.size
    ensures Tiled(Release(p, b))
  {
    var q := Release(p, b);
    forall x | x in q.size ensures Closed(q, x) {
      assert Closed(p, x);
    }
  }

  /** Free blocks lie next to each other at most where `b` starts. */
  ghost predicate OpenBelow(p: Pool, b: nat) {
    forall a {:trigger Alone(p, a)} | a in p.free && a in p.size && a + p.size[a] != b :: Alone(p, a)
  }

  lemma MergedUpper(p: Pool, r: Pool, q: Pool, b: nat, e: nat)
    requires Coalesced(p) && r == Release(p, b) && b !in p.free && e in p.free && Merged(r, q, b, e)
    requires p.free <= p.size.Keys && p.size[e] > 0 && p.size[b] > 0
    ensures OpenBelow(q, b)
  {
    assert Alone(p, e);
    forall a | a in q.free && a in q.size && a + q.size[a] != b ensures Alone(q, a) {
      assert a != b ==> Alone(p, a);
    }
  }

  lemma MergedLower(p: Pool, q: Pool, a: nat, b: nat)
    requires OpenBelow(p, b) && Merged(p, q, a, b) && b in p.free && p.size[b] > 0
    ensures Coalesced(q)
  {
    assert Alone(p, b);
    forall x | x in q.free && x in q.size ensures Alone(q, x) {
      assert x + p.size[x] != b ==> Alone(p, x);
    }
  }

  lemma JoinUpper(p: Pool, b: nat)
    requires Inv(p) && b in p.size && b !in p.free
    ensures var q := Join(Release(p, b), b); Tiled(q) && b in q.free && OpenBelow(q, b)
  {
    hide Inv, Tiled, Coalesced, Merged, OpenBelow;
    var r, e := Release(p, b), b + p.size[b];
    Bounds(p, b);
    ReleaseTiled(p, b);
    JoinTiled(r, b);
    if e in p.free {
      Bounds(p, e);
      JoinMerges(r, b);
      MergedUpper(p, r, Join(r, b), b, e);
    } else {
      ReleaseOpen(p, b);
    }
  }

  lemma ReleaseOpen(p: Pool, b: nat)
    requires Coalesced(p) && b in p.size && b !in p.free && p.size[b] > 0 && b + p.size[b] !in p.free
    ensures OpenBelow(Release(p, b), b)
  {
    var r := Release(p, b);
    forall a | a in r.free && a in r.size && a + r.size[a] != b ensures Alone(r, a) {
      assert a != b ==> Alone(p, a);
    }
  }

  lemma JoinLower(p: Pool, a: nat, b: nat)
    requires Tiled(p) && b in p.free && OpenBelow(p, b) && a in p.free && a + p.size[a] == b
    ensures Inv(Join(p, a))
  {
    JoinTiled(p, a);
    JoinMerges(p, a);
    MergedLower(p, Join(p, a), a, b);
  }

  lemma NoneBelow(p: Pool, b: nat)
    requires Tiled(p) && OpenBelow(p, b) && Below(p, b) == None
    ensures Inv(p)
  {
    forall a | a in p.free && a in p.size ensures Alone(p, a) {
      assert a + p.size[a] != b ==> Alone(p, a);
    }
  }

  lemma GiveInv(p: Pool, b: nat)
    requires Inv(p) && b in p.size && b !in p.free
    ensures Inv(Give(p, b))
  {
    JoinUpper(p, b);
    var q := Join(Release(p, b), b);
    match Below(q, b) {
      case Some(a) => JoinLower(q, a, b);
      case None => NoneBelow(q, b);
    }
  }

  // -------------------------------------------------------- blocks handed out

  function Taken(p: Pool): map<nat, nat> {
    map a | a in p.size && a !in p.free :: p.size[a]
  }

  /** Taking a block hands out one new block, of just the size asked for, and changes no other. */
  lemma CarveTaken(p: Pool, a: nat, units: nat)
    requires Inv(p) && a in p.free && 0 < units <= p.size[a]
    ensures var b := Carved(p, a, units); b !in Taken(p) && Taken(Carve(p, a, units)) == Taken(p)[b := units]
  {
    if units < p.size[a] {
      SplitKeys(p, a, units);
      SplitTaken(p, Carve(p, a, units), a, Carved(p, a, units));
    }
  }

  lemma SplitTaken(p: Pool, q: Pool, a: nat, b: nat)
    requires a in p.free && a in p.size && p.free <= p.size.Keys && q.free == p.free
    requires b !in p.size && q.size.Keys == p.size.Keys + {b} && forall x | x in p.size && x != a :: q.size[x] == p.size[x]
    ensures Taken(q) == Taken(p)[b := q.size[b]]
  {
  }

  lemma JoinTaken(p: Pool, a: nat)
    requires Tiled(p)
    ensures Taken(Join(p, a)) == Taken(p)
  {
    if a in p.free && a + p.size[a] in p.free {
      JoinKeys(p, a);
    }
  }

  /** Giving a block back changes no other block that is handed out. */
  lemma GiveTaken(p: Pool, b: nat)
    requires Inv(p) && b in p.size && b !in p.free
    ensures Taken(Give(p, b)) == Taken(p) - {b}
  {
    JoinUpper(p, b);
    ReleaseTiled(p, b);
    var r := Release(p, b);
    assert Taken(r) == Taken(p) - {b};
    JoinTaken(r, b);
    var q := Join(r, b);
    match Below(q, b) {
      case Some(a) => JoinTaken(q, a);
      case None =>
    }
  }

  // -------------------------------------------------------------------- runs

  datatype Step = Take(a: nat, units: nat) | Return(b: nat)

  /** A block is taken from a free block large enough; a block is returned by whoever has it. */
  ghost predicate Enabled(p: Pool, s: Step) {
    match s
    case Take(a, units) => a in p.free && a in p.size && 0 < units <= p.size[a]
    case Return(b) => b in Taken(p)
  }

  ghost function Apply(p: Pool, s: Step): Pool
    requires Tiled(p) && Enabled(p, s)
  {
    match s
    case Take(a, units) => Carve(p, a, units)
    case Return(b) => Give(p, b)
  }

  ghost predicate IsRun(pools: seq<Pool>, steps: seq<Step>) {
    && |pools| == |steps| + 1 && pools[0].n >= 2 && pools[0] == Fresh(pools[0].n)
    && forall i | 0 <= i < |steps| :: Tiled(pools[i]) && Enabled(pools[i], steps[i]) && pools[i + 1] == Apply(pools[i], steps[i])
  }

  lemma {:induction false} RunInv(pools: seq<Pool>, steps: seq<Step>, i: nat)
    requires IsRun(pools, steps) && i < |pools|
    ensures Inv(pools[i]) && pools[i].n == pools[0].n
  {
    if i == 0 {
      FreshInv(pools[0].n);
    } else {
      RunInv(pools, steps, i - 1);
      match steps[i - 1] {
        case Take(a, units) => CarveInv(pools[i - 1], a, units);
        case Return(b) => GiveInv(pools[i - 1], b);
      }
    }
  }

  /** How a step changes what is handed out. */
  function Booked(p: Pool, s: Step, held: map<nat, nat>): map<nat, nat>
    requires s.Take? ==> s.a in p.size && s.units <= p.size[s.a]
  {
    match s
    case Take(a, units) => held[Carved(p, a, units) := units]
    case Return(b) => held - {b}
  }

  lemma StepTaken(p: Pool, s: Step)
    requires Inv(p) && Enabled(p, s)
    ensures Taken(Apply(p, s)) == Booked(p, s, Taken(p))
  {
    match s {
      case Take(a, units) => CarveTaken(p, a, units);
      case Return(b) => GiveTaken(p, b);
    }
  }

  /** What is handed out: each block taken and not returned since, at its size. */
  ghost function Outstanding(pools: seq<Pool>, steps: seq<Step>): map<nat, nat>
    requires IsRun(pools, steps)
  {
    if steps == [] then map[]
    else
      var k := |steps| - 1;
      Booked(pools[k], steps[k], Outstanding(pools[..k + 1], steps[..k]))
  }

  lemma {:induction false} RunTaken(pools: seq<Pool>, steps: seq<Step>)
    requires IsRun(pools, steps)
    ensures Taken(pools[|steps|]) == Outstanding(pools, steps)
  {
    if steps == [] {
      assert Taken(pools[0]) == map[];
    } else {
      var k := |steps| - 1;
      RunTaken(pools[..k + 1], steps[..k]);
      RunInv(pools, steps, k);
      StepTaken(pools[k], steps[k]);
    }
  }

  /** When all that was handed out is back, the pool is one free block again. */
  lemma RunRestores(pools: seq<Pool>, steps: seq<Step>)
    requires IsRun(pools, steps)
    ensures Outstanding(pools, steps) == map[] <==> pools[|steps|] == pools[0]
  {
    RunTaken(pools, steps);
    RunInv(pools, steps, |steps|);
    var p := pools[|steps|];
    if Taken(p) == map[] {
      AllFree(p);
    }
  }

  lemma First(p: Pool, a: nat)
    requires Tiled(p) && a in p.size
    ensures a == 1 || 1 + p.size[1] <= a
  {
  }

  lemma AllFree(p: Pool)
    requires Inv(p) && Taken(p) == map[]
    ensures p == Fresh(p.n)
  {
    forall a | a in p.size ensures a in p.free {
      assert a !in p.free ==> a in Taken(p);
    }
    assert Closed(p, 1) && Alone(p, 1);
    assert 1 + p.size[1] == p.n;
    forall a | a in p.size ensures a == 1 {
      First(p, a);
    }
    assert p.size.Keys == {1};
    assert p.size == map[1 := p.n - 1];
  }

  // ------------------------------------------------------------ conservation

  /** The block that unit `u` is in, looked for from block `a` on. */
  ghost function BlockOf(p: Pool, a: nat, u: nat): (b: nat)
    requires Tiled(p) && a in p.size && a <= u < p.n
    ensures b in p.size && b <= u < b + p.size[b]
    decreases p.n - a
  {
    assert Closed(p, a);
    if u < a + p.size[a] then a else BlockOf(p, a + p.size[a], u)
  }

  /** Every unit is in exactly one block. */
  lemma EachUnitOnce(p: Pool, u: nat)
    requires Tiled(p) && 1 <= u < p.n
    ensures exists b :: b in p.size && b <= u < b + p.size[b]
    ensures forall a, b | a in p.size && b in p.size && a <= u < a + p.size[a] && b <= u < b + p.size[b] :: a == b
  {
    var b := BlockOf(p, 1, u);
    assert b in p.size && b <= u < b + p.size[b];
  }

  /** Units of the blocks from `a` on that are free, or that are not. */
  ghost function Units(p: Pool, a: nat, free: bool): nat
    requires Tiled(p) && (a in p.size || a == p.n)
    decreases if a <= p.n then p.n - a else 0
  {
    if a == p.n then 0
    else
      assert Closed(p, a);
      (if (a in p.free) == free then p.size[a] else 0) + Units(p, a + p.size[a], free)
  }

  /** Units are conserved: those free and those handed out make up the pool. */
  lemma {:induction false} Conserved(p: Pool, a: nat)
    requires Tiled(p) && (a in p.size || a == p.n)
    ensures Units(p, a, true) + Units(p, a, false) == p.n - a
    decreases if a <= p.n then p.n - a else 0
  {
    if a != p.n {
      assert Closed(p, a);
      Conserved(p, a + p.size[a]);
    }
  }

  lemma RunConserves(pools: seq<Pool>, steps: seq<Step>, i: nat)
    requires IsRun(pools, steps) && i < |pools|
    ensures Tiled(pools[i]) && Units(pools[i], 1, true) + Units(pools[i], 1, false) == pools[0].n - 1
  {
    RunInv(pools, steps, i);
    Conserved(pools[i], 1);
  }
}

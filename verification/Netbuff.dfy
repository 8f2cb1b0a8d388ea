/** The buffer pool as the driver keeps it: headers in the pool itself, the free ones linked in a ring. */
module Netbuff {
  import opened Basics
  import opened NetbuffModel

  /** Bytes in a header, which is also the unit of allocation. */
  const HEADER_SIZE := 8

  // ------------------------------------------------------------------- rings

  ghost predicate Ascending(ring: seq<nat>) {
    forall i, j | 0 <= i < j < |ring| :: ring[i] < ring[j]
  }

  /** The header at unit 0 and those of the free blocks, in address order. */
  ghost predicate Ring(ring: seq<nat>, free: set<nat>) {
    && |ring| > 0 && ring[0] == 0
    && Ascending(ring)
    && (forall x: nat :: x in ring <==> x == 0 || x in free)
  }

  function Succ(ring: seq<nat>, i: nat): nat
    requires i < |ring|
  {
    if i + 1 < |ring| then ring[i + 1] else 0
  }

  ghost predicate Linked(next: seq<nat>, ring: seq<nat>) {
    && (forall i | 0 <= i < |ring| :: ring[i] < |next|)
    && (forall i {:trigger Succ(ring, i)} | 0 <= i < |ring| :: next[ring[i]] == Succ(ring, i))
  }

  /** Linked but for the element at `j`. */
  ghost predicate LinkedBut(next: seq<nat>, ring: seq<nat>, j: nat) {
    && (forall i | 0 <= i < |ring| :: ring[i] < |next|)
    && (forall i {:trigger Succ(ring, i)} | 0 <= i < |ring| && i != j :: next[ring[i]] == Succ(ring, i))
  }

  function Add(ring: seq<nat>, j: nat, x: nat): (r: seq<nat>)
    requires j <= |ring|
    ensures |r| == |ring| + 1 && r[j] == x
    ensures forall i | 0 <= i < j :: r[i] == ring[i]
    ensures forall i | j < i < |r| :: r[i] == ring[i - 1]
  {
    ring[..j] + [x] + ring[j..]
  }

  lemma DropIn(ring: seq<nat>, j: nat, x: nat)
    requires j < |ring| && Ascending(ring)
    ensures x in RemoveAt(ring, j) <==> x in ring && x != ring[j]
  {
    var r := RemoveAt(ring, j);
    if x in ring && x != ring[j] {
      var i :| 0 <= i < |ring| && ring[i] == x;
      assert r[if i < j then i else i - 1] == x;
    }
  }

  lemma AddIn(ring: seq<nat>, j: nat, x: nat, y: nat)
    requires j <= |ring|
    ensures y in Add(ring, j, x) <==> y in ring || y == x
  {
    var r := Add(ring, j, x);
    if y in ring {
      var i :| 0 <= i < |ring| && ring[i] == y;
      assert r[if i < j then i else i + 1] == y;
    }
  }

  lemma DropRing(ring: seq<nat>, free: set<nat>, j: nat)
    requires Ring(ring, free) && 0 < j < |ring|
    ensures Ring(RemoveAt(ring, j), free - {ring[j]})
  {
    forall x: nat ensures x in RemoveAt(ring, j) <==> x == 0 || x in free - {ring[j]} {
      DropIn(ring, j, x);
    }
  }

  lemma AddAscending(ring: seq<nat>, j: nat, x: nat)
    requires Ascending(ring) && 0 < j <= |ring| && ring[j - 1] < x && (j < |ring| ==> x < ring[j])
    ensures Ascending(Add(ring, j, x))
  {
  }

  lemma AddRing(ring: seq<nat>, free: set<nat>, j: nat, x: nat)
    requires Ring(ring, free) && 0 < j <= |ring| && ring[j - 1] < x && (j < |ring| ==> x < ring[j])
    ensures Ring(Add(ring, j, x), free + {x})
  {
    AddAscending(ring, j, x);
    forall y: nat ensures y in Add(ring, j, x) <==> y == 0 || y in free + {x} {
      AddIn(ring, j, x, y);
    }
  }

  /** Taking the element after `j` out of a ring that is linked but for `j`. */
  lemma DropLinked(next: seq<nat>, ring: seq<nat>, j: nat)
    requires LinkedBut(next, ring, j) && j + 1 < |ring| && Ascending(ring)
    ensures Linked(next[ring[j] := next[ring[j + 1]]], RemoveAt(ring, j + 1))
  {
    var r, nx := RemoveAt(ring, j + 1), next[ring[j] := next[ring[j + 1]]];
    forall i | 0 <= i < |r| ensures r[i] < |nx| && nx[r[i]] == Succ(r, i) {
      if i < j {
        assert r[i] == ring[i] && next[ring[i]] == Succ(ring, i);
      } else if i == j {
        assert r[i] == ring[j] && next[ring[j + 1]] == Succ(ring, j + 1);
      } else {
        assert r[i] == ring[i + 1] && next[ring[i + 1]] == Succ(ring, i + 1);
      }
    }
  }

  /** Linking in a new element, but not yet from the one before it. */
  lemma AddLinked(next: seq<nat>, ring: seq<nat>, j: nat, x: nat)
    requires LinkedBut(next, ring, j) && j < |ring| && x !in ring && x < |next|
    ensures LinkedBut(next[x := Succ(ring, j)], Add(ring, j + 1, x), j)
  {
    var r, nx := Add(ring, j + 1, x), next[x := Succ(ring, j)];
    forall i | 0 <= i < |r| ensures r[i] < |nx| && (i != j ==> nx[r[i]] == Succ(r, i)) {
      if i <= j {
        assert r[i] == ring[i] && ring[i] in ring;
        assert i < j ==> next[ring[i]] == Succ(ring, i);
      } else if i > j + 1 {
        assert r[i] == ring[i - 1] && ring[i - 1] in ring && next[ring[i - 1]] == Succ(ring, i - 1);
      }
    }
  }

  // ------------------------------------------------------------- searching

  /** The place in the ring after which `x` belongs. */
  ghost function Place(ring: seq<nat>, x: nat): (j: nat)
    requires |ring| > 0 && ring[0] < x
    ensures j < |ring| && ring[j] < x && (j + 1 < |ring| ==> x <= ring[j + 1])
  {
    if ring[|ring| - 1] < x then |ring| - 1 else Place(ring[..|ring| - 1], x)
  }

  lemma PlaceUnique(ring: seq<nat>, x: nat, i: nat)
    requires Ascending(ring) && |ring| > 0 && ring[0] < x && x !in ring && i < |ring|
    ensures i == Place(ring, x) <==> ring[i] < x && (i + 1 < |ring| ==> x < ring[i + 1])
  {
    var j := Place(ring, x);
    assert ring[j] != x && (j + 1 < |ring| ==> ring[j + 1] != x);
  }

  /** The free block that follows block `x` is the next in the ring, if any. */
  lemma UpperIs(ring: seq<nat>, p: Pool, x: nat, j: nat)
    requires Inv(p) && Ring(ring, p.free) && x in p.size && x !in p.free && j == Place(ring, x) && 0 < x
    ensures x + p.size[x] in p.free <==> x + p.size[x] == Succ(ring, j)
    ensures x + p.size[x] in p.free ==> j + 1 < |ring| && ring[j + 1] == x + p.size[x]
  {
    PlaceUnique(ring, x, j);
    var e := x + p.size[x];
    if j + 1 < |ring| {
      var y := ring[j + 1];
      assert y in ring && x < y;
      Order(p, x, y);
    }
    if e in p.free {
      var l :| 0 <= l < |ring| && ring[l] == e;
      assert l > j;
    }
  }

  /** The free block that ends where block `x` starts is the one before it in the ring, if any. */
  lemma LowerIs(ring: seq<nat>, q: Pool, j: nat)
    requires Tiled(q) && Ring(ring, q.free) && j + 1 < |ring|
    ensures var x := ring[j + 1]; Below(q, x) == if j > 0 && ring[j] in q.size && ring[j] + q.size[ring[j]] == x then Some(ring[j]) else None
  {
    var x, w := ring[j + 1], ring[j];
    assert x in ring && w in ring;
    forall a | a in q.free && a + q.size[a] == x ensures a == w && j > 0 {
      assert a in ring;
      var l :| 0 <= l < |ring| && ring[l] == a;
      assert l <= j;
      if l < j {
        Order(q, a, w);
      }
    }
  }

  /** A block that was joined with the one that follows it takes its place in the ring. */
  lemma ReplaceRing(ring: seq<nat>, free: set<nat>, j: nat, x: nat)
    requires Ring(ring, free) && j + 1 < |ring| && ring[j] < x < ring[j + 1] && x !in free
    ensures Ring(ring[j + 1 := x], free + {x} - {ring[j + 1]})
  {
    var r := ring[j + 1 := x];
    forall y: nat ensures y in r <==> y == 0 || y in free + {x} - {ring[j + 1]} {
      if y in ring && y != ring[j + 1] {
        var i :| 0 <= i < |ring| && ring[i] == y;
        assert r[i] == y;
      }
      assert r[j + 1] == x;
    }
  }

  lemma ReplaceLinked(next: seq<nat>, ring: seq<nat>, j: nat, x: nat)
    requires Linked(next, ring) && j + 1 < |ring| && x !in ring && x < |next|
    ensures LinkedBut(next[x := next[ring[j + 1]]], ring[j + 1 := x], j)
  {
    var r, nx := ring[j + 1 := x], next[x := next[ring[j + 1]]];
    forall i | 0 <= i < |r| && i != j ensures nx[r[i]] == Succ(r, i) {
      assert next[ring[i]] == Succ(ring, i) && ring[i] in ring;
    }
  }

  lemma CloseLink(next: seq<nat>, ring: seq<nat>, j: nat)
    requires LinkedBut(next, ring, j) && Ascending(ring) && j + 1 < |ring|
    ensures Linked(next[ring[j] := ring[j + 1]], ring)
  {
    var nx := next[ring[j] := ring[j + 1]];
    forall i | 0 <= i < |ring| ensures nx[ring[i]] == Succ(ring, i) {
      assert i != j ==> next[ring[i]] == Succ(ring, i);
    }
  }

  lemma LinkAt(next: seq<nat>, ring: seq<nat>, j: nat)
    requires Linked(next, ring) && j < |ring|
    ensures ring[j] < |next| && next[ring[j]] == Succ(ring, j) && LinkedBut(next, ring, j)
  {
    assert next[ring[j]] == Succ(ring, j);
  }

  /** The ring as met on the way around from the element at `i`, which comes last. */
  function From(ring: seq<nat>, i: nat): (r: seq<nat>)
    requires i < |ring|
    ensures |r| == |ring| && r[|r| - 1] == ring[i]
  {
    ring[i + 1..] + ring[..i + 1]
  }

  lemma FromLinked(next: seq<nat>, ring: seq<nat>, i: nat, k: nat)
    requires Linked(next, ring) && i < |ring| && ring[0] == 0 && k < |ring|
    ensures var x := From(ring, i)[k]; x in ring && x < |next|
    ensures k + 1 < |ring| ==> next[From(ring, i)[k]] == From(ring, i)[k + 1]
    ensures next[ring[i]] == From(ring, i)[0]
  {
    var r, m := From(ring, i), |ring|;
    var k' := if k < m - i - 1 then i + 1 + k else k - (m - i - 1);
    assert r[k] == ring[k'] && next[ring[k']] == Succ(ring, k');
    assert next[ring[i]] == Succ(ring, i);
  }

  /** The first `k` blocks on the way are too small. */
  ghost predicate TooSmall(size: seq<nat>, ring: seq<nat>, i: nat, k: nat, units: nat)
    requires i < |ring| && k <= |ring|
  {
    forall l | 0 <= l < k :: From(ring, i)[l] < |size| && size[From(ring, i)[l]] < units
  }

  lemma OneMore(size: seq<nat>, ring: seq<nat>, i: nat, k: nat, units: nat)
    requires i < |ring| && k < |ring| && TooSmall(size, ring, i, k, units)
    requires From(ring, i)[k] < |size| && size[From(ring, i)[k]] < units
    ensures TooSmall(size, ring, i, k + 1, units)
  {
  }

  lemma FromDistinct(ring: seq<nat>, i: nat, k: nat, l: nat)
    requires Ascending(ring) && i < |ring| && k < |ring| && l < |ring| && From(ring, i)[k] == From(ring, i)[l]
    ensures k == l
  {
    var m := |ring|;
    var k' := if k < m - i - 1 then i + 1 + k else k - (m - i - 1);
    var l' := if l < m - i - 1 then i + 1 + l else l - (m - i - 1);
    assert From(ring, i)[k] == ring[k'] && From(ring, i)[l] == ring[l'];
    assert k' == l';
  }

  lemma FromAll(ring: seq<nat>, i: nat, x: nat) returns (k: nat)
    requires i < |ring| && x in ring
    ensures k < |ring| && From(ring, i)[k] == x
  {
    var l :| 0 <= l < |ring| && ring[l] == x;
    k := if l > i then l - i - 1 else l + |ring| - i - 1;
  }

  /** `x` is met strictly before `y` on the way around from `start`. */
  predicate Sooner(start: nat, x: nat, y: nat) {
    if start < y then start < x < y else start < x || x < y
  }

  lemma SoonerFrom(ring: seq<nat>, i: nat, k: nat, x: nat)
    requires Ascending(ring) && i < |ring| && k < |ring| && x in ring && Sooner(ring[i], x, From(ring, i)[k])
    ensures exists l | 0 <= l < k :: From(ring, i)[l] == x
  {
    var m := |ring|;
    var k' := if k < m - i - 1 then i + 1 + k else k - (m - i - 1);
    assert From(ring, i)[k] == ring[k'];
    var x' :| 0 <= x' < m && ring[x'] == x;
    assert x' <= i ==> ring[x'] <= ring[i];
    assert k' <= x' ==> ring[k'] <= ring[x'];
    assert k' <= i ==> ring[k'] <= ring[i];
    var l := if x' > i then x' - i - 1 else x' + m - i - 1;
    assert From(ring, i)[l] == x;
    assert 0 <= l < k;
  }

  ghost predicate SomeFits(p: Pool, units: nat) {
    exists a :: a in p.free && a in p.size && p.size[a] >= units
  }

  /** The free blocks met before `ptr` on the way around from `start` are too small. */
  ghost predicate FirstFit(p: Pool, start: nat, ptr: nat, units: nat) {
    forall a | a in p.free && a in p.size && Sooner(start, a, ptr) :: p.size[a] < units
  }

  class BufferPool {
    /** Units in the pool. */
    const n: nat
    const next: array<nat>
    const size: array<nat>
    var allocptr: nat

    ghost var pool: Pool
    ghost var ring: seq<nat>

    ghost predicate Valid()
      reads this, next, size
    {
      && next.Length == n && size.Length == n && next != size
      && pool.n == n && Inv(pool)
      && size[0] == 0 && (forall a | a in pool.size :: a < n && size[a] == pool.size[a])
      && Ring(ring, pool.free) && Linked(next[..], ring)
      && allocptr in ring
    }

    /** `init_buff`: the whole pool is one block, which is then freed. */
    constructor (n: nat)
      requires n >= 2
      ensures Valid() && pool == Fresh(n) && this.n == n && fresh(next) && fresh(size)
    {
      this.n := n;
      next := new nat[n](_ => 0);
      size := new nat[n](i => if i == 1 then n - 1 else 0);
      allocptr := 0;
      pool := Pool(n, map[1 := n - 1], {});
      ring := [0];
      new;
      assert Closed(pool, 1);
      Free(2);
      WholePool(n);
    }

    /** The search loop of `alloc_buff`, all the way around from `allocptr`: a large enough block, and the one before it. */
    method FindFit(units: nat) returns (found: bool, wrk: nat, ptr: nat)
      requires Valid() && units > 0
      ensures found <==> SomeFits(pool, units)
      ensures found ==> wrk in ring && wrk < n && next[wrk] == ptr && ptr in pool.free && ptr in pool.size && pool.size[ptr] >= units
      ensures found ==> FirstFit(pool, allocptr, ptr, units)
    {
      hide Valid, Linked, TooSmall, From, Ascending, SomeFits, FirstFit;
      ghost var i := StartRing();
      FromLinked(next[..], ring, i, 0);
      wrk := allocptr;
      ptr := next[wrk];
      ghost var k := 0;
      while true
        invariant 0 <= k < |ring| && ptr == From(ring, i)[k] && wrk in ring && wrk < n && next[wrk] == ptr
        invariant TooSmall(size[..], ring, i, k, units)
        decreases |ring| - k
      {
        FromLinked(next[..], ring, i, k);
        if size[ptr] >= units {
          PassedOver(i, k, units);
          InRing(ptr, units);
          return true, wrk, ptr;
        }
        OneMore(size[..], ring, i, k, units);
        if ptr == allocptr {
          FromDistinct(ring, i, k, |ring| - 1);
          break;
        }
        wrk, ptr, k := ptr, next[ptr], k + 1;
      }
      NoneFits(i, units);
      return false, wrk, ptr;
    }

    lemma StartRing() returns (i: nat)
      requires Valid()
      ensures next.Length == n && size.Length == n && i < |ring| && ring[i] == allocptr < n
      ensures ring[0] == 0 && Ascending(ring) && Linked(next[..], ring)
      ensures forall units: nat :: TooSmall(size[..], ring, i, 0, units)
    {
      i :| 0 <= i < |ring| && ring[i] == allocptr;
    }

    lemma InRing(x: nat, units: nat)
      requires Valid() && x in ring && x < n && size[x] >= units > 0
      ensures x in pool.free && x in pool.size && pool.size[x] == size[x] && SomeFits(pool, units)
    {
      assert x in pool.free && x in pool.size && pool.size[x] >= units;
    }

    lemma PassedOver(i: nat, k: nat, units: nat)
      requires Valid() && i < |ring| && ring[i] == allocptr && k < |ring|
      requires TooSmall(size[..], ring, i, k, units)
      ensures FirstFit(pool, allocptr, From(ring, i)[k], units)
    {
      forall a | a in pool.free && a in pool.size && Sooner(allocptr, a, From(ring, i)[k]) ensures pool.size[a] < units {
        SoonerFrom(ring, i, k, a);
      }
    }

    lemma NoneFits(i: nat, units: nat)
      requires Valid() && i < |ring|
      requires TooSmall(size[..], ring, i, |ring|, units)
      ensures !SomeFits(pool, units)
    {
      forall a | a in pool.free ensures pool.size[a] < units {
        var l := FromAll(ring, i, a);
      }
    }

    /** Takes all of block `ptr` out of the ring, `wrk` the one before it. */
    method TakeWhole(wrk: nat, ptr: nat)
      requires Valid() && wrk in ring && wrk < n && next[wrk] == ptr && ptr in pool.free && ptr in pool.size
      modifies this, next
      ensures Valid() && allocptr == wrk && pool == Carve(old(pool), ptr, old(pool).size[ptr])
    {
      ghost var j := Before(wrk, ptr);
      CarveInv(pool, ptr, pool.size[ptr]);
      DropRing(ring, pool.free, j + 1);
      DropIn(ring, j + 1, wrk);
      DropLinked(next[..], ring, j);
      next[wrk] := next[ptr];
      ring := RemoveAt(ring, j + 1);
      pool := Carve(pool, ptr, pool.size[ptr]);
      allocptr := wrk;
    }

    /** The place of a block in the ring from which another block is linked. */
    lemma Before(wrk: nat, ptr: nat) returns (j: nat)
      requires Valid() && wrk in ring && wrk < n && next[wrk] == ptr && ptr in pool.free && ptr in pool.size
      ensures j + 1 < |ring| && ring[j] == wrk && ring[j + 1] == ptr && wrk != ptr
    {
      j :| 0 <= j < |ring| && ring[j] == wrk;
      assert next[..][ring[j]] == Succ(ring, j);
    }

    /** Takes the top of block `ptr`, which stays in the ring. */
    method TakeTop(wrk: nat, ptr: nat, units: nat) returns (b: nat)
      requires Valid() && wrk in ring && ptr in pool.free && ptr in pool.size && 0 < units < pool.size[ptr]
      modifies this, size
      ensures Valid() && allocptr == wrk && b == Carved(old(pool), ptr, units) && pool == Carve(old(pool), ptr, units)
    {
      hide Inv, Ring, Linked;
      Bounds(pool, ptr);
      CarveInv(pool, ptr, units);
      SplitKeys(pool, ptr, units);
      size[ptr] := size[ptr] - units;
      b := ptr + size[ptr];
      size[b] := units;
      pool := Carve(pool, ptr, units);
      allocptr := wrk;
    }

    /** `alloc_buff`: a block for `bytes` bytes behind its header, from the first free block large enough. */
    method Alloc(bytes: nat) returns (r: Option<nat>, ghost a: nat)
      requires Valid()
      modifies this, next, size
      ensures Valid()
      ensures r.None? <==> !SomeFits(old(pool), UnitsFor(bytes))
      ensures r.None? ==> pool == old(pool) && allocptr == old(allocptr)
      ensures r.Some? ==>
        && Enabled(old(pool), Take(a, UnitsFor(bytes)))
        && FirstFit(old(pool), old(allocptr), a, UnitsFor(bytes))
        && pool == Apply(old(pool), Take(a, UnitsFor(bytes)))
        && r.value == Carved(old(pool), a, UnitsFor(bytes)) + 1
    {
      var units := UnitsFor(bytes);
      var found, wrk, ptr := FindFit(units);
      a := ptr;
      if !found {
        return None, a;
      }
      if size[ptr] == units {
        TakeWhole(wrk, ptr);
      } else {
        ptr := TakeTop(wrk, ptr, units);
      }
      return Some(ptr + 1), a;
    }

    /** A block handed out lies outside the ring, above its first header. */
    lemma NotInRing(x: nat)
      requires Valid() && x in Taken(pool)
      ensures x !in ring && 0 < x < n && Ascending(ring) && |ring| > 0 && ring[0] == 0
    {
    }

    /** The search loop of `free_buff`, from `allocptr`: ends at the one place in the ring where the block belongs. */
    method FindPlace(ptr: nat) returns (wrk: nat)
      requires Valid() && ptr in Taken(pool)
      ensures |ring| > 0 && ring[0] < ptr && wrk == ring[Place(ring, ptr)]
    {
      hide Valid, Linked, Ascending, Place;
      NotInRing(ptr);
      ghost var i := StartRing();
      ghost var j := Place(ring, ptr);
      wrk := allocptr;
      Hop(i, ptr);
      while !(ptr > wrk && ptr < next[wrk])
        invariant 0 <= i < |ring| && wrk == ring[i] < n && next[wrk] == Succ(ring, i)
        invariant Found(i, ptr, j)
        decreases if i <= j then j - i else |ring| - i + j
      {
        if wrk >= next[wrk] && (ptr > wrk || ptr < next[wrk]) {
          break;
        }
        i := if i + 1 < |ring| then i + 1 else 0;
        wrk := next[wrk];
        Hop(i, ptr);
      }
    }

    /** Whether the search ends at the `i`-th in the ring. */
    ghost predicate Found(i: nat, ptr: nat, j: nat)
      reads this
      requires i < |ring|
    {
      var w, nx := ring[i], Succ(ring, i);
      i == j <==> (ptr > w && ptr < nx) || (w >= nx && (ptr > w || ptr < nx))
    }

    lemma Hop(i: nat, ptr: nat)
      requires Valid() && ptr in Taken(pool) && i < |ring| && ring[0] < ptr
      ensures ring[i] < n && next[ring[i]] == Succ(ring, i) && Found(i, ptr, Place(ring, ptr))
    {
      NotInRing(ptr);
      PlaceUnique(ring, ptr, i);
      assert next[..][ring[i]] == Succ(ring, i);
    }

    /** Between the two halves of `free_buff`: the block is in the ring, but not yet linked from the one before it. */
    ghost predicate Between(j: nat)
      reads this, next, size
    {
      && next.Length == n && size.Length == n && next != size
      && pool.n == n && Tiled(pool)
      && size[0] == 0 && (forall a | a in pool.size :: a < n && size[a] == pool.size[a])
      && Ring(ring, pool.free) && j + 1 < |ring| && LinkedBut(next[..], ring, j)
      && OpenBelow(pool, ring[j + 1])
    }

    /** The first half, when the block that follows is free: the two become one. */
    method JoinAbove(wrk: nat, ptr: nat, ghost j: nat)
      requires Valid() && ptr in Taken(pool) && |ring| > 0 && ring[0] < ptr && j == Place(ring, ptr) && wrk == ring[j]
      requires ptr + pool.size[ptr] in pool.free
      modifies this, next, size
      ensures Between(j) && j + 1 < |ring| && ring[j] == wrk && ring[j + 1] == ptr
      ensures pool == Join(Release(old(pool), ptr), ptr)
    {
      hide Inv, Ring, Linked, LinkedBut, OpenBelow, Tiled;
      ghost var e := ptr + pool.size[ptr];
      AboutPlace(ptr, j);
      JoinUpper(pool, ptr);
      ReplaceRing(ring, pool.free, j, ptr);
      ReplaceLinked(next[..], ring, j, ptr);
      JoinMerges(Release(pool, ptr), ptr);
      size[ptr] := size[ptr] + size[next[wrk]];
      next[ptr] := next[next[wrk]];
      ring := ring[j + 1 := ptr];
      pool := Join(Release(pool, ptr), ptr);
    }

    /** The first half, when it is not. */
    method EnterRing(wrk: nat, ptr: nat, ghost j: nat)
      requires Valid() && ptr in Taken(pool) && |ring| > 0 && ring[0] < ptr && j == Place(ring, ptr) && wrk == ring[j]
      requires ptr + pool.size[ptr] !in pool.free
      modifies this, next
      ensures Between(j) && j + 1 < |ring| && ring[j] == wrk && ring[j + 1] == ptr
      ensures pool == Join(Release(old(pool), ptr), ptr)
    {
      hide Inv, Ring, Linked, LinkedBut, OpenBelow, Tiled;
      AboutPlace(ptr, j);
      JoinUpper(pool, ptr);
      AddRing(ring, pool.free, j + 1, ptr);
      AddLinked(next[..], ring, j, ptr);
      next[ptr] := next[wrk];
      ring := Add(ring, j + 1, ptr);
      pool := Join(Release(pool, ptr), ptr);
    }

    lemma AboutPlace(ptr: nat, j: nat)
      requires Valid() && ptr in Taken(pool) && |ring| > 0 && ring[0] < ptr && j == Place(ring, ptr)
      ensures ptr !in ring && 0 < ptr < n && ring[j] < ptr && (j + 1 < |ring| ==> ptr < ring[j + 1]) && ring[j] < n
      ensures next[ring[j]] == Succ(ring, j) && LinkedBut(next[..], ring, j)
      ensures size[ptr] == pool.size[ptr] && pool.free <= pool.size.Keys
      ensures ptr + pool.size[ptr] in pool.free <==> ptr + pool.size[ptr] == Succ(ring, j)
      ensures ptr + pool.size[ptr] in pool.free ==> j + 1 < |ring| && ring[j + 1] == ptr + pool.size[ptr] < n
      ensures Tiled(Release(pool, ptr))
    {
      hide Inv, Ring, Ascending, Linked, LinkedBut, Tiled, Coalesced, Place;
      NotInRing(ptr);
      UpperIs(ring, pool, ptr, j);
      PlaceUnique(ring, ptr, j);
      Bounds(pool, ptr);
      ReleaseTiled(pool, ptr);
      LinkAt(next[..], ring, j);
      if ptr + pool.size[ptr] in pool.free {
        Bounds(pool, ptr + pool.size[ptr]);
      }
    }

    /** The second half, when a free block ends where the block starts: the two become one. */
    method JoinBelow(wrk: nat, ptr: nat, ghost j: nat)
      requires Between(j) && ring[j] == wrk && ring[j + 1] == ptr && wrk in pool.free && wrk + pool.size[wrk] == ptr
      modifies this, next, size
      ensures Valid() && allocptr == wrk && pool == Join(old(pool), wrk)
    {
      hide Inv, Ring, Linked, LinkedBut, OpenBelow, Tiled, RemoveAt;
      AboutBetween(wrk, ptr, j);
      JoinLower(pool, wrk, ptr);
      JoinMerges(pool, wrk);
      DropRing(ring, pool.free, j + 1);
      DropLinked(next[..], ring, j);
      DropIn(ring, j + 1, wrk);
      size[wrk] := size[wrk] + size[ptr];
      next[wrk] := next[ptr];
      ring := RemoveAt(ring, j + 1);
      pool := Join(pool, wrk);
      allocptr := wrk;
    }

    lemma AboutBetween(wrk: nat, ptr: nat, j: nat)
      requires Between(j) && ring[j] == wrk && ring[j + 1] == ptr
      ensures Ascending(ring) && wrk < ptr < n && wrk in ring && ptr in pool.free && ptr in pool.size && pool.free <= pool.size.Keys
      ensures next.Length == n && size.Length == n && LinkedBut(next[..], ring, j)
      ensures size[wrk] == if wrk in pool.free then pool.size[wrk] else 0
      ensures wrk > 0 <==> wrk in pool.free
      ensures Below(pool, ptr) == if wrk in pool.free && wrk + pool.size[wrk] == ptr then Some(wrk) else None
    {
      LowerIs(ring, pool, j);
      assert ring[j] in ring && ring[j + 1] in ring;
    }

    /** The second half, when none does. */
    method LinkBelow(wrk: nat, ptr: nat, ghost j: nat)
      requires Between(j) && ring[j] == wrk && ring[j + 1] == ptr && Below(pool, ptr) == None
      modifies this, next
      ensures Valid() && allocptr == wrk && pool == old(pool)
    {
      hide Inv, Ring, Linked, LinkedBut, OpenBelow, Tiled;
      AboutBetween(wrk, ptr, j);
      NoneBelow(pool, ptr);
      CloseLink(next[..], ring, j);
      next[wrk] := ptr;
      allocptr := wrk;
    }

    lemma Shape()
      requires Valid()
      ensures next.Length == n && size.Length == n && Inv(pool) && Tiled(pool)
    {
    }

    /** `free_buff`: the block behind whose header `blk` starts goes back to the pool. */
    method Free(blk: nat)
      requires Valid() && blk > 0 && blk - 1 in Taken(pool)
      modifies this, next, size
      ensures Valid()
      ensures Enabled(old(pool), Return(blk - 1)) && pool == Apply(old(pool), Return(blk - 1))
    {
      hide Valid, Between, Place, Inv, Tiled, Ring;
      var ptr := blk - 1;
      Shape();
      var wrk := FindPlace(ptr);
      ghost var j := Place(ring, ptr);
      AboutPlace(ptr, j);
      if ptr + size[ptr] == next[wrk] {
        JoinAbove(wrk, ptr, j);
      } else {
        EnterRing(wrk, ptr, j);
      }
      AboutBetween(wrk, ptr, j);
      if wrk + size[wrk] == ptr {
        JoinBelow(wrk, ptr, j);
      } else {
        LinkBelow(wrk, ptr, j);
      }
    }
  }

  lemma WholePool(n: nat)
    requires n >= 2
    ensures Give(Pool(n, map[1 := n - 1], {}), 1) == Fresh(n)
  {
  }

  /** Units for a request and its header. */
  function UnitsFor(bytes: nat): (units: nat)
    ensures bytes <= (units - 1) * HEADER_SIZE < bytes + HEADER_SIZE
  {
    (bytes + HEADER_SIZE - 1) / HEADER_SIZE + 1
  }
}

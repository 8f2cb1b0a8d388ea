/** The wait-for graph: chains of waiting processes, and what `deadlock` finds on them. */
module IpcGraph {
  import opened Basics
  import opened IpcModel
  import opened IpcInvariants

  /** Following `i + j` dependencies is following `i` and then `j`. */
  lemma {:induction false} WalkAdd(s: State, p: nat, i: nat, j: nat)
    requires Walk(s, p, i).Some?
    ensures Walk(s, p, i + j) == Walk(s, Walk(s, p, i).value, j)
    decreases i
  {
    if i > 0 {
      WalkAdd(s, Next(s, p).value, i - 1, j);
    }
  }

  /** A chain does not end before a point it reaches. */
  lemma {:induction false} WalkPrefix(s: State, p: nat, i: nat, k: nat)
    requires i <= k && Walk(s, p, k).Some?
    ensures Walk(s, p, i).Some? && Walk(s, p, i).value < |s.procs|
    decreases i
  {
    if i > 0 {
      WalkPrefix(s, Next(s, p).value, i - 1, k - 1);
    }
  }

  /** Every edge of `t` is an edge of `s`. */
  ghost predicate FewerEdges(s: State, t: State) {
    |s.procs| == |t.procs| && forall p | 0 <= p < |s.procs| :: Next(t, p) == None || Next(t, p) == Next(s, p)
  }

  lemma {:induction false} WalkShrinks(s: State, t: State, p: nat, k: nat)
    requires FewerEdges(s, t) && Walk(t, p, k).Some?
    ensures Walk(s, p, k) == Walk(t, p, k)
    decreases k
  {
    if k > 0 {
      WalkShrinks(s, t, Next(t, p).value, k - 1);
    }
  }

  /** Dropping dependencies keeps the graph acyclic. */
  lemma ShrinkAcyclic(s: State, t: State)
    requires Acyclic(s) && FewerEdges(s, t)
    ensures Acyclic(t)
  {
    forall p: nat, k: nat | 0 < k ensures Walk(t, p, k) != Some(p) {
      if Walk(t, p, k) == Some(p) {
        WalkShrinks(s, t, p, k);
      }
    }
  }

  /** The two states have the same dependencies, except perhaps at `c`. */
  ghost predicate SameBut(s: State, t: State, c: nat) {
    |s.procs| == |t.procs| && forall p | 0 <= p < |s.procs| && p != c :: Next(t, p) == Next(s, p)
  }

  lemma {:induction false} WalkAvoids(s: State, t: State, c: nat, p: nat, k: nat)
    requires SameBut(s, t, c)
    requires forall j: nat | j < k :: Walk(t, p, j) != Some(c)
    ensures Walk(s, p, k) == Walk(t, p, k)
    decreases k
  {
    if k > 0 && p < |s.procs| {
      assert Walk(t, p, 0) == Some(p);
      if Next(t, p).Some? {
        var q := Next(t, p).value;
        forall j: nat | j < k - 1 ensures Walk(t, q, j) != Some(c) {
          assert Walk(t, p, j + 1) == Walk(t, q, j);
        }
        WalkAvoids(s, t, c, q, k - 1);
      }
    }
  }

  /** The first point at which a chain reaches `c`. */
  lemma {:induction false} FirstVisit(s: State, p: nat, c: nat, k: nat) returns (m: nat)
    requires Walk(s, p, k) == Some(c)
    ensures m <= k && Walk(s, p, m) == Some(c)
    ensures forall j: nat | j < m :: Walk(s, p, j) != Some(c)
  {
    m := 0;
    while Walk(s, p, m) != Some(c)
      invariant m <= k
      invariant forall j: nat | j < m :: Walk(s, p, j) != Some(c)
      decreases k - m
    {
      m := m + 1;
    }
  }

  /** Adding a dependency from `c` on `d` closes a cycle only if `d` already waits for `c`. */
  lemma GrowAcyclic(s: State, t: State, c: nat, d: nat)
    requires Acyclic(s) && SameBut(s, t, c)
    requires c < |s.procs| && Next(t, c) == Some(d) && d != c
    requires forall g: nat :: !Closes(s, c, d, g)
    ensures Acyclic(t)
  {
    forall p: nat, k: nat | 0 < k ensures Walk(t, p, k) != Some(p) {
      if Walk(t, p, k) == Some(p) {
        if exists j: nat :: j < k && Walk(t, p, j) == Some(c) {
          var j: nat :| j < k && Walk(t, p, j) == Some(c);
          CycleThrough(s, t, c, d, p, j, k);
        } else {
          WalkAvoids(s, t, c, p, k);
        }
      }
    }
  }

  lemma CycleThrough(s: State, t: State, c: nat, d: nat, p: nat, j: nat, k: nat)
    requires SameBut(s, t, c) && c < |s.procs| && Next(t, c) == Some(d) && d != c
    requires j < k && Walk(t, p, j) == Some(c) && Walk(t, p, k) == Some(p)
    ensures exists g: nat :: Closes(s, c, d, g)
  {
    WalkAdd(t, p, j, k - j);
    WalkAdd(t, c, k - j, j);
    assert Walk(t, c, k) == Some(c);
    assert Walk(t, c, k) == Walk(t, d, k - 1);
    var m := FirstVisit(t, d, c, k - 1);
    WalkAvoids(s, t, c, d, m);
    forall i: nat | i < m ensures Walk(s, d, i) != Some(c) {
      WalkAvoids(s, t, c, d, i);
    }
    assert m != 0;
    assert Closes(s, c, d, m + 1);
  }

  /** The walk that `deadlock` makes does not see that a process is about to wait for itself. */
  lemma SelfCloses(s: State, c: nat)
    requires c < |s.procs|
    ensures forall g: nat :: !Closes(s, c, c, g)
  {
    assert Walk(s, c, 0) == Some(c);
  }

  /** Two different group sizes cannot both be right. */
  lemma ClosesUnique(s: State, c: nat, d: nat, g: nat, h: nat)
    requires Closes(s, c, d, g) && Closes(s, c, d, h)
    ensures g == h
  {
  }

  lemma DeadlockSizeIs(s: State, fn: Function, c: nat, d: nat, gen: nat, g: nat)
    requires d < |s.procs| && Closes(s, c, d, g)
    ensures DeadlockSize(s, fn, c, Ep(d, gen)) == if g == 2 && Exempt(s, fn, d) then 0 else g
  {
    var h: nat :| Closes(s, c, d, h) && DeadlockSize(s, fn, c, Ep(d, gen)) == if h == 2 && Exempt(s, fn, d) then 0 else h;
    ClosesUnique(s, c, d, g, h);
  }
}

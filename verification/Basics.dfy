/** Sequences without repetition, and lists threaded through a table by links. */
module Basics {

  datatype Option<+T> = None | Some(value: T)

  ghost predicate NoDup<T>(q: seq<T>) {
    forall i, j | 0 <= i < j < |q| :: q[i] != q[j]
  }

  function RemoveAt<T>(q: seq<T>, i: nat): seq<T>
    requires i < |q|
  {
    q[..i] + q[i + 1..]
  }

  /** Removes the first occurrence of `x`, if there is one. */
  function Without<T(==)>(q: seq<T>, x: T): (r: seq<T>)
    ensures |r| == if x in q then |q| - 1 else |q|
  {
    if q == [] then [] else if q[0] == x then q[1..] else [q[0]] + Without(q[1..], x)
  }

  lemma HeadIn<T>(l: seq<T>)
    ensures l == [] || l[0] in l
  {
  }

  lemma {:induction false} RemoveAtNoDup(q: seq<nat>, i: nat)
    requires NoDup(q) && i < |q|
    ensures NoDup(RemoveAt(q, i))
    ensures forall p :: p in RemoveAt(q, i) <==> p in q && p != q[i]
  {
    var r := RemoveAt(q, i);
    assert forall k | 0 <= k < |r| :: r[k] == if k < i then q[k] else q[k + 1];
    forall p ensures p in r <==> p in q && p != q[i] {
      if p in q && p != q[i] {
        var k :| 0 <= k < |q| && q[k] == p;
        assert r[if k < i then k else k - 1] == p;
      }
    }
  }

  /** The first position of `x` is where it is removed. */
  lemma {:induction false} WithoutFirst(w: seq<nat>, x: nat, i: nat)
    requires i < |w| && w[i] == x && forall j | 0 <= j < i :: w[j] != x
    ensures Without(w, x) == RemoveAt(w, i)
  {
    if i > 0 {
      WithoutFirst(w[1..], x, i - 1);
      assert RemoveAt(w, i) == [w[0]] + RemoveAt(w[1..], i - 1);
    }
  }

  /** Removing an element that is there cuts it out at its first position. */
  lemma {:induction false} WithoutCuts(q: seq<nat>, x: nat) returns (k: nat)
    requires x in q
    ensures k < |q| && q[k] == x && Without(q, x) == RemoveAt(q, k)
  {
    if q[0] == x {
      k := 0;
    } else {
      k := WithoutCuts(q[1..], x);
      k := k + 1;
    }
  }

  lemma {:induction false} WithoutSame(q: seq<nat>, x: nat)
    requires x !in q
    ensures Without(q, x) == q
  {
    if q != [] {
      WithoutSame(q[1..], x);
    }
  }

  lemma WithoutNoDup(q: seq<nat>, x: nat)
    requires NoDup(q)
    ensures NoDup(Without(q, x))
    ensures forall p :: p in Without(q, x) <==> p in q && p != x
  {
    if x in q {
      var k := WithoutCuts(q, x);
      RemoveAtNoDup(q, k);
    } else {
      WithoutSame(q, x);
    }
  }

  /** Distinct numbers below `n` are at most `n` many. */
  lemma {:induction false} Distinct(w: seq<nat>, n: nat)
    requires NoDup(w) && forall x | x in w :: x < n
    ensures |w| <= n
  {
    if n == 0 {
      HeadIn(w);
    } else if n - 1 in w {
      var k :| 0 <= k < |w| && w[k] == n - 1;
      RemoveAtNoDup(w, k);
      Distinct(RemoveAt(w, k), n - 1);
    } else {
      Distinct(w, n - 1);
    }
  }

  // ------------------------------------------------------------ linked lists

  type Link = Option<nat>

  /** The element at `i`, if there is one. */
  function At(w: seq<nat>, i: nat): Link {
    if i < |w| then Some(w[i]) else None
  }

  /** The list from `head` along `links` is `w`. */
  ghost predicate Chain(head: Link, links: seq<Link>, w: seq<nat>) {
    && head == At(w, 0)
    && forall i: nat | i < |w| :: w[i] < |links| && links[w[i]] == At(w, i + 1)
  }

  lemma ChainAppend(head: Link, links: seq<Link>, w: seq<nat>, c: nat)
    requires Chain(head, links, w) && NoDup(w) && c !in w && c < |links|
    ensures
      if w == [] then Chain(Some(c), links[c := None], [c])
      else Chain(head, links[w[|w| - 1] := Some(c)][c := None], w + [c])
  {
    if w != [] {
      var v, l := w + [c], links[w[|w| - 1] := Some(c)][c := None];
      forall i: nat | i < |v| ensures v[i] < |l| && l[v[i]] == At(v, i + 1) {
        assert i < |w| ==> w[i] in w;
      }
    }
  }

  lemma ChainPush(head: Link, links: seq<Link>, w: seq<nat>, c: nat)
    requires Chain(head, links, w) && c !in w && c < |links|
    ensures Chain(Some(c), links[c := head], [c] + w)
  {
    var v, l := [c] + w, links[c := head];
    forall i: nat | i < |v| ensures v[i] < |l| && l[v[i]] == At(v, i + 1) {
      if i > 0 {
        assert w[i - 1] in w;
      }
    }
  }

  lemma ChainRemove(head: Link, links: seq<Link>, w: seq<nat>, i: nat)
    requires Chain(head, links, w) && NoDup(w) && i < |w|
    ensures
      if i == 0 then Chain(links[w[0]], links, RemoveAt(w, 0))
      else Chain(head, links[w[i - 1] := links[w[i]]], RemoveAt(w, i))
  {
    var v := RemoveAt(w, i);
    var l := if i == 0 then links else links[w[i - 1] := links[w[i]]];
    forall k: nat | k < |v| ensures v[k] < |l| && l[v[k]] == At(v, k + 1) {
      var k' := if k < i then k else k + 1;
      assert v[k] == w[k'] && (k + 1 < |v| ==> v[k + 1] == w[if k + 1 < i then k + 1 else k + 2]);
    }
  }

  /** Links outside the list do not matter. */
  lemma ChainFrame(head: Link, links: seq<Link>, links': seq<Link>, w: seq<nat>)
    requires Chain(head, links, w) && |links| == |links'|
    requires forall x | x in w :: x < |links| && links'[x] == links[x]
    ensures Chain(head, links', w)
  {
    forall i: nat | i < |w| ensures w[i] < |links'| && links'[w[i]] == At(w, i + 1) {
      assert w[i] in w;
    }
  }

  /** No element stands in two lists, nor twice in one. */
  ghost predicate Separate(queues: seq<seq<nat>>) {
    && (forall q | 0 <= q < |queues| :: NoDup(queues[q]))
    && forall q, r, x | 0 <= q < |queues| && 0 <= r < |queues| && x in queues[q] && x in queues[r] :: q == r
  }

  function Min(a: nat, b: nat): nat {
    if a < b then a else b
  }

  lemma MulStep(a: int, b: int, c: int)
    requires a < b && 0 <= c
    ensures a * c + c <= b * c
  {
    var d := b - a - 1;
    assert b * c == (a + 1 + d) * c == a * c + c + d * c;
    assert d * c >= 0;
  }
}

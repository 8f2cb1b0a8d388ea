/** Each elementary update of the process table keeps the core invariant. */
module IpcPreserve {
  import opened Basics
  import opened IpcModel
  import opened IpcInvariants
  import opened IpcGraph

  /** `x` and `y` wait in the same way and live under the same endpoint. */
  predicate SameWait(x: Proc, y: Proc) {
    && x.gen == y.gen && x.life == y.life
    && x.sending == y.sending && x.sendTo == y.sendTo
    && x.receiving == y.receiving && x.getFrom == y.getFrom
  }

  ghost predicate SameCore(s: State, t: State) {
    && |s.procs| == |t.procs| && s.queues == t.queues
    && forall p | 0 <= p < |s.procs| :: SameWait(s.procs[p], t.procs[p])
  }

  /** Fields outside the wait state do not matter. */
  lemma FrameCore(s: State, t: State)
    requires Core(s) && SameCore(s, t)
    ensures Core(t)
  {
    assert forall p: nat, q: nat :: SendsTo(t, p, q) <==> SendsTo(s, p, q);
    forall q | 0 <= q < |t.queues| ensures Exact(t, q) {
      assert Exact(s, q);
    }
    forall p | 0 <= p < |t.procs| ensures WaitsOk(t, p) {
      assert WaitsOk(s, p);
    }
    assert FewerEdges(s, t) by {
      forall p | 0 <= p < |s.procs| ensures Next(t, p) == Next(s, p) {
        assert SameWait(s.procs[p], t.procs[p]);
      }
    }
    ShrinkAcyclic(s, t);
    forall p: nat, q: nat | q < |t.procs| && SendsTo(t, p, q) ensures !WillReceive(t.procs[q], EpOf(t, p)) {
      assert SendsTo(s, p, q);
      assert SameWait(s.procs[p], t.procs[p]) && SameWait(s.procs[q], t.procs[q]);
    }
    assert Coupled(t) by {
      forall p | 0 <= p < |t.procs| && t.procs[p].sending && t.procs[p].receiving ensures t.procs[p].getFrom == t.procs[p].sendTo {
        assert SameWait(s.procs[p], t.procs[p]);
      }
    }
  }

  /** Waking a receiver that is not also sending. */
  lemma WakeCore(s: State, q: nat, m: Inbox)
    requires Core(s) && q < |s.procs| && !s.procs[q].sending
    ensures Core(Wake(s, q, m))
  {
    var t := Wake(s, q, m);
    assert forall p: nat, r: nat :: SendsTo(t, p, r) <==> SendsTo(s, p, r);
    forall r | 0 <= r < |t.queues| ensures Exact(t, r) {
      assert Exact(s, r);
    }
    forall p | 0 <= p < |t.procs| ensures WaitsOk(t, p) {
      assert WaitsOk(s, p);
    }
    assert FewerEdges(s, t);
    ShrinkAcyclic(s, t);
  }

  /** The two-process exemption does not apply to a send that is about to sleep. */
  lemma NoExemptSend(s: State, c: nat, d: nat)
    requires Core(s) && c < |s.procs| && d < |s.procs|
    requires Closes(s, c, d, 2) && Exempt(s, FnSend, d)
    ensures WillReceive(s.procs[d], EpOf(s, c))
  {
    assert Walk(s, d, 1) == Some(c);
    assert Walk(s, d, 1) == Walk(s, Next(s, d).value, 0);
    assert WaitsOk(s, d);
  }

  lemma TwoStep(s: State, c: nat, d: nat)
    requires c < |s.procs|
    ensures Next(s, c) == Some(d) ==> Walk(s, c, 2) == Walk(s, d, 1)
  {
  }

  /** Nor to a receive: the sender it would exempt is on the queue, or a cycle is already there. */
  lemma NoExemptReceive(s: State, c: nat, d: nat)
    requires Core(s) && c < |s.procs| && d < |s.procs|
    requires Closes(s, c, d, 2) && Exempt(s, FnReceive, d)
    ensures d in s.queues[c]
    ensures Next(s, c) != Some(d)
  {
    assert Walk(s, d, 1) == Some(c);
    assert Walk(s, d, 1) == Walk(s, Next(s, d).value, 0);
    assert WaitsOk(s, d) && Exact(s, c);
    assert SendsTo(s, d, c);
    TwoStep(s, c, d);
  }

  lemma ZeroMeansOpen(s: State, fn: Function, c: nat, d: Endpoint)
    requires d.Ep? && d.slot < |s.procs| && DeadlockSize(s, fn, c, d) == 0
    requires !(Closes(s, c, d.slot, 2) && Exempt(s, fn, d.slot))
    ensures forall g: nat :: !Closes(s, c, d.slot, g)
  {
    forall g: nat ensures !Closes(s, c, d.slot, g) {
      if Closes(s, c, d.slot, g) {
        DeadlockSizeIs(s, fn, c, d.slot, d.gen, g);
      }
    }
  }

  lemma BlockSendCore(s: State, c: nat, d: Endpoint, body: Body)
    requires Core(s) && c < |s.procs| && s.procs[c].life == Live
    requires !s.procs[c].sending && !s.procs[c].receiving
    requires IsTarget(s, c, d) && !WillReceive(s.procs[d.slot], EpOf(s, c))
    requires DeadlockSize(s, FnSend, c, d) == 0
    ensures Core(BlockSend(s, c, d, body))
  {
    var t := BlockSend(s, c, d, body);
    if Closes(s, c, d.slot, 2) && Exempt(s, FnSend, d.slot) {
      NoExemptSend(s, c, d.slot);
    }
    ZeroMeansOpen(s, FnSend, c, d);
    assert SameBut(s, t, c);
    GrowAcyclic(s, t, c, d.slot);
    assert forall p: nat, q: nat :: SendsTo(t, p, q) <==> SendsTo(s, p, q) || (p == c && q == d.slot);
    forall q | 0 <= q < |t.queues| ensures Exact(t, q) {
      assert Exact(s, q);
      if q == d.slot {
        assert c !in s.queues[q];
      }
    }
    forall p | 0 <= p < |t.procs| ensures WaitsOk(t, p) {
      assert WaitsOk(s, p);
    }
  }

  lemma BlockReceiveCore(s: State, c: nat, src: Endpoint)
    requires Core(s) && c < |s.procs| && s.procs[c].life == Live && !s.procs[c].receiving
    requires src == Any || IsTarget(s, c, src)
    requires s.procs[c].sending ==> s.procs[c].sendTo == src
    requires !s.procs[c].sending ==> forall p | p in s.queues[c] :: src != Any && src.slot != p
    requires DeadlockSize(s, FnReceive, c, src) == 0
    ensures Core(BlockReceive(s, c, src))
  {
    var t := BlockReceive(s, c, src);
    assert forall p: nat, q: nat :: SendsTo(t, p, q) <==> SendsTo(s, p, q);
    forall q | 0 <= q < |t.queues| ensures Exact(t, q) {
      assert Exact(s, q);
    }
    forall p | 0 <= p < |t.procs| ensures WaitsOk(t, p) {
      assert WaitsOk(s, p);
    }
    assert SameBut(s, t, c);
    if src == Any || s.procs[c].sending {
      assert FewerEdges(s, t);
      ShrinkAcyclic(s, t);
    } else {
      if Closes(s, c, src.slot, 2) && Exempt(s, FnReceive, src.slot) {
        NoExemptReceive(s, c, src.slot);
      }
      ZeroMeansOpen(s, FnReceive, c, src);
      GrowAcyclic(s, t, c, src.slot);
    }
    forall p: nat, q: nat | q < |t.procs| && SendsTo(t, p, q) ensures !WillReceive(t.procs[q], EpOf(t, p)) {
      assert SendsTo(s, p, q);
      if q == c {
        assert Exact(s, c);
        assert p in s.queues[c];
      }
    }
  }

  /** Taking a sleeper off one's own queue, while awake oneself. */
  lemma TakeCallerCore(s: State, c: nat, i: nat)
    requires Core(s) && c < |s.procs| && !s.procs[c].sending && !s.procs[c].receiving
    requires i < |s.queues[c]|
    ensures s.queues[c][i] < |s.procs| && s.queues[c][i] != c
    ensures Core(TakeCaller(s, c, i))
  {
    var p := s.queues[c][i];
    assert Exact(s, c) && p in s.queues[c] && SendsTo(s, p, c);
    assert WaitsOk(s, p);
    var t := TakeCaller(s, c, i);
    RemoveAtNoDup(s.queues[c], i);
    assert forall x: nat, q: nat :: SendsTo(t, x, q) <==> SendsTo(s, x, q) && x != p;
    forall q | 0 <= q < |t.queues| ensures Exact(t, q) {
      assert Exact(s, q);
    }
    forall x | 0 <= x < |t.procs| ensures WaitsOk(t, x) {
      assert WaitsOk(s, x);
    }
    assert FewerEdges(s, t);
    ShrinkAcyclic(s, t);
    forall x: nat, q: nat | q < |t.procs| && SendsTo(t, x, q) ensures !WillReceive(t.procs[q], EpOf(t, x)) {
      assert SendsTo(s, x, q);
      if q == p && t.procs[p].receiving {
        // the sleeper now waits for the very process that serves it, and that one is awake
        assert t.procs[p].getFrom == EpOf(s, c);
        assert x != c;
      }
    }
  }

  /** Nobody is left waiting for a cleared endpoint, nor is its owner left waiting. */
  ghost predicate Forgotten(s: State, rc: nat)
    requires Shaped(s) && rc < |s.procs|
  {
    && !s.procs[rc].sending && !s.procs[rc].receiving && s.queues[rc] == []
    && forall p | 0 <= p < |s.procs| && s.procs[p].life == Live ::
      && (s.procs[p].sending ==> s.procs[p].sendTo.Ep? && s.procs[p].sendTo.slot != rc)
      && (s.procs[p].receiving ==> s.procs[p].getFrom == Any || s.procs[p].getFrom.slot != rc)
      && rc !in s.procs[p].pending
  }

  lemma ClearSends(s: State, rc: nat, p: nat, q: nat)
    requires Core(s) && rc < |s.procs| && s.procs[rc].life != Free
    ensures SendsTo(ClearEndpoint(s, rc), p, q) <==> SendsTo(s, p, q) && p != rc && q != rc
  {
    if p < |s.procs| {
      assert WaitsOk(s, p);
    }
  }

  lemma ClearQueues(s: State, rc: nat)
    requires Core(s) && rc < |s.procs| && s.procs[rc].life != Free
    ensures Queues(ClearEndpoint(s, rc))
  {
    var t := ClearEndpoint(s, rc);
    var x := s.procs[rc];
    assert WaitsOk(s, rc);
    forall q | 0 <= q < |t.queues| ensures Exact(t, q) {
      assert Exact(s, q);
      if x.sending && q == x.sendTo.slot {
        WithoutNoDup(s.queues[q], rc);
      }
      assert forall p: nat :: p in t.queues[q] <==> p in s.queues[q] && p != rc && q != rc;
      forall p: nat ensures p in t.queues[q] <==> SendsTo(t, p, q) {
        ClearSends(s, rc, p, q);
      }
    }
  }

  /** What the sweep leaves of the wait state of each process. */
  lemma ClearAt(s: State, rc: nat, p: nat)
    requires Core(s) && rc < |s.procs| && s.procs[rc].life != Free && p < |s.procs|
    ensures WaitsOk(ClearEndpoint(s, rc), p)
    ensures var t := ClearEndpoint(s, rc);
      && (Next(t, p) == None || Next(t, p) == Next(s, p))
      && (t.procs[p].sending && t.procs[p].receiving ==> t.procs[p].getFrom == t.procs[p].sendTo)
      && (t.procs[p].receiving && !t.procs[p].sending ==>
            s.procs[p].receiving && !s.procs[p].sending && t.procs[p].getFrom == s.procs[p].getFrom)
  {
    assert WaitsOk(s, p);
  }

  lemma ClearCore(s: State, rc: nat)
    requires Core(s) && rc < |s.procs| && s.procs[rc].life != Free
    ensures Core(ClearEndpoint(s, rc))
  {
    var t := ClearEndpoint(s, rc);
    forall p | 0 <= p < |t.procs|
      ensures WaitsOk(t, p)
      ensures Next(t, p) == None || Next(t, p) == Next(s, p)
      ensures t.procs[p].sending && t.procs[p].receiving ==> t.procs[p].getFrom == t.procs[p].sendTo
    {
      ClearAt(s, rc, p);
    }
    ClearQueues(s, rc);
    ShrinkAcyclic(s, t);
    forall p: nat, q: nat | q < |t.procs| && SendsTo(t, p, q) ensures !WillReceive(t.procs[q], EpOf(t, p)) {
      ClearSends(s, rc, p, q);
      ClearAt(s, rc, q);
    }
  }

  lemma ClearForgets(s: State, rc: nat)
    requires Core(s) && rc < |s.procs| && s.procs[rc].life != Free
    ensures Forgotten(ClearEndpoint(s, rc), rc)
  {
    hide CallOffs;
    var t := ClearEndpoint(s, rc);
    forall p | 0 <= p < |t.procs| && t.procs[p].life == Live
      ensures t.procs[p].sending ==> t.procs[p].sendTo.Ep? && t.procs[p].sendTo.slot != rc
      ensures t.procs[p].receiving ==> t.procs[p].getFrom == Any || t.procs[p].getFrom.slot != rc
      ensures rc !in t.procs[p].pending
    {
      assert WaitsOk(s, p);
    }
  }

  /** A slot nobody lives in can change between dead and free. */
  lemma FreeCore(s: State, rc: nat)
    requires Core(s) && rc < |s.procs| && s.procs[rc].life != Live
    ensures Core(FreeSlot(s, rc))
  {
    var t := FreeSlot(s, rc);
    assert WaitsOk(s, rc);
    assert forall p: nat, q: nat :: SendsTo(t, p, q) <==> SendsTo(s, p, q);
    forall q | 0 <= q < |t.queues| ensures Exact(t, q) {
      assert Exact(s, q);
    }
    forall p | 0 <= p < |t.procs| ensures WaitsOk(t, p) {
      assert WaitsOk(s, p);
    }
    assert FewerEdges(s, t);
    ShrinkAcyclic(s, t);
  }

  lemma {:induction false} NoWayIn(s: State, p: nat, c: nat, k: nat)
    requires forall x | 0 <= x < |s.procs| :: Next(s, x) != Some(c)
    requires 0 < k
    ensures Walk(s, p, k) != Some(c)
    decreases k
  {
    if 1 < k && p < |s.procs| && Next(s, p).Some? {
      NoWayIn(s, Next(s, p).value, c, k - 1);
    }
  }

  /** A fork keeps the invariant exactly when the parent is not sending and nobody queues on it. */
  lemma ForkCore(s: State, parent: nat, child: nat, held: bool)
    requires Core(s) && parent < |s.procs| && child < |s.procs|
    requires Fork(s, parent, child, held).status == Ok
    ensures Core(Fork(s, parent, child, held).state)
        <==> !s.procs[parent].sending && s.queues[parent] == []
  {
    var t := Fork(s, parent, child, held).state;
    var x := s.procs[parent];
    assert WaitsOk(s, parent) && WaitsOk(s, child);
    if x.sending {
      var d := x.sendTo.slot;
      assert SendsTo(t, child, d) && !SendsTo(s, child, d);
      assert Exact(s, d) && t.queues[d] == s.queues[d];
      assert !Exact(t, d);
    } else if s.queues[parent] != [] {
      var p := s.queues[parent][0];
      assert Exact(s, parent) && p in s.queues[parent] && SendsTo(s, p, parent);
      assert p in t.queues[child] && !SendsTo(t, p, child);
      assert !Exact(t, child);
    } else {
      ForkKeeps(s, parent, child, held);
    }
  }

  lemma ForkKeeps(s: State, parent: nat, child: nat, held: bool)
    requires Core(s) && parent < |s.procs| && child < |s.procs|
    requires Fork(s, parent, child, held).status == Ok
    requires !s.procs[parent].sending && s.queues[parent] == []
    ensures Core(Fork(s, parent, child, held).state)
  {
    var t := Fork(s, parent, child, held).state;
    assert WaitsOk(s, parent) && WaitsOk(s, child);
    assert forall p: nat, q: nat :: SendsTo(t, p, q) <==> SendsTo(s, p, q);
    forall p: nat ensures !SendsTo(s, p, child) {
      if p < |s.procs| {
        assert WaitsOk(s, p);
      }
    }
    forall q | 0 <= q < |t.queues| ensures Exact(t, q) {
      assert Exact(s, q);
    }
    forall p | 0 <= p < |t.procs| ensures WaitsOk(t, p) {
      assert WaitsOk(s, p);
    }
    assert SameBut(s, t, child);
    var e := s.procs[parent].getFrom;
    if e == Any {
      assert FewerEdges(s, t);
      ShrinkAcyclic(s, t);
    } else {
      forall x | 0 <= x < |s.procs| ensures Next(s, x) != Some(child) {
        assert WaitsOk(s, x);
      }
      forall g: nat ensures !Closes(s, child, e.slot, g) {
        if g >= 2 {
          NoWayIn(s, e.slot, child, g - 1);
        }
      }
      GrowAcyclic(s, t, child, e.slot);
    }
  }
}

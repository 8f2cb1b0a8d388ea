/** What the protocol promises its users, in every state of every run. */
module IpcTheorems {
  import opened Basics
  import opened IpcModel
  import opened IpcInvariants
  import opened IpcGraph
  import opened IpcPreserve
  import opened IpcSteps

  /** In no run does a chain of waiting processes close, whatever `deadlock` exempts. */
  lemma RunNeverDeadlocks(states: seq<State>, steps: seq<Step>, i: nat, p: nat, k: nat)
    requires IsRun(states, steps) && i < |states| && 0 < k
    ensures Walk(states[i], p, k) != Some(p)
  {
    RunInv(states, steps, i);
  }

  /** `p` is asleep until `q` receives its message, or until `q` sends one. */
  predicate WaitsFor(s: State, p: nat, q: nat) {
    && p < |s.procs|
    && var x := s.procs[p];
      (x.sending && x.sendTo.Ep? && x.sendTo.slot == q) || (x.receiving && x.getFrom.Ep? && x.getFrom.slot == q)
  }

  lemma WaitsIsNext(s: State, p: nat, q: nat)
    requires Inv(s)
    ensures WaitsFor(s, p, q) <==> p < |s.procs| && Next(s, p) == Some(q)
  {
    if p < |s.procs| {
      assert WaitsOk(s, p);
    }
  }

  /** `path` is a chain of processes each of which waits for the next. */
  predicate IsChain(s: State, path: seq<nat>) {
    forall j | 0 <= j < |path| - 1 :: WaitsFor(s, path[j], path[j + 1])
  }

  lemma {:induction false} ChainWalks(s: State, path: seq<nat>)
    requires Inv(s) && path != [] && IsChain(s, path) && path[|path| - 1] < |s.procs|
    ensures Walk(s, path[0], |path| - 1) == Some(path[|path| - 1])
  {
    if |path| > 1 {
      WaitsIsNext(s, path[0], path[1]);
      assert WaitsFor(s, path[0], path[1]);
      forall j | 0 <= j < |path[1..]| - 1 ensures WaitsFor(s, path[1..][j], path[1..][j + 1]) {
        assert WaitsFor(s, path[j + 1], path[j + 2]);
      }
      ChainWalks(s, path[1..]);
    }
  }

  /** In no run is there a circle of processes each of which waits for the next. */
  lemma RunNoCircle(states: seq<State>, steps: seq<Step>, i: nat, path: seq<nat>)
    requires IsRun(states, steps) && i < |states| && |path| > 1 && path[0] == path[|path| - 1] < |states[i].procs|
    ensures !IsChain(states[i], path)
  {
    RunInv(states, steps, i);
    if IsChain(states[i], path) {
      ChainWalks(states[i], path);
    }
  }

  /** No message on offer is missed: neither by a queued sender nor by a pending notification. */
  lemma RunNeverMisses(states: seq<State>, steps: seq<Step>, i: nat, q: nat)
    requires IsRun(states, steps) && i < |states| && q < |states[i].procs|
    ensures var s := states[i];
      && |s.queues| == |s.procs|
      && (forall j | 0 <= j < |s.queues[q]| ::
            s.queues[q][j] < |s.procs| && !WillReceive(s.procs[q], EpOf(s, s.queues[q][j])))
      && (s.procs[q].receiving && s.procs[q].getFrom == Any ==> s.procs[q].pending == {})
  {
    RunInv(states, steps, i);
    var s := states[i];
    forall j | 0 <= j < |s.queues[q]|
      ensures s.queues[q][j] < |s.procs| && !WillReceive(s.procs[q], EpOf(s, s.queues[q][j]))
    {
      assert Exact(s, q) && s.queues[q][j] in s.queues[q];
      assert SendsTo(s, s.queues[q][j], q);
    }
  }

  /** Once the send half of a SENDREC has succeeded, the receive half cannot be refused. */
  lemma SendRecCompletes(s: State, c: nat, d: Endpoint, body: Body, nonblock: bool, io: Io)
    requires Inv(s) && CanCall(s, c)
    requires Screen(s, c, SendRec(d, body, nonblock)) == Ok && io.mapIn
    requires MiniSend(SetReplyPend(s, c, true), c, d, body, nonblock, io).status == Ok
    ensures TypeOk(s) && KipcCall(s, c, SendRec(d, body, nonblock), io).status == Ok
  {
    QueuesInRange(s);
    ReplyPendInv(s, c, true);
    var s1 := SetReplyPend(s, c, true);
    assert PendingOk(s, c);
    SendThenReceive(s1, c, d, body, nonblock, io);
    var t := MiniSend(s1, c, d, body, nonblock, io).state;
    QueuesInRange(t);
    if t.procs[c].sending {
      OnEdge(t, c, d.slot);
    } else {
      assert WaitsOk(s1, d.slot);
      ReceiveHalf(t, c, d, io);
    }
  }

  lemma WalkStep(t: State, c: nat, d: nat, g: nat)
    requires c < |t.procs| && Next(t, c) == Some(d) && g > 0
    ensures Walk(t, c, g) == Walk(t, d, g - 1)
  {
  }

  /** A dependency that is already there closes no further cycle. */
  lemma OnEdge(t: State, c: nat, d: nat)
    requires Acyclic(t) && c < |t.procs| && Next(t, c) == Some(d)
    ensures forall g: nat :: !Closes(t, c, d, g)
  {
    forall g: nat ensures !Closes(t, c, d, g) {
      if g >= 2 {
        WalkStep(t, c, d, g);
      }
    }
  }

  /** The peer has just been woken, so the caller cannot close a cycle on it. */
  lemma ReceiveHalf(t: State, c: nat, d: Endpoint, io: Io)
    requires Inv(t) && MayReceive(t, c, d) && d.Ep? && !t.procs[c].sending && io.mapIn
    requires forall p | p in t.queues[c] :: p < |t.procs|
    requires t.procs[d.slot].life == Live && !t.procs[d.slot].sending && !t.procs[d.slot].receiving
    ensures MiniReceive(t, c, d, false, io).status == Ok
  {
    TryOneFrame(t, d.slot, c);
    var u := TryOne(t, d.slot, c).outcome.state;
    assert SameWait(t.procs[d.slot], u.procs[d.slot]);
    assert Next(t, d.slot) == None && Next(u, d.slot) == None;
    forall v, g: nat | v in {t, u} ensures !Closes(v, c, d.slot, g) {
      if g >= 2 {
        assert Walk(v, d.slot, g - 1) == None;
      }
    }
  }

  /** A send goes to sleep exactly when that closes no cycle, and otherwise the cycle's length is reported. */
  lemma SendDeadlockExact(s: State, c: nat, d: Endpoint, body: Body)
    requires Inv(s) && CanCall(s, c) && IsTarget(s, c, d) && !WillReceive(s.procs[d.slot], EpOf(s, c))
    ensures DeadlockSize(s, FnSend, c, d) == 0 <==> Acyclic(BlockSend(s, c, d, body))
    ensures forall g: nat | g > 0 :: DeadlockSize(s, FnSend, c, d) == g <==> Closes(s, c, d.slot, g)
  {
    if Closes(s, c, d.slot, 2) && Exempt(s, FnSend, d.slot) {
      NoExemptSend(s, c, d.slot);
    }
    ExactSize(s, FnSend, c, d);
    BlockedCycle(s, BlockSend(s, c, d, body), c, d.slot);
  }

  /** The same for a receive from one source that finds nothing queued. */
  lemma ReceiveDeadlockExact(s: State, c: nat, src: Endpoint)
    requires Inv(s) && CanCall(s, c) && IsTarget(s, c, src) && src.slot !in s.queues[c]
    ensures DeadlockSize(s, FnReceive, c, src) == 0 <==> Acyclic(BlockReceive(s, c, src))
    ensures forall g: nat | g > 0 :: DeadlockSize(s, FnReceive, c, src) == g <==> Closes(s, c, src.slot, g)
  {
    if Closes(s, c, src.slot, 2) && Exempt(s, FnReceive, src.slot) {
      NoExemptReceive(s, c, src.slot);
    }
    ExactSize(s, FnReceive, c, src);
    BlockedCycle(s, BlockReceive(s, c, src), c, src.slot);
  }

  lemma ExactSize(s: State, fn: Function, c: nat, d: Endpoint)
    requires d.Ep? && d.slot < |s.procs|
    requires !(Closes(s, c, d.slot, 2) && Exempt(s, fn, d.slot))
    ensures DeadlockSize(s, fn, c, d) == 0 <==> forall g: nat :: !Closes(s, c, d.slot, g)
    ensures forall g: nat | g > 0 :: DeadlockSize(s, fn, c, d) == g <==> Closes(s, c, d.slot, g)
  {
    forall g: nat | Closes(s, c, d.slot, g) ensures DeadlockSize(s, fn, c, d) == g {
      DeadlockSizeIs(s, fn, c, d.slot, d.gen, g);
    }
  }

  /** With the new dependency in place, a chain from `d` to `c` is a cycle. */
  lemma BlockedCycle(s: State, t: State, c: nat, d: nat)
    requires Acyclic(s) && SameBut(s, t, c) && c < |s.procs| && Next(t, c) == Some(d) && d != c
    ensures Acyclic(t) <==> forall g: nat :: !Closes(s, c, d, g)
  {
    if g: nat :| Closes(s, c, d, g) {
      var m := g - 1;
      forall j: nat | j < m ensures Walk(t, d, j) != Some(c) {
        WalkAvoids(t, s, c, d, j);
      }
      WalkAvoids(t, s, c, d, m);
      assert Walk(t, c, g) == Walk(t, d, m);
    } else {
      GrowAcyclic(s, t, c, d);
    }
  }

  /**
   A kernel call keeps the invariant exactly when it is no receive that names its own caller and goes to sleep. Such a
   receive is not refused, and the caller waits for itself.
   */
  lemma SelfReceive(s: State, c: nat, call: Call, io: Io)
    requires Inv(s) && CanCall(s, c)
    ensures TypeOk(s) && (Inv(KipcCall(s, c, call, io).state) <==> !SelfSleeps(s, c, call, io))
    ensures SelfSleeps(s, c, call, io) ==>
      KipcCall(s, c, call, io) == Outcome(BlockReceive(SetReplyPend(s, c, false), c, EpOf(s, c)), Ok)
  {
    QueuesInRange(s);
    if SelfSleeps(s, c, call, io) {
      var s1 := SetReplyPend(s, c, false);
      assert KipcCall(s, c, call, io) == MiniReceive(s1, c, EpOf(s, c), false, io);
      assert Exact(s, c) && PendingOk(s, c) && !SendsTo(s, c, c);
      SelfSleep(s1, c, EpOf(s, c), io);
      var t := BlockReceive(s1, c, EpOf(s, c));
      assert Next(t, c) == Some(c);
      assert Walk(t, c, 1) == Walk(t, c, 0);
    } else {
      CallInv(s, c, call, io);
    }
  }

  lemma SelfSleep(s: State, c: nat, src: Endpoint, io: Io)
    requires Shaped(s) && c < |s.procs| && src == EpOf(s, c) && s.procs[c].life == Live && !s.procs[c].sending
    requires c !in s.procs[c].ipcTo && c !in s.queues[c] && PendingOk(s, c) && !Lowest(s.procs[c].pending, c)
    requires forall p | p in s.queues[c] :: p < |s.procs|
    requires io.mapIn
    ensures MiniReceive(s, c, src, false, io) == Outcome(BlockReceive(s, c, src), Ok)
  {
    ScanOne(s.procs[c].pending, |s.procs|, src, 0);
    SelfCloses(s, c);
  }

  /** Such a receive exists: the only process of a system, waiting for itself. */
  lemma SelfReceiveExample()
    ensures exists s: State, io: Io ::
      Inv(s) && CanCall(s, 0) && TypeOk(s) && !Acyclic(KipcCall(s, 0, Receive(EpOf(s, 0)), io).state)
  {
    var x := Proc(0, Live, false, false, false, Any, [], false, Any, {}, Vacant, false, false, [], false, {}, {ReceiveCall});
    var s := State([x], [[]], []);
    var io := Io(true, true, true);
    StartInv(s);
    assert CanCall(s, 0) && TypeOk(s);
    SelfReceive(s, 0, Receive(EpOf(s, 0)), io);
    var t := KipcCall(s, 0, Receive(EpOf(s, 0)), io).state;
    assert Next(t, 0) == Some(0);
    assert Walk(t, 0, 1) == Walk(t, 0, 0);
  }

  /** A process that waits for nobody. */
  function Idle(life: Life): Proc {
    Proc(0, life, false, false, false, Any, [], false, Any, {}, Vacant, false, false, [], false, {}, {})
  }

  lemma NoWalk(s: State, p: nat, k: nat)
    requires p < |s.procs| && Next(s, p) == None
    ensures k > 0 ==> Walk(s, p, k) == None
  {
  }

  /**
   A fork that succeeds and leaves a queue with a process on it that does not send there: 0 waits for 2 while 1 is
   asleep sending to 0, and forks into slot 3.
   */
  lemma ForkExample()
    ensures exists s: State ::
      Core(s) && |s.procs| == 4 && Fork(s, 0, 3, false).status == Ok && !Core(Fork(s, 0, 3, false).state)
  {
    var s0 := State([Idle(Live), Idle(Live), Idle(Live), Idle(Free)], [[], [], [], []], []);
    StartInv(s0);
    forall g: nat ensures !Closes(s0, 0, 2, g) {
      if g >= 2 {
        NoWalk(s0, 2, g - 1);
      }
    }
    BlockReceiveCore(s0, 0, Ep(2, 0));
    var s1 := BlockReceive(s0, 0, Ep(2, 0));
    forall g: nat ensures !Closes(s1, 1, 0, g) {
      if g >= 2 {
        assert Walk(s1, 0, g - 1) == Walk(s1, 2, g - 2);
        NoWalk(s1, 2, g - 2);
      }
    }
    BlockSendCore(s1, 1, Ep(0, 0), []);
    var s2 := BlockSend(s1, 1, Ep(0, 0), []);
    assert s2.queues[0] == [1];
    assert Fork(s2, 0, 3, false).status == Ok;
    ForkCore(s2, 0, 3, false);
  }

  /** The death of an endpoint leaves no live process waiting for it, and nothing queued on it. */
  lemma ClearingForgets(states: seq<State>, steps: seq<Step>, i: nat)
    requires IsRun(states, steps) && i < |steps| && (steps[i].Clear? || steps[i].Exit?)
    ensures var rc := if steps[i].Clear? then steps[i].dying else steps[i].exiting;
      && |states[i + 1].procs| == |states[i + 1].queues| && rc < |states[i + 1].procs|
      && Forgotten(states[i + 1], rc)
  {
    RunInv(states, steps, i);
    var rc := if steps[i].Clear? then steps[i].dying else steps[i].exiting;
    ClearForgets(states[i], rc);
  }
}

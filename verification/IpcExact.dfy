/** What each kernel call comes to, told by what its caller asks for and the state it finds. */
module IpcExact {
  import opened Basics
  import opened IpcModel
  import opened IpcInvariants
  import opened IpcPreserve
  import opened IpcSteps
  import opened IpcTheorems

  /** `q` is asleep waiting for a message that `e` may send, and for nothing else. */
  predicate Ready(s: State, q: nat, e: Endpoint)
    requires q < |s.procs|
  {
    var x := s.procs[q];
    x.receiving && !x.sending && (x.getFrom == Any || x.getFrom == e)
  }

  /** Only the process `q` changes, and no queue. */
  predicate OnlyAt(s: State, t: State, q: nat, x: Proc)
    requires q < |s.procs|
  {
    t.procs == s.procs[q := x] && t.queues == s.queues
  }

  // ------------------------------------------------------------------ sending

  /**
   A send succeeds exactly when it can be handed over at once, or its caller can go to sleep without closing a circle
   and has not asked not to. A send that does not succeed changes nothing.
   */
  lemma SendExact(s: State, c: nat, d: Endpoint, body: Body, nonblock: bool, io: Io)
    requires Inv(s) && CanCall(s, c) && IsTarget(s, c, d) && io.mapOut
    ensures var r := MiniSend(s, c, d, body, nonblock, io);
      var now, later := Ready(s, d.slot, EpOf(s, c)), Acyclic(BlockSend(s, c, d, body));
      && (r.status == Ok <==> io.copy && (now || (!nonblock && later)))
      && (r.status == ENotReady <==> !now && nonblock)
      && (r.status == ELocked <==> !now && !nonblock && !later)
      && (r.status == EFault <==> !io.copy && (now || (!nonblock && later)))
      && (r.status != Ok ==> r.state == s)
      && (r.status == Ok && now ==>
            OnlyAt(s, r.state, d.slot, s.procs[d.slot].(inbox := Letter(EpOf(s, c), body), receiving := false)))
      && (r.status == Ok && !now ==>
            && r.state.procs == s.procs[c := s.procs[c].(sending := true, sendTo := d, sendMsg := body)]
            && r.state.queues == s.queues[d.slot := s.queues[d.slot] + [c]])
  {
    if !Ready(s, d.slot, EpOf(s, c)) {
      SendDeadlockExact(s, c, d, body);
    }
  }

  /** A send is refused, and changes nothing, when its message cannot be mapped or its destination is dead. */
  lemma SendRefused(s: State, c: nat, d: Endpoint, body: Body, nonblock: bool, io: Io)
    requires Shaped(s) && c < |s.procs| && IsOkEndpoint(s, d) && (!io.mapOut || s.procs[d.slot].life == Dead)
    ensures MiniSend(s, c, d, body, nonblock, io) == Outcome(s, if io.mapOut then EDstDied else EFault)
  {
  }

  // ---------------------------------------------------------------- receiving

  /** The notification from `id` is the one that a receive from `src` looks for first. */
  predicate Noted(s: State, c: nat, src: Endpoint, id: nat)
    requires c < |s.procs|
  {
    var pending := s.procs[c].pending;
    && !s.procs[c].replyPend && id in pending
    && if src == Any then forall j | j in pending :: id <= j
       else src.slot == id && forall j | j in pending && j / 16 == id / 16 :: id <= j
  }

  predicate Accepts(src: Endpoint, p: nat) {
    src == Any || src.slot == p
  }

  /** The `i`-th process on the queue is the first that a receive from `src` takes. */
  predicate Queued(s: State, c: nat, src: Endpoint, i: nat)
    requires c < |s.queues|
  {
    && i < |s.queues[c]| && Accepts(src, s.queues[c][i])
    && forall j | 0 <= j < i :: !Accepts(src, s.queues[c][j])
  }

  /** The least number of a nonempty set is where the scan for anyone stops. */
  lemma {:induction false} ScanLeast(pending: set<nat>, n: nat, k: nat)
    requires forall id | id in pending :: id < n
    ensures var r := NotifyScan(pending, n, Any, k);
      r.Some? ==> r.value in pending && forall j | j in pending && k * BITCHUNK_BITS <= j :: r.value <= j
    decreases n - k * BITCHUNK_BITS
  {
    if k * BITCHUNK_BITS < n {
      LowBitIs(pending, k, 0);
      if LowBit(pending, k, 0).None? {
        ScanLeast(pending, n, k + 1);
      }
    }
  }

  lemma NotedIs(s: State, c: nat, src: Endpoint)
    requires c < |s.procs| && PendingOk(s, c)
    ensures var r := NotifyScan(s.procs[c].pending, |s.procs|, src, 0);
      && (forall id: nat | Noted(s, c, src, id) :: r == Some(id))
      && (!s.procs[c].replyPend && r.Some? ==> Noted(s, c, src, r.value))
  {
    if src == Any {
      ScanAny(s.procs[c].pending, |s.procs|, 0);
      ScanLeast(s.procs[c].pending, |s.procs|, 0);
    } else {
      ScanOne(s.procs[c].pending, |s.procs|, src, 0);
    }
  }

  lemma {:induction false} FirstQueued(q: seq<nat>, src: Endpoint, i: nat)
    requires i < |q| && Accepts(src, q[i]) && forall j | 0 <= j < i :: !Accepts(src, q[j])
    ensures QueueScan(q, src) == i
  {
    if i > 0 {
      assert !Accepts(src, q[0]);
      FirstQueued(q[1..], src, i - 1);
    }
  }

  /** A receive takes the notification it looks for, whatever else waits for it. */
  lemma ReceiveNoted(s: State, c: nat, src: Endpoint, nonblock: bool, io: Io, id: nat)
    requires Inv(s) && MayReceive(s, c, src) && !s.procs[c].sending && io.mapIn && Noted(s, c, src, id)
    requires src.Ep? ==> s.procs[src.slot].life == Live
    requires forall p | p in s.queues[c] :: p < |s.procs|
    ensures id < |s.procs|
    ensures var r := MiniReceive(s, c, src, nonblock, io); var x := s.procs[c];
      && r.status == Ok && r.state.log == s.log
      && OnlyAt(s, r.state, c, x.(pending := x.pending - {id}, inbox := Notice(EpOf(s, id))))
  {
    assert PendingOk(s, c);
    NotedIs(s, c, src);
  }

  /** Failing that, it takes the first acceptable process off its queue. */
  lemma ReceiveQueued(s: State, c: nat, src: Endpoint, nonblock: bool, io: Io, i: nat)
    requires Inv(s) && MayReceive(s, c, src) && !s.procs[c].sending && io.mapIn
    requires src.Ep? ==> s.procs[src.slot].life == Live
    requires (forall id: nat :: !Noted(s, c, src, id)) && Queued(s, c, src, i)
    requires forall p | p in s.queues[c] :: p < |s.procs|
    ensures var r := MiniReceive(s, c, src, nonblock, io); var p := s.queues[c][i];
      && r.status == Ok && p < |s.procs| && p != c
      && r.state.procs ==
           s.procs[c := s.procs[c].(inbox := Letter(EpOf(s, p), s.procs[p].sendMsg))][p := s.procs[p].(sending := false)]
      && r.state.queues == s.queues[c := s.queues[c][..i] + s.queues[c][i + 1..]]
  {
    assert PendingOk(s, c);
    NotedIs(s, c, src);
    FirstQueued(s.queues[c], src, i);
    TakeCallerCore(s, c, i);
  }
}

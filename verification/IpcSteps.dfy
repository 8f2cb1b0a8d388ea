/** Every kernel entry, and every run of them, keeps the invariant. */
module IpcSteps {
  import opened Basics
  import opened IpcModel
  import opened IpcInvariants
  import opened IpcPreserve

  // ------------------------------------------------------------ notifications

  /** The lowest pending bit of a chunk. */
  lemma {:induction false} LowBitIs(pending: set<nat>, k: nat, i: nat)
    requires i <= BITCHUNK_BITS
    ensures var r := LowBit(pending, k, i);
      && (r.Some? ==> r.value in pending && k * BITCHUNK_BITS + i <= r.value < (k + 1) * BITCHUNK_BITS)
      && (forall j: nat | j in pending && k * BITCHUNK_BITS + i <= j < (k + 1) * BITCHUNK_BITS :: r.Some? && r.value <= j)
    decreases BITCHUNK_BITS - i
  {
    if i < BITCHUNK_BITS {
      LowBitIs(pending, k, i + 1);
    }
  }

  /** `id` is pending and no smaller identifier of its chunk is. */
  ghost predicate Lowest(pending: set<nat>, id: nat) {
    id in pending && forall j | j in pending && j / BITCHUNK_BITS == id / BITCHUNK_BITS :: id <= j
  }

  /** A receive from anyone finds a notification whenever one is pending. */
  lemma {:induction false} ScanAny(pending: set<nat>, n: nat, k: nat)
    requires forall id | id in pending :: id < n
    ensures var r := NotifyScan(pending, n, Any, k);
      && (r.Some? ==> r.value in pending)
      && (r.None? ==> forall id | id in pending :: id < k * BITCHUNK_BITS)
    decreases n - k * BITCHUNK_BITS
  {
    if k * BITCHUNK_BITS < n {
      LowBitIs(pending, k, 0);
      if LowBit(pending, k, 0).None? {
        ScanAny(pending, n, k + 1);
      }
    }
  }

  /** A receive from one source finds its notification exactly when no lower bit of the chunk is set. */
  lemma {:induction false} ScanOne(pending: set<nat>, n: nat, src: Endpoint, k: nat)
    requires src.Ep? && forall id | id in pending :: id < n
    ensures var r := NotifyScan(pending, n, src, k);
      && (r.Some? ==> r.value == src.slot)
      && (r.Some? <==> Lowest(pending, src.slot) && k * BITCHUNK_BITS <= src.slot)
    decreases n - k * BITCHUNK_BITS
  {
    if k * BITCHUNK_BITS < n {
      LowBitIs(pending, k, 0);
      ScanOne(pending, n, src, k + 1);
      var low := LowBit(pending, k, 0);
      assert src.slot / BITCHUNK_BITS == k <==> k * BITCHUNK_BITS <= src.slot < (k + 1) * BITCHUNK_BITS;
      if low.Some? {
        assert low.value / BITCHUNK_BITS == k;
      }
    }
  }

  /** Notifications from 0 and 1 are pending, and a receive from 1 does not see its own. */
  lemma ScanOneMisses()
    ensures 1 in {0, 1} && NotifyScan({0, 1}, 2, Ep(1, 0), 0) == None
  {
    LowBitIs({0, 1}, 0, 0);
  }

  // ---------------------------------------------------- calls keep the invariant

  lemma SendInv(s: State, c: nat, d: Endpoint, body: Body, nonblock: bool, io: Io)
    requires Inv(s) && CanCall(s, c) && IsOkEndpoint(s, d) && d.slot != c
    ensures Inv(MiniSend(s, c, d, body, nonblock, io).state)
  {
    var r := MiniSend(s, c, d, body, nonblock, io);
    if r.status == Ok {
      if WillReceive(s.procs[d.slot], EpOf(s, c)) {
        var m := Letter(EpOf(s, c), body);
        WakeCore(s, d.slot, m);
        FrameCore(Wake(s, d.slot, m), r.state);
        KeepsRest(s, r.state);
      } else {
        assert WaitsOk(s, d.slot);
        BlockSendCore(s, c, d, body);
        KeepsRest(s, r.state);
      }
    }
  }

  /** Nobody starts to receive, and no pending bit or mask appears. */
  ghost predicate RestShrinks(s: State, t: State) {
    && |s.procs| == |t.procs|
    && forall p | 0 <= p < |s.procs| ::
      && (t.procs[p].receiving ==>
            && s.procs[p].receiving && t.procs[p].getFrom == s.procs[p].getFrom
            && t.procs[p].inbox == s.procs[p].inbox && t.procs[p].replyPend == s.procs[p].replyPend)
      && t.procs[p].pending <= s.procs[p].pending && t.procs[p].ipcTo <= s.procs[p].ipcTo
  }

  lemma KeepsRest(s: State, t: State)
    requires Quiet(s) && Masks(s) && RestShrinks(s, t)
    ensures Quiet(t) && Masks(t)
  {
    forall p | 0 <= p < |t.procs| ensures PendingOk(t, p) && p !in t.procs[p].ipcTo {
      assert PendingOk(s, p);
    }
    forall p | 0 <= p < |t.procs| && t.procs[p].receiving
      ensures t.procs[p].inbox == Vacant
      ensures t.procs[p].getFrom == Any ==> t.procs[p].pending == {} && !t.procs[p].replyPend
    {
      assert s.procs[p].receiving;
    }
  }

  lemma NotifyInv(s: State, c: nat, d: Endpoint)
    requires Inv(s) && c < |s.procs|
    ensures Inv(MiniNotify(s, c, d).state)
  {
    var t := MiniNotify(s, c, d).state;
    if IsOkEndpoint(s, d) {
      var x := s.procs[d.slot];
      if WillReceive(x, EpOf(s, c)) && !x.replyPend {
        WakeCore(s, d.slot, Notice(EpOf(s, c)));
        KeepsRest(s, t);
      } else {
        FrameCore(s, t);
        forall p | 0 <= p < |t.procs| ensures PendingOk(t, p) && p !in t.procs[p].ipcTo {
          assert PendingOk(s, p);
        }
        assert WaitsOk(s, d.slot);
        assert x.receiving ==> x.getFrom != Any;
      }
    }
  }

  predicate SameView(s: State, t: State, c: nat) {
    && c < |s.procs| == |t.procs|
    && t.procs[c].inbox == s.procs[c].inbox && t.procs[c].replyPend == s.procs[c].replyPend
    && t.procs[c].pending == s.procs[c].pending
  }

  /** Serving tables changes neither the wait state nor what a sleeper sees. */
  lemma TryOneFrame(s: State, src: nat, dst: nat)
    requires src < |s.procs| && dst < |s.procs| && !s.procs[dst].receiving
    ensures SameCore(s, TryOne(s, src, dst).outcome.state)
    ensures RestShrinks(s, TryOne(s, src, dst).outcome.state)
    ensures TryOne(s, src, dst).outcome.status != Ok ==> SameView(s, TryOne(s, src, dst).outcome.state, dst)
  {
    var x := s.procs[src];
    if x.sysProc && |x.table| != 0 && MaySendTo(s, src, dst) {
      var f := TableScan(x.table, EpOf(s, dst), s.procs[dst].replyPend, 0, true, false);
      if f.Hit? {
        ServeFrame(s, src, dst, f.index);
      } else {
        TableFrame(s, src, []);
      }
    }
  }

  lemma TableFrame(s: State, src: nat, table: seq<Entry>)
    requires src < |s.procs|
    ensures var t := Put(s, src, s.procs[src].(table := table));
      SameCore(s, t) && RestShrinks(s, t) && forall c: nat | c < |s.procs| :: SameView(s, t, c)
  {
  }

  lemma ServeFrame(s: State, src: nat, dst: nat, i: nat)
    requires src < |s.procs| && dst < |s.procs| && !s.procs[dst].receiving
    requires i < |s.procs[src].table| && s.procs[src].table[i].Request?
    ensures SameCore(s, Serve(s, src, dst, i)) && RestShrinks(s, Serve(s, src, dst, i))
  {
  }

  lemma {:induction false} TryAsyncFrame(s: State, c: nat, k: nat, postponed: bool)
    requires c < |s.procs| && !s.procs[c].receiving
    ensures SameCore(s, TryAsync(s, c, k, postponed).state)
    ensures RestShrinks(s, TryAsync(s, c, k, postponed).state)
    ensures TryAsync(s, c, k, postponed).status != Ok ==> SameView(s, TryAsync(s, c, k, postponed).state, c)
    decreases |s.procs| - k
  {
    hide TryOne;
    if k < |s.procs| {
      if s.procs[k].life == Free {
        TryAsyncFrame(s, c, k + 1, postponed);
      } else {
        var a := TryOne(s, k, c);
        TryOneFrame(s, k, c);
        if a.outcome.status != Ok {
          TryAsyncFrame(a.outcome.state, c, k + 1, postponed || a.postponed);
        }
      }
    }
  }

  lemma FrameInv(s: State, t: State)
    requires Inv(s) && SameCore(s, t) && RestShrinks(s, t)
    ensures Inv(t)
  {
    FrameCore(s, t);
    KeepsRest(s, t);
  }

  lemma SleepInv(s: State, c: nat, src: Endpoint, nonblock: bool)
    requires Inv(s) && c < |s.procs| && s.procs[c].life == Live && !s.procs[c].receiving && s.procs[c].inbox == Vacant
    requires src == Any || IsTarget(s, c, src)
    requires s.procs[c].sending ==> s.procs[c].sendTo == src
    requires !s.procs[c].sending ==> forall p | p in s.queues[c] :: src != Any && src.slot != p
    requires src == Any ==> s.procs[c].pending == {} && !s.procs[c].replyPend
    ensures Inv(Sleep(s, c, src, nonblock).state)
  {
    var r := Sleep(s, c, src, nonblock);
    if r.status == Ok {
      BlockReceiveCore(s, c, src);
      forall p | 0 <= p < |s.procs| ensures PendingOk(r.state, p) {
        assert PendingOk(s, p);
      }
    }
  }

  /** What a caller of `mini_receive` must satisfy. */
  ghost predicate MayReceive(s: State, c: nat, src: Endpoint) {
    && c < |s.procs| && s.procs[c].life == Live && !s.procs[c].receiving && s.procs[c].inbox == Vacant
    && (src.Ep? ==> IsOkEndpoint(s, src))
    && (s.procs[c].sending ==> s.procs[c].sendTo == src)
    && (src == Any ==> !s.procs[c].replyPend && !s.procs[c].sending)
  }

  lemma QueuesInRange(s: State)
    requires Queues(s)
    ensures forall q, p | 0 <= q < |s.queues| && p in s.queues[q] :: p < |s.procs|
  {
    forall q, p | 0 <= q < |s.queues| && p in s.queues[q] ensures p < |s.procs| {
      assert Exact(s, q);
      assert SendsTo(s, p, q);
    }
  }

  lemma NoticeInv(s: State, c: nat, id: nat)
    requires Inv(s) && c < |s.procs| && id < |s.procs| && !s.procs[c].receiving
    ensures Inv(TakeNotice(s, c, id).state)
  {
    FrameInv(s, TakeNotice(s, c, id).state);
  }

  lemma TakenInv(s: State, c: nat, i: nat)
    requires Inv(s) && c < |s.procs| && s.procs[c].life == Live && !s.procs[c].receiving && !s.procs[c].sending
    requires i < |s.queues[c]| && s.queues[c][i] < |s.procs|
    ensures Inv(TakeCaller(s, c, i))
  {
    TakeCallerCore(s, c, i);
    KeepsRest(s, TakeCaller(s, c, i));
  }

  lemma ReceiveInv(s: State, c: nat, src: Endpoint, nonblock: bool, io: Io)
    requires Inv(s) && MayReceive(s, c, src)
    requires src.Ep? && src.slot == c && io.mapIn ==> !s.procs[c].replyPend && Lowest(s.procs[c].pending, c)
    requires forall p | p in s.queues[c] :: p < |s.procs|
    ensures Inv(MiniReceive(s, c, src, nonblock, io).state)
  {
    hide TryOne, TryAsync, Sleep, TakeNotice, TakeCaller, NotifyScan, QueueScan, Acyclic, NoMissedSend, Queues;
    if !io.mapIn || (src.Ep? && s.procs[src.slot].life == Dead) {
    } else if s.procs[c].sending {
      assert WaitsOk(s, c);
      SleepInv(s, c, src, nonblock);
    } else {
      assert PendingOk(s, c);
      var note := NotifyScan(s.procs[c].pending, |s.procs|, src, 0);
      if src.Ep? && src.slot == c {
        ScanOne(s.procs[c].pending, |s.procs|, src, 0);
      }
      if !s.procs[c].replyPend && note.Some? {
        NoticeInv(s, c, note.value);
      } else {
        if src == Any {
          ScanAny(s.procs[c].pending, |s.procs|, 0);
          assert s.procs[c].pending == {};
        }
        var i := QueueScan(s.queues[c], src);
        if i < |s.queues[c]| {
          assert s.queues[c][i] in s.queues[c];
          TakenInv(s, c, i);
        } else {
          ReceiveTail(s, c, src, nonblock);
        }
      }
    }
  }

  /** The last part of `mini_receive`: nothing is queued, requests may be tabled. */
  lemma ReceiveTail(s: State, c: nat, src: Endpoint, nonblock: bool)
    requires Inv(s) && MayReceive(s, c, src) && !s.procs[c].sending
    requires src.Ep? ==> s.procs[src.slot].life == Live && src.slot != c
    requires src == Any ==> s.procs[c].pending == {}
    requires forall p | p in s.queues[c] :: src != Any && src.slot != p
    ensures
      var tried := if src.Ep? then TryOne(s, src.slot, c).outcome else TryAsync(s, c, 0, false);
      && Inv(tried.state) && SameCore(s, tried.state)
      && Inv(Sleep(s, c, src, nonblock).state)
      && (tried.status != Ok ==> SameView(s, tried.state, c) && Inv(Sleep(tried.state, c, src, nonblock).state))
  {
    var tried := if src.Ep? then TryOne(s, src.slot, c).outcome else TryAsync(s, c, 0, false);
    if src.Ep? {
      TryOneFrame(s, src.slot, c);
    } else {
      TryAsyncFrame(s, c, 0, false);
    }
    FrameInv(s, tried.state);
    SleepInv(s, c, src, nonblock);
    if tried.status != Ok {
      SleepInv(tried.state, c, src, nonblock);
    }
  }

  lemma SendaOneInv(s: State, c: nat, i: nat, e: Entry, io: Io)
    requires Inv(s) && c < |s.procs| && !s.procs[c].receiving && e.Request?
    ensures var t := SendaOne(s, c, i, e, io).state; Inv(t) && !t.procs[c].receiving
  {
    hide Core, Masks;
    var t := SendaOne(s, c, i, e, io).state;
    if IsOkEndpoint(s, e.dst) {
      var d := e.dst.slot;
      if t.log != s.log {
        WakeCore(s, d, Letter(EpOf(s, c), e.body));
        FrameCore(Wake(s, d, Letter(EpOf(s, c), e.body)), t);
        KeepsRest(s, t);
      } else {
        FrameInv(s, t);
      }
    }
  }

  lemma {:induction false} SendaLoopInv(s: State, c: nat, table: seq<Entry>, i: nat, io: Io)
    requires Inv(s) && c < |s.procs| && !s.procs[c].receiving && i <= |table|
    ensures var t := SendaLoop(s, c, table, i, io).state; Inv(t) && !t.procs[c].receiving
    decreases |table| - i
  {
    if i < |table| {
      match table[i]
      case Blank => SendaLoopInv(s, c, table, i + 1, io);
      case Garbled =>
      case Request(_, _, _, _, _, _) =>
        var one := SendaOne(s, c, i, table[i], io);
        SendaOneInv(s, c, i, table[i], io);
        SendaLoopInv(one.state, c, table[i := one.entry], i + 1, io);
    }
  }

  lemma TableInv(s: State, c: nat, table: seq<Entry>)
    requires Inv(s) && c < |s.procs|
    ensures Inv(Put(s, c, s.procs[c].(table := table)))
  {
    TableFrame(s, c, table);
    FrameInv(s, Put(s, c, s.procs[c].(table := table)));
  }

  lemma SendaInv(s: State, c: nat, table: seq<Entry>, io: Io)
    requires Inv(s) && CanCall(s, c)
    ensures Inv(MiniSenda(s, c, table, io).state)
  {
    if s.procs[c].sysProc {
      TableInv(s, c, []);
      var s0 := Put(s, c, s.procs[c].(table := []));
      if |table| != 0 && io.mapOut && |table| <= 16 * |s.procs| {
        var r := SendaLoop(s0, c, table, 0, io);
        SendaLoopInv(s0, c, table, 0, io);
        TableInv(r.state, c, r.table);
      }
    }
  }

  lemma ReplyPendInv(s: State, c: nat, b: bool)
    requires Inv(s) && CanCall(s, c)
    ensures Inv(SetReplyPend(s, c, b)) && CanCall(SetReplyPend(s, c, b), c)
  {
    FrameInv(s, SetReplyPend(s, c, b));
  }

  /** After a successful send half the caller may start the receive half. */
  lemma SendThenReceive(s: State, c: nat, d: Endpoint, body: Body, nonblock: bool, io: Io)
    requires Inv(s) && CanCall(s, c) && IsOkEndpoint(s, d) && d.slot != c
    requires MiniSend(s, c, d, body, nonblock, io).status == Ok
    ensures var t := MiniSend(s, c, d, body, nonblock, io).state; Inv(t) && MayReceive(t, c, d)
  {
    SendInv(s, c, d, body, nonblock, io);
  }

  /** A receive that names its own caller, and does not find a notification from it. */
  ghost predicate SelfSleeps(s: State, c: nat, call: Call, io: Io)
    requires c < |s.procs|
  {
    call == Receive(EpOf(s, c)) && ReceiveCall in s.procs[c].traps && io.mapIn && !Lowest(s.procs[c].pending, c)
  }

  lemma CallInv(s: State, c: nat, call: Call, io: Io)
    requires Inv(s) && CanCall(s, c)
    requires !SelfSleeps(s, c, call, io)
    requires forall q, p | 0 <= q < |s.queues| && p in s.queues[q] :: p < |s.procs|
    ensures Inv(KipcCall(s, c, call, io).state)
  {
    if Screen(s, c, call) == Ok {
      assert PendingOk(s, c);
      match call
      case Send(d, body, nonblock) => SendInv(s, c, d, body, nonblock, io);
      case Receive(src) =>
        ReplyPendInv(s, c, false);
        ReceiveInv(SetReplyPend(s, c, false), c, src, false, io);
      case SendRec(d, body, nonblock) =>
        ReplyPendInv(s, c, true);
        var s1 := SetReplyPend(s, c, true);
        SendInv(s1, c, d, body, nonblock, io);
        var sent := MiniSend(s1, c, d, body, nonblock, io);
        if sent.status == Ok {
          SendThenReceive(s1, c, d, body, nonblock, io);
          QueuesInRange(sent.state);
          ReceiveInv(sent.state, c, d, false, io);
        }
      case Notify(d) => NotifyInv(s, c, d);
      case Senda(table) => SendaInv(s, c, table, io);
    }
  }

  // ------------------------------------------------------------------- runs

  datatype Step =
    | Trap(caller: nat, call: Call, io: Io)      // kipc_call
    | Signal(from: nat, to: Endpoint)            // lock_notify from an interrupt or task
    | Clear(dying: nat)                          // clear_endpoint
    | Exit(exiting: nat)                         // clear_proc
    | Spawn(parent: nat, child: nat, stop: bool) // do_fork
    | CopyOut(reader: nat)                       // delivermsg
    | SetHold(who: nat, on: bool)                // any other run flag
    | Permit(owner: nat, peer: nat)              // set_sendto_bit
    | Forbid(loser: nat, lost: nat)              // unset_sendto_bit

  /** Queues hold slot numbers; implied by the invariant. */
  ghost predicate TypeOk(s: State) {
    Shaped(s) && forall q, p | 0 <= q < |s.queues| && p in s.queues[q] :: p < |s.procs|
  }

  /** When a step can happen; what is left out breaks the invariant, see `SelfReceive` and `ForkCore`. */
  ghost predicate Enabled(s: State, e: Step) {
    TypeOk(s) &&
    match e
    case Trap(c, call, io) => CanCall(s, c) && !SelfSleeps(s, c, call, io)
    case Signal(p, _) => p < |s.procs|
    case Clear(rc) => rc < |s.procs| && s.procs[rc].life != Free
    case Exit(rc) => rc < |s.procs| && s.procs[rc].life != Free
    case Spawn(parent, child, stop) =>
      && parent < |s.procs| && child < |s.procs|
      && (Fork(s, parent, child, stop).status == Ok ==> !s.procs[parent].sending && s.queues[parent] == [])
    case CopyOut(p) => p < |s.procs| && Runnable(s.procs[p]) && s.procs[p].inbox != Vacant
    case SetHold(p, _) => p < |s.procs| && s.procs[p].life != Free
    case Permit(p, id) => p < |s.procs| && id < |s.procs|
    case Forbid(p, id) => p < |s.procs| && id < |s.procs|
  }

  ghost function Apply(s: State, e: Step): State
    requires Enabled(s, e)
  {
    match e
    case Trap(c, call, io) => KipcCall(s, c, call, io).state
    case Signal(p, d) => MiniNotify(s, p, d).state
    case Clear(rc) => ClearEndpoint(s, rc)
    case Exit(rc) => FreeSlot(ClearEndpoint(s, rc), rc)
    case Spawn(parent, child, stop) => Fork(s, parent, child, stop).state
    case CopyOut(p) => Fetch(s, p)
    case SetHold(p, b) => Hold(s, p, b)
    case Permit(p, id) => SetSendTo(s, p, id)
    case Forbid(p, id) => UnsetSendTo(s, p, id)
  }

  lemma ClearShrinks(s: State, rc: nat)
    requires Shaped(s) && rc < |s.procs| && s.procs[rc].life != Free
    ensures var t := ClearEndpoint(s, rc);
      && RestShrinks(s, t) && RestShrinks(t, FreeSlot(t, rc))
      && t.procs[rc].life != Live
  {
    hide CallOffs, Without;
  }

  lemma ClearInv(s: State, rc: nat)
    requires Inv(s) && rc < |s.procs| && s.procs[rc].life != Free
    ensures Inv(ClearEndpoint(s, rc)) && Inv(FreeSlot(ClearEndpoint(s, rc), rc))
  {
    ClearShrinks(s, rc);
    hide ClearEndpoint, FreeSlot, Quiet, Masks, Acyclic, NoMissedSend;
    var t := ClearEndpoint(s, rc);
    ClearCore(s, rc);
    KeepsRest(s, t);
    FreeCore(t, rc);
    KeepsRest(t, FreeSlot(t, rc));
  }

  lemma ForkInv(s: State, parent: nat, child: nat, stop: bool)
    requires Inv(s) && Enabled(s, Spawn(parent, child, stop))
    ensures Inv(Fork(s, parent, child, stop).state)
  {
    var r := Fork(s, parent, child, stop);
    if r.status == Ok {
      ForkCore(s, parent, child, stop);
      forall p | 0 <= p < |r.state.procs| ensures PendingOk(r.state, p) {
        assert PendingOk(s, p);
      }
    }
  }

  lemma MaskInv(s: State, p: nat, mask: set<nat>)
    requires Inv(s) && p < |s.procs| && p !in mask
    ensures Inv(Put(s, p, s.procs[p].(ipcTo := mask)))
  {
    var t := Put(s, p, s.procs[p].(ipcTo := mask));
    FrameCore(s, t);
    forall x | 0 <= x < |t.procs| ensures PendingOk(t, x) {
      assert PendingOk(s, x);
    }
  }

  lemma PermitInv(s: State, p: nat, id: nat)
    requires Inv(s) && p < |s.procs| && id < |s.procs|
    ensures Inv(SetSendTo(s, p, id))
  {
    var mask := s.procs[p].ipcTo;
    if s.procs[id].life == Free || p == id {
      MaskInv(s, p, mask - {id});
    } else {
      MaskInv(s, p, mask + {id});
      MaskInv(Put(s, p, s.procs[p].(ipcTo := mask + {id})), id, s.procs[id].ipcTo + {p});
    }
  }

  lemma ForbidInv(s: State, p: nat, id: nat)
    requires Inv(s) && p < |s.procs| && id < |s.procs|
    ensures Inv(UnsetSendTo(s, p, id))
  {
    MaskInv(s, p, s.procs[p].ipcTo - {id});
    var s1 := Put(s, p, s.procs[p].(ipcTo := s.procs[p].ipcTo - {id}));
    MaskInv(s1, id, s1.procs[id].ipcTo - {p});
  }

  lemma LocalInv(s: State, p: nat, b: bool)
    requires Inv(s) && p < |s.procs|
    ensures Inv(Hold(s, p, b)) && (!s.procs[p].receiving ==> Inv(Fetch(s, p)))
  {
    FrameInv(s, Hold(s, p, b));
    if !s.procs[p].receiving {
      FrameInv(s, Fetch(s, p));
    }
  }

  /** Every step keeps the invariant. */
  lemma StepInv(s: State, e: Step)
    requires Inv(s) && Enabled(s, e)
    ensures Inv(Apply(s, e))
  {
    match e
    case Trap(c, call, io) => CallInv(s, c, call, io);
    case Signal(p, d) => NotifyInv(s, p, d);
    case Clear(rc) => ClearInv(s, rc);
    case Exit(rc) => ClearInv(s, rc);
    case Spawn(parent, child, stop) => ForkInv(s, parent, child, stop);
    case CopyOut(p) => LocalInv(s, p, false);
    case SetHold(p, b) => LocalInv(s, p, b);
    case Permit(p, id) => PermitInv(s, p, id);
    case Forbid(p, id) => ForbidInv(s, p, id);
  }

  /** A process table in which nobody has communicated yet. */
  ghost predicate Start(s: State) {
    && Shaped(s) && s.log == []
    && (forall q | 0 <= q < |s.queues| :: s.queues[q] == [])
    && forall p | 0 <= p < |s.procs| ::
      && !s.procs[p].sending && !s.procs[p].receiving && s.procs[p].pending == {}
      && s.procs[p].inbox == Vacant && s.procs[p].table == [] && p !in s.procs[p].ipcTo
  }

  ghost predicate IsRun(states: seq<State>, steps: seq<Step>) {
    && |states| == |steps| + 1 && Start(states[0])
    && forall i | 0 <= i < |steps| ::
      Enabled(states[i], steps[i]) && states[i + 1] == Apply(states[i], steps[i])
  }

  lemma StartInv(s: State)
    requires Start(s)
    ensures Inv(s)
  {
    forall q | 0 <= q < |s.queues| ensures Exact(s, q) {
      assert s.queues[q] == [];
    }
    forall p: nat, k: nat | 0 < k ensures Walk(s, p, k) != Some(p) {
      assert p < |s.procs| ==> Next(s, p) == None;
    }
  }

  /** The protocol invariant holds in every state of every run. */
  lemma {:induction false} RunInv(states: seq<State>, steps: seq<Step>, i: nat)
    requires IsRun(states, steps) && i < |states|
    ensures Inv(states[i])
  {
    if i == 0 {
      StartInv(states[0]);
    } else {
      RunInv(states, steps, i - 1);
      StepInv(states[i - 1], steps[i - 1]);
    }
  }
}

/** Who is let through to the kernel, what a call leaves alone, and what a SENDREC waits for. */
module IpcCalls {
  import opened IpcModel
  import opened IpcInvariants
  import opened IpcSteps
  import opened IpcNotices
  import opened IpcExact

  // ------------------------------------------------------------------- checks

  /** The endpoint is that of a process which still has its slot. */
  predicate Present(s: State, e: Endpoint) {
    e.Ep? && e.slot < |s.procs| && s.procs[e.slot].gen == e.gen && s.procs[e.slot].life != Free
  }

  /** The trap mask of the caller has the call. */
  predicate InMask(x: Proc, call: Call) {
    match call
    case Send(_, _, _) => SendCall in x.traps
    case Receive(_) => ReceiveCall in x.traps
    case SendRec(_, _, _) => SendRecCall in x.traps
    case Notify(_) => NotifyCall in x.traps
    case Senda(_) => SendaCall in x.traps
  }

  /** The call may send to the endpoint it names; tasks of the kernel take only calls that wait for a reply. */
  predicate MayReach(s: State, c: nat, e: Endpoint, rpc: bool)
    requires c < |s.procs|
  {
    Present(s, e) && e.slot in s.procs[c].ipcTo && (rpc || !s.procs[e.slot].kernel)
  }

  /**
   A call is let through exactly when its caller has it in its trap mask, and names a present process it may send to;
   a receive may name any present process, or none.
   */
  lemma ScreenExact(s: State, c: nat, call: Call)
    requires c < |s.procs|
    ensures Screen(s, c, call) == Ok <==>
      && InMask(s.procs[c], call)
      && match call
        case Send(d, _, _) => MayReach(s, c, d, false)
        case Receive(src) => src == Any || Present(s, src)
        case SendRec(d, _, _) => MayReach(s, c, d, true)
        case Notify(d) => MayReach(s, c, d, false)
        case Senda(table) => |table| <= 16 * |s.procs|
  {
  }

  /** A call that is not let through changes nothing, and is told why. */
  lemma Refused(s: State, c: nat, call: Call, io: Io)
    requires TypeOk(s) && c < |s.procs| && Screen(s, c, call) != Ok
    ensures var r := KipcCall(s, c, call, io); var e := if call.Senda? || call.Receive? then Any else Target(call);
      && r.state == s && r.status in {EInval, EDeadSrcDst, ECallDenied, ETrapDenied, EDom}
      && (r.status == EInval <==> !call.Senda? && !call.Receive? && Target(call) == Any)
      && (r.status == EDeadSrcDst <==> !call.Senda? && Target(call) != Any && !Present(s, Target(call)))
      && (r.status == ECallDenied <==> Present(s, e) && e.slot !in s.procs[c].ipcTo)
      && (!InMask(s.procs[c], call) ==> r.status in {EInval, EDeadSrcDst, ECallDenied, ETrapDenied})
      && (r.status == EDom ==> call.Senda? && |call.requests| > 16 * |s.procs|)
  {
  }

  // ------------------------------------------------------------------- frames

  /** Who the process is and what it may do is the same. */
  predicate SameSelf(x: Proc, y: Proc) {
    && y.gen == x.gen && y.life == x.life && y.kernel == x.kernel && y.held == x.held
    && y.sysProc == x.sysProc && y.ipcTo == x.ipcTo && y.traps == x.traps
  }

  /** Of another process, a receive changes no more than that its send is over and its table is served or dropped. */
  predicate Bystander(x: Proc, y: Proc) {
    y == x.(sending := y.sending, table := y.table) && (y.sending ==> x.sending)
  }

  /** Of its caller, it changes the inbox, the notification taken, the flag for requests and the sleep. */
  predicate Receiver(x: Proc, y: Proc) {
    && y == x.(inbox := y.inbox, pending := y.pending, asynMsg := y.asynMsg, receiving := y.receiving, getFrom := y.getFrom)
    && (y.inbox.Notice? ==> x.inbox == y.inbox || !x.replyPend)
  }

  ghost predicate ReceiveKeeps(s: State, t: State, c: nat) {
    && c < |s.procs| == |t.procs| && Receiver(s.procs[c], t.procs[c])
    && forall q | 0 <= q < |s.procs| && q != c :: Bystander(s.procs[q], t.procs[q])
  }

  lemma KeepsTrans(s: State, t: State, u: State, c: nat)
    requires ReceiveKeeps(s, t, c) && ReceiveKeeps(t, u, c) && t.procs[c].replyPend == s.procs[c].replyPend
    requires t.procs[c].inbox == s.procs[c].inbox || u.procs[c].inbox == t.procs[c].inbox
    ensures ReceiveKeeps(s, u, c)
  {
    forall q | 0 <= q < |s.procs| && q != c ensures Bystander(s.procs[q], u.procs[q]) {
      assert Bystander(s.procs[q], t.procs[q]) && Bystander(t.procs[q], u.procs[q]);
    }
  }

  lemma TryOneKeeps(s: State, src: nat, c: nat)
    requires src < |s.procs| && c < |s.procs| && c !in s.procs[c].ipcTo
    ensures var r := TryOne(s, src, c).outcome;
      ReceiveKeeps(s, r.state, c) && (r.status != Ok ==> r.state.procs[c] == s.procs[c])
  {
    hide TableScan, Serve, ReceiveKeeps;
    var x := s.procs[src];
    SelfKeeps(s, c);
    if x.sysProc && |x.table| != 0 && MaySendTo(s, src, c) {
      DropKeeps(s, src, c);
      var f := TableScan(x.table, EpOf(s, c), s.procs[c].replyPend, 0, true, false);
      if f.Hit? {
        ServeKeeps(s, src, c, f.index);
      }
    }
  }

  lemma SelfKeeps(s: State, c: nat)
    requires c < |s.procs|
    ensures ReceiveKeeps(s, s, c)
  {
  }

  lemma DropKeeps(s: State, src: nat, c: nat)
    requires src < |s.procs| && c < |s.procs| && src != c
    ensures ReceiveKeeps(s, Put(s, src, s.procs[src].(table := [])), c)
  {
  }

  lemma ServeKeeps(s: State, src: nat, c: nat, i: nat)
    requires src < |s.procs| && c < |s.procs| && src != c
    requires i < |s.procs[src].table| && s.procs[src].table[i].Request?
    ensures ReceiveKeeps(s, Serve(s, src, c, i), c)
  {
  }

  lemma NoticeKeeps(s: State, c: nat, id: nat)
    requires c < |s.procs| && id < |s.procs| && !s.procs[c].replyPend
    ensures ReceiveKeeps(s, TakeNotice(s, c, id).state, c)
  {
  }

  lemma {:induction false} TryAsyncKeeps(s: State, c: nat, k: nat, postponed: bool)
    requires c < |s.procs| && c !in s.procs[c].ipcTo
    ensures ReceiveKeeps(s, TryAsync(s, c, k, postponed).state, c)
    decreases |s.procs| - k
  {
    if k < |s.procs| {
      hide ReceiveKeeps, TryOne;
      if s.procs[k].life == Free {
        TryAsyncKeeps(s, c, k + 1, postponed);
      } else {
        var a := TryOne(s, k, c);
        TryOneKeeps(s, k, c);
        if a.outcome.status != Ok {
          SameNumber(s, a.outcome.state, c);
          TryAsyncKeeps(a.outcome.state, c, k + 1, postponed || a.postponed);
          KeepsTrans(s, a.outcome.state, TryAsync(s, c, k, postponed).state, c);
        }
      }
    }
  }

  lemma SameNumber(s: State, t: State, c: nat)
    requires ReceiveKeeps(s, t, c)
    ensures |t.procs| == |s.procs|
  {
  }

  lemma SleepKeeps(s: State, c: nat, src: Endpoint, nonblock: bool)
    requires c < |s.procs| && (src.Ep? ==> src.slot < |s.procs|)
    ensures var t := Sleep(s, c, src, nonblock).state; ReceiveKeeps(s, t, c) && t.procs[c].inbox == s.procs[c].inbox
  {
    hide DeadlockSize;
  }

  lemma TriedKeeps(s: State, c: nat, src: Endpoint, nonblock: bool)
    requires c < |s.procs| && c !in s.procs[c].ipcTo && (src.Ep? ==> src.slot < |s.procs|)
    ensures var tried := if src.Ep? then TryOne(s, src.slot, c).outcome else TryAsync(s, c, 0, false);
      && |tried.state.procs| == |s.procs| && ReceiveKeeps(s, tried.state, c)
      && ReceiveKeeps(s, Sleep(tried.state, c, src, nonblock).state, c)
  {
    var tried := if src.Ep? then TryOne(s, src.slot, c).outcome else TryAsync(s, c, 0, false);
    if src.Ep? {
      TryOneKeeps(s, src.slot, c);
    } else {
      TryAsyncKeeps(s, c, 0, false);
    }
    SleepKeeps(tried.state, c, src, nonblock);
    KeepsTrans(s, tried.state, Sleep(tried.state, c, src, nonblock).state, c);
  }

  lemma TakeKeeps(s: State, c: nat, i: nat)
    requires Shaped(s) && c < |s.procs| && i < |s.queues[c]| && s.queues[c][i] < |s.procs| && s.queues[c][i] != c
    ensures ReceiveKeeps(s, TakeCaller(s, c, i), c)
  {
  }

  /** What a receive leaves alone; and it takes no notification while its caller waits for a reply. */
  lemma ReceiveFrame(s: State, c: nat, src: Endpoint, nonblock: bool, io: Io)
    requires Shaped(s) && c < |s.procs| && c !in s.procs[c].ipcTo && (src.Ep? ==> src.slot < |s.procs|)
    requires (forall p | p in s.queues[c] :: p < |s.procs|) && c !in s.queues[c]
    ensures ReceiveKeeps(s, MiniReceive(s, c, src, nonblock, io).state, c)
  {
    hide TryOne, TryAsync, Sleep, TakeCaller, TakeNotice, NotifyScan, QueueScan, ReceiveKeeps;
    SelfKeeps(s, c);
    SleepKeeps(s, c, src, nonblock);
    TriedKeeps(s, c, src, nonblock);
    var note := NotifyScan(s.procs[c].pending, |s.procs|, src, 0);
    if note.Some? && !s.procs[c].replyPend {
      NoticeKeeps(s, c, note.value);
    }
    var i := QueueScan(s.queues[c], src);
    if i < |s.queues[c]| {
      assert s.queues[c][i] in s.queues[c];
      TakeKeeps(s, c, i);
    }
  }

  /**
   What the call of another process may do to one: wake it, if it was asleep receiving, with a message from a source
   it waits for, and with no notification while it waits for a reply; end its sending; and leave notifications.
   */
  predicate Met(x: Proc, y: Proc) {
    && SameSelf(x, y) && y.replyPend == x.replyPend && x.pending <= y.pending
    && y.getFrom == x.getFrom && y.sendTo == x.sendTo && y.sendMsg == x.sendMsg && (y.sending ==> x.sending)
    && if x.receiving && !y.receiving then
         && x.inbox == Vacant && y.inbox != Vacant
         && (x.getFrom == Any || y.inbox.source == x.getFrom) && (y.inbox.Notice? ==> !x.replyPend)
       else y.receiving == x.receiving && y.inbox == x.inbox
  }

  ghost predicate OthersMet(s: State, t: State, c: nat) {
    |t.procs| == |s.procs| && forall q | 0 <= q < |s.procs| && q != c :: Met(s.procs[q], t.procs[q])
  }

  lemma MetTrans(s: State, t: State, u: State, c: nat)
    requires OthersMet(s, t, c) && OthersMet(t, u, c)
    ensures OthersMet(s, u, c)
  {
    forall q | 0 <= q < |s.procs| && q != c ensures Met(s.procs[q], u.procs[q]) {
      assert Met(s.procs[q], t.procs[q]) && Met(t.procs[q], u.procs[q]);
    }
  }

  lemma SendMet(s: State, c: nat, d: Endpoint, body: Body, nonblock: bool, io: Io)
    requires Quiet(s) && Shaped(s) && c < |s.procs| && d.Ep? && d.slot < |s.procs| && d.slot != c
    ensures var t := MiniSend(s, c, d, body, nonblock, io).state;
      && OthersMet(s, t, c)
      && t.procs[c] == s.procs[c].(sending := t.procs[c].sending, sendTo := t.procs[c].sendTo, sendMsg := t.procs[c].sendMsg)
  {
    hide DeadlockSize;
  }

  lemma NotifyMet(s: State, c: nat, d: Endpoint)
    requires Quiet(s) && c < |s.procs| && (d.Ep? ==> d.slot != c)
    ensures var t := MiniNotify(s, c, d).state; OthersMet(s, t, c) && t.procs[c] == s.procs[c]
  {
  }

  lemma ReceiveMet(s: State, t: State, c: nat)
    requires ReceiveKeeps(s, t, c)
    ensures OthersMet(s, t, c)
  {
    forall q | 0 <= q < |s.procs| && q != c ensures Met(s.procs[q], t.procs[q]) {
      assert Bystander(s.procs[q], t.procs[q]);
    }
  }

  lemma SendaOneMet(s: State, c: nat, i: nat, e: Entry, io: Io)
    requires Quiet(s) && c < |s.procs| && c !in s.procs[c].ipcTo && e.Request?
    ensures var t := SendaOne(s, c, i, e, io).state; OthersMet(s, t, c) && t.procs[c] == s.procs[c] && Quiet(t)
  {
    SendaOneBalanced(s, c, i, e, io);
    hide Balanced;
    var t := SendaOne(s, c, i, e, io).state;
    if e.dst.Ep? && e.dst.slot < |s.procs| && e.dst.slot != c {
      var d := e.dst.slot;
      if |t.log| > |s.log| {
        assert t.procs == s.procs[d := s.procs[d].(inbox := Letter(EpOf(s, c), e.body), receiving := false)];
        assert Met(s.procs[d], t.procs[d]);
      } else {
        assert t == s || t.procs == s.procs[d := s.procs[d].(asynMsg := true)];
      }
    }
  }

  lemma {:induction false} SendaMet(s: State, c: nat, table: seq<Entry>, i: nat, io: Io)
    requires Quiet(s) && c < |s.procs| && c !in s.procs[c].ipcTo && i <= |table|
    ensures var t := SendaLoop(s, c, table, i, io).state; OthersMet(s, t, c) && t.procs[c] == s.procs[c]
    decreases |table| - i
  {
    if i < |table| {
      match table[i]
      case Blank => SendaMet(s, c, table, i + 1, io);
      case Garbled =>
      case Request(_, _, _, _, _, _) =>
        hide SendaOne, OthersMet, Quiet;
        var one := SendaOne(s, c, i, table[i], io);
        SendaOneMet(s, c, i, table[i], io);
        SendaMet(one.state, c, table[i := one.entry], i + 1, io);
        MetTrans(s, one.state, SendaLoop(s, c, table, i, io).state, c);
    }
  }

  lemma MiniSendaMet(s: State, c: nat, table: seq<Entry>, io: Io)
    requires Quiet(s) && c < |s.procs| && c !in s.procs[c].ipcTo
    ensures var t := MiniSenda(s, c, table, io).state;
      OthersMet(s, t, c) && t.procs[c] == s.procs[c].(table := t.procs[c].table)
  {
    hide SendaLoop;
    var s0 := Put(s, c, s.procs[c].(table := []));
    SendaMet(s0, c, table, 0, io);
  }

  /** What a call does to processes other than its caller, and to the caller's identity and its wish for a reply. */
  ghost predicate Civil(s: State, t: State, c: nat, call: Call)
    requires c < |s.procs|
  {
    && OthersMet(s, t, c) && SameSelf(s.procs[c], t.procs[c])
    && t.procs[c].replyPend == (if call.SendRec? then true else if call.Receive? then false else s.procs[c].replyPend)
    && (!call.Receive? ==> !t.procs[c].inbox.Notice?)
  }

  lemma ReceiveCivil(s: State, c: nat, src: Endpoint, io: Io)
    requires Inv(s) && CanCall(s, c) && (src.Ep? ==> src.slot < |s.procs|)
    ensures TypeOk(s) && Civil(s, MiniReceive(SetReplyPend(s, c, false), c, src, false, io).state, c, Receive(src))
  {
    hide MiniReceive;
    var s1 := SetReplyPend(s, c, false);
    QueuesInRange(s);
    assert Exact(s, c) && !SendsTo(s, c, c) && PendingOk(s, c);
    ReceiveFrame(s1, c, src, false, io);
    ReceiveMet(s1, MiniReceive(s1, c, src, false, io).state, c);
    MetTrans(s, s1, MiniReceive(s1, c, src, false, io).state, c);
  }

  lemma SendRecCivil(s: State, c: nat, d: Endpoint, body: Body, nonblock: bool, io: Io)
    requires Inv(s) && CanCall(s, c) && Screen(s, c, SendRec(d, body, nonblock)) == Ok
    ensures TypeOk(s)
    ensures var call := SendRec(d, body, nonblock); Civil(s, KipcCall(s, c, call, io).state, c, call)
  {
    hide MiniReceive, MiniSend;
    QueuesInRange(s);
    assert PendingOk(s, c);
    ReplyPendInv(s, c, true);
    var s1 := SetReplyPend(s, c, true);
    var sent := MiniSend(s1, c, d, body, nonblock, io);
    SendMet(s1, c, d, body, nonblock, io);
    MetTrans(s, s1, sent.state, c);
    if sent.status == Ok {
      SendThenReceive(s1, c, d, body, nonblock, io);
      QueuesInRange(sent.state);
      assert Exact(sent.state, c) && WaitsOk(sent.state, c) && !SendsTo(sent.state, c, c) && PendingOk(sent.state, c);
      var t := MiniReceive(sent.state, c, d, false, io).state;
      ReceiveFrame(sent.state, c, d, false, io);
      ReceiveMet(sent.state, t, c);
      MetTrans(s, sent.state, t, c);
    }
  }

  /** So does every call that is let through. */
  lemma CallCivil(s: State, c: nat, call: Call, io: Io)
    requires Inv(s) && CanCall(s, c) && Screen(s, c, call) == Ok
    ensures TypeOk(s) && Civil(s, KipcCall(s, c, call, io).state, c, call)
  {
    hide MiniReceive, MiniSend, MiniSenda, MiniNotify, Met;
    QueuesInRange(s);
    assert PendingOk(s, c);
    match call
    case Send(d, body, nonblock) => SendMet(s, c, d, body, nonblock, io);
    case Receive(src) => ReceiveCivil(s, c, src, io);
    case SendRec(d, body, nonblock) => SendRecCivil(s, c, d, body, nonblock, io);
    case Notify(d) => NotifyMet(s, c, d);
    case Senda(table) => MiniSendaMet(s, c, table, io);
  }

  // ------------------------------------------------------------------ sources

  /** What `c` has been handed, if anything, is from a source it asked for. */
  predicate Asked(x: Proc, y: Proc, src: Endpoint) {
    y.inbox == x.inbox || (y.inbox != Vacant && (src == Any || y.inbox.source == src))
  }

  lemma TriedAsked(s: State, c: nat, src: Endpoint)
    requires c < |s.procs| && (src.Ep? ==> IsOkEndpoint(s, src))
    ensures var tried := if src.Ep? then TryOne(s, src.slot, c).outcome else TryAsync(s, c, 0, false);
      |tried.state.procs| == |s.procs| && (src.Ep? || tried.status != Ok ==> Asked(s.procs[c], tried.state.procs[c], src))
  {
    hide TableScan, TryAsync;
    if src == Any {
      TryAsyncMisses(s, c, 0, false);
    }
  }

  lemma {:induction false} TryAsyncMisses(s: State, c: nat, k: nat, postponed: bool)
    requires c < |s.procs|
    ensures var r := TryAsync(s, c, k, postponed); r.status != Ok ==> r.state.procs[c].inbox == s.procs[c].inbox
    decreases |s.procs| - k
  {
    if k < |s.procs| && s.procs[k].life == Free {
      TryAsyncMisses(s, c, k + 1, postponed);
    } else if k < |s.procs| {
      hide TableScan;
      var a := TryOne(s, k, c);
      if a.outcome.status != Ok {
        TryAsyncMisses(a.outcome.state, c, k + 1, postponed || a.postponed);
      }
    }
  }

  /** A receive from one source is given nothing from another. */
  lemma ReceiveAsked(s: State, c: nat, src: Endpoint, nonblock: bool, io: Io)
    requires Inv(s) && MayReceive(s, c, src) && src.Ep? && forall p | p in s.queues[c] :: p < |s.procs|
    ensures var r := MiniReceive(s, c, src, nonblock, io); var x, y := s.procs[c], r.state.procs[c];
      && Asked(x, y, src)
      && (r.status == Ok ==> y.inbox != Vacant || (y.receiving && y.getFrom == src))
  {
    hide TryOne, TryAsync, NotifyScan, QueueScan, DeadlockSize, Acyclic, NoMissedSend;
    assert PendingOk(s, c) && Exact(s, c);
    TriedAsked(s, c, src);
    TriedFills(s, c, src);
    NotedIs(s, c, src);
    var i := QueueScan(s.queues[c], src);
    if i < |s.queues[c]| {
      assert s.queues[c][i] in s.queues[c] && SendsTo(s, s.queues[c][i], c);
    }
  }

  lemma TriedFills(s: State, c: nat, src: Endpoint)
    requires c < |s.procs| && src.Ep? && src.slot < |s.procs|
    ensures var tried := TryOne(s, src.slot, c).outcome; tried.status == Ok ==> tried.state.procs[c].inbox != Vacant
  {
    hide TableScan;
  }

  /** A SENDREC that succeeds has its answer, from its peer, or sleeps waiting for its peer and nobody else. */
  lemma SendRecWaits(s: State, c: nat, d: Endpoint, body: Body, nonblock: bool, io: Io)
    requires Inv(s) && CanCall(s, c) && Screen(s, c, SendRec(d, body, nonblock)) == Ok
    ensures TypeOk(s)
    ensures var r := KipcCall(s, c, SendRec(d, body, nonblock), io);
      r.status == Ok ==> c < |r.state.procs| && var y := r.state.procs[c];
        (y.inbox.Letter? && y.inbox.source == d) || (y.inbox == Vacant && y.receiving && y.getFrom == d)
  {
    hide MiniReceive, MiniSend, Acyclic, NoMissedSend;
    SendRecCivil(s, c, d, body, nonblock, io);
    assert PendingOk(s, c);
    ReplyPendInv(s, c, true);
    var s1 := SetReplyPend(s, c, true);
    var sent := MiniSend(s1, c, d, body, nonblock, io);
    SendMet(s1, c, d, body, nonblock, io);
    if sent.status == Ok {
      SendThenReceive(s1, c, d, body, nonblock, io);
      QueuesInRange(sent.state);
      ReceiveAsked(sent.state, c, d, false, io);
    }
  }
}

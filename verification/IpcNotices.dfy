/** Nothing arrives that was not sent, and no notification gets lost on its way. */
module IpcNotices {
  import opened Basics
  import opened IpcModel
  import opened IpcInvariants
  import opened IpcSteps
  import opened IpcCauses
  import opened IpcArrivals

  /** What `q` was handed is a message logged on the way from `s` to `t`. */
  ghost predicate FromLog(s: State, t: State, q: nat)
    requires q < |t.procs|
  {
    exists k | |s.log| <= k < |t.log| ::
      Carries(t.log[k]) && t.log[k].dst == q && t.log[k].src < |s.procs| &&
      t.procs[q].inbox == Letter(EpOf(s, t.log[k].src), t.log[k].body)
  }

  /** What `q` was handed is a notification that was pending. */
  ghost predicate FromPending(s: State, t: State, q: nat)
    requires q < |s.procs| == |t.procs|
  {
    exists p :: p in s.procs[q].pending && p !in t.procs[q].pending && p < |s.procs| && t.procs[q].inbox == Notice(EpOf(s, p))
  }

  /** Pending notifications of `q` are still pending, but for one that was just delivered. */
  ghost predicate Kept(s: State, t: State, q: nat)
    requires q < |s.procs| == |t.procs|
  {
    && t.procs[q].pending <= s.procs[q].pending
    && forall p | p in s.procs[q].pending && p !in t.procs[q].pending ::
      p < |s.procs| && s.procs[q].inbox == Vacant && t.procs[q].inbox == Notice(EpOf(s, p))
  }

  ghost predicate Fair(s: State, t: State, q: nat)
    requires q < |s.procs| == |t.procs|
  {
    && Kept(s, t, q)
    && (s.procs[q].inbox != Vacant ==> t.procs[q].inbox == s.procs[q].inbox)
    && (s.procs[q].inbox == Vacant && t.procs[q].inbox != Vacant ==> FromLog(s, t, q) || FromPending(s, t, q))
  }

  ghost predicate Balanced(s: State, t: State) {
    && |s.procs| == |t.procs| && s.log <= t.log
    && (forall q | 0 <= q < |s.procs| :: t.procs[q].gen == s.procs[q].gen)
    && forall q | 0 <= q < |s.procs| :: Fair(s, t, q)
  }

  lemma FairTrans(s: State, t: State, u: State, q: nat)
    requires Balanced(s, t) && Balanced(t, u) && q < |s.procs|
    ensures Fair(s, u, q)
  {
    assert Fair(s, t, q) && Fair(t, u, q);
    if s.procs[q].inbox == Vacant && u.procs[q].inbox != Vacant {
      if t.procs[q].inbox != Vacant {
        if FromLog(s, t, q) {
          var k :| |s.log| <= k < |t.log| && Carries(t.log[k]) && t.log[k].dst == q && t.log[k].src < |s.procs| &&
            t.procs[q].inbox == Letter(EpOf(s, t.log[k].src), t.log[k].body);
          assert u.log[k] == t.log[k];
        }
      } else if FromLog(t, u, q) {
        var k :| |t.log| <= k < |u.log| && Carries(u.log[k]) && u.log[k].dst == q && u.log[k].src < |t.procs| &&
          u.procs[q].inbox == Letter(EpOf(t, u.log[k].src), u.log[k].body);
        assert EpOf(t, u.log[k].src) == EpOf(s, u.log[k].src);
      }
    }
  }

  lemma BalancedTrans(s: State, t: State, u: State)
    requires Balanced(s, t) && Balanced(t, u)
    ensures Balanced(s, u)
  {
    forall q | 0 <= q < |s.procs| ensures Fair(s, u, q) {
      FairTrans(s, t, u, q);
    }
  }

  /** Nothing arrives. */
  lemma Still(s: State, t: State)
    requires |s.procs| == |t.procs| && s.log <= t.log
    requires forall q | 0 <= q < |s.procs| ::
      t.procs[q].gen == s.procs[q].gen && t.procs[q].inbox == s.procs[q].inbox && t.procs[q].pending == s.procs[q].pending
    ensures Balanced(s, t)
  {
  }

  /** One logged message arrives. */
  lemma OneLetter(s: State, t: State, e: Event)
    requires |s.procs| == |t.procs| && t.log == s.log + [e] && Carries(e) && e.src < |s.procs| && e.dst < |s.procs|
    requires forall q | 0 <= q < |s.procs| :: t.procs[q].gen == s.procs[q].gen && t.procs[q].pending == s.procs[q].pending
    requires forall q | 0 <= q < |s.procs| && q != e.dst :: t.procs[q].inbox == s.procs[q].inbox
    requires s.procs[e.dst].inbox == Vacant && t.procs[e.dst].inbox == Letter(EpOf(s, e.src), e.body)
    ensures Balanced(s, t)
  {
    var k := |s.log|;
    assert t.log[k] == e;
    assert FromLog(s, t, e.dst);
  }

  lemma NoticeBalanced(s: State, c: nat, id: nat)
    requires c < |s.procs| && id < |s.procs| && id in s.procs[c].pending && s.procs[c].inbox == Vacant
    ensures Balanced(s, TakeNotice(s, c, id).state)
  {
    var t := TakeNotice(s, c, id).state;
    assert FromPending(s, t, c);
  }

  lemma SendBalanced(s: State, c: nat, d: Endpoint, body: Body, nonblock: bool, io: Io)
    requires Quiet(s) && Shaped(s) && c < |s.procs| && d.Ep? && d.slot < |s.procs|
    ensures Balanced(s, MiniSend(s, c, d, body, nonblock, io).state)
  {
    hide DeadlockSize;
    var t := MiniSend(s, c, d, body, nonblock, io).state;
    if io.mapOut && io.copy && s.procs[d.slot].life != Dead && WillReceive(s.procs[d.slot], EpOf(s, c)) {
      OneLetter(s, t, Handed(c, d.slot, body));
    } else {
      Still(s, t);
    }
  }

  lemma TryOneBalanced(s: State, src: nat, dst: nat)
    requires src < |s.procs| && dst < |s.procs| && s.procs[dst].inbox == Vacant
    ensures var r := TryOne(s, src, dst).outcome;
      Balanced(s, r.state) && (r.status != Ok ==> r.state.procs[dst].inbox == Vacant)
  {
    hide TableScan;
    var x := s.procs[src];
    var t := TryOne(s, src, dst).outcome.state;
    if x.sysProc && |x.table| != 0 && MaySendTo(s, src, dst) {
      var f := TableScan(x.table, EpOf(s, dst), s.procs[dst].replyPend, 0, true, false);
      if f.Hit? {
        OneLetter(s, t, Posted(src, dst, f.index, x.table[f.index].body));
      } else {
        Still(s, t);
      }
    } else {
      Still(s, t);
    }
  }

  lemma {:induction false} TryAsyncBalanced(s: State, c: nat, k: nat, postponed: bool)
    requires c < |s.procs| && s.procs[c].inbox == Vacant
    ensures var r := TryAsync(s, c, k, postponed);
      Balanced(s, r.state) && (r.status != Ok ==> r.state.procs[c].inbox == Vacant)
    decreases |s.procs| - k
  {
    hide Balanced, TryOne;
    if k >= |s.procs| {
      Still(s, TryAsync(s, c, k, postponed).state);
    } else if s.procs[k].life == Free {
      TryAsyncBalanced(s, c, k + 1, postponed);
    } else {
      var a := TryOne(s, k, c);
      TryOneBalanced(s, k, c);
      if a.outcome.status != Ok {
        SameSize(s, a.outcome.state);
        TryAsyncBalanced(a.outcome.state, c, k + 1, postponed || a.postponed);
        BalancedTrans(s, a.outcome.state, TryAsync(s, c, k, postponed).state);
      }
    }
  }

  lemma SameSize(s: State, t: State)
    requires Balanced(s, t)
    ensures |s.procs| == |t.procs|
  {
  }

  lemma SleepBalanced(s: State, c: nat, src: Endpoint, nonblock: bool)
    requires c < |s.procs| && (src.Ep? ==> src.slot < |s.procs|)
    ensures Balanced(s, Sleep(s, c, src, nonblock).state)
  {
    Still(s, Sleep(s, c, src, nonblock).state);
  }

  lemma TailBalanced(s: State, c: nat, src: Endpoint, nonblock: bool)
    requires c < |s.procs| && s.procs[c].inbox == Vacant && (src.Ep? ==> src.slot < |s.procs|)
    ensures
      var tried := if src.Ep? then TryOne(s, src.slot, c).outcome else TryAsync(s, c, 0, false);
      |tried.state.procs| == |s.procs| && Balanced(s, tried.state) && Balanced(s, Sleep(tried.state, c, src, nonblock).state)
  {
    hide Balanced, TryOne, TryAsync, Sleep;
    var tried := if src.Ep? then TryOne(s, src.slot, c).outcome else TryAsync(s, c, 0, false);
    if src.Ep? {
      TryOneBalanced(s, src.slot, c);
    } else {
      TryAsyncBalanced(s, c, 0, false);
    }
    SameSize(s, tried.state);
    SleepBalanced(tried.state, c, src, nonblock);
    BalancedTrans(s, tried.state, Sleep(tried.state, c, src, nonblock).state);
  }

  lemma TakeBalanced(s: State, c: nat, i: nat)
    requires Shaped(s) && c < |s.procs| && s.procs[c].inbox == Vacant
    requires i < |s.queues[c]| && s.queues[c][i] < |s.procs|
    ensures Balanced(s, TakeCaller(s, c, i))
  {
    var p := s.queues[c][i];
    OneLetter(s, TakeCaller(s, c, i), Delivered(p, c, s.procs[p].sendMsg));
  }

  lemma NoteFound(s: State, c: nat, src: Endpoint)
    requires c < |s.procs| && (src.Ep? ==> src.slot < |s.procs|) && forall id | id in s.procs[c].pending :: id < |s.procs|
    ensures var r := NotifyScan(s.procs[c].pending, |s.procs|, src, 0); r.Some? ==> r.value in s.procs[c].pending
  {
    if src.Ep? {
      ScanOne(s.procs[c].pending, |s.procs|, src, 0);
    } else {
      ScanAny(s.procs[c].pending, |s.procs|, 0);
    }
  }

  lemma ReceiveBalanced(s: State, c: nat, src: Endpoint, nonblock: bool, io: Io)
    requires Shaped(s) && c < |s.procs| && s.procs[c].inbox == Vacant && (src.Ep? ==> src.slot < |s.procs|)
    requires forall p | p in s.queues[c] :: p < |s.procs|
    requires forall id | id in s.procs[c].pending :: id < |s.procs|
    ensures Balanced(s, MiniReceive(s, c, src, nonblock, io).state)
  {
    hide Balanced, TryOne, TryAsync, Sleep, TakeCaller, TakeNotice, NotifyScan, QueueScan;
    Still(s, s);
    SleepBalanced(s, c, src, nonblock);
    NoteFound(s, c, src);
    var note := NotifyScan(s.procs[c].pending, |s.procs|, src, 0);
    if note.Some? {
      NoticeBalanced(s, c, note.value);
    }
    var i := QueueScan(s.queues[c], src);
    if i < |s.queues[c]| {
      assert s.queues[c][i] in s.queues[c];
      TakeBalanced(s, c, i);
    }
    TailBalanced(s, c, src, nonblock);
  }

  lemma SendaOneBalanced(s: State, c: nat, i: nat, e: Entry, io: Io)
    requires Quiet(s) && c < |s.procs| && e.Request?
    ensures var t := SendaOne(s, c, i, e, io).state; Balanced(s, t) && Quiet(t)
  {
    var t := SendaOne(s, c, i, e, io).state;
    if |t.log| > |s.log| {
      OneLetter(s, t, Posted(c, e.dst.slot, i, e.body));
    } else {
      Still(s, t);
    }
  }

  lemma {:induction false} SendaBalanced(s: State, c: nat, table: seq<Entry>, i: nat, io: Io)
    requires Quiet(s) && c < |s.procs| && i <= |table|
    ensures Balanced(s, SendaLoop(s, c, table, i, io).state)
    decreases |table| - i
  {
    hide Balanced, SendaOne, Quiet;
    if i == |table| {
      Still(s, s);
    } else {
      match table[i]
      case Blank => SendaBalanced(s, c, table, i + 1, io);
      case Garbled => Still(s, s);
      case Request(_, _, _, _, _, _) =>
        var one := SendaOne(s, c, i, table[i], io);
        SendaOneBalanced(s, c, i, table[i], io);
        SendaBalanced(one.state, c, table[i := one.entry], i + 1, io);
        BalancedTrans(s, one.state, SendaLoop(s, c, table, i, io).state);
    }
  }

  lemma MiniSendaBalanced(s: State, c: nat, table: seq<Entry>, io: Io)
    requires Quiet(s) && c < |s.procs|
    ensures Balanced(s, MiniSenda(s, c, table, io).state)
  {
    hide Balanced, SendaLoop;
    Still(s, s);
    var s0 := Put(s, c, s.procs[c].(table := []));
    Still(s, s0);
    assert Quiet(s0);
    var r := SendaLoop(s0, c, table, 0, io);
    SendaBalanced(s0, c, table, 0, io);
    BalancedTrans(s, s0, r.state);
    var t := Put(r.state, c, r.state.procs[c].(table := r.table));
    Still(r.state, t);
    BalancedTrans(s, r.state, t);
  }

  /** A kernel call other than a notification hands over only what it logs, or what was pending. */
  lemma CallBalanced(s: State, c: nat, call: Call, io: Io)
    requires Inv(s) && Enabled(s, Trap(c, call, io)) && !call.Notify?
    ensures Balanced(s, KipcCall(s, c, call, io).state)
  {
    hide Balanced, MiniSend, MiniReceive, MiniSenda;
    Still(s, s);
    if Screen(s, c, call) == Ok {
      assert PendingOk(s, c);
      match call
      case Send(d, body, nonblock) => SendBalanced(s, c, d, body, nonblock, io);
      case Receive(src) =>
        var s1 := SetReplyPend(s, c, false);
        Still(s, s1);
        ReceiveBalanced(s1, c, src, false, io);
        BalancedTrans(s, s1, MiniReceive(s1, c, src, false, io).state);
      case SendRec(d, body, nonblock) => SendRecBalanced(s, c, call, io);
      case Senda(table) => MiniSendaBalanced(s, c, table, io);
    }
  }

  lemma SendRecBalanced(s: State, c: nat, call: Call, io: Io)
    requires Inv(s) && Enabled(s, Trap(c, call, io)) && call.SendRec? && Screen(s, c, call) == Ok
    ensures Balanced(s, KipcCall(s, c, call, io).state)
  {
    hide Balanced, MiniSend, MiniReceive;
    var d := call.peer;
    ReplyPendInv(s, c, true);
    var s1 := SetReplyPend(s, c, true);
    Still(s, s1);
    var sent := MiniSend(s1, c, d, call.request, call.nonblocking, io);
    SendBalanced(s1, c, d, call.request, call.nonblocking, io);
    BalancedTrans(s, s1, sent.state);
    if sent.status == Ok {
      SendThenReceive(s1, c, d, call.request, call.nonblocking, io);
      QueuesInRange(sent.state);
      assert PendingOk(sent.state, c);
      ReceiveBalanced(sent.state, c, d, false, io);
      BalancedTrans(s, sent.state, MiniReceive(sent.state, c, d, false, io).state);
    }
  }

  /**
   A notification is handed over at once to a receiver that waits for it and not for a reply, which has room for it;
   otherwise it stays pending. Nothing else changes.
   */
  lemma NotifyExact(s: State, c: nat, d: Endpoint)
    requires Quiet(s) && c < |s.procs| && IsOkEndpoint(s, d)
    ensures var r, x := MiniNotify(s, c, d), s.procs[d.slot];
      && r.status == Ok
      && |r.state.procs| == |s.procs| && r.state.queues == s.queues && r.state.log == s.log
      && (forall q | 0 <= q < |s.procs| && q != d.slot :: r.state.procs[q] == s.procs[q])
      && if WillReceive(x, EpOf(s, c)) && !x.replyPend
        then x.inbox == Vacant && r.state.procs[d.slot] == x.(inbox := Notice(EpOf(s, c)), receiving := false)
        else r.state.procs[d.slot] == x.(pending := x.pending + {c})
  {
  }

  /** How a pending notification of `q` may leave: delivered, or ended by an exit or a new process in the slot. */
  ghost predicate Ended(s: State, t: State, e: Step, p: nat, q: nat)
    requires q < |s.procs| && q < |t.procs|
  {
    || (p < |s.procs| && s.procs[q].inbox == Vacant && t.procs[q].inbox == Notice(EpOf(s, p)))
    || (e.Clear? && e.dying == p) || (e.Exit? && e.exiting == p) || (e.Spawn? && e.child == q)
  }

  /** In every run, a pending notification stays pending until it is delivered or ended. */
  lemma RunKeepsNotices(states: seq<State>, steps: seq<Step>, i: nat, p: nat, q: nat)
    requires IsRun(states, steps) && i < |steps| && q < |states[i].procs| && p in states[i].procs[q].pending
    ensures q < |states[i + 1].procs|
    ensures p in states[i + 1].procs[q].pending || Ended(states[i], states[i + 1], steps[i], p, q)
  {
    RunInv(states, steps, i);
    StepKeeps(states[i], steps[i], p, q);
  }

  lemma StepKeeps(s: State, e: Step, p: nat, q: nat)
    requires Inv(s) && Enabled(s, e) && q < |s.procs| && p in s.procs[q].pending
    ensures q < |Apply(s, e).procs|
    ensures p in Apply(s, e).procs[q].pending || Ended(s, Apply(s, e), e, p, q)
  {
    hide Inv, KipcCall, MiniNotify, ClearEndpoint;
    match e {
      case Trap(c, call, io) => CallKeeps(s, c, call, io, p, q);
      case Signal(c, d) => NotifyKeeps(s, c, d, p, q);
      case Clear(rc) => ClearKeeps(s, rc, p, q);
      case Exit(rc) => ClearKeeps(s, rc, p, q);
      case _ =>
    }
  }

  lemma ClearKeeps(s: State, rc: nat, p: nat, q: nat)
    requires Shaped(s) && rc < |s.procs| && s.procs[rc].life != Free && q < |s.procs| && p in s.procs[q].pending
    ensures |ClearEndpoint(s, rc).procs| == |s.procs|
    ensures p != rc ==> p in ClearEndpoint(s, rc).procs[q].pending
  {
    hide CallOffs, Without;
  }

  lemma CallKeeps(s: State, c: nat, call: Call, io: Io, p: nat, q: nat)
    requires Inv(s) && Enabled(s, Trap(c, call, io)) && q < |s.procs| && p in s.procs[q].pending
    ensures q < |KipcCall(s, c, call, io).state.procs|
    ensures var t := KipcCall(s, c, call, io).state; p in t.procs[q].pending || Ended(s, t, Trap(c, call, io), p, q)
  {
    hide MiniSend, MiniReceive, MiniSenda;
    if call.Notify? {
      NotifyKeeps(s, c, call.target, p, q);
    } else {
      CallBalanced(s, c, call, io);
      assert Fair(s, KipcCall(s, c, call, io).state, q);
    }
  }

  lemma NotifyKeeps(s: State, c: nat, d: Endpoint, p: nat, q: nat)
    requires c < |s.procs| && q < |s.procs| && p in s.procs[q].pending
    ensures var t := MiniNotify(s, c, d).state; q < |t.procs| && p in t.procs[q].pending
  {
  }

  /** What `q` was handed is a message that the step logs, and has reason to. */
  ghost predicate FromSend(s: State, t: State, e: Step, q: nat)
    requires q < |t.procs|
  {
    exists k | |s.log| <= k < |t.log| ::
      && Carries(t.log[k]) && t.log[k].dst == q && t.log[k].src < |s.procs| && Caused(s, e, t.log[k])
      && t.procs[q].inbox == Letter(EpOf(s, t.log[k].src), t.log[k].body)
  }

  lemma FromLogFrom(s: State, t: State, e: Step, q: nat)
    requires q < |t.procs| && AllCaused(s, t, e)
    ensures FromLog(s, t, q) ==> FromSend(s, t, e, q)
  {
    hide Caused;
  }

  /** The notification that a step gives, to whoever takes it at once. */
  ghost predicate FromStep(s: State, t: State, e: Step, q: nat)
    requires q < |t.procs|
  {
    match e
    case Trap(c, call, _) => c < |s.procs| && call.Notify? && t.procs[q].inbox == Notice(EpOf(s, c))
    case Signal(c, _) => c < |s.procs| && t.procs[q].inbox == Notice(EpOf(s, c))
    case _ => false
  }

  /** An inbox is emptied by copying it out, or for the first process in a slot. */
  predicate Empties(e: Step, q: nat) {
    (e.CopyOut? && e.reader == q) || (e.Spawn? && e.child == q)
  }

  /**
   In every run, an inbox changes only when it is emptied, or takes in a message that the step was asked to send or to
   fetch, a notification that was pending, or the one the step gives.
   */
  lemma RunExplains(states: seq<State>, steps: seq<Step>, i: nat, q: nat)
    requires IsRun(states, steps) && i < |steps| && q < |states[i].procs|
    ensures var s, t := states[i], states[i + 1];
      && |t.procs| == |s.procs| && s.log <= t.log
      && (|| t.procs[q].inbox == s.procs[q].inbox
          || (t.procs[q].inbox == Vacant && Empties(steps[i], q))
          || FromSend(s, t, steps[i], q) || FromPending(s, t, q) || FromStep(s, t, steps[i], q))
  {
    RunInv(states, steps, i);
    StepExplains(states[i], steps[i], q);
  }

  lemma StepExplains(s: State, e: Step, q: nat)
    requires Inv(s) && Enabled(s, e) && q < |s.procs|
    ensures var t := Apply(s, e);
      && |t.procs| == |s.procs| && s.log <= t.log
      && (|| t.procs[q].inbox == s.procs[q].inbox
          || (t.procs[q].inbox == Vacant && Empties(e, q))
          || FromSend(s, t, e, q) || FromPending(s, t, q) || FromStep(s, t, e, q))
  {
    hide KipcCall, ClearEndpoint, FromLog, FromPending, FromSend, AllCaused;
    StepCaused(s, e);
    SameNumber(s, e);
    FromLogFrom(s, Apply(s, e), e, q);
    match e {
      case Trap(c, call, io) => TrapExplains(s, c, call, io, q);
      case Clear(rc) => ClearStill(s, rc, q);
      case Exit(rc) => ClearStill(s, rc, q);
      case Spawn(parent, child, stop) => SpawnEmpty(s, parent, child, stop);
      case _ =>
    }
  }

  lemma SameNumber(s: State, e: Step)
    requires Inv(s) && Enabled(s, e)
    ensures |Apply(s, e).procs| == |s.procs|
  {
    hide KipcCall;
    match e {
      case Trap(c, call, io) => CallArrives(s, c, call, io);
      case _ =>
    }
  }

  lemma TrapExplains(s: State, c: nat, call: Call, io: Io, q: nat)
    requires Inv(s) && Enabled(s, Trap(c, call, io)) && q < |s.procs|
    ensures var t := KipcCall(s, c, call, io).state;
      && |t.procs| == |s.procs| && s.log <= t.log
      && (|| t.procs[q].inbox == s.procs[q].inbox || FromLog(s, t, q) || FromPending(s, t, q)
          || FromStep(s, t, Trap(c, call, io), q))
  {
    hide MiniSend, MiniReceive, MiniSenda;
    if !call.Notify? {
      CallBalanced(s, c, call, io);
      assert Fair(s, KipcCall(s, c, call, io).state, q);
    }
  }

  lemma ClearStill(s: State, rc: nat, q: nat)
    requires Shaped(s) && rc < |s.procs| && s.procs[rc].life != Free && q < |s.procs|
    ensures var t := ClearEndpoint(s, rc);
      |t.procs| == |s.procs| && s.log <= t.log && t.procs[q].inbox == s.procs[q].inbox
  {
    hide CallOffs, Without;
  }

  lemma SpawnEmpty(s: State, parent: nat, child: nat, stop: bool)
    requires Quiet(s) && Shaped(s) && parent < |s.procs| && child < |s.procs|
    ensures var r := Fork(s, parent, child, stop);
      |r.state.procs| == |s.procs| && (r.status == Ok ==> r.state.procs[child].inbox == Vacant)
  {
  }
}

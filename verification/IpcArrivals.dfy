/** Messages arrive unaltered, under their sender's endpoint, and none overwrites another. */
module IpcArrivals {
  import opened IpcModel
  import opened IpcInvariants
  import opened IpcSteps
  import opened IpcCauses

  predicate Carries(e: Event) {
    e.Delivered? || e.Handed? || e.Posted?
  }

  ghost predicate Arrived(s: State, t: State, e: Event) {
    && e.src < |s.procs| && |s.procs| == |t.procs| && Carries(e) && e.dst < |s.procs|
    && s.procs[e.dst].inbox == Vacant && t.procs[e.dst].inbox == Letter(EpOf(s, e.src), e.body)
  }

  /** Inboxes in use are left alone, and each message logged between `s` and `t` is found in its destination's. */
  ghost predicate Arrivals(s: State, t: State) {
    && |s.procs| == |t.procs| && s.log <= t.log
    && (forall q | 0 <= q < |s.procs| :: t.procs[q].gen == s.procs[q].gen)
    && (forall q | 0 <= q < |s.procs| && s.procs[q].inbox != Vacant :: t.procs[q].inbox == s.procs[q].inbox)
    && forall k | |s.log| <= k < |t.log| && Carries(t.log[k]) :: Arrived(s, t, t.log[k])
  }

  lemma ArrivalsTrans(s: State, t: State, u: State)
    requires Arrivals(s, t) && Arrivals(t, u)
    ensures Arrivals(s, u)
  {
    forall k | |s.log| <= k < |u.log| && Carries(u.log[k]) ensures Arrived(s, u, u.log[k]) {
      if k < |t.log| {
        assert u.log[k] == t.log[k];
        assert Arrived(s, t, t.log[k]);
      } else {
        assert Arrived(t, u, u.log[k]);
      }
    }
  }

  lemma SendArrives(s: State, c: nat, d: Endpoint, body: Body, nonblock: bool, io: Io)
    requires Quiet(s) && Shaped(s) && c < |s.procs| && d.Ep? && d.slot < |s.procs|
    ensures Arrivals(s, MiniSend(s, c, d, body, nonblock, io).state)
  {
  }

  lemma NotifyArrives(s: State, c: nat, d: Endpoint)
    requires Quiet(s) && c < |s.procs|
    ensures Arrivals(s, MiniNotify(s, c, d).state)
  {
  }

  lemma ServeArrives(s: State, src: nat, dst: nat, i: nat)
    requires src < |s.procs| && dst < |s.procs| && s.procs[dst].inbox == Vacant
    requires i < |s.procs[src].table| && s.procs[src].table[i].Request?
    ensures Arrivals(s, Serve(s, src, dst, i))
  {
  }

  lemma TryOneArrives(s: State, src: nat, dst: nat)
    requires src < |s.procs| && dst < |s.procs| && s.procs[dst].inbox == Vacant
    ensures var r := TryOne(s, src, dst).outcome;
      Arrivals(s, r.state) && (r.status != Ok ==> r.state.procs[dst].inbox == Vacant)
  {
    var x := s.procs[src];
    if x.sysProc && |x.table| != 0 && MaySendTo(s, src, dst) {
      var f := TableScan(x.table, EpOf(s, dst), s.procs[dst].replyPend, 0, true, false);
      if f.Hit? {
        ServeArrives(s, src, dst, f.index);
      } else {
        assert Arrivals(s, Put(s, src, x.(table := [])));
      }
    }
  }

  lemma {:induction false} TryAsyncArrives(s: State, c: nat, k: nat, postponed: bool)
    requires c < |s.procs| && s.procs[c].inbox == Vacant
    ensures var r := TryAsync(s, c, k, postponed);
      Arrivals(s, r.state) && (r.status != Ok ==> r.state.procs[c].inbox == Vacant)
    decreases |s.procs| - k
  {
    if k < |s.procs| {
      if s.procs[k].life == Free {
        TryAsyncArrives(s, c, k + 1, postponed);
      } else {
        var a := TryOne(s, k, c);
        TryOneArrives(s, k, c);
        if a.outcome.status != Ok {
          TryAsyncArrives(a.outcome.state, c, k + 1, postponed || a.postponed);
          ArrivalsTrans(s, a.outcome.state, TryAsync(s, c, k, postponed).state);
        }
      }
    }
  }

  lemma SleepArrives(s: State, c: nat, src: Endpoint, nonblock: bool)
    requires c < |s.procs| && (src.Ep? ==> src.slot < |s.procs|)
    ensures Arrivals(s, Sleep(s, c, src, nonblock).state)
  {
  }

  lemma TakeArrives(s: State, c: nat, i: nat)
    requires Shaped(s) && c < |s.procs| && s.procs[c].inbox == Vacant
    requires i < |s.queues[c]| && s.queues[c][i] < |s.procs|
    ensures Arrivals(s, TakeCaller(s, c, i))
  {
  }

  lemma TailArrives(s: State, c: nat, src: Endpoint, nonblock: bool)
    requires c < |s.procs| && s.procs[c].inbox == Vacant && (src.Ep? ==> src.slot < |s.procs|)
    ensures
      var tried := if src.Ep? then TryOne(s, src.slot, c).outcome else TryAsync(s, c, 0, false);
      Arrivals(s, tried.state) && Arrivals(s, Sleep(tried.state, c, src, nonblock).state)
  {
    var tried := if src.Ep? then TryOne(s, src.slot, c).outcome else TryAsync(s, c, 0, false);
    if src.Ep? {
      TryOneArrives(s, src.slot, c);
    } else {
      TryAsyncArrives(s, c, 0, false);
    }
    SleepArrives(tried.state, c, src, nonblock);
    ArrivalsTrans(s, tried.state, Sleep(tried.state, c, src, nonblock).state);
  }

  lemma ReceiveArrives(s: State, c: nat, src: Endpoint, nonblock: bool, io: Io)
    requires Shaped(s) && c < |s.procs| && s.procs[c].inbox == Vacant && (src.Ep? ==> src.slot < |s.procs|)
    requires forall p | p in s.queues[c] :: p < |s.procs|
    ensures Arrivals(s, MiniReceive(s, c, src, nonblock, io).state)
  {
    if !io.mapIn || (src.Ep? && s.procs[src.slot].life == Dead) {
    } else if s.procs[c].sending {
      SleepArrives(s, c, src, nonblock);
    } else {
      var note := NotifyScan(s.procs[c].pending, |s.procs|, src, 0);
      if !s.procs[c].replyPend && note.Some? {
        assert Arrivals(s, TakeNotice(s, c, note.value).state);
      } else {
        var i := QueueScan(s.queues[c], src);
        if i < |s.queues[c]| {
          assert s.queues[c][i] in s.queues[c];
          TakeArrives(s, c, i);
        } else if s.procs[c].asynMsg {
          TailArrives(s, c, src, nonblock);
        } else {
          SleepArrives(s, c, src, nonblock);
        }
      }
    }
  }

  lemma {:induction false} SendaArrives(s: State, c: nat, table: seq<Entry>, i: nat, io: Io)
    requires Quiet(s) && c < |s.procs| && i <= |table|
    ensures Arrivals(s, SendaLoop(s, c, table, i, io).state)
    decreases |table| - i
  {
    if i < |table| {
      match table[i]
      case Blank => SendaArrives(s, c, table, i + 1, io);
      case Garbled =>
      case Request(_, _, _, _, _, _) =>
        var one := SendaOne(s, c, i, table[i], io);
        assert Arrivals(s, one.state) && Quiet(one.state);
        SendaArrives(one.state, c, table[i := one.entry], i + 1, io);
        ArrivalsTrans(s, one.state, SendaLoop(s, c, table, i, io).state);
    }
  }

  lemma MiniSendaArrives(s: State, c: nat, table: seq<Entry>, io: Io)
    requires Quiet(s) && c < |s.procs|
    ensures Arrivals(s, MiniSenda(s, c, table, io).state)
  {
    if s.procs[c].sysProc {
      var s0 := Put(s, c, s.procs[c].(table := []));
      assert Arrivals(s, s0) && Quiet(s0);
      if |table| != 0 && io.mapOut && |table| <= 16 * |s.procs| {
        var r := SendaLoop(s0, c, table, 0, io);
        SendaArrives(s0, c, table, 0, io);
        ArrivalsTrans(s, s0, r.state);
        var t := Put(r.state, c, r.state.procs[c].(table := r.table));
        assert Arrivals(r.state, t);
        ArrivalsTrans(s, r.state, t);
      }
    }
  }

  lemma CallArrives(s: State, c: nat, call: Call, io: Io)
    requires Inv(s) && Enabled(s, Trap(c, call, io))
    ensures var t := KipcCall(s, c, call, io).state; Arrivals(s, t) && AllCaused(s, t, Trap(c, call, io))
  {
    hide AllCaused;
    CallCaused(s, c, call, io);
    if Screen(s, c, call) == Ok {
      assert PendingOk(s, c);
      match call
      case Send(d, body, nonblock) => SendArrives(s, c, d, body, nonblock, io);
      case Receive(src) =>
        var s1 := SetReplyPend(s, c, false);
        ReceiveArrives(s1, c, src, false, io);
        ArrivalsTrans(s, s1, KipcCall(s, c, call, io).state);
      case SendRec(d, body, nonblock) =>
        ReplyPendInv(s, c, true);
        var s1 := SetReplyPend(s, c, true);
        SendArrives(s1, c, d, body, nonblock, io);
        var sent := MiniSend(s1, c, d, body, nonblock, io);
        ArrivalsTrans(s, s1, sent.state);
        if sent.status == Ok {
          SendThenReceive(s1, c, d, body, nonblock, io);
          QueuesInRange(sent.state);
          ReceiveArrives(sent.state, c, d, false, io);
          ArrivalsTrans(s, sent.state, KipcCall(s, c, call, io).state);
        }
      case Notify(d) => NotifyArrives(s, c, d);
      case Senda(table) => MiniSendaArrives(s, c, table, io);
    }
  }

  /** In every run, each message a kernel entry logs was asked for and is the one its destination then holds, and no
      message that still waits to be copied out is lost. */
  lemma RunArrives(states: seq<State>, steps: seq<Step>, i: nat)
    requires IsRun(states, steps) && i < |steps| && (steps[i].Trap? || steps[i].Signal?)
    ensures Arrivals(states[i], states[i + 1]) && AllCaused(states[i], states[i + 1], steps[i])
  {
    RunInv(states, steps, i);
    match steps[i]
    case Trap(c, call, io) => CallArrives(states[i], c, call, io);
    case Signal(p, d) => NotifyArrives(states[i], p, d);
  }
}

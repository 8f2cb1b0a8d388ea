/** What lets an event into the log: each is the doing of the kernel entry that writes it. */
module IpcCauses {
  import opened IpcModel
  import opened IpcInvariants
  import opened IpcSteps

  /** The step is a call of `p` that sends `body` to the process in slot `d`, which it is permitted to. */
  predicate Asks(s: State, e: Step, p: nat, d: nat, body: Body) {
    && e.Trap? && e.caller == p && p < |s.procs| && d < |s.procs| && MaySendTo(s, p, d)
    && match e.call
      case Send(to, b, _) => to == EpOf(s, d) && b == body
      case SendRec(to, b, _) => to == EpOf(s, d) && b == body
      case _ => false
  }

  /** The step is a call of `q` that takes messages from `p`. */
  predicate ReceivesFrom(s: State, e: Step, q: nat, p: nat) {
    && e.Trap? && e.caller == q && p < |s.procs|
    && match e.call
      case Receive(src) => src == Any || src == EpOf(s, p)
      case SendRec(d, _, _) => d == EpOf(s, p)
      case _ => false
  }

  /** The step is the end of the endpoint of `rc`. */
  predicate Clears(e: Step, rc: nat) {
    (e.Clear? && e.dying == rc) || (e.Exit? && e.exiting == rc)
  }

  /** During the step, `d` is between a SENDREC and its next receive, and wants nothing but replies. */
  predicate AwaitsReply(s: State, e: Step, d: nat)
    requires d < |s.procs|
  {
    if e.Trap? && e.caller == d && e.call.SendRec? then true
    else if e.Trap? && e.caller == d && e.call.Receive? then false
    else s.procs[d].replyPend
  }

  /**
   Entry `j` of `table` is a request, not done, to send `body` to the process in slot `d`; and if `d` wants only
   replies, one that may be taken for a reply.
   */
  predicate Requests(s: State, table: seq<Entry>, j: nat, d: nat, body: Body, reply: bool) {
    d < |s.procs| && j < |table| && Undone(table[j], EpOf(s, d)) && table[j].body == body && !(table[j].noreply && reply)
  }

  /** The reason for which step `e` from `s` writes `x`. */
  ghost predicate Caused(s: State, e: Step, x: Event) {
    match x
    case Accepted(p, d, body) => Asks(s, e, p, d, body)
    case Handed(p, d, body) => Asks(s, e, p, d, body)
    case Delivered(p, d, body) => ReceivesFrom(s, e, d, p) && SendsTo(s, p, d) && s.procs[p].sendMsg == body
    case Posted(p, d, j, body) =>
      && p < |s.procs| && d < |s.procs| && MaySendTo(s, p, d)
      && (|| (e.Trap? && e.caller == p && e.call.Senda? && Requests(s, e.call.requests, j, d, body, AwaitsReply(s, e, d)))
          || (ReceivesFrom(s, e, d, p) && Requests(s, s.procs[p].table, j, d, body, AwaitsReply(s, e, d))))
    case Aborted(p) => exists rc: nat :: rc < |s.procs| && p < |s.procs| && Clears(e, rc) && CalledOff(s, rc, p)
  }

  ghost predicate AllCaused(s: State, t: State, e: Step) {
    s.log <= t.log && forall k | |s.log| <= k < |t.log| :: Caused(s, e, t.log[k])
  }

  /** Who is in which slot, who may send to whom, what sleeps and what is tabled in `t` is so in `s`. */
  ghost predicate From(s: State, t: State, e: Step) {
    && |s.procs| == |t.procs|
    && forall p | 0 <= p < |s.procs| ::
      && t.procs[p].gen == s.procs[p].gen && t.procs[p].ipcTo == s.procs[p].ipcTo
      && (AwaitsReply(t, e, p) <==> AwaitsReply(s, e, p))
      && (t.procs[p].table == s.procs[p].table || t.procs[p].table == [])
      && (t.procs[p].sending ==>
            s.procs[p].sending && t.procs[p].sendTo == s.procs[p].sendTo && t.procs[p].sendMsg == s.procs[p].sendMsg)
  }

  /** What is a reason in `t` was one before, as far as a call goes. */
  lemma CausedFrom(s: State, t: State, e: Step, x: Event)
    requires From(s, t, e) && Caused(t, e, x) && e.Trap?
    ensures Caused(s, e, x)
  {
  }

  lemma CausedTrans(s: State, t: State, u: State, e: Step)
    requires From(s, t, e) && AllCaused(s, t, e) && AllCaused(t, u, e) && e.Trap?
    ensures AllCaused(s, u, e)
  {
    hide From, Caused;
    forall k | |s.log| <= k < |u.log| ensures Caused(s, e, u.log[k]) {
      if k < |t.log| {
        assert u.log[k] == t.log[k];
      } else {
        CausedFrom(s, t, e, u.log[k]);
      }
    }
  }

  /** One event, with its reason. */
  lemma OneCaused(s: State, t: State, e: Step, x: Event)
    requires t.log == s.log + [x] && Caused(s, e, x)
    ensures AllCaused(s, t, e)
  {
  }

  lemma DropFrom(s: State, src: nat, e: Step)
    requires src < |s.procs|
    ensures From(s, s, e) && From(s, Put(s, src, s.procs[src].(table := [])), e)
  {
  }

  lemma ServeCaused(s: State, src: nat, dst: nat, i: nat, e: Step)
    requires src < |s.procs| && dst < |s.procs| && ReceivesFrom(s, e, dst, src) && MaySendTo(s, src, dst)
    requires s.procs[dst].replyPend == AwaitsReply(s, e, dst)
    requires i < |s.procs[src].table| && Takes(s.procs[src].table[i], EpOf(s, dst), s.procs[dst].replyPend)
    ensures AllCaused(s, Serve(s, src, dst, i), e)
  {
    OneCaused(s, Serve(s, src, dst, i), e, Posted(src, dst, i, s.procs[src].table[i].body));
  }

  lemma TryOneCaused(s: State, src: nat, dst: nat, e: Step)
    requires src < |s.procs| && dst < |s.procs| && ReceivesFrom(s, e, dst, src)
    requires s.procs[dst].replyPend == AwaitsReply(s, e, dst)
    ensures var r := TryOne(s, src, dst).outcome; AllCaused(s, r.state, e) && (r.status != Ok ==> From(s, r.state, e))
  {
    hide TableScan, Serve, From, Caused, Takes;
    var x := s.procs[src];
    DropFrom(s, src, e);
    if x.sysProc && |x.table| != 0 && MaySendTo(s, src, dst) {
      var f := TableScan(x.table, EpOf(s, dst), s.procs[dst].replyPend, 0, true, false);
      if f.Hit? {
        ServeCaused(s, src, dst, f.index, e);
      }
    }
  }

  lemma FromTrans(s: State, t: State, u: State, e: Step)
    requires From(s, t, e) && From(t, u, e)
    ensures From(s, u, e)
  {
  }

  lemma {:induction false} TryAsyncCaused(s: State, c: nat, k: nat, postponed: bool, e: Step)
    requires c < |s.procs| && e.Trap? && e.caller == c && e.call == Receive(Any) && !s.procs[c].replyPend
    ensures var r := TryAsync(s, c, k, postponed); AllCaused(s, r.state, e) && (r.status != Ok ==> From(s, r.state, e))
    decreases |s.procs| - k
  {
    if k < |s.procs| {
      hide AllCaused, From, TryOne;
      if s.procs[k].life == Free {
        TryAsyncCaused(s, c, k + 1, postponed, e);
      } else {
        var a := TryOne(s, k, c).outcome;
        TryOneCaused(s, k, c, e);
        if a.status != Ok {
          SameSize(s, a.state, e);
          TryAsyncCaused(a.state, c, k + 1, postponed || TryOne(s, k, c).postponed, e);
          var u := TryAsync(s, c, k, postponed);
          CausedTrans(s, a.state, u.state, e);
          if u.status != Ok {
            FromTrans(s, a.state, u.state, e);
          }
        }
      }
    }
  }

  lemma SameSize(s: State, t: State, e: Step)
    requires From(s, t, e)
    ensures |s.procs| == |t.procs|
  {
  }

  lemma SendCaused(s: State, c: nat, d: Endpoint, body: Body, nonblock: bool, io: Io, e: Step)
    requires Shaped(s) && c < |s.procs| && d.Ep? && d.slot < |s.procs| && Asks(s, e, c, d.slot, body)
    ensures var t := MiniSend(s, c, d, body, nonblock, io).state;
      AllCaused(s, t, e) && (!t.procs[c].sending ==> From(s, t, e)) && t.procs[c].replyPend == s.procs[c].replyPend
  {
    hide DeadlockSize;
  }

  lemma TriedCaused(s: State, c: nat, src: Endpoint, e: Step)
    requires c < |s.procs| && e.Trap? && e.caller == c && (src.Ep? ==> src.slot < |s.procs|)
    requires s.procs[c].replyPend == AwaitsReply(s, e, c)
    requires if src == Any then e.call == Receive(Any) else ReceivesFrom(s, e, c, src.slot)
    ensures var tried := if src.Ep? then TryOne(s, src.slot, c).outcome else TryAsync(s, c, 0, false);
      |tried.state.procs| == |s.procs| && AllCaused(s, tried.state, e)
  {
    if src.Ep? {
      TryOneCaused(s, src.slot, c, e);
    } else {
      TryAsyncCaused(s, c, 0, false, e);
    }
  }

  lemma TakeCaused(s: State, c: nat, i: nat, e: Step)
    requires Shaped(s) && c < |s.procs| && Exact(s, c) && i < |s.queues[c]| && s.queues[c][i] < |s.procs|
    requires ReceivesFrom(s, e, c, s.queues[c][i])
    ensures AllCaused(s, TakeCaller(s, c, i), e)
  {
    var p := s.queues[c][i];
    assert p in s.queues[c] && SendsTo(s, p, c);
    OneCaused(s, TakeCaller(s, c, i), e, Delivered(p, c, s.procs[p].sendMsg));
  }

  /** Going to sleep writes nothing. */
  lemma SleepLog(s: State, c: nat, src: Endpoint, nonblock: bool)
    requires c < |s.procs| && (src.Ep? ==> src.slot < |s.procs|)
    ensures Sleep(s, c, src, nonblock).state.log == s.log
  {
  }

  lemma ReceiveCaused(s: State, c: nat, src: Endpoint, nonblock: bool, io: Io, e: Step)
    requires Shaped(s) && c < |s.procs| && Exact(s, c) && (src.Ep? ==> src.slot < |s.procs|)
    requires forall p | p in s.queues[c] :: p < |s.procs|
    requires e.Trap? && e.caller == c && s.procs[c].replyPend == AwaitsReply(s, e, c)
    requires if src == Any then e.call == Receive(Any) else ReceivesFrom(s, e, c, src.slot)
    ensures AllCaused(s, MiniReceive(s, c, src, nonblock, io).state, e)
  {
    hide TryOne, TryAsync, Sleep, TakeCaller, NotifyScan, QueueScan, Exact, Caused;
    SleepLog(s, c, src, nonblock);
    var i := QueueScan(s.queues[c], src);
    if i < |s.queues[c]| {
      assert s.queues[c][i] in s.queues[c];
      TakeCaused(s, c, i, e);
    }
    var tried := if src.Ep? then TryOne(s, src.slot, c).outcome else TryAsync(s, c, 0, false);
    TriedCaused(s, c, src, e);
    SleepLog(tried.state, c, src, nonblock);
  }

  lemma SendaOneCaused(s: State, c: nat, table: seq<Entry>, i: nat, io: Io)
    requires c < |s.procs| && i < |table| && table[i].Request?
    ensures var t := SendaOne(s, c, i, table[i], io).state;
      && s.log <= t.log && |s.procs| == |t.procs|
      && (forall p | 0 <= p < |s.procs| ::
            && t.procs[p].gen == s.procs[p].gen && t.procs[p].ipcTo == s.procs[p].ipcTo
            && t.procs[p].replyPend == s.procs[p].replyPend)
      && forall k | |s.log| <= k < |t.log| :: Listed(s, c, table, i, t.log[k])
  {
  }

  /** The event is the service of an entry of `table` from `i` on. */
  predicate Listed(s: State, c: nat, table: seq<Entry>, i: nat, x: Event) {
    && x.Posted? && x.src == c < |s.procs| && x.dst < |s.procs| && i <= x.index && MaySendTo(s, c, x.dst)
    && Requests(s, table, x.index, x.dst, x.body, s.procs[x.dst].replyPend)
  }

  lemma {:induction false} SendaCaused(s: State, c: nat, table: seq<Entry>, i: nat, io: Io)
    requires c < |s.procs| && i <= |table|
    ensures var t := SendaLoop(s, c, table, i, io).state;
      s.log <= t.log && forall k | |s.log| <= k < |t.log| :: Listed(s, c, table, i, t.log[k])
    decreases |table| - i
  {
    hide SendaOne;
    if i < |table| {
      match table[i]
      case Blank => SendaCaused(s, c, table, i + 1, io);
      case Garbled =>
      case Request(_, _, _, _, _, _) =>
        var one := SendaOne(s, c, i, table[i], io);
        SendaOneCaused(s, c, table, i, io);
        SendaCaused(one.state, c, table[i := one.entry], i + 1, io);
        var t := SendaLoop(s, c, table, i, io).state;
        forall k | |s.log| <= k < |t.log| ensures Listed(s, c, table, i, t.log[k]) {
          if k < |one.state.log| {
            assert t.log[k] == one.state.log[k];
          } else {
            assert Listed(one.state, c, table[i := one.entry], i + 1, t.log[k]);
          }
        }
    }
  }

  lemma MiniSendaCaused(s: State, c: nat, table: seq<Entry>, io: Io, e: Step)
    requires c < |s.procs| && e.Trap? && e.caller == c && e.call == Senda(table)
    ensures AllCaused(s, MiniSenda(s, c, table, io).state, e)
  {
    var s0 := Put(s, c, s.procs[c].(table := []));
    SendaCaused(s0, c, table, 0, io);
    var t := SendaLoop(s0, c, table, 0, io).state;
    forall k | |s.log| <= k < |t.log| ensures Caused(s, e, t.log[k]) {
      assert Listed(s0, c, table, 0, t.log[k]);
    }
  }

  lemma CallCaused(s: State, c: nat, call: Call, io: Io)
    requires Inv(s) && Enabled(s, Trap(c, call, io))
    ensures AllCaused(s, KipcCall(s, c, call, io).state, Trap(c, call, io))
  {
    hide MiniSend, MiniReceive, MiniSenda, Caused;
    if Screen(s, c, call) == Ok {
      var e := Trap(c, call, io);
      match call
      case Send(d, body, nonblock) => SendCaused(s, c, d, body, nonblock, io, e);
      case Receive(src) =>
        var s1 := SetReplyPend(s, c, false);
        ReplyPendInv(s, c, false);
        assert Exact(s1, c);
        ReceiveCaused(s1, c, src, false, io, e);
        CausedTrans(s, s1, MiniReceive(s1, c, src, false, io).state, e);
      case SendRec(d, body, nonblock) => SendRecCaused(s, c, d, body, nonblock, io);
      case Notify(d) =>
      case Senda(table) => MiniSendaCaused(s, c, table, io, e);
    }
  }

  lemma SendRecCaused(s: State, c: nat, d: Endpoint, body: Body, nonblock: bool, io: Io)
    requires var call := SendRec(d, body, nonblock); Inv(s) && Enabled(s, Trap(c, call, io)) && Screen(s, c, call) == Ok
    ensures var call := SendRec(d, body, nonblock); AllCaused(s, KipcCall(s, c, call, io).state, Trap(c, call, io))
  {
    hide MiniSend, MiniReceive, Caused;
    var e := Trap(c, SendRec(d, body, nonblock), io);
    ReplyPendInv(s, c, true);
    assert PendingOk(s, c);
    var s1 := SetReplyPend(s, c, true);
    var sent := MiniSend(s1, c, d, body, nonblock, io);
    SendCaused(s1, c, d, body, nonblock, io, e);
    CausedTrans(s, s1, sent.state, e);
    if sent.status == Ok {
      SendThenReceive(s1, c, d, body, nonblock, io);
      QueuesInRange(sent.state);
      if sent.state.procs[c].sending {
        AsleepLog(sent.state, c, d, io);
      } else {
        assert Exact(sent.state, c);
        ReceiveCaused(sent.state, c, d, false, io, e);
        CausedTrans(s1, sent.state, MiniReceive(sent.state, c, d, false, io).state, e);
        CausedTrans(s, s1, MiniReceive(sent.state, c, d, false, io).state, e);
      }
    }
  }

  /** The receive half of a SENDREC whose first half went to sleep writes nothing. */
  lemma AsleepLog(s: State, c: nat, src: Endpoint, io: Io)
    requires Shaped(s) && c < |s.procs| && src.Ep? && src.slot < |s.procs| && s.procs[c].sending
    requires forall p | p in s.queues[c] :: p < |s.procs|
    ensures MiniReceive(s, c, src, false, io).state.log == s.log
  {
    SleepLog(s, c, src, false);
  }

  lemma {:induction false} CallOffsIn(s: State, rc: nat, k: nat, x: Event)
    requires rc < |s.procs| && k <= |s.procs| && x in CallOffs(s, rc, k)
    ensures x.Aborted? && x.src < |s.procs| && CalledOff(s, rc, x.src)
  {
    if x in CallOffs(s, rc, k - 1) {
      CallOffsIn(s, rc, k - 1, x);
    }
  }

  lemma ClearCaused(s: State, rc: nat, e: Step)
    requires Shaped(s) && rc < |s.procs| && s.procs[rc].life != Free && Clears(e, rc)
    ensures AllCaused(s, ClearEndpoint(s, rc), e)
  {
    var t := ClearEndpoint(s, rc);
    forall k | |s.log| <= k < |t.log| ensures Caused(s, e, t.log[k]) {
      assert t.log[k] == CallOffs(s, rc, |s.procs|)[k - |s.log|];
      CallOffsIn(s, rc, |s.procs|, t.log[k]);
    }
  }

  lemma StepCaused(s: State, e: Step)
    requires Inv(s) && Enabled(s, e)
    ensures AllCaused(s, Apply(s, e), e)
  {
    hide KipcCall, ClearEndpoint, Caused, Inv;
    match e {
      case Trap(c, call, io) => CallCaused(s, c, call, io);
      case Clear(rc) => ClearCaused(s, rc, e);
      case Exit(rc) => ClearCaused(s, rc, e);
      case _ =>
    }
  }

  /** Step `m` of a run wrote `x` at position `j` of the log, and had the reason for it that this event needs. */
  ghost predicate Wrote(states: seq<State>, steps: seq<Step>, m: nat, j: nat, x: Event)
    requires |states| == |steps| + 1 && m < |steps|
  {
    && states[m].log <= states[m + 1].log && |states[m].log| <= j < |states[m + 1].log|
    && states[m + 1].log[j] == x && Caused(states[m], steps[m], x)
  }

  /** In every run, the log only grows, and every event on it is the doing of the step that wrote it. */
  lemma {:induction false} RunCauses(states: seq<State>, steps: seq<Step>, n: nat, j: nat)
    requires IsRun(states, steps) && n < |states| && j < |states[n].log|
    ensures exists m: nat | m < n :: Wrote(states, steps, m, j, states[n].log[j]) && states[m + 1].log <= states[n].log
  {
    hide Caused, Apply, Enabled, Inv, Start;
    if n == 0 {
      StartEmpty(states[0]);
    } else {
      RunInv(states, steps, n - 1);
      StepCaused(states[n - 1], steps[n - 1]);
      assert states[n - 1 + 1] == Apply(states[n - 1], steps[n - 1]);
      if j < |states[n - 1].log| {
        RunCauses(states, steps, n - 1, j);
        var m: nat :| m < n - 1 && Wrote(states, steps, m, j, states[n - 1].log[j]) && states[m + 1].log <= states[n - 1].log;
      } else {
        assert Wrote(states, steps, n - 1, j, states[n].log[j]);
      }
    }
  }

  lemma StartEmpty(s: State)
    requires Start(s)
    ensures s.log == []
  {
  }
}

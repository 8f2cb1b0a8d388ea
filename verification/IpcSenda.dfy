/** What becomes of the requests of an asynchronous send, in the call and after it. */
module IpcSenda {
  import opened Basics
  import opened IpcModel
  import opened IpcInvariants
  import opened IpcSteps
  import opened IpcCauses
  import opened IpcAsync
  import opened IpcExact
  import opened IpcRequests
  import opened IpcCalls

  /** The reason for which a request of `c` is refused, if there is one. */
  function Denied(s: State, c: nat, e: Entry): Option<Status>
    requires c < |s.procs| && e.Request?
  {
    if !Present(s, e.dst) then Some(EDeadSrcDst)
    else if s.procs[e.dst.slot].kernel || e.dst.slot !in s.procs[c].ipcTo then Some(ECallDenied)
    else if s.procs[e.dst.slot].life == Dead then Some(EDstDied)
    else None
  }

  /** The destination of the request waits for it now. */
  predicate Eager(s: State, c: nat, e: Entry)
    requires c < |s.procs| && e.Request? && Present(s, e.dst)
  {
    Ready(s, e.dst.slot, EpOf(s, c)) && !(e.noreply && s.procs[e.dst.slot].replyPend)
  }

  /**
   One request that is still to be done: it is refused and nobody notices; or handed over to a destination that waits
   for it; or left alone, and its destination told of it.
   */
  lemma SendaOneExact(s: State, c: nat, i: nat, e: Entry, io: Io)
    requires c < |s.procs| && Waits(e)
    ensures var r := SendaOne(s, c, i, e, io); var t := r.state;
      match Denied(s, c, e)
      case Some(why) => t == s && r.entry == e.(done := true, result := why)
      case None =>
        var d := e.dst.slot; var x := s.procs[d];
        if Eager(s, c, e) then
          if io.copy then
            && OnlyAt(s, t, d, x.(inbox := Letter(EpOf(s, c), e.body), receiving := false))
            && t.log == s.log + [Posted(c, d, i, e.body)] && r.entry == e.(done := true, result := Ok)
          else t == s && r.entry == e.(done := true, result := EFault)
        else OnlyAt(s, t, d, x.(asynMsg := true)) && t.log == s.log && r.entry == e
  {
  }

  /** Nothing about `d` changes but its flag, unless some request from `i` on, before `j`, is for `d`. */
  lemma {:induction false} SendaSpares(s: State, c: nat, table: seq<Entry>, i: nat, j: nat, io: Io, d: nat)
    requires c < |s.procs| && d < |s.procs| && i <= j < |table| && Waits(table[j]) && table[j].dst == EpOf(s, d)
    requires forall k | i <= k < j :: table[k] != Garbled && !(Waits(table[k]) && table[k].dst == EpOf(s, d))
    requires Denied(s, c, table[j]) == None && Eager(s, c, table[j]) && io.copy
    ensures var t := SendaLoop(s, c, table, i, io).state;
      && |t.procs| == |s.procs| && !t.procs[d].receiving && t.procs[d].inbox == Letter(EpOf(s, c), table[j].body)
    decreases |table| - i
  {
    hide SendaOne;
    if i == j {
      var one := SendaOne(s, c, j, table[j], io);
      SendaOneExact(s, c, j, table[j], io);
      SendaLeaves(one.state, c, table[j := one.entry], j + 1, io, d);
    } else if table[i].Request? {
      var one := SendaOne(s, c, i, table[i], io);
      if table[i].done {
        SendaOneDone(s, c, i, table[i], io);
      } else {
        SendaOneExact(s, c, i, table[i], io);
      }
      SendaSpares(one.state, c, table[i := one.entry], i + 1, j, io, d);
    } else {
      SendaSpares(s, c, table, i + 1, j, io, d);
    }
  }

  lemma SendaOneDone(s: State, c: nat, i: nat, e: Entry, io: Io)
    requires c < |s.procs| && e.Request? && e.done
    ensures SendaOne(s, c, i, e, io) == Served(s, e)
  {
  }

  /** A process that does not wait is handed nothing. */
  lemma {:induction false} SendaLeaves(s: State, c: nat, table: seq<Entry>, i: nat, io: Io, d: nat)
    requires c < |s.procs| && d < |s.procs| && i <= |table| && !s.procs[d].receiving
    ensures var t := SendaLoop(s, c, table, i, io).state;
      |t.procs| == |s.procs| && !t.procs[d].receiving && t.procs[d].inbox == s.procs[d].inbox
    decreases |table| - i
  {
    hide SendaOne;
    if i < |table| {
      match table[i]
      case Blank => SendaLeaves(s, c, table, i + 1, io, d);
      case Garbled =>
      case Request(done, _, _, _, _, _) =>
        var one := SendaOne(s, c, i, table[i], io);
        if done {
          SendaOneDone(s, c, i, table[i], io);
        } else {
          SendaOneExact(s, c, i, table[i], io);
        }
        SendaLeaves(one.state, c, table[i := one.entry], i + 1, io, d);
    }
  }

  /**
   A process asleep waiting for the caller is handed the first request for it in the call itself, unless a bad entry
   comes before.
   */
  lemma SendaHands(s: State, c: nat, table: seq<Entry>, io: Io, j: nat, d: nat)
    requires c < |s.procs| && d < |s.procs| && d != c && s.procs[c].sysProc
    requires io.mapOut && io.copy && j < |table| <= 16 * |s.procs|
    requires Waits(table[j]) && table[j].dst == EpOf(s, d)
    requires forall k | 0 <= k < j :: table[k] != Garbled && !(Waits(table[k]) && table[k].dst == EpOf(s, d))
    requires Denied(s, c, table[j]) == None && Eager(s, c, table[j])
    ensures var t := MiniSenda(s, c, table, io).state;
      |t.procs| == |s.procs| && !t.procs[d].receiving && t.procs[d].inbox == Letter(EpOf(s, c), table[j].body)
  {
    hide SendaLoop;
    var s0 := Put(s, c, s.procs[c].(table := []));
    SendaSpares(s0, c, table, 0, j, io, d);
  }

  // ------------------------------------------------- nothing falls off the table

  /** Request `j` of `p` has been served since `s`, as `log` tells. */
  ghost predicate Posts(s: State, log: seq<Event>, p: nat, j: nat) {
    exists k | |s.log| <= k < |log| :: log[k].Posted? && log[k].src == p && log[k].index == j
  }

  /** What the loop makes of a request that is still to be done. */
  ghost predicate Settled(s: State, log: seq<Event>, c: nat, j: nat, e: Entry, f: Entry, io: Io)
    requires c < |s.procs|
  {
    Waits(e) &&
    match Denied(s, c, e)
    case Some(why) => f == e.(done := true, result := why)
    case None =>
      || f == e
      || (f == e.(done := true, result := Ok) && Posts(s, log, c, j))
      || (f == e.(done := true, result := EFault) && !io.copy)
  }

  /** Whether a request is refused depends on nothing that the loop changes. */
  lemma SameDenied(s: State, t: State, c: nat, e: Entry)
    requires c < |s.procs| == |t.procs| && e.Request?
    requires forall q | 0 <= q < |s.procs| :: SameSelf(s.procs[q], t.procs[q])
    ensures Denied(t, c, e) == Denied(s, c, e)
  {
  }

  lemma SendaOneSelf(s: State, c: nat, i: nat, e: Entry, io: Io)
    requires c < |s.procs| && e.Request?
    ensures var t := SendaOne(s, c, i, e, io).state;
      |t.procs| == |s.procs| && s.log <= t.log && forall q | 0 <= q < |s.procs| :: SameSelf(s.procs[q], t.procs[q])
  {
  }

  lemma SettledLater(s: State, t: State, u: State, c: nat, j: nat, e: Entry, f: Entry, io: Io)
    requires c < |s.procs| == |t.procs| && s.log <= t.log <= u.log && Settled(t, u.log, c, j, e, f, io)
    requires forall q | 0 <= q < |s.procs| :: SameSelf(s.procs[q], t.procs[q])
    ensures Settled(s, u.log, c, j, e, f, io)
  {
    SameDenied(s, t, c, e);
  }

  lemma SettledNow(s: State, t: State, u: State, c: nat, j: nat, e: Entry, io: Io)
    requires c < |s.procs| && Waits(e) && t == SendaOne(s, c, j, e, io).state && t.log <= u.log
    ensures Settled(s, u.log, c, j, e, SendaOne(s, c, j, e, io).entry, io)
  {
    hide SendaOne;
    SendaOneExact(s, c, j, e, io);
    if |t.log| > |s.log| {
      assert u.log[|s.log|] == t.log[|s.log|];
    }
  }

  lemma {:induction false} SendaSettles(s: State, c: nat, table: seq<Entry>, i: nat, io: Io)
    requires c < |s.procs| && i <= |table|
    ensures var r := SendaLoop(s, c, table, i, io);
      && s.log <= r.state.log && (r.broken <==> Garbled in table[i..])
      && (forall j | 0 <= j < i :: r.table[j] == table[j])
      && (!r.broken ==> forall j: nat | i <= j < |table| ::
            if Waits(table[j]) then Settled(s, r.state.log, c, j, table[j], r.table[j], io) else r.table[j] == table[j])
    decreases |table| - i
  {
    hide SendaOne, Settled;
    if i < |table| {
      assert table[i..] == [table[i]] + table[i + 1..];
      match table[i]
      case Blank => SendaSettles(s, c, table, i + 1, io);
      case Garbled =>
      case Request(done, _, _, _, _, _) =>
        var one := SendaOne(s, c, i, table[i], io);
        var rest := table[i := one.entry];
        SendaOneSelf(s, c, i, table[i], io);
        SendaSettles(one.state, c, rest, i + 1, io);
        assert rest[i + 1..] == table[i + 1..];
        var r := SendaLoop(s, c, table, i, io);
        if done {
          SendaOneDone(s, c, i, table[i], io);
        } else {
          SettledNow(s, one.state, r.state, c, i, table[i], io);
        }
        if !r.broken {
          forall j: nat | i < j < |table| && Waits(table[j]) ensures Settled(s, r.state.log, c, j, table[j], r.table[j], io) {
            assert rest[j] == table[j];
            SettledLater(s, one.state, r.state, c, j, table[j], r.table[j], io);
          }
        }
    }
  }

  /** An asynchronous send goes well for a system process whose table is there, of moderate size and well formed. */
  lemma SendaStatus(s: State, c: nat, table: seq<Entry>, io: Io)
    requires c < |s.procs|
    ensures var r := MiniSenda(s, c, table, io); var fine := io.mapOut && |table| <= 16 * |s.procs| && Garbled !in table;
      && (r.status == EPerm <==> !s.procs[c].sysProc)
      && (r.status == Ok <==> s.procs[c].sysProc && (table == [] || fine))
      && (!s.procs[c].sysProc ==> r.state == s)
  {
    hide SendaLoop;
    SendaSettles(Put(s, c, s.procs[c].(table := [])), c, table, 0, io);
    assert table[0..] == table;
  }

  /**
   It refuses a request, serves it, or has it on the table afterwards; the table is dropped only if nothing on it is
   left to do. If it does not go well, there is no table.
   */
  lemma SendaExact(s: State, c: nat, table: seq<Entry>, io: Io)
    requires c < |s.procs| && s.procs[c].sysProc && c !in s.procs[c].ipcTo
    ensures var r := MiniSenda(s, c, table, io);
      && |r.state.procs| == |s.procs| && (r.status != Ok ==> r.state.procs[c].table == [])
      && (r.state.procs[c].table != [] ==> exists e | e in r.state.procs[c].table :: Waits(e))
      && (r.status == Ok ==> forall j: nat | j < |table| && Waits(table[j]) ::
            var left := r.state.procs[c].table;
            && (left != [] ==> |left| == |table| && Settled(s, r.state.log, c, j, table[j], left[j], io))
            && (left == [] ==> Denied(s, c, table[j]) != None || Posts(s, r.state.log, c, j) || !io.copy))
  {
    hide SendaLoop, SendaOne, Denied, Settled, Posts;
    var s0 := Put(s, c, s.procs[c].(table := []));
    var r := SendaLoop(s0, c, table, 0, io);
    SendaSettles(s0, c, table, 0, io);
    SendaOwn(s0, c, table, 0, io);
    if !r.broken {
      forall j: nat | j < |table| && Waits(table[j]) ensures Settled(s, r.state.log, c, j, table[j], r.table[j], io) {
        SettledLater(s, s0, r.state, c, j, table[j], r.table[j], io);
      }
      forall j: nat | j < |table| && Waits(table[j]) && r.table[j].Request? && r.table[j].done
        ensures Denied(s, c, table[j]) != None || Posts(s, r.state.log, c, j) || !io.copy
      {
        SettledDone(s, r.state.log, c, j, table[j], r.table[j], io);
      }
      forall j: nat | j < |table| && Waits(table[j]) ensures r.table[j].Request? {
        SettledRequest(s, r.state.log, c, j, table[j], r.table[j], io);
        assert r.table[j] in r.table;
      }
    }
  }

  lemma SettledRequest(s: State, log: seq<Event>, c: nat, j: nat, e: Entry, f: Entry, io: Io)
    requires c < |s.procs| && Settled(s, log, c, j, e, f, io)
    ensures f.Request?
  {
  }

  lemma SettledDone(s: State, log: seq<Event>, c: nat, j: nat, e: Entry, f: Entry, io: Io)
    requires c < |s.procs| && Settled(s, log, c, j, e, f, io) && f.Request? && f.done
    ensures Denied(s, c, e) != None || Posts(s, log, c, j) || !io.copy
  {
  }

  lemma {:induction false} SendaOwn(s: State, c: nat, table: seq<Entry>, i: nat, io: Io)
    requires c < |s.procs| && c !in s.procs[c].ipcTo && i <= |table|
    ensures SendaLoop(s, c, table, i, io).state.procs[c] == s.procs[c]
    decreases |table| - i
  {
    hide SendaOne;
    if i < |table| {
      match table[i]
      case Blank => SendaOwn(s, c, table, i + 1, io);
      case Garbled =>
      case Request(done, _, _, _, _, _) =>
        var one := SendaOne(s, c, i, table[i], io);
        if done {
          SendaOneDone(s, c, i, table[i], io);
        } else {
          SendaOneExact(s, c, i, table[i], io);
        }
        SendaOwn(one.state, c, table[i := one.entry], i + 1, io);
    }
  }

  // --------------------------------------------------------------- over a run

  /** Request `j` of `p` is still there, or was served, or stood on a table with a bad entry. */
  ghost predicate Stays(s: State, t: State, p: nat, j: nat)
    requires p < |s.procs| && j < |s.procs[p].table|
  {
    && |t.procs| == |s.procs| && s.log <= t.log
    && (|| (j < |t.procs[p].table| && t.procs[p].table[j] == s.procs[p].table[j])
        || Posts(s, t.log, p, j) || Garbled in s.procs[p].table)
  }

  lemma CleanedStays(s: State, t: State, p: nat, j: nat)
    requires p < |s.procs| == |t.procs| && s.log <= t.log && Cleaned(s.procs[p], t.procs[p])
    requires j < |s.procs[p].table| && Waits(s.procs[p].table[j])
    ensures Stays(s, t, p, j)
  {
    assert s.procs[p].table[0..] == s.procs[p].table;
  }

  lemma ServicedStays(s: State, t: State, q: nat, c: nat, i: nat, p: nat, j: nat)
    requires Serves(s, q, c, i) && q != c && Serviced(s, t, q, c, i) && p < |s.procs|
    requires j < |s.procs[p].table| && Waits(s.procs[p].table[j])
    ensures Stays(s, t, p, j)
  {
    assert t.log[|s.log|].Posted?;
    if p != q && p != c {
      CleanedStays(s, t, p, j);
    }
  }

  lemma TriedStays(s: State, c: nat, src: Endpoint, p: nat, j: nat)
    requires c < |s.procs| && c !in s.procs[c].ipcTo && (src.Ep? ==> src.slot < |s.procs|) && p < |s.procs|
    requires j < |s.procs[p].table| && Waits(s.procs[p].table[j])
    ensures var tried := if src.Ep? then TryOne(s, src.slot, c).outcome else TryAsync(s, c, 0, false);
      Stays(s, tried.state, p, j)
  {
    hide TryOne, TryAsync, First, Sees, Stays, Serviced;
    if src.Ep? {
      var t := TryOne(s, src.slot, c).outcome;
      TryOneExact(s, src.slot, c);
      if t.status == Ok {
        var i: nat :| Serves(s, src.slot, c, i);
        ServicedStays(s, t.state, src.slot, c, i, p, j);
      } else {
        UnservicedStays(s, t.state, c, p, j);
      }
    } else {
      var t := TryAsync(s, c, 0, false);
      TryAsyncExact(s, c, 0, false);
      if t.status == Ok {
        var q, i := FirstAble(s, c);
        ServicedStays(s, t.state, q, c, i, p, j);
      } else {
        UnservicedStays(s, t.state, c, p, j);
      }
    }
  }

  lemma UnservicedStays(s: State, t: State, c: nat, p: nat, j: nat)
    requires c < |s.procs| && p < |s.procs| && Unserviced(s, t, c) && t.procs[c].table == s.procs[c].table
    requires j < |s.procs[p].table| && Waits(s.procs[p].table[j])
    ensures Stays(s, t, p, j)
  {
    hide Spent;
    if p != c {
      CleanedStays(s, t, p, j);
    }
  }

  lemma ReceiveStays(s: State, c: nat, src: Endpoint, nonblock: bool, io: Io, p: nat, j: nat)
    requires Shaped(s) && c < |s.procs| && c !in s.procs[c].ipcTo && (src.Ep? ==> src.slot < |s.procs|) && p < |s.procs|
    requires forall q | q in s.queues[c] :: q < |s.procs|
    requires j < |s.procs[p].table| && Waits(s.procs[p].table[j])
    ensures Stays(s, MiniReceive(s, c, src, nonblock, io).state, p, j)
  {
    hide TryOne, TryAsync, Sleep, NotifyScan, QueueScan, Stays;
    TriedStays(s, c, src, p, j);
    var tried := if src.Ep? then TryOne(s, src.slot, c).outcome else TryAsync(s, c, 0, false);
    SizeStays(s, tried.state, p, j);
    SleepStays(s, s, c, src, nonblock, p, j);
    SleepStays(s, tried.state, c, src, nonblock, p, j);
    QuietStays(s, MiniReceive(s, c, src, nonblock, io).state, p, j);
    var i := QueueScan(s.queues[c], src);
    if i < |s.queues[c]| {
      assert s.queues[c][i] in s.queues[c];
    }
  }

  lemma SizeStays(s: State, t: State, p: nat, j: nat)
    requires p < |s.procs| && j < |s.procs[p].table| && Stays(s, t, p, j)
    ensures |t.procs| == |s.procs|
  {
  }

  lemma QuietStays(s: State, t: State, p: nat, j: nat)
    requires p < |s.procs| && j < |s.procs[p].table|
    ensures |t.procs| == |s.procs| && s.log <= t.log && t.procs[p].table == s.procs[p].table ==> Stays(s, t, p, j)
  {
  }

  lemma SleepStays(s: State, t: State, c: nat, src: Endpoint, nonblock: bool, p: nat, j: nat)
    requires c < |t.procs| && (src.Ep? ==> src.slot < |t.procs|) && p < |s.procs| && j < |s.procs[p].table|
    ensures t == s || Stays(s, t, p, j) ==> Stays(s, Sleep(t, c, src, nonblock).state, p, j)
  {
    hide DeadlockSize;
  }

  lemma {:induction false} SendaTables(s: State, c: nat, table: seq<Entry>, i: nat, io: Io, p: nat)
    requires c < |s.procs| && p < |s.procs| && i <= |table|
    ensures var t := SendaLoop(s, c, table, i, io).state; s.log <= t.log && t.procs[p].table == s.procs[p].table
    decreases |table| - i
  {
    hide SendaOne;
    if i < |table| {
      match table[i]
      case Blank => SendaTables(s, c, table, i + 1, io, p);
      case Garbled =>
      case Request(done, _, _, _, _, _) =>
        var one := SendaOne(s, c, i, table[i], io);
        if done {
          SendaOneDone(s, c, i, table[i], io);
        } else {
          SendaOneExact(s, c, i, table[i], io);
        }
        SendaTables(one.state, c, table[i := one.entry], i + 1, io, p);
    }
  }

  lemma StaysTrans(s: State, t: State, u: State, p: nat, j: nat)
    requires p < |s.procs| == |t.procs| && t.procs[p].table == s.procs[p].table && s.log <= t.log
    requires j < |s.procs[p].table| && Stays(t, u, p, j)
    ensures Stays(s, u, p, j)
  {
  }

  lemma SendStays(s: State, c: nat, d: Endpoint, body: Body, nonblock: bool, io: Io, p: nat)
    requires Shaped(s) && c < |s.procs| && d.Ep? && d.slot < |s.procs| && p < |s.procs|
    ensures var t := MiniSend(s, c, d, body, nonblock, io).state;
      |t.procs| == |s.procs| && s.log <= t.log && t.procs[p].table == s.procs[p].table
  {
    hide DeadlockSize;
  }

  lemma TrapStays(s: State, c: nat, call: Call, io: Io, p: nat, j: nat)
    requires Inv(s) && Enabled(s, Trap(c, call, io)) && p < |s.procs| && !(call.Senda? && c == p)
    requires j < |s.procs[p].table| && Waits(s.procs[p].table[j])
    ensures Stays(s, KipcCall(s, c, call, io).state, p, j)
  {
    hide MiniSend, MiniReceive, MiniSenda, Stays, Acyclic, NoMissedSend, Queues;
    QuietStays(s, KipcCall(s, c, call, io).state, p, j);
    if Screen(s, c, call) == Ok {
      assert PendingOk(s, c);
      match call
      case Send(d, body, nonblock) => SendStays(s, c, d, body, nonblock, io, p);
      case Receive(src) =>
        var s1 := SetReplyPend(s, c, false);
        ReceiveStays(s1, c, src, false, io, p, j);
        StaysTrans(s, s1, MiniReceive(s1, c, src, false, io).state, p, j);
      case SendRec(d, body, nonblock) =>
        SendRecStays(s, c, d, body, nonblock, io, p, j);
      case Notify(d) =>
      case Senda(table) => MiniSendaTables(s, c, table, io, p);
    }
  }

  lemma MiniSendaTables(s: State, c: nat, table: seq<Entry>, io: Io, p: nat)
    requires c < |s.procs| && p < |s.procs| && p != c
    ensures var t := MiniSenda(s, c, table, io).state;
      |t.procs| == |s.procs| && s.log <= t.log && t.procs[p].table == s.procs[p].table
  {
    hide SendaLoop;
    SendaTables(Put(s, c, s.procs[c].(table := [])), c, table, 0, io, p);
  }

  lemma SendRecStays(s: State, c: nat, d: Endpoint, body: Body, nonblock: bool, io: Io, p: nat, j: nat)
    requires var call := SendRec(d, body, nonblock); Inv(s) && Enabled(s, Trap(c, call, io)) && Screen(s, c, call) == Ok
    requires p < |s.procs| && j < |s.procs[p].table| && Waits(s.procs[p].table[j])
    ensures Stays(s, KipcCall(s, c, SendRec(d, body, nonblock), io).state, p, j)
  {
    hide MiniSend, MiniReceive, Stays, Acyclic, NoMissedSend;
    assert PendingOk(s, c);
    ReplyPendInv(s, c, true);
    var s1 := SetReplyPend(s, c, true);
    var sent := MiniSend(s1, c, d, body, nonblock, io);
    SendStays(s1, c, d, body, nonblock, io, p);
    QuietStays(s, sent.state, p, j);
    if sent.status == Ok {
      SendThenReceive(s1, c, d, body, nonblock, io);
      QueuesInRange(sent.state);
      assert PendingOk(sent.state, c);
      ReceiveStays(sent.state, c, d, false, io, p, j);
      StaysTrans(s, sent.state, MiniReceive(sent.state, c, d, false, io).state, p, j);
    }
  }

  lemma ClearStays(s: State, rc: nat, p: nat)
    requires Shaped(s) && rc < |s.procs| && s.procs[rc].life != Free && p < |s.procs| && p != rc
    ensures var t := ClearEndpoint(s, rc);
      |t.procs| == |s.procs| && s.log <= t.log && t.procs[p].table == s.procs[p].table
  {
    hide CallOffs, Without;
  }

  /** Ways to lose a table: a new one, the end of the process, or a new process in the slot. */
  predicate Replaces(e: Step, p: nat) {
    SendsTable(e, p) || Clears(e, p) || (e.Spawn? && e.child == p)
  }

  lemma StepStays(s: State, e: Step, p: nat, j: nat)
    requires Inv(s) && Enabled(s, e) && p < |s.procs| && !Replaces(e, p)
    requires j < |s.procs[p].table| && Waits(s.procs[p].table[j])
    ensures Stays(s, Apply(s, e), p, j)
  {
    hide KipcCall, ClearEndpoint, Stays, Inv;
    match e {
      case Trap(c, call, io) => TrapStays(s, c, call, io, p, j);
      case Clear(rc) =>
        ClearStays(s, rc, p);
        QuietStays(s, Apply(s, e), p, j);
      case Exit(rc) =>
        ClearStays(s, rc, p);
        QuietStays(s, Apply(s, e), p, j);
      case _ => QuietStays(s, Apply(s, e), p, j);
    }
  }

  /**
   In every run, a request that is still to be done stays on the table as it is, until it is served, its process sends
   a new table or exits, or the table turns out to have a bad entry.
   */
  lemma RunKeepsRequests(states: seq<State>, steps: seq<Step>, i: nat, p: nat, j: nat)
    requires IsRun(states, steps) && i < |steps| && p < |states[i].procs|
    requires j < |states[i].procs[p].table| && Waits(states[i].procs[p].table[j])
    ensures Stays(states[i], states[i + 1], p, j) || Replaces(steps[i], p)
  {
    RunInv(states, steps, i);
    if !Replaces(steps[i], p) {
      StepStays(states[i], steps[i], p, j);
    }
  }
}

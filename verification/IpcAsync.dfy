/** Asynchronous sends: no tabled request is forgotten, and none is served twice. */
module IpcAsync {
  import opened Basics
  import opened IpcModel
  import opened IpcInvariants
  import opened IpcPreserve
  import opened IpcSteps

  // ------------------------------------------------------------ never forgotten

  /** `src` may have a request for `c` that is still to be served. */
  predicate Sends(s: State, src: nat, c: nat)
    requires src < |s.procs|
  {
    s.procs[src].sysProc && MaySendTo(s, src, c)
  }

  ghost predicate NoneFor(s: State, src: nat, c: nat)
    requires src < |s.procs| && c < |s.procs|
  {
    Sends(s, src, c) ==> forall e | e in s.procs[src].table :: !Undone(e, EpOf(s, c))
  }

  /** An unserved request names a present or past occupant of a slot. */
  ghost predicate Aimed(s: State, e: Entry) {
    e.Request? && !e.done ==> e.dst.Ep? && e.dst.slot < |s.procs| && e.dst.gen <= s.procs[e.dst.slot].gen
  }

  ghost predicate TableOk(s: State, p: nat)
    requires p < |s.procs|
  {
    && (forall e | e in s.procs[p].table :: Aimed(s, e))
    && (s.procs[p].life != Live && s.procs[p].sysProc ==> s.procs[p].table == [])
  }

  /** Each live process with an unserved request for it has MF_ASYNMSG set. */
  ghost predicate Announced(s: State) {
    && (forall p | 0 <= p < |s.procs| :: TableOk(s, p))
    && forall p, c | 0 <= p < |s.procs| && 0 <= c < |s.procs| ::
         s.procs[c].life == Live && !s.procs[c].asynMsg ==> NoneFor(s, p, c)
  }

  predicate SameOrDone(e: Entry, f: Entry) {
    e == f || (e.Request? && f.Request? && f.done)
  }

  /** Every registered request of `t` was one of `s`, or is done. */
  ghost predicate TableShrinks(x: seq<Entry>, y: seq<Entry>) {
    y == [] || (|y| == |x| && forall i | 0 <= i < |x| :: SameOrDone(x[i], y[i]))
  }

  /** Tables lose requests, flags are not cleared, endpoints only grow older. */
  ghost predicate Eases(s: State, t: State) {
    && |s.procs| == |t.procs|
    && forall p | 0 <= p < |s.procs| ::
      && TableShrinks(s.procs[p].table, t.procs[p].table)
      && t.procs[p].gen == s.procs[p].gen && t.procs[p].sysProc == s.procs[p].sysProc
      && t.procs[p].ipcTo <= s.procs[p].ipcTo
      && (t.procs[p].life == s.procs[p].life || (t.procs[p].life != Live && (t.procs[p].sysProc ==> t.procs[p].table == [])))
      && (t.procs[p].life == Live && s.procs[p].asynMsg ==> t.procs[p].asynMsg)
  }

  lemma ShrinkNone(x: seq<Entry>, y: seq<Entry>, d: Endpoint)
    requires TableShrinks(x, y) && forall e | e in x :: !Undone(e, d)
    ensures forall e | e in y :: !Undone(e, d)
  {
    forall e | e in y ensures !Undone(e, d) {
      var i :| 0 <= i < |y| && y[i] == e;
      assert SameOrDone(x[i], y[i]) && x[i] in x;
    }
  }

  lemma NoneEases(s: State, t: State, p: nat, c: nat)
    requires Eases(s, t) && p < |s.procs| && c < |s.procs| && NoneFor(s, p, c)
    ensures NoneFor(t, p, c)
  {
    if Sends(t, p, c) {
      ShrinkNone(s.procs[p].table, t.procs[p].table, EpOf(s, c));
    }
  }

  lemma TableEases(s: State, t: State, p: nat)
    requires Eases(s, t) && p < |s.procs| && TableOk(s, p)
    ensures TableOk(t, p)
  {
    forall e | e in t.procs[p].table ensures Aimed(t, e) {
      var i :| 0 <= i < |t.procs[p].table| && t.procs[p].table[i] == e;
      assert SameOrDone(s.procs[p].table[i], e) && s.procs[p].table[i] in s.procs[p].table;
      if e.Request? && !e.done {
        assert Aimed(s, e);
      }
    }
  }

  lemma EasesAnnounced(s: State, t: State)
    requires Announced(s) && Eases(s, t)
    ensures Announced(t)
  {
    forall p | 0 <= p < |t.procs| ensures TableOk(t, p) {
      TableEases(s, t, p);
    }
    forall p, c | 0 <= p < |t.procs| && 0 <= c < |t.procs| && t.procs[c].life == Live && !t.procs[c].asynMsg
      ensures NoneFor(t, p, c)
    {
      NoneEases(s, t, p, c);
    }
  }

  lemma EasesTrans(s: State, t: State, u: State)
    requires Eases(s, t) && Eases(t, u)
    ensures Eases(s, u)
  {
    forall p | 0 <= p < |s.procs| ensures TableShrinks(s.procs[p].table, u.procs[p].table) {
      var x, y, z := s.procs[p].table, t.procs[p].table, u.procs[p].table;
      if z != [] {
        forall i | 0 <= i < |x| ensures SameOrDone(x[i], z[i]) {
          assert SameOrDone(x[i], y[i]) && SameOrDone(y[i], z[i]);
        }
      }
    }
  }

  // -------------------------------------------------------------- table scans

  /** A scan that finds nothing and postpones nothing has seen no request for `d`. */
  lemma {:induction false} ScanNone(table: seq<Entry>, d: Endpoint, replyPend: bool, i: nat, clean: bool, late: bool)
    requires i <= |table|
    ensures var f := TableScan(table, d, replyPend, i, clean, late);
      && (f.Nothing? && !f.postponed ==> !late && forall j | i <= j < |table| :: !Undone(table[j], d))
      && (f.Nothing? && f.clean ==> clean && forall j | i <= j < |table| :: !(table[j].Request? && !table[j].done))
    decreases |table| - i
  {
    if i < |table| {
      match table[i]
      case Blank => ScanNone(table, d, replyPend, i + 1, clean, late);
      case Garbled =>
      case Request(done, _, noreply, to, _, _) =>
        if done {
          ScanNone(table, d, replyPend, i + 1, clean, late);
        } else if to != d {
          ScanNone(table, d, replyPend, i + 1, false, late);
        } else if noreply && replyPend {
          ScanNone(table, d, replyPend, i + 1, false, true);
        }
    }
  }

  /** A scan reaches a request that can be taken, unless the table is garbled. */
  lemma {:induction false} ScanHits(table: seq<Entry>, d: Endpoint, replyPend: bool, i: nat, clean: bool, late: bool, j: nat)
    requires i <= j < |table| && Takes(table[j], d, replyPend)
    requires forall e | e in table :: e != Garbled
    ensures TableScan(table, d, replyPend, i, clean, late).Hit?
    decreases |table| - i
  {
    assert table[i] in table;
    match table[i]
    case Blank => ScanHits(table, d, replyPend, i + 1, clean, late, j);
    case Request(done, _, noreply, to, _, _) =>
      if done {
        ScanHits(table, d, replyPend, i + 1, clean, late, j);
      } else if to != d {
        ScanHits(table, d, replyPend, i + 1, false, late, j);
      } else if noreply && replyPend {
        ScanHits(table, d, replyPend, i + 1, false, true, j);
      }
  }

  lemma ServeEases(s: State, src: nat, dst: nat, i: nat)
    requires src < |s.procs| && dst < |s.procs|
    requires i < |s.procs[src].table| && s.procs[src].table[i].Request?
    ensures Eases(s, Serve(s, src, dst, i))
  {
  }

  lemma TryOneEases(s: State, src: nat, dst: nat)
    requires src < |s.procs| && dst < |s.procs|
    ensures var a := TryOne(s, src, dst);
      && Eases(s, a.outcome.state)
      && (a.outcome.status != Ok && !a.postponed ==> NoneFor(a.outcome.state, src, dst))
  {
    var x := s.procs[src];
    if Sends(s, src, dst) && |x.table| != 0 {
      var f := TableScan(x.table, EpOf(s, dst), s.procs[dst].replyPend, 0, true, false);
      ScanNone(x.table, EpOf(s, dst), s.procs[dst].replyPend, 0, true, false);
      if f.Hit? {
        ServeEases(s, src, dst, f.index);
      } else {
        assert Eases(s, Put(s, src, x.(table := [])));
      }
    }
  }

  lemma {:induction false} TryAsyncAnnounced(s: State, c: nat, k: nat, postponed: bool)
    requires Announced(s) && c < |s.procs|
    requires !postponed ==> forall p | 0 <= p < k && p < |s.procs| :: NoneFor(s, p, c)
    ensures Announced(TryAsync(s, c, k, postponed).state)
    decreases |s.procs| - k
  {
    hide TryOne;
    if k >= |s.procs| {
      if !postponed {
        ClearFlag(s, c);
      }
    } else if s.procs[k].life == Free {
      assert TableOk(s, k);
      TryAsyncAnnounced(s, c, k + 1, postponed);
    } else {
      var a := TryOne(s, k, c);
      TryOneEases(s, k, c);
      EasesAnnounced(s, a.outcome.state);
      if a.outcome.status != Ok {
        if !(postponed || a.postponed) {
          forall p | 0 <= p < k + 1 ensures NoneFor(a.outcome.state, p, c) {
            if p < k {
              NoneEases(s, a.outcome.state, p, c);
            }
          }
        }
        TryAsyncAnnounced(a.outcome.state, c, k + 1, postponed || a.postponed);
      }
    }
  }

  lemma ClearFlag(s: State, c: nat)
    requires Announced(s) && c < |s.procs|
    requires forall p | 0 <= p < |s.procs| :: NoneFor(s, p, c)
    ensures Announced(Put(s, c, s.procs[c].(asynMsg := false)))
  {
    var t := Put(s, c, s.procs[c].(asynMsg := false));
    forall p | 0 <= p < |t.procs| ensures TableOk(t, p) {
      assert TableOk(s, p);
      forall e | e in t.procs[p].table ensures Aimed(t, e) {
        assert Aimed(s, e);
      }
    }
    forall p, d | 0 <= p < |t.procs| && 0 <= d < |t.procs| && t.procs[d].life == Live && !t.procs[d].asynMsg
      ensures NoneFor(t, p, d)
    {
      assert NoneFor(s, p, d);
    }
  }

  // --------------------------------------------------------------- mini_senda

  /** The request is done, or its destination knows about it. */
  ghost predicate Handled(s: State, e: Entry) {
    e.Request? && !e.done ==> IsOkEndpoint(s, e.dst) && s.procs[e.dst.slot].asynMsg
  }

  /** A change that does not bear on tables or on who may be sent to. */
  lemma ChangeEases(s: State, t: State, d: nat, x: Proc)
    requires d < |s.procs|
    ensures
      && t.procs == s.procs[d := x]
      && x.table == s.procs[d].table && x.gen == s.procs[d].gen && x.sysProc == s.procs[d].sysProc
      && x.ipcTo == s.procs[d].ipcTo && x.life == s.procs[d].life && (s.procs[d].asynMsg ==> x.asynMsg)
      ==> Eases(s, t) && forall f | Handled(s, f) :: Handled(t, f)
  {
  }

  lemma SendaOneEases(s: State, c: nat, i: nat, e: Entry, io: Io)
    requires c < |s.procs| && e.Request?
    ensures var r := SendaOne(s, c, i, e, io);
      && Eases(s, r.state) && Handled(r.state, r.entry)
      && (forall f | Handled(s, f) :: Handled(r.state, f))
      && r.state.procs[c].table == s.procs[c].table && r.state.procs[c].life == s.procs[c].life
  {
    hide Eases;
    var r := SendaOne(s, c, i, e, io);
    var d := if e.dst.Ep? then e.dst.slot else 0;
    if d < |s.procs| {
      var x := s.procs[d];
      ChangeEases(s, r.state, d, x.(inbox := Letter(EpOf(s, c), e.body), receiving := false));
      ChangeEases(s, r.state, d, x.(asynMsg := true));
    }
    ChangeEases(s, r.state, c, s.procs[c]);
  }

  lemma EasesSelf(s: State)
    ensures Eases(s, s)
  {
  }

  lemma {:induction false} SendaLoopEases(s: State, c: nat, table: seq<Entry>, i: nat, io: Io)
    requires c < |s.procs| && i <= |table| && forall j | 0 <= j < i :: Handled(s, table[j])
    ensures var r := SendaLoop(s, c, table, i, io);
      && Eases(s, r.state) && (!r.broken ==> forall j | 0 <= j < |table| :: Handled(r.state, r.table[j]))
      && r.state.procs[c].table == s.procs[c].table && r.state.procs[c].life == s.procs[c].life
    decreases |table| - i
  {
    hide Eases, SendaOne;
    EasesSelf(s);
    if i < |table| {
      match table[i]
      case Blank => SendaLoopEases(s, c, table, i + 1, io);
      case Garbled =>
      case Request(_, _, _, _, _, _) =>
        var one := SendaOne(s, c, i, table[i], io);
        SendaOneEases(s, c, i, table[i], io);
        SendaLoopEases(one.state, c, table[i := one.entry], i + 1, io);
        EasesTrans(s, one.state, SendaLoop(s, c, table, i, io).state);
    }
  }

  lemma RegisterAnnounced(s: State, c: nat, table: seq<Entry>)
    requires Announced(s) && c < |s.procs| && s.procs[c].life == Live
    requires forall j | 0 <= j < |table| :: Handled(s, table[j])
    ensures Announced(Put(s, c, s.procs[c].(table := table)))
  {
    var t := Put(s, c, s.procs[c].(table := table));
    forall p | 0 <= p < |t.procs| ensures TableOk(t, p) {
      assert TableOk(s, p);
      forall e | e in t.procs[p].table ensures Aimed(t, e) {
        if p == c {
          var j :| 0 <= j < |table| && table[j] == e;
          assert Handled(s, table[j]);
        } else {
          assert Aimed(s, e);
        }
      }
    }
    forall p, d | 0 <= p < |t.procs| && 0 <= d < |t.procs| && t.procs[d].life == Live && !t.procs[d].asynMsg
      ensures NoneFor(t, p, d)
    {
      assert NoneFor(s, p, d);
      if p == c {
        forall e | e in table ensures !Undone(e, EpOf(t, d)) {
          var j :| 0 <= j < |table| && table[j] == e;
          assert Handled(s, table[j]);
        }
      }
    }
  }

  lemma SendaAnnounced(s: State, c: nat, table: seq<Entry>, io: Io)
    requires Announced(s) && c < |s.procs| && s.procs[c].life == Live
    ensures Announced(MiniSenda(s, c, table, io).state)
  {
    if s.procs[c].sysProc {
      var s0 := Put(s, c, s.procs[c].(table := []));
      assert Eases(s, s0);
      EasesAnnounced(s, s0);
      if |table| != 0 && io.mapOut && |table| <= 16 * |s.procs| {
        var r := SendaLoop(s0, c, table, 0, io);
        SendaLoopEases(s0, c, table, 0, io);
        EasesAnnounced(s0, r.state);
        if !r.broken {
          RegisterAnnounced(r.state, c, r.table);
        }
      }
    }
  }

  // ------------------------------------------------------------------ all steps

  lemma ReceiveAnnounced(s: State, c: nat, src: Endpoint, nonblock: bool, io: Io)
    requires Announced(s) && Shaped(s) && c < |s.procs| && (src.Ep? ==> src.slot < |s.procs|)
    requires forall p | p in s.queues[c] :: p < |s.procs|
    ensures Announced(MiniReceive(s, c, src, nonblock, io).state)
  {
    SleepEases(s, c, src, nonblock);
    EasesAnnounced(s, Sleep(s, c, src, nonblock).state);
    if !io.mapIn || (src.Ep? && s.procs[src.slot].life == Dead) || s.procs[c].sending {
    } else {
      var note := NotifyScan(s.procs[c].pending, |s.procs|, src, 0);
      var i := QueueScan(s.queues[c], src);
      if !s.procs[c].replyPend && note.Some? {
        var t := TakeNotice(s, c, note.value).state;
        assert Eases(s, t);
        EasesAnnounced(s, t);
      } else if i < |s.queues[c]| {
        assert s.queues[c][i] in s.queues[c];
        TakeEases(s, c, i);
        EasesAnnounced(s, TakeCaller(s, c, i));
      } else if s.procs[c].asynMsg {
        var tried := if src.Ep? then TryOne(s, src.slot, c).outcome else TryAsync(s, c, 0, false);
        if src.Ep? {
          TryOneEases(s, src.slot, c);
          EasesAnnounced(s, tried.state);
        } else {
          TryAsyncAnnounced(s, c, 0, false);
        }
        SleepEases(tried.state, c, src, nonblock);
        EasesAnnounced(tried.state, Sleep(tried.state, c, src, nonblock).state);
      }
    }
  }

  lemma SleepEases(s: State, c: nat, src: Endpoint, nonblock: bool)
    requires c < |s.procs| && (src.Ep? ==> src.slot < |s.procs|)
    ensures Eases(s, Sleep(s, c, src, nonblock).state)
  {
  }

  lemma TakeEases(s: State, c: nat, i: nat)
    requires Shaped(s) && c < |s.procs| && i < |s.queues[c]| && s.queues[c][i] < |s.procs|
    ensures Eases(s, TakeCaller(s, c, i))
  {
  }

  lemma SendEases(s: State, c: nat, d: Endpoint, body: Body, nonblock: bool, io: Io)
    requires Shaped(s) && c < |s.procs| && d.Ep? && d.slot < |s.procs|
    ensures Eases(s, MiniSend(s, c, d, body, nonblock, io).state)
  {
  }

  lemma CallAnnounced(s: State, c: nat, call: Call, io: Io)
    requires Inv(s) && Announced(s) && Enabled(s, Trap(c, call, io))
    ensures Announced(KipcCall(s, c, call, io).state)
  {
    if Screen(s, c, call) == Ok {
      assert PendingOk(s, c);
      match call
      case Send(d, body, nonblock) =>
        SendEases(s, c, d, body, nonblock, io);
        EasesAnnounced(s, KipcCall(s, c, call, io).state);
      case Receive(src) =>
        var s1 := SetReplyPend(s, c, false);
        assert Eases(s, s1);
        EasesAnnounced(s, s1);
        ReceiveAnnounced(s1, c, src, false, io);
      case SendRec(d, body, nonblock) =>
        ReplyPendInv(s, c, true);
        var s1 := SetReplyPend(s, c, true);
        assert Eases(s, s1);
        var sent := MiniSend(s1, c, d, body, nonblock, io);
        SendEases(s1, c, d, body, nonblock, io);
        EasesAnnounced(s, s1);
        EasesAnnounced(s1, sent.state);
        if sent.status == Ok {
          SendThenReceive(s1, c, d, body, nonblock, io);
          QueuesInRange(sent.state);
          ReceiveAnnounced(sent.state, c, d, false, io);
        }
      case Notify(d) =>
        NotifyEases(s, c, d);
        EasesAnnounced(s, MiniNotify(s, c, d).state);
      case Senda(table) => SendaAnnounced(s, c, table, io);
    }
  }

  lemma NotifyEases(s: State, c: nat, d: Endpoint)
    requires c < |s.procs|
    ensures Eases(s, MiniNotify(s, c, d).state)
  {
  }

  lemma ClearEases(s: State, rc: nat)
    requires Shaped(s) && rc < |s.procs| && s.procs[rc].life != Free
    ensures Eases(s, ClearEndpoint(s, rc)) && Eases(ClearEndpoint(s, rc), FreeSlot(ClearEndpoint(s, rc), rc))
  {
    hide CallOffs, Without;
    FreeEases(ClearEndpoint(s, rc), rc);
  }

  lemma FreeEases(s: State, rc: nat)
    requires rc < |s.procs| && s.procs[rc].life != Live && (s.procs[rc].sysProc ==> s.procs[rc].table == [])
    ensures Eases(s, FreeSlot(s, rc))
  {
  }

  lemma ForkAnnounced(s: State, parent: nat, child: nat, stop: bool)
    requires Inv(s) && Announced(s) && Enabled(s, Spawn(parent, child, stop))
    ensures Announced(Fork(s, parent, child, stop).state)
  {
    var r := Fork(s, parent, child, stop);
    if r.status == Ok {
      var t := r.state;
      forall p | 0 <= p < |t.procs| ensures TableOk(t, p) {
        assert TableOk(s, p);
        forall e | e in t.procs[p].table ensures Aimed(t, e) {
          assert Aimed(s, e);
        }
      }
      forall p, d | 0 <= p < |t.procs| && 0 <= d < |t.procs| && t.procs[d].life == Live && !t.procs[d].asynMsg
        ensures NoneFor(t, p, d)
      {
        assert TableOk(s, p);
        if d == child {
          forall e | e in t.procs[p].table ensures !Undone(e, EpOf(t, d)) {
            assert Aimed(s, e);
          }
        } else {
          assert NoneFor(s, p, d);
        }
      }
    }
  }

  lemma LocalEases(s: State, p: nat, b: bool)
    requires p < |s.procs|
    ensures Eases(s, Fetch(s, p)) && Eases(s, Hold(s, p, b))
  {
  }

  lemma ForbidEases(s: State, p: nat, id: nat)
    requires p < |s.procs| && id < |s.procs|
    ensures Eases(s, UnsetSendTo(s, p, id))
  {
  }

  /** `t` is `s` with more permissions to send. */
  ghost predicate Grants(s: State, t: State) {
    && |s.procs| == |t.procs|
    && forall x | 0 <= x < |s.procs| ::
      s.procs[x].ipcTo <= t.procs[x].ipcTo && t.procs[x] == s.procs[x].(ipcTo := t.procs[x].ipcTo)
  }

  /** `x` has no unserved request that `c` would have to be told of, were `x` permitted to send to it. */
  predicate NothingOwed(s: State, x: nat, c: nat)
    requires x < |s.procs| && c < |s.procs|
  {
    s.procs[x].sysProc && s.procs[c].life == Live && !s.procs[c].asynMsg ==>
      forall e | e in s.procs[x].table :: !Undone(e, EpOf(s, c))
  }

  /** New permissions leave all requests announced exactly when none of them lets an old request through. */
  lemma GrantExact(s: State, t: State)
    requires Announced(s) && Grants(s, t)
    ensures Announced(t) <==>
      forall x, c | 0 <= x < |s.procs| && 0 <= c < |s.procs| && c in t.procs[x].ipcTo && c !in s.procs[x].ipcTo ::
        NothingOwed(s, x, c)
  {
    forall p | 0 <= p < |t.procs| ensures TableOk(t, p) {
      assert TableOk(s, p);
      forall e | e in t.procs[p].table ensures Aimed(t, e) {
        assert Aimed(s, e);
      }
    }
    forall x, c | 0 <= x < |s.procs| && 0 <= c < |s.procs|
      ensures s.procs[c].life == Live && !s.procs[c].asynMsg ==>
        (NoneFor(t, x, c) <==> (c in t.procs[x].ipcTo && c !in s.procs[x].ipcTo ==> NothingOwed(s, x, c)))
    {
      assert s.procs[c].life == Live && !s.procs[c].asynMsg ==> NoneFor(s, x, c);
    }
  }

  /** What to check before `set_sendto_bit` permits `p` to send to `id`, and `id` to answer. */
  predicate PermitOk(s: State, p: nat, id: nat)
    requires p < |s.procs| && id < |s.procs|
  {
    s.procs[id].life == Free || p == id ||
    (&& (id !in s.procs[p].ipcTo ==> NothingOwed(s, p, id))
     && (Answers(s.procs[id]) && p !in s.procs[id].ipcTo ==> NothingOwed(s, id, p)))
  }

  /** The two entries that `set_sendto_bit` changes. */
  lemma PermitProcs(s: State, p: nat, id: nat)
    requires p < |s.procs| && id < |s.procs| && s.procs[id].life != Free && p != id
    ensures var x, y := s.procs[p], s.procs[id];
      SetSendTo(s, p, id).procs ==
        s.procs[p := x.(ipcTo := x.ipcTo + {id})][id := y.(ipcTo := y.ipcTo + (if Answers(s.procs[id]) then {p} else {}))]
  {
    hide Answers;
    var x, y := s.procs[p], s.procs[id];
    assert y.ipcTo + {} == y.ipcTo;
    var one := s.procs[p := x.(ipcTo := x.ipcTo + {id})];
    assert one[id] == y && one[id := y] == one;
  }

  lemma PermitGrants(s: State, p: nat, id: nat)
    requires p < |s.procs| && id < |s.procs| && s.procs[id].life != Free && p != id
    ensures var t := SetSendTo(s, p, id);
      && Grants(s, t)
      && t.procs[p].ipcTo == s.procs[p].ipcTo + {id}
      && t.procs[id].ipcTo == s.procs[id].ipcTo + (if Answers(s.procs[id]) then {p} else {})
      && forall x | 0 <= x < |s.procs| && x != p && x != id :: t.procs[x] == s.procs[x]
  {
    hide SetSendTo, Answers;
    PermitProcs(s, p, id);
  }

  /** `set_sendto_bit` leaves all requests announced exactly when that check passes. */
  lemma PermitExact(s: State, p: nat, id: nat)
    requires Announced(s) && p < |s.procs| && id < |s.procs|
    ensures Announced(SetSendTo(s, p, id)) <==> PermitOk(s, p, id)
  {
    var t := SetSendTo(s, p, id);
    if s.procs[id].life == Free || p == id {
      assert Eases(s, t);
      EasesAnnounced(s, t);
    } else {
      hide SetSendTo, Announced;
      PermitGrants(s, p, id);
      GrantExact(s, t);
      if Announced(t) {
        assert id !in s.procs[p].ipcTo ==> NothingOwed(s, p, id);
        assert Answers(s.procs[id]) && p !in s.procs[id].ipcTo ==> NothingOwed(s, id, p);
      }
    }
  }

  /** No step but a permission that lets an old request through leaves a request unannounced. */
  ghost predicate StepOk(s: State, e: Step) {
    e.Permit? && e.owner < |s.procs| && e.peer < |s.procs| ==> PermitOk(s, e.owner, e.peer)
  }

  lemma StepAnnounced(s: State, e: Step)
    requires Inv(s) && Announced(s) && Enabled(s, e)
    ensures Announced(Apply(s, e)) <==> StepOk(s, e)
  {
    match e
    case Trap(c, call, io) => CallAnnounced(s, c, call, io);
    case Signal(p, d) =>
      NotifyEases(s, p, d);
      EasesAnnounced(s, MiniNotify(s, p, d).state);
    case Clear(rc) =>
      ClearEases(s, rc);
      EasesAnnounced(s, ClearEndpoint(s, rc));
    case Exit(rc) =>
      ClearEases(s, rc);
      EasesAnnounced(s, ClearEndpoint(s, rc));
      EasesAnnounced(ClearEndpoint(s, rc), FreeSlot(ClearEndpoint(s, rc), rc));
    case Spawn(parent, child, stop) => ForkAnnounced(s, parent, child, stop);
    case CopyOut(p) =>
      LocalEases(s, p, false);
      EasesAnnounced(s, Fetch(s, p));
    case SetHold(p, b) =>
      LocalEases(s, p, b);
      EasesAnnounced(s, Hold(s, p, b));
    case Permit(p, id) => PermitExact(s, p, id);
    case Forbid(p, id) =>
      ForbidEases(s, p, id);
      EasesAnnounced(s, UnsetSendTo(s, p, id));
  }

  lemma StartAnnounced(s: State)
    requires Start(s)
    ensures Announced(s)
  {
    forall p | 0 <= p < |s.procs| ensures TableOk(s, p) {
    }
  }

  /**
   In every run, all unserved requests for live, permitted destinations stay announced by MF_ASYNMSG up to step `n`
   exactly when no permission granted on the way lets an old request through.
   */
  lemma {:induction false} RunAnnounced(states: seq<State>, steps: seq<Step>, n: nat)
    requires IsRun(states, steps) && n < |states|
    ensures (forall i | 0 <= i <= n :: Announced(states[i])) <==> (forall k | 0 <= k < n :: StepOk(states[k], steps[k]))
  {
    hide Announced, StepOk, Enabled, Apply, Inv, Start;
    if n == 0 {
      StartAnnounced(states[0]);
    } else {
      RunAnnounced(states, steps, n - 1);
      RunInv(states, steps, n - 1);
      assert states[n - 1 + 1] == Apply(states[n - 1], steps[n - 1]);
      if forall i | 0 <= i <= n - 1 :: Announced(states[i]) {
        StepAnnounced(states[n - 1], steps[n - 1]);
      }
    }
  }

  // A run in which a permission lets an old request through: 0 tables a request for 1, loses and regains its
  // permission, and 1 goes to sleep receiving from anyone in between.

  const REQUEST := Request(false, false, false, Ep(1, 0), [], Ok)

  function Sender(ipcTo: set<nat>, table: seq<Entry>): Proc {
    Proc(0, Live, false, false, false, Any, [], false, Any, {}, Vacant, false, false, table, true, ipcTo, {SendaCall})
  }

  function Receiver(asynMsg: bool, receiving: bool): Proc {
    Proc(0, Live, false, false, false, Any, [], receiving, Any, {}, Vacant, false, asynMsg, [], false, {}, {ReceiveCall})
  }

  function Pair(x: Proc, y: Proc): State {
    State([x, y], [[], []], [])
  }

  const FINE := Io(true, true, true)

  lemma TablesRequest()
    ensures KipcCall(Pair(Sender({1}, []), Receiver(false, false)), 0, Senda([REQUEST]), FINE).state ==
      Pair(Sender({1}, [REQUEST]), Receiver(true, false))
  {
    var s := Pair(Sender({1}, []), Receiver(false, false));
    var t := Pair(Sender({1}, []), Receiver(true, false));
    assert Put(s, 0, s.procs[0].(table := [])) == s;
    assert SendaOne(s, 0, 0, REQUEST, FINE) == Served(t, REQUEST);
    assert [REQUEST][0 := REQUEST] == [REQUEST];
    assert SendaLoop(s, 0, [REQUEST], 0, FINE) == SendaLoop(t, 0, [REQUEST], 1, FINE) == Swept(t, [REQUEST], false);
    assert REQUEST in [REQUEST];
    assert MiniSenda(s, 0, [REQUEST], FINE).state == Put(t, 0, t.procs[0].(table := [REQUEST]));
  }

  lemma GoesToSleep()
    ensures KipcCall(Pair(Sender({}, [REQUEST]), Receiver(true, false)), 1, Receive(Any), FINE).state ==
      Pair(Sender({}, [REQUEST]), Receiver(false, true))
  {
    var s := Pair(Sender({}, [REQUEST]), Receiver(true, false));
    var t := Pair(Sender({}, [REQUEST]), Receiver(false, false));
    assert SetReplyPend(s, 1, false) == s;
    assert NotifyScan({}, 2, Any, 0) == None by {
      LowBitIs({}, 0, 0);
    }
    assert TryOne(s, 0, 1).outcome == Outcome(s, EAgain) && TryOne(s, 1, 1).outcome == Outcome(s, EAgain);
    assert TryAsync(s, 1, 2, false) == Outcome(t, ESrch);
    assert TryAsync(s, 1, 0, false) == TryAsync(s, 1, 1, false) == TryAsync(s, 1, 2, false);
    assert Sleep(t, 1, Any, false).state == Pair(Sender({}, [REQUEST]), Receiver(false, true));
  }

  lemma LosesPermission()
    ensures UnsetSendTo(Pair(Sender({1}, [REQUEST]), Receiver(true, false)), 0, 1) ==
      Pair(Sender({}, [REQUEST]), Receiver(true, false))
  {
    var x, y := Sender({1}, [REQUEST]), Receiver(true, false);
    var none: set<nat> := {};
    assert x.ipcTo - {1} == none && y.ipcTo - {0} == none;
    assert Put(Pair(x, y), 0, x.(ipcTo := none)) == Pair(Sender({}, [REQUEST]), y);
  }

  lemma RegainsPermission()
    ensures SetSendTo(Pair(Sender({}, [REQUEST]), Receiver(false, true)), 0, 1) ==
      Pair(Sender({1}, [REQUEST]), Receiver(false, true))
  {
    var x, y := Sender({}, [REQUEST]), Receiver(false, true);
    assert x.ipcTo + {1} == {1} && !Answers(y);
  }

  function Example(k: nat): State {
    match k
    case 0 => Pair(Sender({1}, []), Receiver(false, false))
    case 1 => Pair(Sender({1}, [REQUEST]), Receiver(true, false))
    case 2 => Pair(Sender({}, [REQUEST]), Receiver(true, false))
    case 3 => Pair(Sender({}, [REQUEST]), Receiver(false, true))
    case _ => Pair(Sender({1}, [REQUEST]), Receiver(false, true))
  }

  function ExampleStep(k: nat): Step {
    match k
    case 0 => Trap(0, Senda([REQUEST]), FINE)
    case 1 => Forbid(0, 1)
    case 2 => Trap(1, Receive(Any), FINE)
    case _ => Permit(0, 1)
  }

  lemma ExampleGoes(k: nat)
    requires k < 4
    ensures Enabled(Example(k), ExampleStep(k)) && Example(k + 1) == Apply(Example(k), ExampleStep(k))
  {
    hide KipcCall, SetSendTo, UnsetSendTo;
    TablesRequest();
    LosesPermission();
    GoesToSleep();
    RegainsPermission();
    assert TypeOk(Example(k));
  }

  lemma UnannouncedExample()
    ensures exists states: seq<State>, steps: seq<Step> ::
      && IsRun(states, steps) && |steps| == 4 && !Announced(states[4])
      && |states[4].procs| == 2 && states[4].procs[1].receiving && Offers(states[4], 0, 1, 0)
  {
    hide Enabled, Apply;
    var states := [Example(0), Example(1), Example(2), Example(3), Example(4)];
    var steps := [ExampleStep(0), ExampleStep(1), ExampleStep(2), ExampleStep(3)];
    forall k | 0 <= k < 4 ensures Enabled(states[k], steps[k]) && states[k + 1] == Apply(states[k], steps[k]) {
      ExampleGoes(k);
    }
    var s := Example(4);
    assert REQUEST in s.procs[0].table && Undone(REQUEST, EpOf(s, 1));
    assert !NoneFor(s, 0, 1);
    assert IsRun(states, steps);
  }

  lemma TryOneMiss(s: State, src: nat, dst: nat)
    requires src < |s.procs| && dst < |s.procs| && TryOne(s, src, dst).outcome.status != Ok
    ensures var t := TryOne(s, src, dst).outcome.state;
      && |t.procs| == |s.procs|
      && (forall p | 0 <= p < |s.procs| && p != src :: t.procs[p] == s.procs[p])
      && t.procs[src] == s.procs[src].(table := t.procs[src].table)
  {
  }

  /** A receiver that would accept a tabled request does not go to sleep. */
  lemma {:induction false} TryAsyncFinds(s: State, c: nat, k: nat, postponed: bool, p: nat, j: nat)
    requires c < |s.procs| && k <= p < |s.procs| && s.procs[p].life != Free && Sends(s, p, c)
    requires j < |s.procs[p].table| && Takes(s.procs[p].table[j], EpOf(s, c), s.procs[c].replyPend)
    requires forall e | e in s.procs[p].table :: e != Garbled
    ensures TryAsync(s, c, k, postponed).status == Ok
    decreases |s.procs| - k
  {
    if k == p {
      ScanHits(s.procs[p].table, EpOf(s, c), s.procs[c].replyPend, 0, true, false, j);
    } else if s.procs[k].life == Free {
      TryAsyncFinds(s, c, k + 1, postponed, p, j);
    } else {
      var a := TryOne(s, k, c);
      if a.outcome.status != Ok {
        TryOneMiss(s, k, c);
        TryAsyncFinds(a.outcome.state, c, k + 1, postponed || a.postponed, p, j);
      }
    }
  }

  /** Process `p` has a request in its table that `c` can take right now. */
  ghost predicate Offers(s: State, p: nat, c: nat, j: nat) {
    && p < |s.procs| && c < |s.procs| && s.procs[p].life == Live && Sends(s, p, c)
    && j < |s.procs[p].table| && Takes(s.procs[p].table[j], EpOf(s, c), s.procs[c].replyPend)
    && forall e | e in s.procs[p].table :: e != Garbled
  }

  lemma TriedFinds(s: State, c: nat, src: Endpoint, p: nat, j: nat)
    requires Offers(s, p, c, j) && (src == Any || src == EpOf(s, p)) && !s.procs[c].receiving
    ensures
      var tried := if src.Ep? then TryOne(s, src.slot, c).outcome else TryAsync(s, c, 0, false);
      tried.status == Ok && c < |tried.state.procs| && !tried.state.procs[c].receiving
  {
    if src.Ep? {
      ScanHits(s.procs[p].table, EpOf(s, c), s.procs[c].replyPend, 0, true, false, j);
      TryOneFrame(s, p, c);
      assert SameWait(s.procs[c], TryOne(s, p, c).outcome.state.procs[c]);
    } else {
      TryAsyncFinds(s, c, 0, false, p, j);
      TryAsyncFrame(s, c, 0, false);
      assert SameWait(s.procs[c], TryAsync(s, c, 0, false).state.procs[c]);
    }
  }

  /** A receiver does not go to sleep on a request that is tabled for it. */
  lemma ReceiveFinds(s: State, c: nat, src: Endpoint, nonblock: bool, io: Io, p: nat, j: nat)
    requires Announced(s) && Shaped(s) && Offers(s, p, c, j) && (src == Any || src == EpOf(s, p)) && io.mapIn
    requires s.procs[c].life == Live && !s.procs[c].sending && !s.procs[c].receiving
    requires forall q | q in s.queues[c] :: q < |s.procs|
    ensures var r := MiniReceive(s, c, src, nonblock, io);
      r.status == Ok && c < |r.state.procs| && !r.state.procs[c].receiving
  {
    assert s.procs[p].table[j] in s.procs[p].table;
    assert !NoneFor(s, p, c);
    var note := NotifyScan(s.procs[c].pending, |s.procs|, src, 0);
    var i := QueueScan(s.queues[c], src);
    if !s.procs[c].replyPend && note.Some? {
    } else if i < |s.queues[c]| {
      assert s.queues[c][i] in s.queues[c];
    } else {
      TriedFinds(s, c, src, p, j);
    }
  }

  // --------------------------------------------------------------- served once

  /** How often request `i` of `p` is served in `log`. */
  function Times(log: seq<Event>, p: nat, i: nat): nat {
    if log == [] then 0
    else Times(log[..|log| - 1], p, i) +
         (var e := log[|log| - 1]; if e.Posted? && e.src == p && e.index == i then 1 else 0)
  }

  lemma {:induction false} TimesAdd(x: seq<Event>, y: seq<Event>, p: nat, i: nat)
    ensures Times(x + y, p, i) == Times(x, p, i) + Times(y, p, i)
  {
    if y == [] {
      assert x + y == x;
    } else {
      assert (x + y)[..|x + y| - 1] == x + y[..|y| - 1];
      TimesAdd(x, y[..|y| - 1], p, i);
    }
  }

  lemma {:induction false} TimesNone(log: seq<Event>, p: nat, i: nat)
    requires forall e | e in log :: !(e.Posted? && e.src == p)
    ensures Times(log, p, i) == 0
  {
    if log != [] {
      assert log[|log| - 1] in log;
      TimesNone(log[..|log| - 1], p, i);
    }
  }

  /** Request `i` was unserved in `a` and has been served once on the way to `b`. */
  ghost predicate ServedOnce(a: seq<Entry>, b: seq<Entry>, n: nat, i: nat) {
    && n <= 1
    && (n == 1 ==> i < |a| && a[i].Request? && !a[i].done && (b == [] || (i < |b| && b[i].Request? && b[i].done)))
  }

  /** Between two tables of `p` with the events `log` in between, no request is served twice, done requests
      stay done, and a table that is dropped is not served from. */
  ghost predicate Once(a: seq<Entry>, b: seq<Entry>, log: seq<Event>, p: nat) {
    && TableShrinks(a, b)
    && forall i: nat :: ServedOnce(a, b, Times(log, p, i), i)
  }

  lemma OnceTrans(a: seq<Entry>, b: seq<Entry>, c: seq<Entry>, x: seq<Event>, y: seq<Event>, p: nat)
    requires Once(a, b, x, p) && Once(b, c, y, p)
    ensures Once(a, c, x + y, p)
  {
    if c != [] {
      forall i | 0 <= i < |a| ensures SameOrDone(a[i], c[i]) {
        assert SameOrDone(a[i], b[i]) && SameOrDone(b[i], c[i]);
      }
    }
    forall i: nat ensures ServedOnce(a, c, Times(x + y, p, i), i) {
      TimesAdd(x, y, p, i);
      assert ServedOnce(a, b, Times(x, p, i), i) && ServedOnce(b, c, Times(y, p, i), i);
      if i < |a| && b != [] {
        assert SameOrDone(a[i], b[i]);
        if c != [] {
          assert SameOrDone(b[i], c[i]);
        }
      }
    }
  }

  /** The part of the log of `t` that is not in that of `s`. */
  function Added(s: State, t: State): seq<Event>
    requires |s.log| <= |t.log|
  {
    t.log[|s.log|..]
  }

  ghost predicate OnceBetween(s: State, t: State, p: nat) {
    && p < |s.procs| == |t.procs| && s.log <= t.log
    && Once(s.procs[p].table, t.procs[p].table, Added(s, t), p)
  }

  lemma OnceBetweenTrans(s: State, t: State, u: State, p: nat)
    requires OnceBetween(s, t, p) && OnceBetween(t, u, p)
    ensures OnceBetween(s, u, p)
  {
    assert Added(s, u) == Added(s, t) + Added(t, u);
    OnceTrans(s.procs[p].table, t.procs[p].table, u.procs[p].table, Added(s, t), Added(t, u), p);
  }

  /** Steps that serve nothing of `p` and leave its table, or drop it. */
  lemma OnceIdle(s: State, t: State, p: nat)
    requires p < |s.procs| == |t.procs| && s.log <= t.log
    requires t.procs[p].table == s.procs[p].table || t.procs[p].table == []
    requires forall k | |s.log| <= k < |t.log| :: !(t.log[k].Posted? && t.log[k].src == p)
    ensures OnceBetween(s, t, p)
  {
    forall i: nat ensures Times(Added(s, t), p, i) == 0 {
      TimesNone(Added(s, t), p, i);
    }
  }

  lemma OnceServe(s: State, src: nat, dst: nat, i: nat, p: nat)
    requires src < |s.procs| && dst < |s.procs| && p < |s.procs|
    requires i < |s.procs[src].table| && s.procs[src].table[i].Request? && !s.procs[src].table[i].done
    ensures OnceBetween(s, Serve(s, src, dst, i), p)
  {
    var t := Serve(s, src, dst, i);
    if p == src {
      var e := Posted(src, dst, i, s.procs[src].table[i].body);
      assert Added(s, t) == [e];
      forall k: nat ensures Times([e], p, k) == if k == i then 1 else 0 {
        assert [e][..0] == [];
      }
    } else {
      OnceIdle(s, t, p);
    }
  }

  lemma OnceTryOne(s: State, src: nat, dst: nat, p: nat)
    requires src < |s.procs| && dst < |s.procs| && p < |s.procs|
    ensures OnceBetween(s, TryOne(s, src, dst).outcome.state, p)
  {
    var x := s.procs[src];
    OnceIdle(s, s, p);
    if Sends(s, src, dst) && |x.table| != 0 {
      var f := TableScan(x.table, EpOf(s, dst), s.procs[dst].replyPend, 0, true, false);
      if f.Hit? {
        OnceServe(s, src, dst, f.index, p);
      } else {
        OnceIdle(s, Put(s, src, x.(table := [])), p);
      }
    }
  }

  lemma {:induction false} OnceTryAsync(s: State, c: nat, k: nat, postponed: bool, p: nat)
    requires c < |s.procs| && p < |s.procs|
    ensures OnceBetween(s, TryAsync(s, c, k, postponed).state, p)
    decreases |s.procs| - k
  {
    if k >= |s.procs| {
      OnceIdle(s, TryAsync(s, c, k, postponed).state, p);
    } else if s.procs[k].life == Free {
      OnceTryAsync(s, c, k + 1, postponed, p);
    } else {
      var a := TryOne(s, k, c);
      OnceTryOne(s, k, c, p);
      if a.outcome.status != Ok {
        OnceTryAsync(a.outcome.state, c, k + 1, postponed || a.postponed, p);
        OnceBetweenTrans(s, a.outcome.state, TryAsync(s, c, k, postponed).state, p);
      }
    }
  }

  lemma OnceTail(s: State, c: nat, src: Endpoint, nonblock: bool, p: nat)
    requires c < |s.procs| && p < |s.procs| && (src.Ep? ==> src.slot < |s.procs|)
    ensures
      var tried := if src.Ep? then TryOne(s, src.slot, c).outcome else TryAsync(s, c, 0, false);
      OnceBetween(s, tried.state, p) && OnceBetween(s, Sleep(tried.state, c, src, nonblock).state, p)
  {
    var tried := if src.Ep? then TryOne(s, src.slot, c).outcome else TryAsync(s, c, 0, false);
    if src.Ep? {
      OnceTryOne(s, src.slot, c, p);
    } else {
      OnceTryAsync(s, c, 0, false, p);
    }
    OnceIdle(tried.state, Sleep(tried.state, c, src, nonblock).state, p);
    OnceBetweenTrans(s, tried.state, Sleep(tried.state, c, src, nonblock).state, p);
  }

  lemma OnceReceive(s: State, c: nat, src: Endpoint, nonblock: bool, io: Io, p: nat)
    requires Shaped(s) && c < |s.procs| && p < |s.procs| && (src.Ep? ==> src.slot < |s.procs|)
    requires forall q | q in s.queues[c] :: q < |s.procs|
    ensures OnceBetween(s, MiniReceive(s, c, src, nonblock, io).state, p)
  {
    var t := MiniReceive(s, c, src, nonblock, io).state;
    OnceIdle(s, Sleep(s, c, src, nonblock).state, p);
    if !io.mapIn || (src.Ep? && s.procs[src.slot].life == Dead) {
      OnceIdle(s, s, p);
    } else if !s.procs[c].sending {
      var note := NotifyScan(s.procs[c].pending, |s.procs|, src, 0);
      var i := QueueScan(s.queues[c], src);
      if !s.procs[c].replyPend && note.Some? {
        OnceIdle(s, TakeNotice(s, c, note.value).state, p);
      } else if i < |s.queues[c]| {
        assert s.queues[c][i] in s.queues[c];
        OnceIdle(s, TakeCaller(s, c, i), p);
      } else if s.procs[c].asynMsg {
        OnceTail(s, c, src, nonblock, p);
      }
    }
  }

  /** Serving the table of `c` touches no other table. */
  lemma {:induction false} OnceSendaOther(s: State, c: nat, table: seq<Entry>, i: nat, io: Io, p: nat)
    requires c < |s.procs| && i <= |table| && p < |s.procs| && p != c
    ensures OnceBetween(s, SendaLoop(s, c, table, i, io).state, p)
    decreases |table| - i
  {
    if i == |table| || table[i].Garbled? {
      OnceIdle(s, s, p);
    } else if table[i].Blank? {
      OnceSendaOther(s, c, table, i + 1, io, p);
    } else {
      var one := SendaOne(s, c, i, table[i], io);
      OnceIdle(s, one.state, p);
      OnceSendaOther(one.state, c, table[i := one.entry], i + 1, io, p);
      OnceBetweenTrans(s, one.state, SendaLoop(s, c, table, i, io).state, p);
    }
  }

  lemma OnceSendaOne(s: State, c: nat, table: seq<Entry>, i: nat, io: Io)
    requires c < |s.procs| && i < |table| && table[i].Request?
    ensures var one := SendaOne(s, c, i, table[i], io);
      s.log <= one.state.log && Once(table, table[i := one.entry], Added(s, one.state), c)
  {
    var one := SendaOne(s, c, i, table[i], io);
    var ext := Added(s, one.state);
    if ext == [] {
      forall k: nat ensures Times(ext, c, k) == 0 {
      }
    } else {
      var e := Posted(c, table[i].dst.slot, i, table[i].body);
      assert ext == [e];
      forall k: nat ensures Times([e], c, k) == if k == i then 1 else 0 {
        assert [e][..0] == [];
      }
    }
  }

  lemma {:induction false} OnceSendaLoop(s: State, c: nat, table: seq<Entry>, i: nat, io: Io)
    requires c < |s.procs| && i <= |table|
    ensures var r := SendaLoop(s, c, table, i, io);
      s.log <= r.state.log && Once(table, r.table, Added(s, r.state), c)
    decreases |table| - i
  {
    if i == |table| || table[i].Garbled? {
      forall k: nat ensures Times([], c, k) == 0 {
      }
      assert Added(s, s) == [];
    } else if table[i].Blank? {
      OnceSendaLoop(s, c, table, i + 1, io);
    } else {
      var one := SendaOne(s, c, i, table[i], io);
      var r := SendaLoop(s, c, table, i, io);
      OnceSendaOne(s, c, table, i, io);
      OnceSendaLoop(one.state, c, table[i := one.entry], i + 1, io);
      assert Added(s, r.state) == Added(s, one.state) + Added(one.state, r.state);
      OnceTrans(table, table[i := one.entry], r.table, Added(s, one.state), Added(one.state, r.state), c);
    }
  }

  /** A call serves each request of the table it is given at most once, and registers it as done. */
  lemma OnceSenda(s: State, c: nat, table: seq<Entry>, io: Io)
    requires c < |s.procs| && MiniSenda(s, c, table, io).status == Ok
    ensures var t := MiniSenda(s, c, table, io).state;
      |t.procs| == |s.procs| && s.log <= t.log && Once(table, t.procs[c].table, Added(s, t), c)
  {
    var s0 := Put(s, c, s.procs[c].(table := []));
    var t := MiniSenda(s, c, table, io).state;
    if |table| == 0 {
      forall k: nat ensures Times([], c, k) == 0 {
      }
      assert Added(s, t) == [];
    } else {
      var r := SendaLoop(s0, c, table, 0, io);
      OnceSendaLoop(s0, c, table, 0, io);
      SendaLoopEases(s0, c, table, 0, io);
      if AllServed(r.table) {
        forall i: nat ensures ServedOnce(table, [], Times(Added(s, t), c, i), i) {
          assert ServedOnce(table, r.table, Times(Added(s, t), c, i), i);
        }
      }
    }
  }

  lemma OnceSendaStep(s: State, c: nat, table: seq<Entry>, io: Io, p: nat)
    requires c < |s.procs| && p < |s.procs| && p != c
    ensures OnceBetween(s, MiniSenda(s, c, table, io).state, p)
  {
    OnceIdle(s, s, p);
    if s.procs[c].sysProc {
      var s0 := Put(s, c, s.procs[c].(table := []));
      OnceIdle(s, s0, p);
      if |table| != 0 && io.mapOut && |table| <= 16 * |s.procs| {
        var r := SendaLoop(s0, c, table, 0, io);
        OnceSendaOther(s0, c, table, 0, io, p);
        OnceBetweenTrans(s, s0, r.state, p);
        var t := Put(r.state, c, r.state.procs[c].(table := r.table));
        OnceIdle(r.state, t, p);
        OnceBetweenTrans(s, r.state, t, p);
      }
    }
  }

  lemma OnceSendRec(s: State, c: nat, call: Call, io: Io, p: nat)
    requires Inv(s) && Enabled(s, Trap(c, call, io)) && p < |s.procs| && call.SendRec? && Screen(s, c, call) == Ok
    ensures OnceBetween(s, KipcCall(s, c, call, io).state, p)
  {
    var d := call.peer;
    assert PendingOk(s, c);
    ReplyPendInv(s, c, true);
    var s1 := SetReplyPend(s, c, true);
    var sent := MiniSend(s1, c, d, call.request, call.nonblocking, io);
    OnceIdle(s, sent.state, p);
    if sent.status == Ok {
      SendThenReceive(s1, c, d, call.request, call.nonblocking, io);
      QueuesInRange(sent.state);
      OnceReceive(sent.state, c, d, false, io, p);
      OnceBetweenTrans(s, sent.state, MiniReceive(sent.state, c, d, false, io).state, p);
    }
  }

  lemma OnceCall(s: State, c: nat, call: Call, io: Io, p: nat)
    requires Inv(s) && Enabled(s, Trap(c, call, io)) && p < |s.procs| && !(call.Senda? && c == p)
    ensures OnceBetween(s, KipcCall(s, c, call, io).state, p)
  {
    OnceIdle(s, s, p);
    if Screen(s, c, call) == Ok {
      assert PendingOk(s, c);
      match call
      case Send(d, body, nonblock) => OnceIdle(s, MiniSend(s, c, d, body, nonblock, io).state, p);
      case Receive(src) =>
        var s1 := SetReplyPend(s, c, false);
        OnceIdle(s, s1, p);
        OnceReceive(s1, c, src, false, io, p);
        OnceBetweenTrans(s, s1, MiniReceive(s1, c, src, false, io).state, p);
      case SendRec(d, body, nonblock) => OnceSendRec(s, c, call, io, p);
      case Notify(d) => OnceIdle(s, MiniNotify(s, c, d).state, p);
      case Senda(table) => OnceSendaStep(s, c, table, io, p);
    }
  }

  lemma {:induction false} CallOffsNoPosts(s: State, rc: nat, k: nat)
    requires rc < |s.procs| && k <= |s.procs|
    ensures forall e | e in CallOffs(s, rc, k) :: !e.Posted?
  {
    if k > 0 {
      CallOffsNoPosts(s, rc, k - 1);
    }
  }

  lemma OnceClear(s: State, rc: nat, p: nat)
    requires Shaped(s) && rc < |s.procs| && s.procs[rc].life != Free && p < |s.procs|
    ensures OnceBetween(s, ClearEndpoint(s, rc), p) && OnceBetween(s, FreeSlot(ClearEndpoint(s, rc), rc), p)
  {
    var t := ClearEndpoint(s, rc);
    CallOffsNoPosts(s, rc, |s.procs|);
    forall k | |s.log| <= k < |t.log| ensures !t.log[k].Posted? {
      assert t.log[k] == CallOffs(s, rc, |s.procs|)[k - |s.log|];
    }
    OnceIdle(s, t, p);
    OnceIdle(s, FreeSlot(t, rc), p);
  }

  predicate SendsTable(e: Step, p: nat) {
    e.Trap? && e.caller == p && e.call.Senda?
  }

  lemma StepOnce(s: State, e: Step, p: nat)
    requires Inv(s) && Enabled(s, e) && p < |s.procs| && !SendsTable(e, p)
    ensures OnceBetween(s, Apply(s, e), p)
  {
    match e
    case Trap(c, call, io) => OnceCall(s, c, call, io, p);
    case Clear(rc) => OnceClear(s, rc, p);
    case Exit(rc) => OnceClear(s, rc, p);
    case Signal(c, d) => OnceIdle(s, MiniNotify(s, c, d).state, p);
    case Spawn(parent, child, stop) => OnceIdle(s, Fork(s, parent, child, stop).state, p);
    case CopyOut(x) => OnceIdle(s, Fetch(s, x), p);
    case SetHold(x, b) => OnceIdle(s, Hold(s, x, b), p);
    case Permit(x, id) => OnceIdle(s, SetSendTo(s, x, id), p);
    case Forbid(x, id) => OnceIdle(s, UnsetSendTo(s, x, id), p);
  }

  /** From one state of a run to a later one, with no new table from `p` in between, no request of `p` is
      served twice, and none that was done already. */
  lemma {:induction false} RunOnce(states: seq<State>, steps: seq<Step>, a: nat, b: nat, p: nat)
    requires IsRun(states, steps) && a <= b < |states| && p < |states[a].procs|
    requires forall k | a <= k < b :: !SendsTable(steps[k], p)
    ensures OnceBetween(states[a], states[b], p)
    decreases b
  {
    if a == b {
      OnceIdle(states[a], states[a], p);
    } else {
      RunOnce(states, steps, a, b - 1, p);
      RunInv(states, steps, b - 1);
      StepOnce(states[b - 1], steps[b - 1], p);
      OnceBetweenTrans(states[a], states[b - 1], states[b], p);
    }
  }

  /** From the successful call that hands over a table until the next such call, each of its requests is
      served at most once, whether by the call itself or by later receives. */
  lemma RunServesOnce(states: seq<State>, steps: seq<Step>, a: nat, b: nat)
    requires IsRun(states, steps) && a < b < |states|
    requires steps[a].Trap? && steps[a].call.Senda?
    requires KipcCall(states[a], steps[a].caller, steps[a].call, steps[a].io).status == Ok
    requires forall k | a < k < b :: !SendsTable(steps[k], steps[a].caller)
    ensures var p := steps[a].caller;
      && p < |states[b].procs| && states[a].log <= states[b].log
      && Once(steps[a].call.requests, states[b].procs[p].table, Added(states[a], states[b]), p)
  {
    var p, table := steps[a].caller, steps[a].call.requests;
    var s, t, u := states[a], states[a + 1], states[b];
    OnceSenda(s, p, table, steps[a].io);
    RunOnce(states, steps, a + 1, b, p);
    assert Added(s, u) == Added(s, t) + Added(t, u);
    OnceTrans(table, t.procs[p].table, u.procs[p].table, Added(s, t), Added(t, u), p);
  }
}

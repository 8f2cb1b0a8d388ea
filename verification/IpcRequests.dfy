/** Which tabled request a receive is given, what becomes of the tables, and that no request is dropped on the way. */
module IpcRequests {
  import opened Basics
  import opened IpcModel
  import opened IpcInvariants
  import opened IpcGraph
  import opened IpcPreserve
  import opened IpcSteps
  import opened IpcTheorems
  import opened IpcAsync
  import opened IpcExact

  // -------------------------------------------------------------- table scans

  /** The request is still to be done. */
  predicate Waits(e: Entry) {
    e.Request? && !e.done
  }

  /** The request is still to be done, is for `d`, and does not mind that `d` waits for a reply. */
  predicate Fit(e: Entry, d: Endpoint, replyPend: bool) {
    Waits(e) && e.dst == d && !(e.noreply && replyPend)
  }

  /** Entry `j` is the first fit one, and no bad one comes before it. */
  predicate First(table: seq<Entry>, d: Endpoint, replyPend: bool, i: nat, j: nat) {
    && i <= j < |table| && Fit(table[j], d, replyPend)
    && forall k | i <= k < j :: table[k] != Garbled && !Fit(table[k], d, replyPend)
  }

  /** Some request for `d` comes before any bad entry. */
  predicate Sees(table: seq<Entry>, d: Endpoint, i: nat) {
    exists j | i <= j < |table| ::
      Waits(table[j]) && table[j].dst == d && forall k | i <= k < j :: table[k] != Garbled
  }

  /** A bad entry, or nothing to be done: there is no use in keeping the table. */
  predicate Spent(table: seq<Entry>, i: nat)
    requires i <= |table|
  {
    Garbled in table[i..] || forall k | i <= k < |table| :: !Waits(table[k])
  }

  lemma SeesNext(table: seq<Entry>, d: Endpoint, i: nat)
    requires i < |table|
    ensures Sees(table, d, i) <==>
      (Waits(table[i]) && table[i].dst == d) || (table[i] != Garbled && Sees(table, d, i + 1))
  {
    if j :| i + 1 <= j < |table| && Waits(table[j]) && table[j].dst == d && forall k | i + 1 <= k < j :: table[k] != Garbled {
      if table[i] != Garbled {
        assert forall k | i <= k < j :: table[k] != Garbled;
      }
    }
  }

  lemma FirstNext(table: seq<Entry>, d: Endpoint, replyPend: bool, i: nat)
    requires i < |table|
    ensures Fit(table[i], d, replyPend) ==> First(table, d, replyPend, i, i)
    ensures table[i] == Garbled ==> forall j: nat :: !First(table, d, replyPend, i, j)
    ensures table[i] != Garbled && !Fit(table[i], d, replyPend) ==>
      forall j: nat :: First(table, d, replyPend, i, j) <==> First(table, d, replyPend, i + 1, j)
  {
  }

  lemma {:induction false} ScanExact(table: seq<Entry>, d: Endpoint, replyPend: bool, i: nat, clean: bool, late: bool)
    requires i <= |table|
    ensures var f := TableScan(table, d, replyPend, i, clean, late);
      && (f.Hit? ==> First(table, d, replyPend, i, f.index))
      && (!f.Hit? ==> forall j: nat :: !First(table, d, replyPend, i, j))
      && (f.Broken? ==> Garbled in table[i..] && (f.delayed <==> late || Sees(table, d, i)))
      && (f.Nothing? ==> Garbled !in table[i..] && (f.postponed <==> late || Sees(table, d, i)))
      && (f.Nothing? ==> (f.clean <==> clean && forall k | i <= k < |table| :: !Waits(table[k])))
    decreases |table| - i
  {
    if i < |table| {
      hide First, Sees;
      var e := table[i];
      SeesNext(table, d, i);
      FirstNext(table, d, replyPend, i);
      assert table[i..] == [e] + table[i + 1..];
      if e != Garbled && !Fit(e, d, replyPend) {
        ScanExact(table, d, replyPend, i + 1, clean && !Waits(e), late || (Waits(e) && e.dst == d));
      }
    }
  }

  // ----------------------------------------------------------- serving tables

  /** `p` may send to `c`, and entry `j` of its table is what `c` can take first. */
  predicate Serves(s: State, p: nat, c: nat, j: nat) {
    && p < |s.procs| && c < |s.procs| && s.procs[p].sysProc && c in s.procs[p].ipcTo
    && First(s.procs[p].table, EpOf(s, c), s.procs[c].replyPend, 0, j)
  }

  /** The table is as it was, or gone because there is no use in keeping it. */
  predicate Cleaned(x: Proc, y: Proc) {
    y == x || (y == x.(table := []) && Spent(x.table, 0))
  }

  /** Request `j` of `p` is handed to `c`, and marked as done. */
  ghost predicate Serviced(s: State, t: State, p: nat, c: nat, j: nat)
    requires Serves(s, p, c, j) && p != c
  {
    var e := s.procs[p].table[j];
    && |t.procs| == |s.procs| && t.queues == s.queues && t.log == s.log + [Posted(p, c, j, e.body)]
    && t.procs[c] == s.procs[c].(inbox := Letter(EpOf(s, p), e.body))
    && t.procs[p] == s.procs[p].(table := s.procs[p].table[j := e.(done := true, result := Ok)])
    && forall q | 0 <= q < |s.procs| && q != p && q != c :: Cleaned(s.procs[q], t.procs[q])
  }

  /** No request is handed over, and no table lost that is of use. */
  ghost predicate Unserviced(s: State, t: State, c: nat)
    requires c < |s.procs|
  {
    && |t.procs| == |s.procs| && t.queues == s.queues && t.log == s.log
    && forall q | 0 <= q < |s.procs| && q != c :: Cleaned(s.procs[q], t.procs[q])
  }

  lemma TryOneExact(s: State, src: nat, dst: nat)
    requires src < |s.procs| && dst < |s.procs| && dst !in s.procs[dst].ipcTo
    ensures var r := TryOne(s, src, dst); var t := r.outcome.state;
      && (r.outcome.status == Ok <==> exists j: nat :: Serves(s, src, dst, j))
      && (forall j: nat | Serves(s, src, dst, j) :: src != dst && Serviced(s, t, src, dst, j))
      && (r.outcome.status != Ok ==> Unserviced(s, t, dst) && t.procs[dst] == s.procs[dst])
      && (r.outcome.status != Ok && s.procs[src].sysProc && dst in s.procs[src].ipcTo ==>
            t.procs[src].table == if Spent(s.procs[src].table, 0) then [] else s.procs[src].table)
      && (r.outcome.status != Ok ==>
            (r.postponed <==> s.procs[src].sysProc && dst in s.procs[src].ipcTo && Sees(s.procs[src].table, EpOf(s, dst), 0)))
  {
    hide TableScan, First, Sees;
    var x := s.procs[src];
    SeesNothing(EpOf(s, dst));
    if x.sysProc && MaySendTo(s, src, dst) && x.table != [] {
      ScanExact(x.table, EpOf(s, dst), s.procs[dst].replyPend, 0, true, false);
      assert x.table[0..] == x.table;
      var f := TableScan(x.table, EpOf(s, dst), s.procs[dst].replyPend, 0, true, false);
      if f.Hit? {
        FirstOnce(x.table, EpOf(s, dst), s.procs[dst].replyPend, f.index);
        assert Serves(s, src, dst, f.index);
      }
    } else {
      FirstNone(EpOf(s, dst), s.procs[dst].replyPend);
    }
  }

  lemma SeesNothing(d: Endpoint)
    ensures !Sees([], d, 0)
  {
  }

  lemma FirstNone(d: Endpoint, replyPend: bool)
    ensures forall j: nat :: !First([], d, replyPend, 0, j)
  {
  }

  lemma FirstOnce(table: seq<Entry>, d: Endpoint, replyPend: bool, i: nat)
    requires First(table, d, replyPend, 0, i)
    ensures i < |table| && table[i].Request?
    ensures forall j: nat | First(table, d, replyPend, 0, j) :: i == j
  {
  }

  /** Slot `p` is in use, and its process has something for `c`. */
  ghost predicate Able(s: State, p: nat, c: nat) {
    p < |s.procs| && s.procs[p].life != Free && exists j: nat :: Serves(s, p, c, j)
  }

  /** Slot `p` is in use, and its process has something that `c` cannot take now, or could. */
  predicate Holding(s: State, p: nat, c: nat) {
    && p < |s.procs| && c < |s.procs| && s.procs[p].life != Free && s.procs[p].sysProc && c in s.procs[p].ipcTo
    && Sees(s.procs[p].table, EpOf(s, c), 0)
  }

  ghost predicate AnyAble(s: State, c: nat, k: nat) {
    exists p: nat :: k <= p && Able(s, p, c)
  }

  ghost predicate AnyHolding(s: State, c: nat, k: nat) {
    exists p: nat :: k <= p && Holding(s, p, c)
  }

  /** From slot `k` on, `p` is the first that has something for `c`, and entry `j` is what. */
  ghost predicate Picks(s: State, c: nat, k: nat, p: nat, j: nat) {
    && k <= p < |s.procs| && s.procs[p].life != Free && Serves(s, p, c, j)
    && forall q: nat | k <= q < p :: !Able(s, q, c)
  }

  /** Slots other than `k` look the same. */
  lemma SameOffers(s: State, t: State, k: nat, c: nat)
    requires k < |s.procs| == |t.procs| && c < |s.procs| && t.procs[c] == s.procs[c]
    requires forall p | 0 <= p < |s.procs| && p != k :: t.procs[p] == s.procs[p]
    ensures forall p: nat, j: nat | p != k :: Serves(t, p, c, j) <==> Serves(s, p, c, j)
    ensures AnyAble(s, c, k) <==> Able(s, k, c) || AnyAble(t, c, k + 1)
    ensures AnyHolding(s, c, k) <==> Holding(s, k, c) || AnyHolding(t, c, k + 1)
    ensures forall p: nat, j: nat | Picks(s, c, k, p, j) && !Able(s, k, c) :: Picks(t, c, k + 1, p, j)
  {
    hide First, Sees;
    forall p: nat | p != k ensures (Able(t, p, c) <==> Able(s, p, c)) && (Holding(t, p, c) <==> Holding(s, p, c)) {
      assert forall j: nat :: Serves(t, p, c, j) <==> Serves(s, p, c, j);
    }
  }

  lemma ServicedLater(s: State, t: State, u: State, k: nat, c: nat, p: nat, j: nat)
    requires k < |s.procs| && c < |s.procs| && Unserviced(s, t, c) && t.procs[c] == s.procs[c]
    requires forall q | 0 <= q < |s.procs| && q != k :: t.procs[q] == s.procs[q]
    requires p != k && p != c && Serves(s, p, c, j) && Serves(t, p, c, j) && Serviced(t, u, p, c, j)
    ensures Serviced(s, u, p, c, j)
  {
    hide First, Spent;
    assert EpOf(t, p) == EpOf(s, p);
    forall q | 0 <= q < |s.procs| && q != p && q != c ensures Cleaned(s.procs[q], u.procs[q]) {
      assert Cleaned(s.procs[q], t.procs[q]) && Cleaned(t.procs[q], u.procs[q]);
    }
  }

  lemma UnservicedLater(s: State, t: State, u: State, c: nat)
    requires c < |s.procs| && Unserviced(s, t, c) && Unserviced(t, u, c)
    ensures Unserviced(s, u, c)
  {
    hide Spent;
    forall q | 0 <= q < |s.procs| && q != c ensures Cleaned(s.procs[q], u.procs[q]) {
      assert Cleaned(s.procs[q], t.procs[q]) && Cleaned(t.procs[q], u.procs[q]);
    }
  }

  /**
   The search for a request serves the first process that has one for `c`; if there is none, nothing of use is lost,
   and the flag is cleared unless something was seen that has to wait.
   */
  lemma {:induction false} TryAsyncExact(s: State, c: nat, k: nat, postponed: bool)
    requires c < |s.procs| && c !in s.procs[c].ipcTo
    ensures var r := TryAsync(s, c, k, postponed);
      && (r.status == Ok <==> AnyAble(s, c, k))
      && (forall p: nat, j: nat | Picks(s, c, k, p, j) :: p != c && Serviced(s, r.state, p, c, j))
      && (r.status != Ok ==> Unserviced(s, r.state, c))
    ensures var r := TryAsync(s, c, k, postponed); var x := s.procs[c];
      r.status != Ok ==> r.state.procs[c] == if postponed || AnyHolding(s, c, k) then x else x.(asynMsg := false)
    decreases |s.procs| - k
  {
    hide First, Sees, TryOne, Serves, Serviced, Unserviced, AnyAble, AnyHolding, Picks;
    if k >= |s.procs| {
      NobodyLeft(s, c, k);
    } else if s.procs[k].life == Free {
      SameOffers(s, s, k, c);
      NotServing(s, k, c);
      TryAsyncExact(s, c, k + 1, postponed);
    } else {
      var a := TryOne(s, k, c);
      TryOneExact(s, k, c);
      if a.outcome.status == Ok {
        ServingNow(s, k, c);
      } else {
        var t, u := a.outcome.state, TryAsync(s, c, k, postponed);
        TryOneMiss(s, k, c);
        SameOffers(s, t, k, c);
        TryAsyncExact(t, c, k + 1, postponed || a.postponed);
        forall p: nat, j: nat | Picks(s, c, k, p, j)
          ensures Serves(s, p, c, j) && p != c && Serviced(s, u.state, p, c, j)
        {
          PicksServes(s, t, c, k, p, j);
          ServicedLater(s, t, u.state, k, c, p, j);
        }
        if u.status != Ok {
          UnservicedLater(s, t, u.state, c);
        }
      }
    }
  }

  lemma NobodyLeft(s: State, c: nat, k: nat)
    requires c < |s.procs| <= k
    ensures !AnyAble(s, c, k) && !AnyHolding(s, c, k) && forall p: nat, j: nat :: !Picks(s, c, k, p, j)
    ensures Unserviced(s, s, c) && Unserviced(s, Put(s, c, s.procs[c].(asynMsg := false)), c)
  {
  }

  lemma NotServing(s: State, k: nat, c: nat)
    requires k < |s.procs| && s.procs[k].life == Free
    ensures !Able(s, k, c) && !Holding(s, k, c)
  {
  }

  /** Slot `k` is the one that serves. */
  lemma ServingNow(s: State, k: nat, c: nat)
    requires k < |s.procs| && s.procs[k].life != Free && exists j: nat :: Serves(s, k, c, j)
    ensures AnyAble(s, c, k)
    ensures forall p: nat, j: nat | Picks(s, c, k, p, j) :: p == k && Serves(s, k, c, j)
  {
    assert Able(s, k, c);
  }

  lemma PicksServes(s: State, t: State, c: nat, k: nat, p: nat, j: nat)
    requires Picks(s, c, k, p, j) && (forall i: nat :: !Serves(s, k, c, i)) && Picks(t, c, k + 1, p, j)
    ensures p != k && Serves(s, p, c, j) && Serves(t, p, c, j)
  {
  }

  // ---------------------------------------------------------------- receiving

  /** Nothing that a receive from `src` could take at once is queued or pending. */
  ghost predicate Nothing(s: State, c: nat, src: Endpoint)
    requires c < |s.procs| == |s.queues|
  {
    (forall id: nat :: !Noted(s, c, src, id)) && forall i: nat :: !Queued(s, c, src, i)
  }

  /** Entry `j` of `p` is what a receive from `src` takes of the tables. */
  ghost predicate Offered(s: State, c: nat, src: Endpoint, p: nat, j: nat)
    requires c < |s.procs|
  {
    s.procs[c].asynMsg && if src == Any then Picks(s, c, 0, p, j) else p == src.slot && Serves(s, p, c, j)
  }

  lemma NothingMeans(s: State, c: nat, src: Endpoint)
    requires Shaped(s) && c < |s.procs| && PendingOk(s, c) && Nothing(s, c, src)
    ensures s.procs[c].replyPend || NotifyScan(s.procs[c].pending, |s.procs|, src, 0) == None
    ensures QueueScan(s.queues[c], src) == |s.queues[c]|
    ensures forall p | p in s.queues[c] :: src != Any && src.slot != p
    ensures src == Any && !s.procs[c].replyPend ==> s.procs[c].pending == {}
  {
    NotedIs(s, c, src);
    if src == Any {
      ScanAny(s.procs[c].pending, |s.procs|, 0);
    }
    var i := QueueScan(s.queues[c], src);
    if i < |s.queues[c]| {
      assert forall j | 0 <= j < i :: !Accepts(src, s.queues[c][j]);
      assert Queued(s, c, src, i);
    }
  }

  /** With nothing queued or pending, a receive is handed the first request that is tabled for it. */
  lemma ReceiveTabled(s: State, c: nat, src: Endpoint, nonblock: bool, io: Io, p: nat, j: nat)
    requires Inv(s) && MayReceive(s, c, src) && !s.procs[c].sending && io.mapIn
    requires src.Ep? ==> s.procs[src.slot].life == Live
    requires Nothing(s, c, src) && Offered(s, c, src, p, j)
    requires forall q | q in s.queues[c] :: q < |s.procs|
    ensures var r := MiniReceive(s, c, src, nonblock, io);
      r.status == Ok && Serves(s, p, c, j) && p != c && Serviced(s, r.state, p, c, j)
  {
    hide TryOne, TryAsync, Sleep, NotifyScan, QueueScan, Nothing, Serviced, First;
    assert PendingOk(s, c);
    NothingMeans(s, c, src);
    if src == Any {
      TryAsyncExact(s, c, 0, false);
      assert Able(s, p, c);
      assert AnyAble(s, c, 0);
    } else {
      TryOneExact(s, p, c);
    }
  }

  /** The caller sleeps exactly when it has not asked not to and that closes no circle; nobody else notices. */
  ghost predicate Slept(s: State, r: Outcome, c: nat, src: Endpoint, nonblock: bool)
    requires c < |s.procs|
  {
    && (r.status == Ok <==> !nonblock && Acyclic(BlockReceive(s, c, src)))
    && (r.status == ENotReady <==> nonblock)
    && (r.status == ELocked <==> !nonblock && !Acyclic(BlockReceive(s, c, src)))
    && Unserviced(s, r.state, c)
    && var x, y := s.procs[c], r.state.procs[c];
      y == x.(asynMsg := y.asynMsg, receiving := r.status == Ok, getFrom := if r.status == Ok then src else x.getFrom)
  }

  /** With nothing to take at all, it goes to sleep, unless told not to or that would close a circle. */
  lemma ReceiveSleeps(s: State, c: nat, src: Endpoint, nonblock: bool, io: Io)
    requires Inv(s) && CanCall(s, c) && (src.Ep? ==> IsTarget(s, c, src)) && (src == Any ==> !s.procs[c].replyPend)
    requires io.mapIn && Nothing(s, c, src) && forall p: nat, j: nat :: !Offered(s, c, src, p, j)
    requires forall q | q in s.queues[c] :: q < |s.procs|
    ensures Slept(s, MiniReceive(s, c, src, nonblock, io), c, src, nonblock)
  {
    hide TryOne, TryAsync, Sleep, NotifyScan, QueueScan, Nothing, Acyclic, Unserviced, First, Sees, Slept;
    assert PendingOk(s, c);
    NothingMeans(s, c, src);
    ReceiveTail(s, c, src, nonblock);
    StaysSame(s, c);
    SleepExact(s, s, c, src, nonblock);
    if s.procs[c].asynMsg {
      var tried := if src.Ep? then TryOne(s, src.slot, c).outcome else TryAsync(s, c, 0, false);
      NoOffer(s, c, src);
      SleepExact(s, tried.state, c, src, nonblock);
    }
  }

  lemma StaysSame(s: State, c: nat)
    requires c < |s.procs|
    ensures Unserviced(s, s, c) && SameCore(s, s)
  {
  }

  lemma NoOffer(s: State, c: nat, src: Endpoint)
    requires c < |s.procs| && (src.Ep? ==> src.slot < |s.procs|) && c !in s.procs[c].ipcTo && s.procs[c].asynMsg
    requires forall p: nat, j: nat :: !Offered(s, c, src, p, j)
    ensures var tried := if src.Ep? then TryOne(s, src.slot, c).outcome else TryAsync(s, c, 0, false);
      && tried.status != Ok && Unserviced(s, tried.state, c)
      && tried.state.procs[c] == s.procs[c].(asynMsg := tried.state.procs[c].asynMsg)
  {
    hide TryOne, TryAsync, First, Sees;
    if src.Ep? {
      TryOneExact(s, src.slot, c);
      assert forall j: nat :: Serves(s, src.slot, c, j) ==> Offered(s, c, src, src.slot, j);
    } else {
      TryAsyncExact(s, c, 0, false);
      forall p: nat, j: nat ensures !Picks(s, c, 0, p, j) {
        assert !Offered(s, c, src, p, j);
      }
      if AnyAble(s, c, 0) {
        var p, j := FirstAble(s, c);
        assert false;
      }
    }
  }

  lemma FirstAble(s: State, c: nat) returns (p: nat, j: nat)
    requires AnyAble(s, c, 0)
    ensures Picks(s, c, 0, p, j)
  {
    hide Serves;
    var n: nat :| Able(s, n, c);
    p := 0;
    while !Able(s, p, c)
      invariant p <= n && forall q: nat | q < p :: !Able(s, q, c)
      decreases n - p
    {
      p := p + 1;
    }
    j :| Serves(s, p, c, j);
  }

  /** Going to sleep, in a state `t` that has the same dependencies as `s`. */
  lemma SleepExact(s: State, t: State, c: nat, src: Endpoint, nonblock: bool)
    requires Inv(t) && SameCore(s, t) && CanCall(s, c) && Unserviced(s, t, c) && (src.Ep? ==> IsTarget(s, c, src))
    requires t.procs[c] == s.procs[c].(asynMsg := t.procs[c].asynMsg)
    requires forall p | p in s.queues[c] :: src != Any && src.slot != p
    ensures Slept(s, Sleep(t, c, src, nonblock), c, src, nonblock)
  {
    hide DeadlockSize, Acyclic, Spent;
    SameCircles(s, t, c, src);
    if src.Ep? {
      assert SameWait(s.procs[src.slot], t.procs[src.slot]);
      ReceiveDeadlockExact(t, c, src);
    } else {
      AnyCircles(t, c);
    }
  }

  lemma SameCircles(s: State, t: State, c: nat, src: Endpoint)
    requires SameCore(s, t) && c < |s.procs|
    ensures Acyclic(BlockReceive(s, c, src)) <==> Acyclic(BlockReceive(t, c, src))
  {
    var s', t' := BlockReceive(s, c, src), BlockReceive(t, c, src);
    forall p | 0 <= p < |s.procs| ensures Next(s', p) == Next(t', p) {
      assert SameWait(s.procs[p], t.procs[p]);
    }
    if Acyclic(s') {
      ShrinkAcyclic(s', t');
    }
    if Acyclic(t') {
      ShrinkAcyclic(t', s');
    }
  }

  lemma AnyCircles(s: State, c: nat)
    requires Acyclic(s) && c < |s.procs|
    ensures Acyclic(BlockReceive(s, c, Any)) && DeadlockSize(s, FnReceive, c, Any) == 0
  {
    ShrinkAcyclic(s, BlockReceive(s, c, Any));
  }
}

/** What becomes of each sleeping send, read off the log of a whole run. */
module IpcLog {
  import opened Basics
  import opened IpcModel
  import opened IpcInvariants
  import opened IpcPreserve
  import opened IpcSteps
  import opened IpcCauses

  /** The event puts `p` to sleep in a send, or ends such a sleep. */
  predicate About(e: Event, p: nat) {
    (e.Accepted? || e.Delivered? || e.Aborted?) && e.src == p
  }

  /** The send that `p` is asleep in after `log`, as destination and message. */
  function Open(log: seq<Event>, p: nat): Option<(nat, Body)> {
    if log == [] then None
    else
      var e := log[|log| - 1];
      if !About(e, p) then Open(log[..|log| - 1], p)
      else if e.Accepted? then Some((e.dst, e.body))
      else None
  }

  /** The processes asleep sending to `q` after `log`, in the order in which they went to sleep. */
  function Waiting(log: seq<Event>, q: nat): seq<nat> {
    if log == [] then []
    else
      var e := log[|log| - 1];
      var w := Waiting(log[..|log| - 1], q);
      if e.Accepted? && e.dst == q then w + [e.src]
      else if (e.Delivered? && e.dst == q) || e.Aborted? then Without(w, e.src)
      else w
  }

  /** After `past`, the event `e` ends just the send that its process is asleep in, or starts one while there is none. */
  predicate EventOk(past: seq<Event>, e: Event) {
    match e
    case Accepted(p, _, _) => Open(past, p) == None
    case Delivered(p, q, b) => Open(past, p) == Some((q, b))
    case Aborted(p) => Open(past, p) != None
    case Handed(_, _, _) => true
    case Posted(_, _, _, _) => true
  }

  ghost predicate LogOk(log: seq<Event>) {
    forall i | 0 <= i < |log| :: EventOk(log[..i], log[i])
  }

  /** The log agrees with the process table. */
  ghost predicate Told(s: State) {
    && Shaped(s) && LogOk(s.log)
    && (forall p | 0 <= p < |s.procs| ::
          Open(s.log, p) == if s.procs[p].sending && s.procs[p].sendTo.Ep?
                            then Some((s.procs[p].sendTo.slot, s.procs[p].sendMsg)) else None)
    && (forall p: nat | |s.procs| <= p :: Open(s.log, p) == None)
    && (forall q | 0 <= q < |s.queues| :: s.queues[q] == Waiting(s.log, q))
  }

  lemma Snoc(log: seq<Event>, e: Event, p: nat, q: nat)
    ensures Open(log + [e], p) ==
      if !About(e, p) then Open(log, p) else if e.Accepted? then Some((e.dst, e.body)) else None
    ensures Waiting(log + [e], q) ==
      if e.Accepted? && e.dst == q then Waiting(log, q) + [e.src]
      else if (e.Delivered? && e.dst == q) || e.Aborted? then Without(Waiting(log, q), e.src)
      else Waiting(log, q)
  {
    assert (log + [e])[..|log|] == log;
  }

  lemma SnocOk(log: seq<Event>, e: Event)
    requires LogOk(log) && EventOk(log, e)
    ensures LogOk(log + [e])
  {
    var l := log + [e];
    forall i | 0 <= i < |l| ensures EventOk(l[..i], l[i]) {
      if i < |log| {
        assert l[..i] == log[..i];
      } else {
        assert l[..i] == log;
      }
    }
  }

  // ------------------------------------------------------- what the log means

  /** Position `j` of the log is where the send accepted at `i` ends. */
  ghost predicate Settles(log: seq<Event>, i: nat, j: nat)
    requires i < |log| && log[i].Accepted?
  {
    && i < j < |log|
    && (log[j] == Delivered(log[i].src, log[i].dst, log[i].body) || log[j] == Aborted(log[i].src))
    && forall k | i < k < j :: !About(log[k], log[i].src)
  }

  /** Each accepted send is later delivered unaltered to its destination, or called off,
      or it is the one its process is still asleep in. */
  lemma {:induction false} Fate(log: seq<Event>, i: nat)
    requires LogOk(log) && i < |log| && log[i].Accepted?
    ensures
      || (&& Open(log, log[i].src) == Some((log[i].dst, log[i].body))
          && forall k | i < k < |log| :: !About(log[k], log[i].src))
      || exists j: nat :: Settles(log, i, j)
  {
    hide Open, Waiting;
    var p := log[i].src;
    var j := i + 1;
    Snoc(log[..i], log[i], p, 0);
    assert log[..i + 1] == log[..i] + [log[i]];
    while j < |log| && !About(log[j], p)
      invariant i < j <= |log|
      invariant forall k | i < k < j :: !About(log[k], p)
      invariant Open(log[..j], p) == Some((log[i].dst, log[i].body))
    {
      Snoc(log[..j], log[j], p, 0);
      assert log[..j + 1] == log[..j] + [log[j]];
      j := j + 1;
    }
    if j == |log| {
      assert log[..j] == log;
    } else {
      assert EventOk(log[..j], log[j]);
      assert Settles(log, i, j);
    }
  }

  /** Each delivery ends one accepted send, the last thing its sender did. */
  lemma {:induction false} Origin(log: seq<Event>, j: nat)
    requires LogOk(log) && j < |log| && log[j].Delivered?
    ensures exists i ::
      && 0 <= i < j && log[i] == Accepted(log[j].src, log[j].dst, log[j].body)
      && forall k | i < k < j :: !About(log[k], log[j].src)
  {
    var p := log[j].src;
    assert EventOk(log[..j], log[j]);
    var i := j;
    while !About(log[i - 1], p)
      invariant 0 < i <= j
      invariant Open(log[..i], p) == Open(log[..j], p)
      invariant forall k | i <= k < j :: !About(log[k], p)
      decreases i
    {
      assert log[..i][..i - 1] == log[..i - 1];
      i := i - 1;
    }
    assert log[..i][i - 1] == log[i - 1];
    assert log[i - 1] == Accepted(p, log[j].dst, log[j].body);
  }

  /** The position of the last acceptance of `p` in `log`. */
  function Since(log: seq<Event>, p: nat): int {
    if log == [] then -1
    else if About(log[|log| - 1], p) then |log| - 1
    else Since(log[..|log| - 1], p)
  }

  lemma {:induction false} SinceBound(log: seq<Event>, p: nat)
    ensures -1 <= Since(log, p) < |log|
  {
    if log != [] {
      SinceBound(log[..|log| - 1], p);
    }
  }

  ghost predicate Ordered(log: seq<Event>, w: seq<nat>) {
    forall i, j | 0 <= i < j < |w| :: Since(log, w[i]) < Since(log, w[j])
  }

  ghost predicate AllOpen(log: seq<Event>, w: seq<nat>, q: nat) {
    forall p | p in w :: Open(log, p).Some? && Open(log, p).value.0 == q
  }

  lemma CutAt(log: seq<Event>, w: seq<nat>, k: nat)
    requires Ordered(log, w) && k < |w|
    ensures var r := RemoveAt(w, k); Ordered(log, r) && w[k] !in r && forall p | p in r :: p in w
  {
    var r := RemoveAt(w, k);
    forall i | 0 <= i < |r| ensures r[i] == w[if i < k then i else i + 1] && r[i] != w[k] {
      var i' := if i < k then i else i + 1;
      assert Since(log, w[i']) != Since(log, w[k]);
    }
    forall i, j | 0 <= i < j < |r| ensures Since(log, r[i]) < Since(log, r[j]) {
      var i', j' := if i < k then i else i + 1, if j < k then j else j + 1;
      assert Since(log, w[i']) < Since(log, w[j']);
    }
  }

  lemma OrderedCut(log: seq<Event>, w: seq<nat>, x: nat)
    requires Ordered(log, w)
    ensures Ordered(log, Without(w, x)) && x !in Without(w, x)
    ensures forall p | p in Without(w, x) :: p in w
  {
    if x in w {
      var k := WithoutCuts(w, x);
      CutAt(log, w, k);
    } else {
      WithoutSame(w, x);
    }
  }

  /** Sleepers stand in the queue in the order in which they were accepted. */
  lemma {:induction false} WaitingOrdered(log: seq<Event>, q: nat)
    requires LogOk(log)
    ensures Ordered(log, Waiting(log, q)) && AllOpen(log, Waiting(log, q), q)
  {
    if log != [] {
      var past, e := log[..|log| - 1], log[|log| - 1];
      forall i | 0 <= i < |past| ensures EventOk(past[..i], past[i]) {
        assert past[..i] == log[..i];
        assert EventOk(log[..i], log[i]);
      }
      assert EventOk(log[..|log| - 1], e);
      WaitingOrdered(past, q);
      var w := Waiting(past, q);
      if e.Delivered? || e.Aborted? {
        OrderedCut(past, w, e.src);
      }
      var r := Waiting(log, q);
      forall p | p in r && !About(e, p)
        ensures Since(log, p) == Since(past, p) && Open(log, p) == Open(past, p)
      {
      }
      if e.Accepted? {
        assert e.src !in w;
        forall p | p in w ensures Since(past, p) < |past| {
          SinceBound(past, p);
        }
      } else if e.Delivered? && e.dst != q {
        assert e.src !in w;
      }
    }
  }

  // ----------------------------------------------------- the log stays truthful

  /** No send falls asleep or wakes between `s` and `t`. */
  ghost predicate Neutral(s: State, t: State) {
    && |s.procs| == |t.procs| && s.queues == t.queues && s.log <= t.log
    && (forall p | 0 <= p < |s.procs| ::
          && t.procs[p].sending == s.procs[p].sending
          && (t.procs[p].sending ==> t.procs[p].sendTo == s.procs[p].sendTo && t.procs[p].sendMsg == s.procs[p].sendMsg))
    && forall k | |s.log| <= k < |t.log| :: t.log[k].Handed? || t.log[k].Posted?
  }

  lemma NeutralPast(s: State, t: State)
    requires Neutral(s, t) && |t.log| > |s.log|
    ensures Neutral(s, t.(log := t.log[..|t.log| - 1]))
  {
    var past := t.log[..|t.log| - 1];
    assert s.log <= past;
    forall k | |s.log| <= k < |past| ensures past[k].Handed? || past[k].Posted? {
      assert past[k] == t.log[k];
    }
  }

  lemma {:induction false} ToldNeutral(s: State, t: State)
    requires Told(s) && Neutral(s, t)
    ensures Told(t)
    decreases |t.log|
  {
    if |t.log| > |s.log| {
      var past, e := t.log[..|t.log| - 1], t.log[|t.log| - 1];
      assert t.log == past + [e];
      NeutralPast(s, t);
      ToldNeutral(s, t.(log := past));
      SnocOk(past, e);
      forall p: nat, q: nat ensures Open(t.log, p) == Open(past, p) && Waiting(t.log, q) == Waiting(past, q) {
        Snoc(past, e, p, q);
      }
    } else {
      assert t.log == s.log;
    }
  }

  lemma NeutralTrans(s: State, t: State, u: State)
    requires Neutral(s, t) && Neutral(t, u)
    ensures Neutral(s, u)
  {
    forall k | |s.log| <= k < |u.log| ensures u.log[k].Handed? || u.log[k].Posted? {
      if k < |t.log| {
        assert u.log[k] == t.log[k];
      }
    }
  }

  lemma TryOneNeutral(s: State, src: nat, dst: nat)
    requires src < |s.procs| && dst < |s.procs|
    ensures Neutral(s, TryOne(s, src, dst).outcome.state)
  {
    var x := s.procs[src];
    if x.sysProc && |x.table| != 0 && MaySendTo(s, src, dst) {
      var f := TableScan(x.table, EpOf(s, dst), s.procs[dst].replyPend, 0, true, false);
      if f.Hit? {
        ServeNeutral(s, src, dst, f.index);
      } else {
        assert Neutral(s, Put(s, src, x.(table := [])));
      }
    }
  }

  lemma ServeNeutral(s: State, src: nat, dst: nat, i: nat)
    requires src < |s.procs| && dst < |s.procs|
    requires i < |s.procs[src].table| && s.procs[src].table[i].Request?
    ensures Neutral(s, Serve(s, src, dst, i))
  {
  }

  lemma {:induction false} TryAsyncNeutral(s: State, c: nat, k: nat, postponed: bool)
    requires c < |s.procs|
    ensures Neutral(s, TryAsync(s, c, k, postponed).state)
    decreases |s.procs| - k
  {
    if k < |s.procs| {
      if s.procs[k].life == Free {
        TryAsyncNeutral(s, c, k + 1, postponed);
      } else {
        var a := TryOne(s, k, c);
        TryOneNeutral(s, k, c);
        if a.outcome.status != Ok {
          TryAsyncNeutral(a.outcome.state, c, k + 1, postponed || a.postponed);
          NeutralTrans(s, a.outcome.state, TryAsync(s, c, k, postponed).state);
        }
      }
    }
  }

  lemma {:induction false} SendaNeutral(s: State, c: nat, table: seq<Entry>, i: nat, io: Io)
    requires c < |s.procs| && i <= |table|
    ensures Neutral(s, SendaLoop(s, c, table, i, io).state)
    decreases |table| - i
  {
    if i < |table| {
      match table[i]
      case Blank => SendaNeutral(s, c, table, i + 1, io);
      case Garbled =>
      case Request(_, _, _, _, _, _) =>
        var one := SendaOne(s, c, i, table[i], io);
        assert Neutral(s, one.state);
        SendaNeutral(one.state, c, table[i := one.entry], i + 1, io);
        NeutralTrans(s, one.state, SendaLoop(s, c, table, i, io).state);
    }
  }

  lemma MiniSendaNeutral(s: State, c: nat, table: seq<Entry>, io: Io)
    requires c < |s.procs|
    ensures Neutral(s, MiniSenda(s, c, table, io).state)
  {
    if s.procs[c].sysProc {
      var s0 := Put(s, c, s.procs[c].(table := []));
      assert Neutral(s, s0);
      if |table| != 0 && io.mapOut && |table| <= 16 * |s.procs| {
        var r := SendaLoop(s0, c, table, 0, io);
        SendaNeutral(s0, c, table, 0, io);
        NeutralTrans(s, s0, r.state);
        var t := Put(r.state, c, r.state.procs[c].(table := r.table));
        assert Neutral(r.state, t);
        NeutralTrans(s, r.state, t);
      }
    }
  }

  lemma ToldBlock(s: State, c: nat, d: Endpoint, body: Body)
    requires Told(s) && c < |s.procs| && d.Ep? && d.slot < |s.procs| && !s.procs[c].sending
    ensures Told(BlockSend(s, c, d, body))
  {
    var e := Accepted(c, d.slot, body);
    SnocOk(s.log, e);
    forall p: nat, q: nat
      ensures Open(s.log + [e], p) == if p == c then Some((d.slot, body)) else Open(s.log, p)
      ensures Waiting(s.log + [e], q) == if q == d.slot then Waiting(s.log, q) + [c] else Waiting(s.log, q)
    {
      Snoc(s.log, e, p, q);
    }
  }

  lemma ToldTake(s: State, c: nat, i: nat)
    requires Told(s) && Core(s) && c < |s.procs| && i < |s.queues[c]| && s.queues[c][i] < |s.procs|
    requires s.queues[c][i] != c
    ensures Told(TakeCaller(s, c, i))
  {
    var p := s.queues[c][i];
    assert Exact(s, c) && p in s.queues[c] && SendsTo(s, p, c);
    var e := Delivered(p, c, s.procs[p].sendMsg);
    SnocOk(s.log, e);
    WithoutFirst(s.queues[c], p, i);
    forall x: nat, q: nat
      ensures Open(s.log + [e], x) == if x == p then None else Open(s.log, x)
      ensures Waiting(s.log + [e], q) == if q == c then Without(Waiting(s.log, q), p) else Waiting(s.log, q)
    {
      Snoc(s.log, e, x, q);
    }
  }

  /** What is left of a queue once the slots below `k` have been visited by `clear_endpoint`. */
  function Left(s: State, rc: nat, w: seq<nat>, k: nat): seq<nat>
    requires rc < |s.procs|
  {
    if w == [] then []
    else
      (if w[0] < k && w[0] < |s.procs| && CalledOff(s, rc, w[0]) then [] else [w[0]]) + Left(s, rc, w[1..], k)
  }

  lemma {:induction false} LeftIn(s: State, rc: nat, w: seq<nat>, k: nat, p: nat)
    requires rc < |s.procs|
    ensures p in Left(s, rc, w, k) <==> p in w && !(p < k && p < |s.procs| && CalledOff(s, rc, p))
  {
    if w != [] {
      LeftIn(s, rc, w[1..], k, p);
    }
  }

  lemma {:induction false} LeftStep(s: State, rc: nat, w: seq<nat>, k: nat)
    requires rc < |s.procs| && k < |s.procs| && NoDup(w)
    ensures Left(s, rc, w, k + 1) == if CalledOff(s, rc, k) then Without(Left(s, rc, w, k), k) else Left(s, rc, w, k)
  {
    if w != [] {
      assert NoDup(w[1..]);
      LeftStep(s, rc, w[1..], k);
      if w[0] == k {
        assert k !in w[1..];
        LeftIn(s, rc, w[1..], k, k);
        WithoutSame(Left(s, rc, w[1..], k), k);
        assert Left(s, rc, w, k) == [k] + Left(s, rc, w[1..], k);
      } else if w[0] < k && CalledOff(s, rc, w[0]) {
        assert Left(s, rc, w, k) == Left(s, rc, w[1..], k);
      } else {
        assert Left(s, rc, w, k) == [w[0]] + Left(s, rc, w[1..], k);
      }
    }
  }

  lemma {:induction false} LeftZero(s: State, rc: nat, w: seq<nat>)
    requires rc < |s.procs|
    ensures Left(s, rc, w, 0) == w
  {
    if w != [] {
      LeftZero(s, rc, w[1..]);
    }
  }

  /** Sleeps according to the log after the call-offs of the slots below `k`. */
  lemma {:induction false} CallOffsOpen(s: State, rc: nat, k: nat, p: nat)
    requires LogOk(s.log) && rc < |s.procs| && k <= |s.procs|
    requires forall x | 0 <= x < |s.procs| && CalledOff(s, rc, x) :: Open(s.log, x) != None
    ensures var l := s.log + CallOffs(s, rc, k);
      && LogOk(l)
      && Open(l, p) == (if p < k && CalledOff(s, rc, p) then None else Open(s.log, p))
  {
    hide Open, LogOk, Waiting, CalledOff;
    if k == 0 {
      assert s.log + CallOffs(s, rc, 0) == s.log;
    } else {
      var m := s.log + CallOffs(s, rc, k - 1);
      CallOffsOpen(s, rc, k - 1, p);
      CallOffsSnoc(s, rc, k);
      if CalledOff(s, rc, k - 1) {
        CallOffsOpen(s, rc, k - 1, k - 1);
        SnocOk(m, Aborted(k - 1));
        Snoc(m, Aborted(k - 1), p, 0);
      } else {
        assert m + [] == m;
      }
    }
  }

  lemma CallOffsSnoc(s: State, rc: nat, k: nat)
    requires rc < |s.procs| && 0 < k <= |s.procs|
    ensures s.log + CallOffs(s, rc, k) ==
      s.log + CallOffs(s, rc, k - 1) + (if CalledOff(s, rc, k - 1) then [Aborted(k - 1)] else [])
  {
  }

  /** Queues according to the log after the call-offs of the slots below `k`. */
  lemma {:induction false} CallOffsWaiting(s: State, rc: nat, k: nat, q: nat, w: seq<nat>)
    requires rc < |s.procs| && k <= |s.procs| && NoDup(w) && w == Waiting(s.log, q)
    ensures Waiting(s.log + CallOffs(s, rc, k), q) == Left(s, rc, w, k)
  {
    hide Open, Waiting, CalledOff, Left;
    if k == 0 {
      assert s.log + CallOffs(s, rc, 0) == s.log;
      LeftZero(s, rc, w);
    } else {
      CallOffsWaiting(s, rc, k - 1, q, w);
      LeftStep(s, rc, w, k - 1);
      CallOffsSnoc(s, rc, k);
      if CalledOff(s, rc, k - 1) {
        Snoc(s.log + CallOffs(s, rc, k - 1), Aborted(k - 1), 0, q);
      } else {
        assert s.log + CallOffs(s, rc, k - 1) + [] == s.log + CallOffs(s, rc, k - 1);
      }
    }
  }

  /** What survives in each queue is what `clear_endpoint` leaves there. */
  lemma LeftIsCleared(s: State, rc: nat, q: nat)
    requires Core(s) && rc < |s.procs| && s.procs[rc].life != Free && q < |s.procs|
    ensures Left(s, rc, s.queues[q], |s.procs|) == ClearEndpoint(s, rc).queues[q]
  {
    var w := s.queues[q];
    assert Exact(s, q) && WaitsOk(s, rc);
    forall p: nat | p in w ensures SendsTo(s, p, q) && WaitsOk(s, p) {
    }
    if q == rc {
      forall p: nat ensures p !in Left(s, rc, w, |s.procs|) {
        LeftIn(s, rc, w, |s.procs|, p);
      }
      HeadIn(Left(s, rc, w, |s.procs|));
    } else {
      assert forall p | p in w :: CalledOff(s, rc, p) <==> p == rc;
      LeftWithout(s, rc, w);
      if rc !in w {
        WithoutSame(w, rc);
      } else {
        assert SendsTo(s, rc, q);
      }
    }
  }

  lemma {:induction false} LeftWithout(s: State, rc: nat, w: seq<nat>)
    requires rc < |s.procs| && NoDup(w)
    requires forall p | p in w :: p < |s.procs| && (CalledOff(s, rc, p) <==> p == rc)
    ensures Left(s, rc, w, |s.procs|) == Without(w, rc)
  {
    if w != [] {
      assert NoDup(w[1..]);
      assert w[0] in w;
      LeftWithout(s, rc, w[1..]);
      if w[0] == rc {
        assert rc !in w[1..];
        WithoutSame(w[1..], rc);
      }
    }
  }

  lemma ToldClear(s: State, rc: nat)
    requires Told(s) && Core(s) && rc < |s.procs| && s.procs[rc].life != Free
    ensures Told(ClearEndpoint(s, rc))
  {
    var t := ClearEndpoint(s, rc);
    forall x | 0 <= x < |s.procs| && CalledOff(s, rc, x) ensures Open(s.log, x) != None {
      assert WaitsOk(s, x);
    }
    forall q | 0 <= q < |t.queues| ensures t.queues[q] == Waiting(t.log, q) {
      assert Exact(s, q);
      CallOffsWaiting(s, rc, |s.procs|, q, s.queues[q]);
      LeftIsCleared(s, rc, q);
    }
    CallOffsOpen(s, rc, |s.procs|, 0);
    forall p: nat
      ensures Open(t.log, p) == if p < |t.procs| && t.procs[p].sending && t.procs[p].sendTo.Ep?
                                then Some((t.procs[p].sendTo.slot, t.procs[p].sendMsg)) else None
    {
      CallOffsOpen(s, rc, |s.procs|, p);
      if p < |s.procs| {
        assert WaitsOk(s, p);
      }
    }
  }

  lemma ToldReceive(s: State, c: nat, src: Endpoint, nonblock: bool, io: Io)
    requires Inv(s) && Told(s) && MayReceive(s, c, src)
    requires forall p | p in s.queues[c] :: p < |s.procs|
    ensures Told(MiniReceive(s, c, src, nonblock, io).state)
  {
    var t := MiniReceive(s, c, src, nonblock, io).state;
    var i := QueueScan(s.queues[c], src);
    if !s.procs[c].sending && i < |s.queues[c]| && t.queues != s.queues {
      TakeCallerCore(s, c, i);
      ToldTake(s, c, i);
    } else {
      ReceiveNeutral(s, c, src, nonblock, io);
      ToldNeutral(s, t);
    }
  }

  lemma ReceiveNeutral(s: State, c: nat, src: Endpoint, nonblock: bool, io: Io)
    requires Shaped(s) && c < |s.procs| && (src.Ep? ==> src.slot < |s.procs|)
    requires forall p | p in s.queues[c] :: p < |s.procs|
    requires s.procs[c].sending || QueueScan(s.queues[c], src) == |s.queues[c]|
      || MiniReceive(s, c, src, nonblock, io).state.queues == s.queues
    ensures Neutral(s, MiniReceive(s, c, src, nonblock, io).state)
  {
    hide Neutral, TryOne, TryAsync, Sleep, TakeNotice, TakeCaller, NotifyScan, QueueScan;
    NeutralSelf(s);
    SleepNeutral(s, c, src, nonblock);
    var note := NotifyScan(s.procs[c].pending, |s.procs|, src, 0);
    if note.Some? {
      NoticeNeutral(s, c, note.value);
    }
    TriedNeutral(s, c, src, nonblock);
    var i := QueueScan(s.queues[c], src);
    if i < |s.queues[c]| {
      assert s.queues[c][i] in s.queues[c];
      TakenNotNeutral(s, c, i);
    }
  }

  lemma NeutralSelf(s: State)
    ensures Neutral(s, s)
  {
  }

  lemma NoticeNeutral(s: State, c: nat, id: nat)
    requires c < |s.procs| && id < |s.procs|
    ensures Neutral(s, TakeNotice(s, c, id).state)
  {
  }

  lemma TakenNotNeutral(s: State, c: nat, i: nat)
    requires Shaped(s) && c < |s.procs| && i < |s.queues[c]| && s.queues[c][i] < |s.procs|
    ensures TakeCaller(s, c, i).queues != s.queues
  {
    assert |RemoveAt(s.queues[c], i)| != |s.queues[c]|;
  }

  lemma TriedNeutral(s: State, c: nat, src: Endpoint, nonblock: bool)
    requires c < |s.procs| && (src.Ep? ==> src.slot < |s.procs|)
    ensures var tried := if src.Ep? then TryOne(s, src.slot, c).outcome else TryAsync(s, c, 0, false);
      |tried.state.procs| == |s.procs| && Neutral(s, tried.state) && Neutral(s, Sleep(tried.state, c, src, nonblock).state)
  {
    hide TryOne, TryAsync, Sleep;
    if src.Ep? {
      TryOneNeutral(s, src.slot, c);
    } else {
      TryAsyncNeutral(s, c, 0, false);
    }
    var tried := if src.Ep? then TryOne(s, src.slot, c).outcome else TryAsync(s, c, 0, false);
    SleepNeutral(tried.state, c, src, nonblock);
    NeutralTrans(s, tried.state, Sleep(tried.state, c, src, nonblock).state);
  }

  lemma SleepNeutral(s: State, c: nat, src: Endpoint, nonblock: bool)
    requires c < |s.procs| && (src.Ep? ==> src.slot < |s.procs|)
    ensures Neutral(s, Sleep(s, c, src, nonblock).state)
  {
  }

  lemma ToldSend(s: State, c: nat, d: Endpoint, body: Body, nonblock: bool, io: Io)
    requires Told(s) && CanCall(s, c) && d.Ep? && d.slot < |s.procs|
    ensures Told(MiniSend(s, c, d, body, nonblock, io).state)
  {
    var t := MiniSend(s, c, d, body, nonblock, io).state;
    if t.queues == s.queues {
      assert Neutral(s, t);
      ToldNeutral(s, t);
    } else {
      ToldBlock(s, c, d, body);
    }
  }

  lemma ToldCall(s: State, c: nat, call: Call, io: Io)
    requires Inv(s) && Told(s) && Enabled(s, Trap(c, call, io))
    ensures Told(KipcCall(s, c, call, io).state)
  {
    hide Told, MiniReceive, MiniSenda;
    if Screen(s, c, call) == Ok {
      assert PendingOk(s, c);
      match call
      case Send(d, body, nonblock) => ToldSend(s, c, d, body, nonblock, io);
      case Receive(src) =>
        ReplyPendInv(s, c, false);
        ToldNeutral(s, SetReplyPend(s, c, false));
        ToldReceive(SetReplyPend(s, c, false), c, src, false, io);
      case SendRec(d, body, nonblock) =>
        ReplyPendInv(s, c, true);
        var s1 := SetReplyPend(s, c, true);
        ToldNeutral(s, s1);
        ToldSend(s1, c, d, body, nonblock, io);
        var sent := MiniSend(s1, c, d, body, nonblock, io);
        if sent.status == Ok {
          SendThenReceive(s1, c, d, body, nonblock, io);
          QueuesInRange(sent.state);
          ToldReceive(sent.state, c, d, false, io);
        }
      case Notify(d) => ToldNeutral(s, MiniNotify(s, c, d).state);
      case Senda(table) =>
        MiniSendaNeutral(s, c, table, io);
        ToldNeutral(s, MiniSenda(s, c, table, io).state);
    }
  }

  lemma NobodySends(s: State, p: nat, q: nat)
    requires Wf(s) && q < |s.procs| && s.procs[q].life != Live
    ensures !SendsTo(s, p, q)
  {
    if p < |s.procs| {
      assert WaitsOk(s, p);
    }
  }

  lemma ToldFork(s: State, parent: nat, child: nat, stop: bool)
    requires Inv(s) && Told(s) && Enabled(s, Spawn(parent, child, stop))
    ensures Told(Fork(s, parent, child, stop).state)
  {
    var r := Fork(s, parent, child, stop);
    if r.status == Ok {
      assert WaitsOk(s, child) && Exact(s, child);
      HeadIn(s.queues[child]);
      forall p: nat ensures p !in s.queues[child] {
        NobodySends(s, p, child);
      }
      assert r.state.queues == s.queues;
      ToldNeutral(s, r.state);
    }
  }

  lemma ToldMasks(s: State, p: nat, id: nat)
    requires Told(s) && p < |s.procs| && id < |s.procs|
    ensures Told(SetSendTo(s, p, id)) && Told(UnsetSendTo(s, p, id))
  {
    ToldNeutral(s, SetSendTo(s, p, id));
    ToldNeutral(s, UnsetSendTo(s, p, id));
  }

  lemma ToldLocal(s: State, p: nat, b: bool)
    requires Told(s) && p < |s.procs|
    ensures Told(Fetch(s, p)) && Told(Hold(s, p, b))
    ensures !s.procs[p].sending ==> Told(FreeSlot(s, p))
  {
    ToldNeutral(s, Fetch(s, p));
    ToldNeutral(s, Hold(s, p, b));
    if !s.procs[p].sending {
      ToldNeutral(s, FreeSlot(s, p));
    }
  }

  lemma StepTold(s: State, e: Step)
    requires Inv(s) && Told(s) && Enabled(s, e)
    ensures Told(Apply(s, e))
  {
    match e
    case Trap(c, call, io) => ToldCall(s, c, call, io);
    case Signal(p, d) => ToldNeutral(s, MiniNotify(s, p, d).state);
    case Clear(rc) => ToldClear(s, rc);
    case Exit(rc) =>
      ToldClear(s, rc);
      ToldLocal(ClearEndpoint(s, rc), rc, false);
    case Spawn(parent, child, stop) => ToldFork(s, parent, child, stop);
    case CopyOut(p) => ToldLocal(s, p, false);
    case SetHold(p, b) => ToldLocal(s, p, b);
    case Permit(p, id) => ToldMasks(s, p, id);
    case Forbid(p, id) => ToldMasks(s, p, id);
  }

  lemma {:induction false} RunTold(states: seq<State>, steps: seq<Step>, i: nat)
    requires IsRun(states, steps) && i < |states|
    ensures Told(states[i])
  {
    hide Told, Inv, Enabled, Apply, Start;
    if i == 0 {
      StartTold(states[0]);
    } else {
      RunTold(states, steps, i - 1);
      RunInv(states, steps, i - 1);
      StepTold(states[i - 1], steps[i - 1]);
    }
  }

  lemma StartTold(s: State)
    requires Start(s)
    ensures Told(s)
  {
  }

  /** The step ends, with event `x`, the send that `e` began: a receive of its destination, or the end of an endpoint. */
  ghost predicate EndedBy(s: State, step: Step, e: Event, x: Event)
    requires e.Accepted?
  {
    && SendsTo(s, e.src, e.dst) && s.procs[e.src].sendMsg == e.body
    && (|| (x == Delivered(e.src, e.dst, e.body) && ReceivesFrom(s, step, e.dst, e.src))
        || (x == Aborted(e.src) && (Clears(step, e.src) || Clears(step, e.dst))))
  }

  /**
   Over a whole run, each accepted blocking send is still asleep; or it was delivered once and unaltered, when its
   destination received; or it was called off, when the endpoint of its sender or of its destination was cleared.
   */
  lemma RunFate(states: seq<State>, steps: seq<Step>, n: nat, i: nat)
    requires IsRun(states, steps) && n < |states| && i < |states[n].log| && states[n].log[i].Accepted?
    ensures var s, e := states[n], states[n].log[i];
      || (&& SendsTo(s, e.src, e.dst) && s.procs[e.src].sendMsg == e.body
          && forall k | i < k < |s.log| :: !About(s.log[k], e.src))
      || exists j: nat, m: nat ::
        Settles(s.log, i, j) && m < n && Wrote(states, steps, m, j, s.log[j]) && EndedBy(states[m], steps[m], e, s.log[j])
  {
    hide Told, Wrote, EndedBy, Enabled, Apply, Start;
    var s, e := states[n], states[n].log[i];
    RunTold(states, steps, n);
    ToldMeans(s);
    Fate(s.log, i);
    if j: nat :| Settles(s.log, i, j) {
      RunCauses(states, steps, n, j);
      var m: nat :| m < n && Wrote(states, steps, m, j, s.log[j]) && states[m + 1].log <= s.log;
      RunEnds(states, steps, n, i, j, m);
    }
  }

  lemma ToldMeans(s: State)
    requires Told(s)
    ensures LogOk(s.log)
    ensures forall p: nat, d: nat, body: Body :: Open(s.log, p) == Some((d, body)) ==> SendsTo(s, p, d) && s.procs[p].sendMsg == body
  {
  }

  lemma RunEnds(states: seq<State>, steps: seq<Step>, n: nat, i: nat, j: nat, m: nat)
    requires IsRun(states, steps) && m < n < |states| && i < |states[n].log| && states[n].log[i].Accepted?
    requires Settles(states[n].log, i, j)
    requires Wrote(states, steps, m, j, states[n].log[j]) && states[m + 1].log <= states[n].log
    ensures EndedBy(states[m], steps[m], states[n].log[i], states[n].log[j])
  {
    hide Told, Open;
    var s, e, x := states[m], states[n].log[i], states[n].log[j];
    RunInv(states, steps, m);
    RunTold(states, steps, m);
    ToldMeans(s);
    if |s.log| <= i {
      StepCaused(s, steps[m]);
      assert Caused(s, steps[m], states[m + 1].log[i]);
    } else {
      assert s.log[i] == e && forall k | i < k < |s.log| :: s.log[k] == states[n].log[k];
      Fate(s.log, i);
    }
  }

  /** A receive from anyone takes the sleeper that was accepted first. */
  lemma RunFifo(states: seq<State>, steps: seq<Step>, n: nat, q: nat, j: nat)
    requires IsRun(states, steps) && n < |states| && q < |states[n].procs|
    requires |states[n].queues| == |states[n].procs| && 0 < j < |states[n].queues[q]|
    ensures QueueScan(states[n].queues[q], Any) == 0
    ensures Since(states[n].log, states[n].queues[q][0]) < Since(states[n].log, states[n].queues[q][j])
  {
    RunTold(states, steps, n);
    WaitingOrdered(states[n].log, q);
  }
}

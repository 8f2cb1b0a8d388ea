/**
 The message-passing code of the kernel as it runs: a process table updated in place, and caller queues
 threaded through it by `p_caller_q` and `p_q_link`. Each routine computes the function of the same
 name in `IpcModel`.
 */
module IpcKernel {
  import M = IpcModel
  import opened Basics
  import opened IpcModel
  import opened IpcInvariants
  import opened IpcGraph
  import opened IpcPreserve
  import opened IpcSteps
  import opened IpcTheorems

  /** Live endpoints have their queue threaded through the links; what a dead one has is garbage. */
  ghost predicate Linked(procs: seq<Proc>, heads: seq<Link>, links: seq<Link>, queues: seq<seq<nat>>) {
    && |procs| == |heads| == |links| == |queues|
    && forall q | 0 <= q < |procs| ::
         if procs[q].life == Live then Chain(heads[q], links, queues[q]) else queues[q] == []
  }

  lemma InvSeparate(s: State)
    requires Queues(s)
    ensures Separate(s.queues)
    ensures forall c, q | 0 <= c < |s.procs| && !s.procs[c].sending && 0 <= q < |s.queues| :: c !in s.queues[q]
  {
    forall q | 0 <= q < |s.queues| ensures NoDup(s.queues[q]) {
      assert Exact(s, q);
    }
    forall q, x | 0 <= q < |s.queues| && x in s.queues[q] ensures SendsTo(s, x, q) {
      assert Exact(s, q);
    }
  }

  /** Changing the list of `d`, by links of its own or of processes in no queue, leaves the others alone. */
  lemma Relink(procs: seq<Proc>, heads: seq<Link>, links: seq<Link>, queues: seq<seq<nat>>,
               d: nat, head: Link, links': seq<Link>, w: seq<nat>)
    requires Linked(procs, heads, links, queues) && Separate(queues) && d < |procs| && procs[d].life == Live
    requires |links'| == |links| && Chain(head, links', w)
    requires forall x | 0 <= x < |links| && links'[x] != links[x] :: forall q | 0 <= q < |queues| && x in queues[q] :: q == d
    ensures Linked(procs, heads[d := head], links', queues[d := w])
  {
    forall q | 0 <= q < |procs| && q != d && procs[q].life == Live ensures Chain(heads[q], links', queues[q]) {
      ChainFrame(heads[q], links, links', queues[q]);
    }
  }

  lemma ChainEnds(s: State, d: nat, c: nat, k: nat)
    requires Walk(s, d, k) == None && forall j: nat | j < k :: Walk(s, d, j) != Some(c)
    ensures forall g: nat :: !Closes(s, c, d, g)
  {
    forall g: nat ensures !Closes(s, c, d, g) {
      if g >= 2 && k <= g - 1 && Walk(s, d, g - 1).Some? {
        WalkPrefix(s, d, k, g - 1);
      }
    }
  }

  lemma NoClosing(s: State, d: nat, c: nat, k: nat)
    requires c < |s.procs| && Walk(s, d, k) == None
    requires d != c ==> forall j: nat | j < k :: Walk(s, d, j) != Some(c)
    ensures forall g: nat :: !Closes(s, c, d, g)
  {
    if d == c {
      SelfCloses(s, c);
    } else {
      ChainEnds(s, d, c, k);
    }
  }

  /** The chain from `d` has the distinct processes of `path` behind it. */
  ghost predicate Path(s: State, d: nat, path: seq<nat>) {
    && NoDup(path)
    && forall j: nat | j < |path| :: path[j] < |s.procs| && Walk(s, d, j) == Some(path[j])
  }

  lemma NoPath(s: State, d: nat)
    ensures Path(s, d, [])
  {
  }

  lemma PathGrows(s: State, d: nat, path: seq<nat>, x: nat)
    requires Acyclic(s) && Path(s, d, path) && x < |s.procs| && Walk(s, d, |path|) == Some(x)
    ensures Path(s, d, path + [x]) && |path| < |s.procs|
  {
    forall j: nat | j < |path| ensures path[j] != x {
      WalkAdd(s, d, j, |path| - j);
    }
    Distinct(path + [x], |s.procs|);
  }

  /** A chain that comes back to `c` has room for `c` itself. */
  lemma ClosedPath(s: State, d: nat, path: seq<nat>, c: nat)
    requires Path(s, d, path) && c < |s.procs| && forall j: nat | j < |path| :: Walk(s, d, j) != Some(c)
    ensures |path| + 1 <= |s.procs|
  {
    forall j: nat | j < |path| ensures path[j] != c {
      assert Walk(s, d, j) == Some(path[j]);
    }
    Distinct(path + [c], |s.procs|);
  }

  /** The queues before the exiting process's own is forgotten. */
  ghost predicate Unqueued(s: State, rc: nat, queues: seq<seq<nat>>)
    requires rc < |s.procs| == |s.queues|
  {
    var x := s.procs[rc];
    queues ==
      if x.sending && x.sendTo.Ep? && x.sendTo.slot < |s.queues| then
        s.queues[x.sendTo.slot := Without(s.queues[x.sendTo.slot], rc)]
      else s.queues
  }

  lemma Cleared(s: State, rc: nat, unqueued: seq<seq<nat>>, procs: seq<Proc>)
    requires Shaped(s) && rc < |s.procs| == |procs| && s.procs[rc].life != Free && Unqueued(s, rc, unqueued)
    requires forall j | 0 <= j < |procs| ::
      procs[j] == Release(if j == rc then Bury(s.procs[rc]) else s.procs[j], rc, EpOf(s, rc))
    ensures State(procs, unqueued[rc := []], s.log + CallOffs(s, rc, |s.procs|)) == M.ClearEndpoint(s, rc)
  {
    assert procs == M.ClearEndpoint(s, rc).procs;
  }

  lemma Buried(procs: seq<Proc>, procs': seq<Proc>, heads: seq<Link>, links: seq<Link>, queues: seq<seq<nat>>, rc: nat)
    requires Linked(procs, heads, links, queues) && |procs'| == |procs| && rc < |procs|
    requires forall q | 0 <= q < |procs| :: if q == rc then procs'[q].life != Live else procs'[q].life == procs[q].life
    ensures Linked(procs', heads, links, queues[rc := []])
  {
  }

  class Kernel {
    const proc: array<Proc>
    const callerQ: array<Link>
    const qLink: array<Link>
    ghost var queues: seq<seq<nat>>
    ghost var log: seq<Event>

    ghost predicate Valid()
      reads this, proc, callerQ, qLink
    {
      && callerQ != qLink
      && Linked(proc[..], callerQ[..], qLink[..], queues)
    }

    ghost function Abs(): State
      reads this, proc
    {
      State(proc[..], queues, log)
    }

    /** Starts with a process table in which nobody communicates. */
    constructor (procs: array<Proc>)
      requires forall p | 0 <= p < procs.Length ::
        && !procs[p].sending && !procs[p].receiving && procs[p].pending == {}
        && procs[p].inbox == Vacant && procs[p].table == [] && p !in procs[p].ipcTo
      ensures proc == procs && Valid() && Start(Abs()) && fresh(callerQ) && fresh(qLink)
    {
      proc := procs;
      callerQ := new Link[procs.Length](_ => None);
      qLink := new Link[procs.Length](_ => None);
      queues := seq(procs.Length, _ => []);
      log := [];
    }

    // -------------------------------------------------------------- deadlock

    method Deadlock(fn: Function, c: nat, d: Endpoint) returns (size: nat)
      requires Valid() && Inv(Abs()) && c < proc.Length
      requires d.Ep? ==> d.slot < proc.Length
      ensures size == DeadlockSize(Abs(), fn, c, d)
      ensures size <= proc.Length
    {
      hide Path, NoDup;
      ghost var s := Abs();
      ghost var path: seq<nat> := [];
      if d.Ep? {
        NoPath(s, d.slot);
      }
      var groupSize := 1;
      var srcDst := if d.Ep? then Some(d.slot) else None;
      while srcDst != None
        invariant d.Any? ==> srcDst == None
        invariant d.Ep? ==>
          && Path(s, d.slot, path) && |path| == groupSize - 1 && Walk(s, d.slot, |path|) == srcDst
          && (d.slot != c ==> forall j: nat | j <= |path| :: Walk(s, d.slot, j) != Some(c))
        invariant srcDst.Some? ==> srcDst.value < proc.Length
        decreases proc.Length - |path|
      {
        var x := srcDst.value;
        var xp := proc[x];
        PathGrows(s, d.slot, path, x);
        assert WaitsOk(s, x);
        path := path + [x];
        groupSize := groupSize + 1;
        WalkAdd(s, d.slot, |path| - 1, 1);
        assert Walk(s, d.slot, |path|) == Walk(s, x, 1);
        if xp.receiving {
          srcDst := if xp.getFrom == Any then None else Some(xp.getFrom.slot);
        } else if xp.sending {
          srcDst := Some(xp.sendTo.slot);
        } else {
          NoClosing(s, d.slot, c, |path|);
          return 0;
        }
        if srcDst == Some(c) {
          assert d.slot != c;
          assert Closes(s, c, d.slot, groupSize);
          DeadlockSizeIs(s, fn, c, d.slot, d.gen, groupSize);
          ClosedPath(s, d.slot, path, c);
          if groupSize == 2 && xp.sending == (fn == FnReceive) {
            return 0;
          }
          return groupSize;
        }
      }
      if d.Ep? {
        NoClosing(s, d.slot, c, |path|);
      }
      return 0;
    }

    // ------------------------------------------------------------- mini_send

    /** The copy into the receiver's slot; its assertion that no message is there yet holds at every call. */
    method QueueMess(m: Inbox, q: nat)
      requires q < proc.Length && proc[q].inbox == Vacant
      modifies proc
      ensures proc[..] == old(proc[..])[q := old(proc[q]).(inbox := m)]
    {
      proc[q] := proc[q].(inbox := m);
    }

    /** The last process on the caller queue of `d`, found by walking its links. */
    method FindEnd(d: nat) returns (at: Link)
      requires d < callerQ.Length && d < |queues| && Chain(callerQ[d], qLink[..], queues[d])
      ensures at == if queues[d] == [] then None else Some(queues[d][|queues[d]| - 1])
    {
      ghost var w, links := queues[d], qLink[..];
      at := None;
      var cur := callerQ[d];
      ghost var i: nat := 0;
      while cur != None
        invariant i <= |w| && cur == At(w, i)
        invariant at == if i == 0 then None else Some(w[i - 1])
        decreases |w| - i
      {
        assert links[w[i]] == qLink[w[i]];
        at := cur;
        cur := qLink[cur.value];
        i := i + 1;
      }
    }

    /** Append `c` to the caller queue of `d`. */
    method Enqueue(c: nat, d: nat)
      requires Valid() && c < proc.Length && d < proc.Length && proc[d].life == Live
      requires Separate(queues) && forall q | 0 <= q < |queues| :: c !in queues[q]
      modifies this`queues, callerQ, qLink
      ensures Valid() && queues == old(queues)[d := old(queues[d]) + [c]]
    {
      ghost var w, heads, links := queues[d], callerQ[..], qLink[..];
      assert Chain(heads[d], links, w);
      var at := FindEnd(d);
      ChainAppend(heads[d], links, w, c);
      if at == None {
        callerQ[d] := Some(c);
      } else {
        assert links[w[|w| - 1]] == qLink[w[|w| - 1]] && w[|w| - 1] in w;
        qLink[at.value] := Some(c);
      }
      qLink[c] := None;
      queues := queues[d := w + [c]];
      Relink(proc[..], heads, links, old(queues), d, callerQ[d], qLink[..], w + [c]);
      assert callerQ[..] == heads[d := callerQ[d]];
    }

    method MiniSend(c: nat, d: Endpoint, body: Body, nonblock: bool, io: Io) returns (r: Status)
      requires Valid() && Inv(Abs()) && CanCall(Abs(), c) && IsOkEndpoint(Abs(), d) && d.slot != c
      modifies this, proc, callerQ, qLink
      ensures Valid() && Outcome(Abs(), r) == M.MiniSend(old(Abs()), c, d, body, nonblock, io)
    {
      ghost var s := Abs();
      if !io.mapOut {
        return EFault;
      }
      var dst := proc[d.slot];
      if dst.life == Dead {
        return EDstDied;
      }
      if WillReceive(dst, Ep(c, proc[c].gen)) {
        if !io.copy {
          return EFault;
        }
        assert s.procs[d.slot].receiving;
        QueueMess(Letter(Ep(c, proc[c].gen), body), d.slot);
        proc[d.slot] := proc[d.slot].(receiving := false);
        log := log + [Handed(c, d.slot, body)];
        assert Abs() == M.MiniSend(s, c, d, body, nonblock, io).state;
        return Ok;
      }
      if nonblock {
        return ENotReady;
      }
      var size := Deadlock(FnSend, c, d);
      if size != 0 {
        return ELocked;
      }
      if !io.copy {
        return EFault;
      }
      InvSeparate(s);
      proc[c] := proc[c].(sending := true, sendTo := d, sendMsg := body);
      Enqueue(c, d.slot);
      log := log + [Accepted(c, d.slot, body)];
      assert Abs() == BlockSend(s, c, d, body);
      return Ok;
    }

    // ------------------------------------------------------------ mini_notify

    method MiniNotify(c: nat, d: Endpoint) returns (r: Status)
      requires Valid() && Inv(Abs()) && c < proc.Length
      modifies proc
      ensures Valid() && Outcome(Abs(), r) == M.MiniNotify(old(Abs()), c, d)
    {
      ghost var s := Abs();
      if !(d.Ep? && d.slot < proc.Length && proc[d.slot].life != Free && proc[d.slot].gen == d.gen) {
        return EDeadSrcDst;
      }
      var dst := proc[d.slot];
      if WillReceive(dst, Ep(c, proc[c].gen)) && !dst.replyPend {
        assert s.procs[d.slot].receiving;
        QueueMess(Notice(Ep(c, proc[c].gen)), d.slot);
        proc[d.slot] := proc[d.slot].(receiving := false);
        assert proc[..] == M.MiniNotify(s, c, d).state.procs;
        return Ok;
      }
      proc[d.slot] := dst.(pending := dst.pending + {c});
      assert proc[..] == M.MiniNotify(s, c, d).state.procs;
      return Ok;
    }

    // ----------------------------------------------------------- mini_receive

    /** The lowest bit set in chunk `k` of the pending map. */
    static method FindBit(pending: set<nat>, k: nat) returns (r: Link)
      ensures r == LowBit(pending, k, 0)
    {
      var i := 0;
      while i < BITCHUNK_BITS
        invariant i <= BITCHUNK_BITS && LowBit(pending, k, 0) == LowBit(pending, k, i)
      {
        if k * BITCHUNK_BITS + i in pending {
          return Some(k * BITCHUNK_BITS + i);
        }
        i := i + 1;
      }
      return None;
    }

    /** The scan of the pending map, chunk by chunk. */
    static method FindNotice(pending: set<nat>, n: nat, src: Endpoint) returns (r: Link)
      ensures r == NotifyScan(pending, n, src, 0)
    {
      var k := 0;
      while k * BITCHUNK_BITS < n
        invariant NotifyScan(pending, n, src, 0) == NotifyScan(pending, n, src, k)
        decreases n - k * BITCHUNK_BITS
      {
        var bit := FindBit(pending, k);
        if bit != None {
          if bit.value >= n {
            return None;
          }
          if src == Any || src.slot == bit.value {
            return bit;
          }
        }
        k := k + 1;
      }
      return None;
    }

    /** Walk the caller queue of `q` up to the first process that `src` accepts; `at` is the one before it. */
    method FindQueued(q: nat, src: Endpoint) returns (at: Link, cur: Link, ghost i: nat)
      requires Valid() && q < proc.Length && proc[q].life == Live
      ensures i == QueueScan(queues[q], src) && i <= |queues[q]| && cur == At(queues[q], i)
      ensures at == if i == 0 then None else Some(queues[q][i - 1])
    {
      ghost var w, links := queues[q], qLink[..];
      assert Chain(callerQ[..][q], links, w);
      at, cur, i := None, callerQ[q], 0;
      while cur != None && !(src == Any || src.slot == cur.value)
        invariant i <= |w| && cur == At(w, i)
        invariant at == if i == 0 then None else Some(w[i - 1])
        invariant forall j | 0 <= j < i :: src != Any && src.slot != w[j]
        decreases |w| - i
      {
        assert links[w[i]] == qLink[w[i]];
        at, cur, i := cur, qLink[cur.value], i + 1;
      }
    }

    /** Take `p`, the `i`-th process on the queue of `q`, off it. */
    method Unlink(q: nat, at: Link, p: nat, ghost i: nat)
      requires Valid() && Separate(queues) && q < proc.Length && proc[q].life == Live
      requires i < |queues[q]| && queues[q][i] == p
      requires at == if i == 0 then None else Some(queues[q][i - 1])
      modifies this`queues, callerQ, qLink
      ensures Valid() && queues == old(queues)[q := RemoveAt(old(queues[q]), i)]
    {
      ghost var w, heads, links := queues[q], callerQ[..], qLink[..];
      assert Chain(heads[q], links, w);
      ChainRemove(heads[q], links, w, i);
      assert links[p] == qLink[p];
      if at == None {
        callerQ[q] := qLink[p];
      } else {
        assert w[i - 1] in w && links[w[i - 1]] == qLink[w[i - 1]];
        qLink[at.value] := qLink[p];
      }
      queues := queues[q := RemoveAt(w, i)];
      Relink(proc[..], heads, links, old(queues), q, callerQ[q], qLink[..], RemoveAt(w, i));
      assert callerQ[..] == heads[q := callerQ[q]];
    }

    /** Serve the first acceptable sleeper of one's own queue. */
    method TakeQueued(c: nat, src: Endpoint) returns (taken: bool)
      requires Valid() && Inv(Abs()) && c < proc.Length && proc[c].life == Live
      requires !proc[c].sending && !proc[c].receiving && proc[c].inbox == Vacant
      modifies this, proc, callerQ, qLink
      ensures Valid()
      ensures taken == (QueueScan(old(queues)[c], src) < |old(queues)[c]|)
      ensures if taken
        then old(queues)[c][QueueScan(old(queues)[c], src)] < proc.Length
          && Abs() == TakeCaller(old(Abs()), c, QueueScan(old(queues)[c], src))
        else Abs() == old(Abs())
    {
      ghost var s := Abs();
      var at, cur, i := FindQueued(c, src);
      if cur == None {
        return false;
      }
      var p := cur.value;
      InvSeparate(s);
      TakeCallerCore(s, c, i);
      QueueMess(Letter(Ep(p, proc[p].gen), proc[p].sendMsg), c);
      proc[p] := proc[p].(sending := false);
      Unlink(c, at, p, i);
      log := log + [Delivered(p, c, s.procs[p].sendMsg)];
      assert proc[..] == TakeCaller(s, c, i).procs;
      return true;
    }

    /** The loop of `try_one` over a request table. */
    static method ScanTable(table: seq<Entry>, dst: Endpoint, replyPend: bool) returns (f: Find)
      ensures f == TableScan(table, dst, replyPend, 0, true, false)
    {
      var done, postponed := true, false;
      var i := 0;
      while i < |table|
        invariant i <= |table|
        invariant TableScan(table, dst, replyPend, 0, true, false) == TableScan(table, dst, replyPend, i, done, postponed)
      {
        match table[i] {
          case Blank =>
          case Garbled => return Broken(postponed);
          case Request(served, _, noreply, to, _, _) =>
            if !served {
              done := false;
              if to == dst {
                if !(noreply && replyPend) {
                  return Hit(i, postponed);
                }
                postponed := true;
              }
            }
        }
        i := i + 1;
      }
      return Nothing(done, postponed);
    }

    /** Hands the `i`-th entry of the table of `src` to `dst`, which is receiving. */
    method ServeEntry(src: nat, dst: nat, i: nat)
      requires Valid() && src < proc.Length && dst < proc.Length && proc[dst].inbox == Vacant
      requires i < |proc[src].table| && proc[src].table[i].Request?
      modifies this`log, proc
      ensures Valid() && Abs() == Serve(old(Abs()), src, dst, i)
    {
      var x := proc[src];
      QueueMess(Letter(Ep(src, x.gen), x.table[i].body), dst);
      proc[src] := proc[src].(table := x.table[i := Finish(x.table[i], Ok)]);
      log := log + [Posted(src, dst, i, x.table[i].body)];
    }

    /** Serve the first request of `src` that `dst` can take. */
    method TryOne(src: nat, dst: nat) returns (r: Status, postponed: bool)
      requires Valid() && src < proc.Length && dst < proc.Length && proc[dst].inbox == Vacant
      modifies this`log, proc
      ensures Valid() && Attempt(Outcome(Abs(), r), postponed) == M.TryOne(old(Abs()), src, dst)
      ensures r != Ok ==> proc[dst].inbox == Vacant
    {
      hide TableScan, Serve;
      ghost var s := Abs();
      var x := proc[src];
      if !x.sysProc || |x.table| == 0 || dst !in x.ipcTo {
        return EAgain, false;
      }
      var f := ScanTable(x.table, Ep(dst, proc[dst].gen), proc[dst].replyPend);
      match f {
        case Broken(late) =>
          proc[src] := x.(table := []);
          assert proc[..] == M.TryOne(s, src, dst).outcome.state.procs;
          return EInval, late;
        case Nothing(done, late) =>
          if done {
            proc[src] := x.(table := []);
            assert proc[..] == M.TryOne(s, src, dst).outcome.state.procs;
          }
          return EAgain, late;
        case Hit(i, late) =>
          ServeEntry(src, dst, i);
          return Ok, late;
      }
    }

    method TryAsync(c: nat) returns (r: Status)
      requires Valid() && c < proc.Length && proc[c].inbox == Vacant
      modifies this`log, proc
      ensures Valid() && Outcome(Abs(), r) == M.TryAsync(old(Abs()), c, 0, false)
    {
      hide M.TryOne;
      ghost var s := Abs();
      var postponed := false;
      var k := 0;
      while k < proc.Length
        invariant k <= proc.Length && Valid() && proc[c].inbox == Vacant
        invariant M.TryAsync(s, c, 0, false) == M.TryAsync(Abs(), c, k, postponed)
      {
        if proc[k].life != Free {
          var late;
          r, late := TryOne(k, c);
          if r == Ok {
            return;
          }
          postponed := postponed || late;
        }
        k := k + 1;
      }
      if !postponed {
        proc[c] := proc[c].(asynMsg := false);
        assert proc[..] == M.TryAsync(s, c, 0, false).state.procs;
      }
      return ESrch;
    }

    /** The end of `mini_receive`: go to sleep, unless told not to or that would lock up. */
    method Sleep(c: nat, src: Endpoint, nonblock: bool) returns (r: Status)
      requires Valid() && Inv(Abs()) && c < proc.Length && (src.Ep? ==> src.slot < proc.Length)
      modifies proc
      ensures Valid() && Outcome(Abs(), r) == M.Sleep(old(Abs()), c, src, nonblock)
    {
      ghost var s := Abs();
      if nonblock {
        return ENotReady;
      }
      var size := Deadlock(FnReceive, c, src);
      if size != 0 {
        return ELocked;
      }
      proc[c] := proc[c].(receiving := true, getFrom := src);
      assert proc[..] == BlockReceive(s, c, src).procs;
      return Ok;
    }

    /** The notification from `id` is no longer pending, and its message is built. */
    method DeliverNotice(c: nat, id: nat)
      requires Valid() && c < proc.Length && id < proc.Length && proc[c].inbox == Vacant
      modifies proc
      ensures Valid() && Outcome(Abs(), Ok) == TakeNotice(old(Abs()), c, id)
    {
      ghost var s := Abs();
      proc[c] := proc[c].(pending := proc[c].pending - {id});
      QueueMess(Notice(Ep(id, proc[id].gen)), c);
      assert proc[..] == TakeNotice(s, c, id).state.procs;
    }

    method MiniReceive(c: nat, src: Endpoint, nonblock: bool, io: Io) returns (r: Status)
      requires Valid() && Inv(Abs()) && MayReceive(Abs(), c, src)
      requires forall p | p in queues[c] :: p < proc.Length
      modifies this, proc, callerQ, qLink
      ensures Valid() && Outcome(Abs(), r) == M.MiniReceive(old(Abs()), c, src, nonblock, io)
    {
      hide M.TryOne, M.TryAsync, M.Sleep, TakeNotice, TakeCaller, Linked, Acyclic, NoMissedSend, Queues;
      ghost var s := Abs();
      if !io.mapIn {
        return EFault;
      }
      if src.Ep? && proc[src.slot].life == Dead {
        return ESrcDied;
      }
      if !proc[c].sending {
        if !proc[c].replyPend {
          var id := FindNotice(proc[c].pending, proc.Length, src);
          if id != None {
            DeliverNotice(c, id.value);
            return Ok;
          }
        }
        var taken := TakeQueued(c, src);
        if taken {
          return Ok;
        }
        if proc[c].asynMsg {
          r := TryTables(c, src, nonblock);
          return;
        }
      }
      r := Sleep(c, src, nonblock);
    }

    /** Nothing is queued: try the tabled requests, then go to sleep. */
    method TryTables(c: nat, src: Endpoint, nonblock: bool) returns (r: Status)
      requires Valid() && Inv(Abs()) && MayReceive(Abs(), c, src) && !proc[c].sending
      modifies this`log, proc
      ensures Valid()
      ensures var tried := if src.Ep? then M.TryOne(old(Abs()), src.slot, c).outcome else M.TryAsync(old(Abs()), c, 0, false);
        Outcome(Abs(), r) == if tried.status == Ok then tried else M.Sleep(tried.state, c, src, nonblock)
    {
      ghost var s := Abs();
      if src.Ep? {
        var late;
        r, late := TryOne(src.slot, c);
        TryOneFrame(s, src.slot, c);
      } else {
        r := TryAsync(c);
        TryAsyncFrame(s, c, 0, false);
      }
      if r != Ok {
        FrameInv(s, Abs());
        r := Sleep(c, src, nonblock);
      }
    }

    // ------------------------------------------------------------- mini_senda

    /** Hands the `i`-th entry of the table of `c` to `d`, which is waiting for it. */
    method Post(c: nat, d: nat, i: nat, body: Body)
      requires Valid() && Quiet(Abs()) && c < proc.Length && d < proc.Length && proc[d].receiving
      modifies this`log, proc
      ensures Valid() && Quiet(Abs())
      ensures Abs() == Wake(old(Abs()), d, Letter(EpOf(old(Abs()), c), body)).(log := old(log) + [Posted(c, d, i, body)])
    {
      QueueMess(Letter(Ep(c, proc[c].gen), body), d);
      proc[d] := proc[d].(receiving := false);
      log := log + [Posted(c, d, i, body)];
    }

    /** One round of the loop of `mini_senda`. */
    method SendaOne(c: nat, i: nat, e: Entry, io: Io) returns (f: Entry)
      requires Valid() && Quiet(Abs()) && c < proc.Length && e.Request?
      modifies this`log, proc
      ensures Valid() && Quiet(Abs()) && Served(Abs(), f) == M.SendaOne(old(Abs()), c, i, e, io)
    {
      ghost var s := Abs();
      if e.done {
        return e;
      }
      if !(e.dst.Ep? && e.dst.slot < proc.Length && proc[e.dst.slot].life != Free && proc[e.dst.slot].gen == e.dst.gen) {
        return Finish(e, EDeadSrcDst);
      }
      var d := e.dst.slot;
      if proc[d].kernel {
        return Finish(e, ECallDenied);
      }
      if d !in proc[c].ipcTo {
        return Finish(e, ECallDenied);
      }
      if proc[d].life == Dead {
        return Finish(e, EDstDied);
      }
      if WillReceive(proc[d], Ep(c, proc[c].gen)) && (!e.noreply || !proc[d].replyPend) {
        if !io.copy {
          return Finish(e, EFault);
        }
        Post(c, d, i, e.body);
        return Finish(e, Ok);
      }
      proc[d] := proc[d].(asynMsg := true);
      assert Abs() == M.SendaOne(s, c, i, e, io).state;
      return e;
    }

    method MiniSenda(c: nat, table: seq<Entry>, io: Io) returns (r: Status)
      requires Valid() && Quiet(Abs()) && c < proc.Length
      modifies this`log, proc
      ensures Valid() && Outcome(Abs(), r) == M.MiniSenda(old(Abs()), c, table, io)
    {
      ghost var s := Abs();
      if !proc[c].sysProc {
        return EPerm;
      }
      proc[c] := proc[c].(table := []);
      ghost var s0 := Abs();
      assert s0 == Put(s, c, s.procs[c].(table := []));
      if |table| == 0 {
        return Ok;
      }
      if !io.mapOut {
        return EFault;
      }
      if |table| > 16 * proc.Length {
        return EDom;
      }
      var tab := table;
      var i := 0;
      while i < |tab|
        invariant i <= |tab| && Valid() && Quiet(Abs())
        invariant SendaLoop(s0, c, table, 0, io) == SendaLoop(Abs(), c, tab, i, io)
      {
        if tab[i].Garbled? {
          return EInval;
        }
        if tab[i].Request? {
          var f := SendaOne(c, i, tab[i], io);
          tab := tab[i := f];
        }
        i := i + 1;
      }
      if !AllServed(tab) {
        proc[c] := proc[c].(table := tab);
        assert proc[..] == M.MiniSenda(s, c, table, io).state.procs;
      }
      return Ok;
    }

    // --------------------------------------------------------- clear_endpoint

    /** Take the exiting process off the queue on which it waits. */
    method Withdraw(rc: nat)
      requires Valid() && Inv(Abs()) && rc < proc.Length && proc[rc].sending
      modifies this`queues, callerQ, qLink
      ensures Valid() && proc[rc].sendTo.Ep? && proc[rc].sendTo.slot < |old(queues)|
      ensures queues == old(queues)[proc[rc].sendTo.slot := Without(old(queues)[proc[rc].sendTo.slot], rc)]
    {
      ghost var s := Abs();
      assert WaitsOk(s, rc);
      var q := proc[rc].sendTo.slot;
      assert Exact(s, q) && SendsTo(s, rc, q) && rc in queues[q];
      InvSeparate(s);
      var at, cur, i := FindQueued(q, Ep(rc, 0));
      Unlink(q, at, rc, i);
      WithoutFirst(s.queues[q], rc, i);
    }

    /** Alert every process that the endpoint `e` of slot `rc` is gone. */
    method Sweep(rc: nat, e: Endpoint)
      modifies proc
      ensures forall j | 0 <= j < proc.Length :: proc[j] == Release(old(proc[j]), rc, e)
    {
      var i := 0;
      while i < proc.Length
        invariant i <= proc.Length
        invariant forall j | 0 <= j < i :: proc[j] == Release(old(proc[j]), rc, e)
        invariant forall j | i <= j < proc.Length :: proc[j] == old(proc[j])
      {
        if proc[i].life != Free {
          proc[i] := proc[i].(pending := proc[i].pending - {rc});
          if proc[i].receiving && proc[i].getFrom == e {
            proc[i] := proc[i].(receiving := false);
          }
          if proc[i].sending && proc[i].sendTo == e {
            proc[i] := proc[i].(sending := false);
          }
        }
        i := i + 1;
      }
    }

    method ClearEndpoint(rc: nat)
      requires Valid() && Inv(Abs()) && rc < proc.Length && proc[rc].life != Free
      modifies this, proc, callerQ, qLink
      ensures Valid() && Abs() == M.ClearEndpoint(old(Abs()), rc)
    {
      hide Linked, CallOffs, Acyclic, NoMissedSend;
      ghost var s := Abs();
      var x := proc[rc];
      if x.sending {
        Withdraw(rc);
      } else {
        assert WaitsOk(s, rc);
      }
      ghost var unqueued := queues;
      proc[rc] := Bury(x);
      Sweep(rc, Ep(rc, x.gen));
      queues := queues[rc := []];
      log := log + CallOffs(s, rc, |s.procs|);
      Cleared(s, rc, unqueued, proc[..]);
      Buried(s.procs, proc[..], callerQ[..], qLink[..], unqueued, rc);
    }

    // -------------------------------------------------------------- kipc_call

    /** The checks on the destination, the masks and the size of the table. */
    method ScreenCall(c: nat, call: Call) returns (r: Status)
      requires c < proc.Length
      ensures r == Screen(Abs(), c, call)
    {
      var e := Target(call);
      if !call.Senda? {
        if e == Any {
          if !call.Receive? {
            return EInval;
          }
        } else {
          if !(e.slot < proc.Length && proc[e.slot].life != Free && proc[e.slot].gen == e.gen) {
            return EDeadSrcDst;
          }
          if !call.Receive? && e.slot !in proc[c].ipcTo {
            return ECallDenied;
          }
        }
      }
      if TypeOf(call) !in proc[c].traps {
        return ETrapDenied;
      }
      if !call.SendRec? && !call.Receive? && !call.Senda? && proc[e.slot].kernel {
        return ETrapDenied;
      }
      if call.Senda? && |call.requests| > 16 * proc.Length {
        return EDom;
      }
      return Ok;
    }

    method KipcCall(c: nat, call: Call, io: Io) returns (r: Status)
      requires Valid() && Inv(Abs()) && CanCall(Abs(), c)
      modifies this, proc, callerQ, qLink
      ensures Valid() && (Inv(Abs()) <==> !SelfSleeps(old(Abs()), c, call, io))
      ensures TypeOk(old(Abs())) && Outcome(Abs(), r) == M.KipcCall(old(Abs()), c, call, io)
    {
      ghost var s := Abs();
      QueuesInRange(s);
      SelfReceive(s, c, call, io);
      r := ScreenCall(c, call);
      if r != Ok {
        return;
      }
      assert PendingOk(s, c);
      match call
      case Send(d, body, nonblock) =>
        r := MiniSend(c, d, body, nonblock, io);
      case Receive(src) =>
        ReplyPendInv(s, c, false);
        proc[c] := proc[c].(replyPend := false);
        assert Abs() == SetReplyPend(s, c, false);
        r := MiniReceive(c, src, false, io);
      case SendRec(d, body, nonblock) =>
        r := SendReceive(c, d, body, nonblock, io);
      case Notify(d) =>
        r := MiniNotify(c, d);
      case Senda(table) =>
        r := MiniSenda(c, table, io);
    }

    /** The two halves of SENDREC. */
    method SendReceive(c: nat, d: Endpoint, body: Body, nonblock: bool, io: Io) returns (r: Status)
      requires Valid() && Inv(Abs()) && CanCall(Abs(), c) && IsOkEndpoint(Abs(), d) && d.slot != c
      modifies this, proc, callerQ, qLink
      ensures Valid()
      ensures var sent := M.MiniSend(SetReplyPend(old(Abs()), c, true), c, d, body, nonblock, io);
        && |sent.state.queues| == |sent.state.procs| == proc.Length
        && (sent.status == Ok ==> forall p | p in sent.state.queues[c] :: p < proc.Length)
        && Outcome(Abs(), r) == if sent.status != Ok then sent else M.MiniReceive(sent.state, c, d, false, io)
    {
      ghost var s := Abs();
      ReplyPendInv(s, c, true);
      proc[c] := proc[c].(replyPend := true);
      assert Abs() == SetReplyPend(s, c, true);
      ghost var s1 := Abs();
      r := MiniSend(c, d, body, nonblock, io);
      if r == Ok {
        SendThenReceive(s1, c, d, body, nonblock, io);
        QueuesInRange(Abs());
        r := MiniReceive(c, d, false, io);
      }
    }
  }
}

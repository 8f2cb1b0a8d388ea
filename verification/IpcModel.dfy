/**
 The rendezvous message-passing protocol of the kernel as a state machine: one pure
 function per kernel entry point, each mapping a whole process table to the next one.
 The imperative kernel in `IpcKernel.dfy` is proved to compute exactly these functions.
 */
module IpcModel {
  import opened Basics

  /** An endpoint names a slot together with the generation of its occupant. */
  datatype Endpoint = Any | Ep(slot: nat, gen: nat)

  type Body = seq<int>

  /** `p_delivermsg` together with the MF_DELIVERMSG bit that says it is in use. */
  datatype Inbox = Vacant | Letter(source: Endpoint, body: Body) | Notice(source: Endpoint)

  /** Free: RTS_SLOT_FREE. Dead: RTS_NO_ENDPOINT, cannot send or receive any more. */
  datatype Life = Free | Dead | Live

  datatype Status =
    | Ok | EFault | EDstDied | ESrcDied | ENotReady | ELocked | EInval | EDeadSrcDst
    | ECallDenied | ETrapDenied | EPerm | EDom | EAgain | ESrch

  /** One slot of a table of asynchronous requests; `Garbled` has illegal flag bits. */
  datatype Entry =
    | Blank
    | Garbled
    | Request(done: bool, notify: bool, noreply: bool, dst: Endpoint, body: Body, result: Status)

  datatype CallType = SendCall | ReceiveCall | SendRecCall | NotifyCall | SendaCall

  /** The fields of `struct proc` and of its privilege structure that the protocol uses. */
  datatype Proc = Proc(
    gen: nat,               // generation part of p_endpoint
    life: Life,
    kernel: bool,           // iskerneln(nr)
    held: bool,             // any run flag the protocol does not own
    sending: bool,          // RTS_SENDING
    sendTo: Endpoint,
    sendMsg: Body,
    receiving: bool,        // RTS_RECEIVING
    getFrom: Endpoint,
    pending: set<nat>,      // s_notify_pending
    inbox: Inbox,
    replyPend: bool,        // MF_REPLY_PEND
    asynMsg: bool,          // MF_ASYNMSG
    table: seq<Entry>,      // s_asyntab; empty when s_asynsize is 0
    sysProc: bool,          // SYS_PROC
    ipcTo: set<nat>,        // s_ipc_to
    traps: set<CallType>)   // s_trap_mask

  /** What happened, in order; used only to state facts about whole runs. */
  datatype Event =
    | Accepted(src: nat, dst: nat, body: Body)           // src went to sleep sending
    | Delivered(src: nat, dst: nat, body: Body)          // a sleeping sender's message arrived
    | Aborted(src: nat)                                  // a sleeping send was called off
    | Handed(src: nat, dst: nat, body: Body)             // sent without going to sleep
    | Posted(src: nat, dst: nat, index: nat, body: Body) // an asynchronous request was served

  /** `queues[q]` lists the processes on the caller queue of `q`, oldest first. */
  datatype State = State(procs: seq<Proc>, queues: seq<seq<nat>>, log: seq<Event>)

  /** Whether the user-memory mappings and copies of a call succeed. */
  datatype Io = Io(mapOut: bool, copy: bool, mapIn: bool)

  datatype Call =
    | Send(dst: Endpoint, body: Body, nonblock: bool)
    | Receive(src: Endpoint)
    | SendRec(peer: Endpoint, request: Body, nonblocking: bool)
    | Notify(target: Endpoint)
    | Senda(requests: seq<Entry>)

  datatype Outcome = Outcome(state: State, status: Status)

  const BITCHUNK_BITS: nat := 16

  predicate Shaped(s: State) {
    |s.queues| == |s.procs|
  }

  function EpOf(s: State, p: nat): Endpoint
    requires p < |s.procs|
  {
    Ep(p, s.procs[p].gen)
  }

  /** `isokendpt`: the endpoint is that of the present occupant of a slot in use. */
  predicate IsOkEndpoint(s: State, e: Endpoint) {
    e.Ep? && e.slot < |s.procs| && s.procs[e.slot].life != Free && s.procs[e.slot].gen == e.gen
  }

  predicate Runnable(p: Proc) {
    p.life == Live && !p.held && !p.sending && !p.receiving
  }

  /** The process may enter the kernel: it runs, and no message waits to be copied out. */
  predicate CanCall(s: State, c: nat) {
    c < |s.procs| && Runnable(s.procs[c]) && s.procs[c].inbox == Vacant
  }

  predicate WillReceive(p: Proc, source: Endpoint) {
    p.receiving && !p.sending && (p.getFrom == Any || p.getFrom == source)
  }

  predicate MaySendTo(s: State, src: nat, dst: nat)
    requires src < |s.procs|
  {
    dst in s.procs[src].ipcTo
  }

  // ---------------------------------------------------------------- deadlock

  /** The process that `p` waits for, as `deadlock` follows it. */
  function Next(s: State, p: nat): Option<nat>
    requires p < |s.procs|
  {
    var x := s.procs[p];
    if x.receiving then (if x.getFrom == Any then None else Some(x.getFrom.slot))
    else if x.sending && x.sendTo.Ep? then Some(x.sendTo.slot)
    else None
  }

  /** The process reached from `p` by following `k` dependencies, if the chain is that long. */
  function Walk(s: State, p: nat, k: nat): Option<nat>
    decreases k
  {
    if p >= |s.procs| then None
    else if k == 0 then Some(p)
    else match Next(s, p)
      case None => None
      case Some(q) => Walk(s, q, k - 1)
  }

  datatype Function = FnSend | FnReceive

  /** Blocking `c` on `d` would close a cycle of exactly `g` processes. */
  ghost predicate Closes(s: State, c: nat, d: nat, g: nat) {
    && g >= 2
    && Walk(s, d, g - 1) == Some(c)
    && forall j: nat | j < g - 1 :: Walk(s, d, j) != Some(c)
  }

  /** A send and a receive that meet are not a deadlock. */
  predicate Exempt(s: State, fn: Function, d: nat)
    requires d < |s.procs|
  {
    s.procs[d].sending == (fn == FnReceive)
  }

  /** What `deadlock` reports: the size of the group, or 0. */
  ghost function DeadlockSize(s: State, fn: Function, c: nat, d: Endpoint): nat
    requires d.Ep? ==> d.slot < |s.procs|
  {
    if d.Ep? && exists g: nat :: Closes(s, c, d.slot, g) then
      var g: nat :| Closes(s, c, d.slot, g);
      if g == 2 && Exempt(s, fn, d.slot) then 0 else g
    else 0
  }

  // ------------------------------------------------------- elementary updates

  function Put(s: State, p: nat, x: Proc): State
    requires p < |s.procs|
  {
    s.(procs := s.procs[p := x])
  }

  /** `QueueMess` followed by clearing RTS_RECEIVING. */
  function Wake(s: State, q: nat, m: Inbox): State
    requires q < |s.procs|
  {
    Put(s, q, s.procs[q].(inbox := m, receiving := false))
  }

  /** Put `c` to sleep sending to `d`, at the end of the queue of `d`. */
  function BlockSend(s: State, c: nat, d: Endpoint, body: Body): State
    requires Shaped(s) && c < |s.procs| && d.Ep? && d.slot < |s.procs|
  {
    State(s.procs[c := s.procs[c].(sending := true, sendTo := d, sendMsg := body)],
          s.queues[d.slot := s.queues[d.slot] + [c]],
          s.log + [Accepted(c, d.slot, body)])
  }

  function BlockReceive(s: State, c: nat, src: Endpoint): State
    requires c < |s.procs|
  {
    Put(s, c, s.procs[c].(receiving := true, getFrom := src))
  }

  /** Take the `i`-th sleeper off the queue of `q`, moving its message to `q`. */
  function TakeCaller(s: State, q: nat, i: nat): State
    requires Shaped(s) && q < |s.procs| && i < |s.queues[q]| && s.queues[q][i] < |s.procs|
  {
    var p := s.queues[q][i];
    var got := s.procs[q := s.procs[q].(inbox := Letter(EpOf(s, p), s.procs[p].sendMsg))];
    State(got[p := got[p].(sending := false)],
          s.queues[q := RemoveAt(s.queues[q], i)],
          s.log + [Delivered(p, q, s.procs[p].sendMsg)])
  }

  // ---------------------------------------------------------------- mini_send

  ghost function MiniSend(s: State, c: nat, d: Endpoint, body: Body, nonblock: bool, io: Io): Outcome
    requires Shaped(s) && c < |s.procs| && d.Ep? && d.slot < |s.procs|
  {
    if !io.mapOut then Outcome(s, EFault)
    else if s.procs[d.slot].life == Dead then Outcome(s, EDstDied)
    else if WillReceive(s.procs[d.slot], EpOf(s, c)) then
      if !io.copy then Outcome(s, EFault)
      else Outcome(Wake(s, d.slot, Letter(EpOf(s, c), body)).(log := s.log + [Handed(c, d.slot, body)]), Ok)
    else if nonblock then Outcome(s, ENotReady)
    else if DeadlockSize(s, FnSend, c, d) != 0 then Outcome(s, ELocked)
    else if !io.copy then Outcome(s, EFault)
    else Outcome(BlockSend(s, c, d, body), Ok)
  }

  // -------------------------------------------------------------- mini_notify

  function MiniNotify(s: State, c: nat, d: Endpoint): Outcome
    requires c < |s.procs|
  {
    if !IsOkEndpoint(s, d) then Outcome(s, EDeadSrcDst)
    else
      var x := s.procs[d.slot];
      if WillReceive(x, EpOf(s, c)) && !x.replyPend then
        Outcome(Wake(s, d.slot, Notice(EpOf(s, c))), Ok)
      else
        Outcome(Put(s, d.slot, x.(pending := x.pending + {c})), Ok)
  }

  // ------------------------------------------------------------- mini_receive

  /** The lowest pending identifier of chunk `k`, found bit by bit from `i`. */
  function LowBit(pending: set<nat>, k: nat, i: nat): Option<nat>
    requires i <= BITCHUNK_BITS
    decreases BITCHUNK_BITS - i
  {
    if i == BITCHUNK_BITS then None
    else if k * BITCHUNK_BITS + i in pending then Some(k * BITCHUNK_BITS + i)
    else LowBit(pending, k, i + 1)
  }

  /** The scan of the pending bitmap: only the lowest bit of each chunk is looked at. */
  function NotifyScan(pending: set<nat>, n: nat, src: Endpoint, k: nat): (r: Option<nat>)
    ensures r.Some? ==> r.value < n
    decreases n - k * BITCHUNK_BITS
  {
    if k * BITCHUNK_BITS >= n then None
    else match LowBit(pending, k, 0)
      case None => NotifyScan(pending, n, src, k + 1)
      case Some(id) =>
        if id >= n then None
        else if src == Any || src.slot == id then Some(id)
        else NotifyScan(pending, n, src, k + 1)
  }

  /** Position of the first queued process acceptable to a receiver, or the queue length. */
  function QueueScan(q: seq<nat>, src: Endpoint): (i: nat)
    ensures i <= |q|
    ensures i < |q| ==> src == Any || src.slot == q[i]
    ensures forall j | 0 <= j < i :: src != Any && src.slot != q[j]
  {
    if q == [] then 0
    else if src == Any || src.slot == q[0] then 0
    else 1 + QueueScan(q[1..], src)
  }

  ghost function MiniReceive(s: State, c: nat, src: Endpoint, nonblock: bool, io: Io): Outcome
    requires Shaped(s) && c < |s.procs| && (src.Ep? ==> src.slot < |s.procs|)
    requires forall p | p in s.queues[c] :: p < |s.procs|
  {
    if !io.mapIn then Outcome(s, EFault)
    else if src.Ep? && s.procs[src.slot].life == Dead then Outcome(s, ESrcDied)
    else if s.procs[c].sending then Sleep(s, c, src, nonblock)
    else if !s.procs[c].replyPend && NotifyScan(s.procs[c].pending, |s.procs|, src, 0).Some? then
      TakeNotice(s, c, NotifyScan(s.procs[c].pending, |s.procs|, src, 0).value)
    else
      var i := QueueScan(s.queues[c], src);
      if i < |s.queues[c]| then assert s.queues[c][i] in s.queues[c]; Outcome(TakeCaller(s, c, i), Ok)
      else if s.procs[c].asynMsg then
        var tried := if src.Ep? then TryOne(s, src.slot, c).outcome else TryAsync(s, c, 0, false);
        if tried.status == Ok then tried else Sleep(tried.state, c, src, nonblock)
      else Sleep(s, c, src, nonblock)
  }

  function TakeNotice(s: State, c: nat, id: nat): Outcome
    requires c < |s.procs| && id < |s.procs|
  {
    var x := s.procs[c];
    Outcome(Put(s, c, x.(pending := x.pending - {id}, inbox := Notice(EpOf(s, id)))), Ok)
  }

  ghost function Sleep(s: State, c: nat, src: Endpoint, nonblock: bool): Outcome
    requires c < |s.procs| && (src.Ep? ==> src.slot < |s.procs|)
  {
    if nonblock then Outcome(s, ENotReady)
    else if DeadlockSize(s, FnReceive, c, src) != 0 then Outcome(s, ELocked)
    else Outcome(BlockReceive(s, c, src), Ok)
  }

  // ------------------------------------------------------ asynchronous sending

  datatype Attempt = Attempt(outcome: Outcome, postponed: bool)

  /** What a scan of a request table for one destination meets first. */
  datatype Find = Nothing(clean: bool, postponed: bool) | Broken(delayed: bool) | Hit(index: nat, late: bool)

  /** A scan of `table` from `i` for a request that `dst`, in state `x`, can take. */
  function TableScan(table: seq<Entry>, dst: Endpoint, replyPend: bool, i: nat, clean: bool, postponed: bool): (f: Find)
    requires i <= |table|
    ensures f.Hit? ==> i <= f.index < |table| && Takes(table[f.index], dst, replyPend)
    decreases |table| - i
  {
    if i == |table| then Nothing(clean, postponed)
    else match table[i]
      case Blank => TableScan(table, dst, replyPend, i + 1, clean, postponed)
      case Garbled => Broken(postponed)
      case Request(done, _, noreply, to, _, _) =>
        if done then TableScan(table, dst, replyPend, i + 1, clean, postponed)
        else if to != dst then TableScan(table, dst, replyPend, i + 1, false, postponed)
        else if noreply && replyPend then TableScan(table, dst, replyPend, i + 1, false, true)
        else Hit(i, postponed)
  }

  /** The request is still to be done, and addressed to `dst`. */
  predicate Undone(e: Entry, dst: Endpoint) {
    e.Request? && !e.done && e.dst == dst
  }

  predicate Takes(e: Entry, dst: Endpoint, replyPend: bool) {
    Undone(e, dst) && !(e.noreply && replyPend)
  }

  function Finish(e: Entry, r: Status): Entry
    requires e.Request?
  {
    e.(done := true, result := r)
  }

  /** `try_one`: serve the first request of `src` that `dst` can take. */
  function TryOne(s: State, src: nat, dst: nat): Attempt
    requires src < |s.procs| && dst < |s.procs|
  {
    var x := s.procs[src];
    if !x.sysProc || |x.table| == 0 || !MaySendTo(s, src, dst) then Attempt(Outcome(s, EAgain), false)
    else match TableScan(x.table, EpOf(s, dst), s.procs[dst].replyPend, 0, true, false)
      case Broken(late) => Attempt(Outcome(Put(s, src, x.(table := [])), EInval), late)
      case Nothing(clean, late) =>
        Attempt(Outcome(if clean then Put(s, src, x.(table := [])) else s, EAgain), late)
      case Hit(i, late) => Attempt(Outcome(Serve(s, src, dst, i), Ok), late)
  }

  function Serve(s: State, src: nat, dst: nat, i: nat): State
    requires src < |s.procs| && dst < |s.procs|
    requires i < |s.procs[src].table| && s.procs[src].table[i].Request?
  {
    var e := s.procs[src].table[i];
    var got := s.procs[dst := s.procs[dst].(inbox := Letter(EpOf(s, src), e.body))];
    State(got[src := got[src].(table := got[src].table[i := Finish(e, Ok)])],
          s.queues,
          s.log + [Posted(src, dst, i, e.body)])
  }

  /** `try_async`: try every process in turn, from `k` on. */
  function TryAsync(s: State, c: nat, k: nat, postponed: bool): (r: Outcome)
    requires c < |s.procs|
    ensures |r.state.procs| == |s.procs| && |r.state.queues| == |s.queues|
    decreases |s.procs| - k
  {
    if k >= |s.procs| then
      Outcome(if postponed then s else Put(s, c, s.procs[c].(asynMsg := false)), ESrch)
    else if s.procs[k].life == Free then TryAsync(s, c, k + 1, postponed)
    else
      var a := TryOne(s, k, c);
      if a.outcome.status == Ok then a.outcome
      else TryAsync(a.outcome.state, c, k + 1, postponed || a.postponed)
  }

  /** The state after one request of the table of `c`, and the request as left behind. */
  datatype Served = Served(state: State, entry: Entry)

  /** One round of the loop of `mini_senda` for an unserved request. */
  function SendaOne(s: State, c: nat, i: nat, e: Entry, io: Io): (r: Served)
    requires c < |s.procs| && e.Request?
    ensures |r.state.procs| == |s.procs| && r.state.queues == s.queues && r.entry.Request?
  {
    if e.done then Served(s, e)
    else if !IsOkEndpoint(s, e.dst) then Served(s, Finish(e, EDeadSrcDst))
    else
      var d := e.dst.slot;
      if s.procs[d].kernel then Served(s, Finish(e, ECallDenied))
      else if !MaySendTo(s, c, d) then Served(s, Finish(e, ECallDenied))
      else if s.procs[d].life == Dead then Served(s, Finish(e, EDstDied))
      else if WillReceive(s.procs[d], EpOf(s, c)) && (!e.noreply || !s.procs[d].replyPend) then
        if !io.copy then Served(s, Finish(e, EFault))
        else Served(Wake(s, d, Letter(EpOf(s, c), e.body)).(log := s.log + [Posted(c, d, i, e.body)]), Finish(e, Ok))
      else Served(Put(s, d, s.procs[d].(asynMsg := true)), e)
  }

  /** The loop of `mini_senda` over `table` from `i`; None when an entry is garbled. */
  datatype Swept = Swept(state: State, table: seq<Entry>, broken: bool)

  function SendaLoop(s: State, c: nat, table: seq<Entry>, i: nat, io: Io): (r: Swept)
    requires c < |s.procs| && i <= |table|
    ensures |r.state.procs| == |s.procs| && r.state.queues == s.queues && |r.table| == |table|
    decreases |table| - i
  {
    if i == |table| then Swept(s, table, false)
    else match table[i]
      case Blank => SendaLoop(s, c, table, i + 1, io)
      case Garbled => Swept(s, table, true)
      case Request(_, _, _, _, _, _) =>
        var one := SendaOne(s, c, i, table[i], io);
        SendaLoop(one.state, c, table[i := one.entry], i + 1, io)
  }

  predicate AllServed(table: seq<Entry>) {
    forall e | e in table :: e.Request? ==> e.done
  }

  function MiniSenda(s: State, c: nat, table: seq<Entry>, io: Io): Outcome
    requires c < |s.procs|
  {
    if !s.procs[c].sysProc then Outcome(s, EPerm)
    else
      var s0 := Put(s, c, s.procs[c].(table := []));
      if |table| == 0 then Outcome(s0, Ok)
      else if !io.mapOut then Outcome(s0, EFault)
      else if |table| > 16 * |s.procs| then Outcome(s0, EDom)
      else
        var r := SendaLoop(s0, c, table, 0, io);
        if r.broken then Outcome(r.state, EInval)
        else if AllServed(r.table) then Outcome(r.state, Ok)
        else Outcome(Put(r.state, c, r.state.procs[c].(table := r.table)), Ok)
  }

  // ---------------------------------------------------------------- kipc_call

  function TypeOf(call: Call): CallType {
    match call
    case Send(_, _, _) => SendCall
    case Receive(_) => ReceiveCall
    case SendRec(_, _, _) => SendRecCall
    case Notify(_) => NotifyCall
    case Senda(_) => SendaCall
  }

  function Target(call: Call): Endpoint {
    match call
    case Send(d, _, _) => d
    case Receive(src) => src
    case SendRec(d, _, _) => d
    case Notify(d) => d
    case Senda(_) => Any
  }

  /** The checks of `kipc_call` before the switch; Ok when the call is let through. */
  function Screen(s: State, c: nat, call: Call): Status
    requires c < |s.procs|
  {
    var e := Target(call);
    if !call.Senda? && e == Any && !call.Receive? then EInval
    else if !call.Senda? && e != Any && !IsOkEndpoint(s, e) then EDeadSrcDst
    else if !call.Senda? && e != Any && !call.Receive? && !MaySendTo(s, c, e.slot) then ECallDenied
    else if TypeOf(call) !in s.procs[c].traps then ETrapDenied
    else if (call.Send? || call.Notify?) && s.procs[e.slot].kernel then ETrapDenied
    else if call.Senda? && |call.requests| > 16 * |s.procs| then EDom
    else Ok
  }

  function SetReplyPend(s: State, c: nat, b: bool): State
    requires c < |s.procs|
  {
    Put(s, c, s.procs[c].(replyPend := b))
  }

  ghost function KipcCall(s: State, c: nat, call: Call, io: Io): Outcome
    requires Shaped(s) && c < |s.procs|
    requires forall q, p | 0 <= q < |s.queues| && p in s.queues[q] :: p < |s.procs|
  {
    if Screen(s, c, call) != Ok then Outcome(s, Screen(s, c, call))
    else match call
      case Send(d, body, nonblock) => MiniSend(s, c, d, body, nonblock, io)
      case Receive(src) => MiniReceive(SetReplyPend(s, c, false), c, src, false, io)
      case SendRec(d, body, nonblock) =>
        var sent := MiniSend(SetReplyPend(s, c, true), c, d, body, nonblock, io);
        if sent.status != Ok then sent else MiniReceive(sent.state, c, d, false, io)
      case Notify(d) => MiniNotify(s, c, d)
      case Senda(table) => MiniSenda(s, c, table, io)
  }

  // ------------------------------------------------------------ clear_endpoint

  /** A process no longer waits for the dying endpoint `e` of slot `rc`. */
  function Release(x: Proc, rc: nat, e: Endpoint): Proc {
    if x.life == Free then x
    else x.(pending := x.pending - {rc},
            receiving := x.receiving && x.getFrom != e,
            sending := x.sending && x.sendTo != e)
  }

  predicate CalledOff(s: State, rc: nat, p: nat)
    requires rc < |s.procs| && p < |s.procs|
  {
    s.procs[p].sending && (p == rc || s.procs[p].sendTo == EpOf(s, rc))
  }

  /** The sleeping sends that the death of `rc` calls off, for slots below `k`. */
  function CallOffs(s: State, rc: nat, k: nat): seq<Event>
    requires rc < |s.procs| && k <= |s.procs|
  {
    if k == 0 then []
    else CallOffs(s, rc, k - 1) + (if CalledOff(s, rc, k - 1) then [Aborted(k - 1)] else [])
  }

  /** The exiting process itself, before the sweep over the process table. */
  function Bury(x: Proc): Proc {
    x.(life := Dead, table := if x.sysProc then [] else x.table, sending := false, receiving := false)
  }

  function ClearEndpoint(s: State, rc: nat): State
    requires Shaped(s) && rc < |s.procs| && s.procs[rc].life != Free
  {
    var x := s.procs[rc];
    var e := EpOf(s, rc);
    var unqueued :=
      if x.sending && x.sendTo.Ep? && x.sendTo.slot < |s.queues| then
        s.queues[x.sendTo.slot := Without(s.queues[x.sendTo.slot], rc)]
      else s.queues;
    State(seq(|s.procs|, i requires 0 <= i < |s.procs| =>
            Release(if i == rc then Bury(x) else s.procs[i], rc, e)),
          unqueued[rc := []],
          s.log + CallOffs(s, rc, |s.procs|))
  }

  // ------------------------------------------------------- steps outside IPC

  /** `clear_proc` after `clear_endpoint`: the slot becomes free. */
  function FreeSlot(s: State, rc: nat): State
    requires rc < |s.procs|
  {
    Put(s, rc, s.procs[rc].(life := Free, held := false, sending := false, receiving := false))
  }

  /** The child's slot as `do_fork` leaves it: a copy of the parent under a new endpoint. */
  function Child(parent: Proc, slot: nat, gen: nat, kernel: bool, held: bool): Proc {
    parent.(gen := gen + 1, kernel := kernel, held := held, pending := {}, table := [],
            sysProc := false, ipcTo := parent.ipcTo - {slot})
  }

  /** `do_fork`; the child also inherits the parent's caller queue, as the structure copy does. */
  function Fork(s: State, parent: nat, child: nat, held: bool): Outcome
    requires Shaped(s) && parent < |s.procs| && child < |s.procs|
  {
    if s.procs[parent].life == Free || s.procs[child].life != Free then Outcome(s, EInval)
    else if !s.procs[parent].receiving then Outcome(s, EInval)
    else if |s.procs[parent].table| > 0 then Outcome(s, EInval)
    else Outcome(State(s.procs[child := Child(s.procs[parent], child, s.procs[child].gen, s.procs[child].kernel, held)],
                       s.queues[child := s.queues[parent]],
                       s.log), Ok)
  }

  /** The pending message is copied out to the process, which may run again. */
  function Fetch(s: State, p: nat): State
    requires p < |s.procs|
  {
    Put(s, p, s.procs[p].(inbox := Vacant))
  }

  /** A run flag that the protocol does not own is set or cleared. */
  function Hold(s: State, p: nat, b: bool): State
    requires p < |s.procs|
  {
    Put(s, p, s.procs[p].(held := b))
  }

  /** The process has some trap other than receiving, so it can answer. */
  predicate Answers(x: Proc) {
    exists t :: t in x.traps && t != ReceiveCall
  }

  /** `set_sendto_bit`. */
  function SetSendTo(s: State, p: nat, id: nat): State
    requires p < |s.procs| && id < |s.procs|
  {
    var x := s.procs[p];
    if s.procs[id].life == Free || p == id then Put(s, p, x.(ipcTo := x.ipcTo - {id}))
    else
      var s1 := Put(s, p, x.(ipcTo := x.ipcTo + {id}));
      var y := s1.procs[id];
      if Answers(y) then Put(s1, id, y.(ipcTo := y.ipcTo + {p})) else s1
  }

  /** `unset_sendto_bit`. */
  function UnsetSendTo(s: State, p: nat, id: nat): State
    requires p < |s.procs| && id < |s.procs|
  {
    var s1 := Put(s, p, s.procs[p].(ipcTo := s.procs[p].ipcTo - {id}));
    Put(s1, id, s1.procs[id].(ipcTo := s1.procs[id].ipcTo - {p}))
  }
}

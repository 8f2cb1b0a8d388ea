/** What ends a wait: nobody is woken but by what it waits for, and a SENDREC is answered by nothing but a reply. */
module IpcWaits {
  import opened Basics
  import opened IpcModel
  import opened IpcInvariants
  import opened IpcSteps
  import opened IpcCauses
  import opened IpcCalls

  // -------------------------------------------------------- the end of a process

  /** Two processes differ at most in the notification from `rc`. */
  predicate ButNotice(x: Proc, y: Proc, rc: nat) {
    y == x.(pending := x.pending - {rc})
  }

  /**
   The end of an endpoint ends just the waits for it. A process that waits for somebody else, or for anyone, sleeps
   on; of the process itself nothing is left but its name.
   */
  lemma ClearExact(s: State, rc: nat, p: nat)
    requires Inv(s) && rc < |s.procs| && s.procs[rc].life != Free && p < |s.procs|
    ensures var t := ClearEndpoint(s, rc); var e, x, y := EpOf(s, rc), s.procs[p], t.procs[p];
      && |t.procs| == |s.procs|
      && (p == rc ==>
            && y.life == Dead && !y.sending && !y.receiving && (y.sysProc ==> y.table == [])
            && SameSelf(x.(life := Dead), y) && y.inbox == x.inbox)
      && (p != rc && x.life == Free ==> y == x)
      && (p != rc && x.life != Free && !(x.sending && x.sendTo == e) && !(x.receiving && x.getFrom == e) ==> ButNotice(x, y, rc))
      && (p != rc && x.sending && x.sendTo == e ==>
            !y.sending && !y.receiving && ButNotice(x.(sending := false, receiving := false), y, rc))
      && (p != rc && x.receiving && x.getFrom == e && !x.sending ==>
            !y.receiving && ButNotice(x.(receiving := false), y, rc))
  {
    hide ClearEndpoint, Acyclic, NoMissedSend, Queues, Quiet, Masks;
    assert WaitsOk(s, p);
    Released(s, rc, p);
  }

  lemma Released(s: State, rc: nat, p: nat)
    requires Shaped(s) && rc < |s.procs| && s.procs[rc].life != Free && p < |s.procs|
    ensures var t := ClearEndpoint(s, rc);
      |t.procs| == |s.procs| && t.procs[p] == Release(if p == rc then Bury(s.procs[p]) else s.procs[p], rc, EpOf(s, rc))
  {
    hide CallOffs, Without, Release, Bury;
  }

  /** The queue of the process is gone, and it stands on no other; the rest of each queue keeps its order. */
  lemma ClearQueues(s: State, rc: nat, q: nat)
    requires Inv(s) && rc < |s.procs| && s.procs[rc].life != Free && q < |s.procs|
    ensures var t := ClearEndpoint(s, rc);
      && |t.queues| == |s.queues|
      && (q == rc ==> t.queues[q] == [])
      && (q != rc && rc !in s.queues[q] ==> t.queues[q] == s.queues[q])
      && (forall i: nat | q != rc && i < |s.queues[q]| && s.queues[q][i] == rc ::
            t.queues[q] == s.queues[q][..i] + s.queues[q][i + 1..])
  {
    hide CallOffs, Acyclic, NoMissedSend;
    assert Exact(s, q) && WaitsOk(s, rc);
    assert rc in s.queues[q] <==> SendsTo(s, rc, q);
    forall i: nat | q != rc && i < |s.queues[q]| && s.queues[q][i] == rc
      ensures Without(s.queues[q], rc) == s.queues[q][..i] + s.queues[q][i + 1..]
    {
      WithoutFirst(s.queues[q], rc, i);
    }
  }

  /** A process that exits leaves its slot free and idle; for everybody else that is the end of its endpoint. */
  lemma ExitExact(s: State, rc: nat, p: nat)
    requires Inv(s) && Enabled(s, Exit(rc)) && p < |s.procs|
    ensures var u, t := ClearEndpoint(s, rc), Apply(s, Exit(rc)); |t.procs| == |u.procs| == |s.procs| && t.queues == u.queues
    ensures var y := Apply(s, Exit(rc)).procs[p];
      if p == rc then y.life == Free && !y.held && !y.sending && !y.receiving && y.gen == s.procs[p].gen
      else y == ClearEndpoint(s, rc).procs[p]
  {
    hide ClearEndpoint;
    ClearExact(s, rc, p);
    ClearExact(s, rc, rc);
  }

  /** A process that is held, dead or asleep makes no call and fetches no message. */
  lemma RunIdle(states: seq<State>, steps: seq<Step>, i: nat, p: nat)
    requires IsRun(states, steps) && i < |steps| && p < |states[i].procs|
    requires var x := states[i].procs[p]; x.held || x.life != Live || x.sending || x.receiving
    ensures !(steps[i].Trap? && steps[i].caller == p) && !(steps[i].CopyOut? && steps[i].reader == p)
  {
  }

  // ------------------------------------------------------------------- waking

  /** The step ends the endpoint that `p` waits to receive from, or that of `p`. */
  predicate CutOff(s: State, e: Step, p: nat)
    requires p < |s.procs|
  {
    var from := s.procs[p].getFrom;
    Clears(e, p) || (from.Ep? && from.slot < |s.procs| && from == EpOf(s, from.slot) && Clears(e, from.slot))
  }

  /** `y` has just been given a message that `x` waits for. */
  predicate Answered(x: Proc, y: Proc) {
    x.inbox == Vacant && y.inbox != Vacant && (x.getFrom == Any || y.inbox.source == x.getFrom)
  }

  lemma StepWakes(s: State, e: Step, p: nat)
    requires Inv(s) && Enabled(s, e) && p < |s.procs| && s.procs[p].receiving
    ensures p < |Apply(s, e).procs|
    ensures var x, y := s.procs[p], Apply(s, e).procs[p];
      if y.receiving then y.getFrom == x.getFrom && y.inbox == Vacant else CutOff(s, e, p) || Answered(x, y)
  {
    hide KipcCall, MiniNotify, ClearEndpoint, Fork, SetSendTo, UnsetSendTo, Acyclic, NoMissedSend, Queues;
    var x := s.procs[p];
    assert WaitsOk(s, p) && x.inbox == Vacant;
    match e {
      case Trap(c, call, io) => TrapWakes(s, c, call, io, p);
      case Signal(c, d) => SignalWakes(s, c, d, p);
      case Clear(rc) => ClearWakes(s, rc, p);
      case Exit(rc) => ClearWakes(s, rc, p);
      case _ => LocalStays(s, e, p);
    }
  }

  /** The other steps end no wait, and hand over nothing. */
  lemma LocalStays(s: State, e: Step, p: nat)
    requires Enabled(s, e) && !e.Trap? && !e.Signal? && !e.Clear? && !e.Exit? && p < |s.procs|
    requires !(e.Spawn? && e.child == p && s.procs[p].life == Free)
    ensures p < |Apply(s, e).procs|
    ensures var x, y := s.procs[p], Apply(s, e).procs[p];
      && y.receiving == x.receiving && y.getFrom == x.getFrom && y.replyPend == x.replyPend
      && (y.inbox == x.inbox || (e.CopyOut? && e.reader == p && y.inbox == Vacant))
  {
    hide Answers;
  }

  lemma TrapWakes(s: State, c: nat, call: Call, io: Io, p: nat)
    requires Inv(s) && Enabled(s, Trap(c, call, io)) && p < |s.procs| && s.procs[p].receiving
    ensures var t := KipcCall(s, c, call, io).state; p < |t.procs| && Met(s.procs[p], t.procs[p])
  {
    hide MiniSend, MiniReceive, MiniSenda, MiniNotify, Inv;
    if Screen(s, c, call) == Ok {
      CallCivil(s, c, call, io);
    }
  }

  lemma SignalWakes(s: State, c: nat, d: Endpoint, p: nat)
    requires Quiet(s) && c < |s.procs| && p < |s.procs| && s.procs[p].receiving
    ensures var t := MiniNotify(s, c, d).state; p < |t.procs| && Met(s.procs[p], t.procs[p])
  {
    var x, y := s.procs[p], MiniNotify(s, c, d).state.procs[p];
    if !IsOkEndpoint(s, d) || d.slot != p {
      assert y == x;
    } else if WillReceive(x, EpOf(s, c)) && !x.replyPend {
      assert y == x.(inbox := Notice(EpOf(s, c)), receiving := false);
    } else {
      assert y == x.(pending := x.pending + {c});
    }
  }

  lemma ClearWakes(s: State, rc: nat, p: nat)
    requires Inv(s) && rc < |s.procs| && s.procs[rc].life != Free && p < |s.procs| && s.procs[p].receiving
    ensures var t := ClearEndpoint(s, rc); |t.procs| == |s.procs|
    ensures var x, y := s.procs[p], ClearEndpoint(s, rc).procs[p];
      if y.receiving then y.getFrom == x.getFrom && y.inbox == x.inbox else p == rc || x.getFrom == EpOf(s, rc)
  {
    hide ClearEndpoint, Acyclic, NoMissedSend, Queues;
    assert WaitsOk(s, p);
    ClearExact(s, rc, p);
  }

  /**
   In every run, a process asleep receiving sleeps on, waiting for the same, until it is given a message from a source
   it waits for, or the endpoint it waits for is cleared, or its own is.
   */
  lemma RunWakes(states: seq<State>, steps: seq<Step>, i: nat, p: nat)
    requires IsRun(states, steps) && i < |steps| && p < |states[i].procs| && states[i].procs[p].receiving
    ensures p < |states[i + 1].procs|
    ensures var x, y := states[i].procs[p], states[i + 1].procs[p];
      if y.receiving then y.getFrom == x.getFrom && y.inbox == Vacant else CutOff(states[i], steps[i], p) || Answered(x, y)
  {
    RunInv(states, steps, i);
    StepWakes(states[i], steps[i], p);
  }

  // ------------------------------------------------------------------ replies

  predicate Receives(e: Step, c: nat) {
    e.Trap? && e.caller == c && e.call.Receive?
  }

  lemma StepReply(s: State, e: Step, c: nat)
    requires Inv(s) && Enabled(s, e) && c < |s.procs| && s.procs[c].replyPend && !s.procs[c].inbox.Notice?
    requires !Receives(e, c) && !(e.Spawn? && e.child == c)
    ensures var t := Apply(s, e); c < |t.procs| && t.procs[c].replyPend && !t.procs[c].inbox.Notice?
  {
    hide KipcCall, ClearEndpoint, Fork, SetSendTo, UnsetSendTo, Inv;
    match e {
      case Trap(d, call, io) => TrapReply(s, d, call, io, c);
      case Signal(d, to) =>
      case Clear(rc) => ClearReply(s, rc, c);
      case Exit(rc) => ClearReply(s, rc, c);
      case _ => LocalStays(s, e, c);
    }
  }

  lemma TrapReply(s: State, d: nat, call: Call, io: Io, c: nat)
    requires Inv(s) && Enabled(s, Trap(d, call, io)) && c < |s.procs| && s.procs[c].replyPend && !s.procs[c].inbox.Notice?
    requires !(d == c && call.Receive?)
    ensures var t := KipcCall(s, d, call, io).state; c < |t.procs| && t.procs[c].replyPend && !t.procs[c].inbox.Notice?
  {
    hide MiniSend, MiniReceive, MiniSenda, MiniNotify, Inv;
    if Screen(s, d, call) == Ok {
      CallCivil(s, d, call, io);
      assert c != d ==> Met(s.procs[c], KipcCall(s, d, call, io).state.procs[c]);
    }
  }

  lemma ClearReply(s: State, rc: nat, c: nat)
    requires Shaped(s) && rc < |s.procs| && s.procs[rc].life != Free && c < |s.procs|
    ensures var t := ClearEndpoint(s, rc);
      |t.procs| == |s.procs| && t.procs[c].replyPend == s.procs[c].replyPend && t.procs[c].inbox == s.procs[c].inbox
  {
    hide CallOffs, Without;
  }

  /**
   In every run, from a SENDREC that is let through until the next receive of its caller, the caller is marked as
   waiting for a reply and is handed no notification.
   */
  lemma {:induction false} RunReply(states: seq<State>, steps: seq<Step>, a: nat, b: nat)
    requires IsRun(states, steps) && a < b < |states|
    requires steps[a].Trap? && steps[a].call.SendRec? && steps[a].caller < |states[a].procs|
    requires Screen(states[a], steps[a].caller, steps[a].call) == Ok
    requires forall k | a < k < b :: !Receives(steps[k], steps[a].caller) && !(steps[k].Spawn? && steps[k].child == steps[a].caller)
    ensures var c := steps[a].caller;
      c < |states[b].procs| && states[b].procs[c].replyPend && !states[b].procs[c].inbox.Notice?
    decreases b
  {
    hide KipcCall, Apply, Enabled, Inv;
    RunInv(states, steps, b - 1);
    assert states[b - 1 + 1] == Apply(states[b - 1], steps[b - 1]);
    if b == a + 1 {
      FirstReply(states[a], steps[a]);
    } else {
      RunReply(states, steps, a, b - 1);
      StepReply(states[b - 1], steps[b - 1], steps[a].caller);
    }
  }

  lemma FirstReply(s: State, e: Step)
    requires Inv(s) && Enabled(s, e) && e.Trap? && e.call.SendRec? && Screen(s, e.caller, e.call) == Ok
    ensures var t := Apply(s, e);
      e.caller < |t.procs| && t.procs[e.caller].replyPend && !t.procs[e.caller].inbox.Notice?
  {
    hide KipcCall;
    CallCivil(s, e.caller, e.call, e.io);
  }
}

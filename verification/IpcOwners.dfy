/** Who may send to whom, and what a process that is born or held changes. */
module IpcOwners {
  import opened IpcModel
  import opened IpcInvariants
  import opened IpcAsync

  /** Nothing changes but the send masks of `p` and `q`. */
  predicate OnlyMasks(s: State, t: State, p: nat, q: nat)
    requires p < |s.procs| && q < |s.procs|
  {
    && |t.procs| == |s.procs| && t.queues == s.queues && t.log == s.log
    && (forall x | 0 <= x < |s.procs| && x != p && x != q :: t.procs[x] == s.procs[x])
    && t.procs[p] == s.procs[p].(ipcTo := t.procs[p].ipcTo) && t.procs[q] == s.procs[q].(ipcTo := t.procs[q].ipcTo)
  }

  /**
   Permission is given to send to any process but oneself, if there is one; who can do more than receive is permitted
   to answer. Nobody else's permissions change, and none to third parties.
   */
  lemma PermitMasks(s: State, p: nat, id: nat, x: nat)
    requires p < |s.procs| && id < |s.procs|
    ensures var t := SetSendTo(s, p, id); var given := s.procs[id].life != Free && p != id;
      && OnlyMasks(s, t, p, id) && (id in t.procs[p].ipcTo <==> given)
      && (x != id ==> (x in t.procs[p].ipcTo <==> x in s.procs[p].ipcTo))
      && (p != id ==> (p in t.procs[id].ipcTo <==>
            p in s.procs[id].ipcTo || (given && s.procs[id].traps * {SendCall, SendRecCall, NotifyCall, SendaCall} != {})))
      && (p != id && x != p ==> (x in t.procs[id].ipcTo <==> x in s.procs[id].ipcTo))
  {
    hide Answers;
    AnswersMeans(s.procs[id]);
    if s.procs[id].life != Free && p != id {
      hide SetSendTo;
      PermitProcs(s, p, id);
      PermitGrants(s, p, id);
    }
  }

  lemma AnswersMeans(x: Proc)
    ensures Answers(x) <==> x.traps * {SendCall, SendRecCall, NotifyCall, SendaCall} != {}
  {
    var able := x.traps * {SendCall, SendRecCall, NotifyCall, SendaCall};
    forall k ensures k in able <==> k in x.traps && k != ReceiveCall {
    }
  }

  /** Taking permission away takes it away both ways, and nothing else. */
  lemma ForbidMasks(s: State, p: nat, id: nat, x: nat)
    requires p < |s.procs| && id < |s.procs|
    ensures var t := UnsetSendTo(s, p, id);
      && OnlyMasks(s, t, p, id) && id !in t.procs[p].ipcTo && p !in t.procs[id].ipcTo
      && (x != id && x != p ==>
            (x in t.procs[p].ipcTo <==> x in s.procs[p].ipcTo) && (x in t.procs[id].ipcTo <==> x in s.procs[id].ipcTo))
      && (p != id ==> (p in t.procs[p].ipcTo <==> p in s.procs[p].ipcTo) && (id in t.procs[id].ipcTo <==> id in s.procs[id].ipcTo))
  {
  }

  /**
   A fork succeeds exactly for a parent that waits for a message and has no table, into a free slot. The child waits as
   its parent does, with the same traps, under an endpoint its slot has not had before; it has no privileges, no
   notifications and no table of its own. Nobody else changes.
   */
  lemma ForkExact(s: State, parent: nat, child: nat, stop: bool)
    requires Inv(s) && parent < |s.procs| && child < |s.procs|
    ensures var r := Fork(s, parent, child, stop); var x := s.procs[parent];
      && (r.status == Ok <==> x.life != Free && s.procs[child].life == Free && x.receiving && x.table == [])
      && (r.status != Ok ==> r.state == s && r.status == EInval)
      && (r.status == Ok ==>
            && |r.state.procs| == |s.procs| && parent != child
            && (forall q | 0 <= q < |s.procs| && q != child :: r.state.procs[q] == s.procs[q])
            && var y := r.state.procs[child];
              && y.gen > s.procs[child].gen && y.life == x.life && y.kernel == s.procs[child].kernel && y.held == stop
              && y.receiving && y.getFrom == x.getFrom && y.sending == x.sending && y.inbox == x.inbox
              && y.replyPend == x.replyPend && y.traps == x.traps
              && !y.sysProc && y.pending == {} && y.table == [] && y.ipcTo == x.ipcTo - {child})
  {
  }

  /** A run flag that the protocol does not own, and copying a message out, concern one process only. */
  lemma LocalExact(s: State, p: nat, b: bool)
    requires p < |s.procs|
    ensures var t := Hold(s, p, b);
      && |t.procs| == |s.procs| && t.queues == s.queues && t.procs[p] == s.procs[p].(held := b)
      && forall q | 0 <= q < |s.procs| && q != p :: t.procs[q] == s.procs[q]
    ensures var t := Fetch(s, p);
      && |t.procs| == |s.procs| && t.queues == s.queues && t.procs[p] == s.procs[p].(inbox := Vacant)
      && forall q | 0 <= q < |s.procs| && q != p :: t.procs[q] == s.procs[q]
  {
  }
}

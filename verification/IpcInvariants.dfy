/** What holds of the process table between any two kernel entries. */
module IpcInvariants {
  import opened Basics
  import opened IpcModel

  /** `e` is the endpoint of a live process other than `p`. */
  predicate IsTarget(s: State, p: nat, e: Endpoint) {
    e.Ep? && e.slot < |s.procs| && e.slot != p && s.procs[e.slot].life == Live && s.procs[e.slot].gen == e.gen
  }

  /** Only live processes wait, and only for live endpoints. */
  ghost predicate WaitsOk(s: State, p: nat)
    requires p < |s.procs|
  {
    var x := s.procs[p];
    && (x.sending ==> x.life == Live && IsTarget(s, p, x.sendTo))
    && (x.receiving ==> x.life == Live && (x.getFrom == Any || IsTarget(s, p, x.getFrom)))
  }

  ghost predicate Wf(s: State) {
    Shaped(s) && forall p | 0 <= p < |s.procs| :: WaitsOk(s, p)
  }

  predicate SendsTo(s: State, p: nat, q: nat) {
    p < |s.procs| && s.procs[p].sending && s.procs[p].sendTo.Ep? && s.procs[p].sendTo.slot == q
  }

  /** The caller queue of `q` holds exactly the processes sending to `q`, each once. */
  ghost predicate Exact(s: State, q: nat)
    requires q < |s.queues|
  {
    && NoDup(s.queues[q])
    && forall p: nat :: p in s.queues[q] <==> SendsTo(s, p, q)
  }

  ghost predicate Queues(s: State) {
    Shaped(s) && forall q | 0 <= q < |s.queues| :: Exact(s, q)
  }

  /** A process asleep in both halves of SENDREC waits for one and the same endpoint. */
  ghost predicate Coupled(s: State) {
    forall p | 0 <= p < |s.procs| ::
      s.procs[p].sending && s.procs[p].receiving ==> s.procs[p].getFrom == s.procs[p].sendTo
  }

  /** No process sleeps waiting for a message that somebody asleep on its queue offers. */
  ghost predicate NoMissedSend(s: State) {
    forall p: nat, q: nat | q < |s.procs| && SendsTo(s, p, q) :: !WillReceive(s.procs[q], EpOf(s, p))
  }

  /** No chain of waiting processes comes back to its start. */
  ghost predicate Acyclic(s: State) {
    forall p: nat, k: nat | 0 < k :: Walk(s, p, k) != Some(p)
  }

  ghost predicate Core(s: State) {
    Wf(s) && Queues(s) && Coupled(s) && NoMissedSend(s) && Acyclic(s)
  }

  /** A receiver has no undelivered message, and one that takes anything has no notification pending. */
  ghost predicate Quiet(s: State) {
    forall p | 0 <= p < |s.procs| && s.procs[p].receiving ::
      && s.procs[p].inbox == Vacant
      && (s.procs[p].getFrom == Any ==> s.procs[p].pending == {} && !s.procs[p].replyPend)
  }

  ghost predicate PendingOk(s: State, p: nat)
    requires p < |s.procs|
  {
    forall id | id in s.procs[p].pending :: id < |s.procs|
  }

  /** Pending bits name slots, and nobody is permitted to send to itself. */
  ghost predicate Masks(s: State) {
    forall p | 0 <= p < |s.procs| :: PendingOk(s, p) && p !in s.procs[p].ipcTo
  }

  ghost predicate Inv(s: State) {
    Core(s) && Quiet(s) && Masks(s)
  }
}

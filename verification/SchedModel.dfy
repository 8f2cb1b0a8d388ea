/**
 Run queues, scheduling policy and preemption as functions on the table of tasks and the queues
 of runnable ones. The linked queues in `SchedKernel.dfy` compute the same.
 */
module SchedModel {
  import opened Basics

  const NR_SCHED_QUEUES: nat := 16

  /** Run flags; `Blocked` stands for every flag the scheduler itself does not set or clear. */
  datatype Flag = SlotFree | Preempted | NoQuantum | Blocked(reason: nat)

  datatype Task = Task(
    flags: set<Flag>,       // p_rts_flags
    priority: nat,
    maxPriority: nat,
    ticksLeft: int,
    quantum: int,           // p_quantum_size
    preemptible: bool,
    billable: bool)

  /** `queues[q]` lists the tasks on run queue `q`, head first. */
  datatype Sched = Sched(tasks: seq<Task>, queues: seq<seq<nat>>, current: nat, bill: nat, idle: nat)

  predicate Runnable(t: Task) {
    t.flags == {}
  }

  predicate Shaped(s: Sched) {
    && |s.queues| == NR_SCHED_QUEUES
    && s.current < |s.tasks| && s.bill < |s.tasks| && s.idle < |s.tasks|
    && forall p | 0 <= p < |s.tasks| :: s.tasks[p].priority < NR_SCHED_QUEUES
  }

  function Put(s: Sched, p: nat, t: Task): Sched
    requires p < |s.tasks|
  {
    s.(tasks := s.tasks[p := t])
  }

  /** `sched`: a task that used up its quantum gets a new one and a lower priority. */
  function Policy(t: Task): Task {
    if t.ticksLeft > 0 then t
    else t.(ticksLeft := t.quantum,
            priority := if t.priority < NR_SCHED_QUEUES - 1 then t.priority + 1 else t.priority)
  }

  /** Put `p` at the front or at the back of the queue of its priority. */
  function Insert(s: Sched, p: nat, front: bool): (r: Sched)
    requires Shaped(s) && p < |s.tasks|
    ensures Shaped(r) && |r.tasks| == |s.tasks|
  {
    var q := s.tasks[p].priority;
    s.(queues := s.queues[q := if front then [p] + s.queues[q] else s.queues[q] + [p]])
  }

  /** `dequeue`. */
  function Dequeue(s: Sched, p: nat): (r: Sched)
    requires Shaped(s) && p < |s.tasks|
    ensures Shaped(r) && |r.tasks| == |s.tasks|
  {
    var q := s.tasks[p].priority;
    s.(queues := s.queues[q := Without(s.queues[q], p)])
  }

  /** RTS_SET. */
  function RtsSet(s: Sched, p: nat, f: Flag): (r: Sched)
    requires Shaped(s) && p < |s.tasks|
    ensures Shaped(r) && |r.tasks| == |s.tasks|
  {
    var s1 := if Runnable(s.tasks[p]) then Dequeue(s, p) else s;
    Put(s1, p, s.tasks[p].(flags := s.tasks[p].flags + {f}))
  }

  /** `enqueue`: also preempts the current task when `p` has a better priority. */
  function Enqueue(s: Sched, p: nat): (r: Sched)
    requires Shaped(s) && p < |s.tasks|
    ensures Shaped(r) && |r.tasks| == |s.tasks|
  {
    var t := Policy(s.tasks[p]);
    var s1 := Insert(Put(s, p, t), p, s.tasks[p].ticksLeft > 0);
    var c := s1.tasks[s.current];
    if c.priority > t.priority && c.preemptible then RtsSet(s1, s.current, Preempted) else s1
  }

  /** RTS_UNSET. */
  function RtsUnset(s: Sched, p: nat, f: Flag): (r: Sched)
    requires Shaped(s) && p < |s.tasks|
    ensures Shaped(r) && |r.tasks| == |s.tasks|
  {
    var was := s.tasks[p].flags;
    var s1 := Put(s, p, s.tasks[p].(flags := was - {f}));
    if was != {} && was - {f} == {} then Enqueue(s1, p) else s1
  }

  /** RTS_LOCK_SETFLAGS with a nonempty set of flags. */
  function RtsSetFlags(s: Sched, p: nat, flags: set<Flag>): (r: Sched)
    requires Shaped(s) && p < |s.tasks|
    ensures Shaped(r) && |r.tasks| == |s.tasks|
  {
    var s1 := if Runnable(s.tasks[p]) && flags != {} then Dequeue(s, p) else s;
    Put(s1, p, s.tasks[p].(flags := flags))
  }

  /** `pick_proc`, from queue `q` on. */
  function Pick(s: Sched, q: nat): Link
    requires |s.queues| == NR_SCHED_QUEUES
    decreases NR_SCHED_QUEUES - q
  {
    if q >= NR_SCHED_QUEUES then None
    else if s.queues[q] != [] then Some(s.queues[q][0])
    else Pick(s, q + 1)
  }

  /** One round of the loop of `balance_queues`. */
  function BalanceOne(s: Sched, p: nat): (r: Sched)
    requires Shaped(s) && p < |s.tasks|
    ensures Shaped(r) && |r.tasks| == |s.tasks|
  {
    var t := s.tasks[p];
    if t.flags == {SlotFree} then s
    else if t.priority > t.maxPriority then
      var s1 := if Runnable(t) then Dequeue(s, p) else s;
      var s2 := Put(s1, p, t.(priority := t.priority - 1));
      if Runnable(t) then Enqueue(s2, p) else s2
    else Put(s, p, t.(ticksLeft := t.quantum))
  }

  /** The part of `schedcheck` that puts the current task back on its queue. */
  function PutBack(s: Sched): (r: Sched)
    requires Shaped(s)
    ensures Shaped(r) && |r.tasks| == |s.tasks|
  {
    var s1 := Requeue(s);
    if NoQuantum in s1.tasks[s.current].flags then RtsUnset(s1, s.current, NoQuantum) else s1
  }

  /** A preempted task goes back to the front of its queue, if it can run at all. */
  function Requeue(s: Sched): (r: Sched)
    requires Shaped(s)
    ensures Shaped(r) && |r.tasks| == |s.tasks| && r.current == s.current
  {
    var c := s.current;
    var t := s.tasks[c];
    if Preempted in t.flags then
      var s0 := Put(s, c, t.(flags := t.flags - {Preempted}));
      if Runnable(s0.tasks[c]) then Insert(s0, c, true) else s0
    else s
  }

  /** `schedcheck` up to the misc flags: who runs next. */
  function SchedCheck(s: Sched): Sched
    requires Shaped(s)
  {
    if Runnable(s.tasks[s.current]) then s
    else
      var s1 := PutBack(s);
      var next := Pick(s1, 0);
      if next == None then Run(s1, s.idle) else Run(s1, next.value)
  }

  /** Make `p` the current task, and the one to bill if it is billable. */
  function Run(s: Sched, p: nat): Sched {
    s.(current := p, bill := if p < |s.tasks| && s.tasks[p].billable then p else s.bill)
  }

  function Charge(t: Task): Task {
    t.(ticksLeft := t.ticksLeft - 1)
  }

  /** One clock tick: charge the current and the billed task, and end a used-up quantum. */
  function Tick(s: Sched): (r: Sched)
    requires Shaped(s)
    ensures Shaped(r) && |r.tasks| == |s.tasks|
  {
    var c := s.current;
    var s1 := if s.tasks[c].preemptible then Put(s, c, Charge(s.tasks[c])) else s;
    var s2 := if !s1.tasks[c].billable then Put(s1, s.bill, Charge(s1.tasks[s.bill])) else s1;
    var t := s2.tasks[c];
    if t.flags == {} && t.ticksLeft <= 0 && t.preemptible then RtsSet(s2, c, NoQuantum) else s2
  }

  /** `balance_queues` over the tasks from `p` on. */
  function Balance(s: Sched, p: nat): (r: Sched)
    requires Shaped(s)
    ensures Shaped(r) && |r.tasks| == |s.tasks|
    decreases |s.tasks| - p
  {
    if p >= |s.tasks| then s else Balance(BalanceOne(s, p), p + 1)
  }
}

/** The run queues hold exactly the runnable tasks, through every run of the scheduler. */
module SchedRuns {
  import opened Basics
  import opened SchedModel

  /** Queue `q` should hold `p`, when the task `x` is left out of the account. */
  predicate Belongs(s: Sched, x: int, p: nat, q: nat) {
    p < |s.tasks| && p != x && Runnable(s.tasks[p]) && s.tasks[p].priority == q
  }

  ghost predicate ExactAt(s: Sched, x: int, q: nat)
    requires q < |s.queues|
  {
    NoDup(s.queues[q]) && forall p: nat :: p in s.queues[q] <==> Belongs(s, x, p, q)
  }

  /** Each runnable task other than `x` stands once on the queue of its priority, and nothing else does. */
  ghost predicate Exact(s: Sched, x: int) {
    Shaped(s) && forall q | 0 <= q < |s.queues| :: ExactAt(s, x, q)
  }

  const NOBODY: int := -1

  ghost predicate Bounded(s: Sched) {
    forall p | 0 <= p < |s.tasks| :: s.tasks[p].maxPriority <= s.tasks[p].priority
  }

  /** Only the current task may be marked as preempted or out of quantum. */
  ghost predicate OnlyCurrent(s: Sched) {
    forall p | 0 <= p < |s.tasks| && p != s.current :: Preempted !in s.tasks[p].flags && NoQuantum !in s.tasks[p].flags
  }

  /** The idle task never runs and is never marked. */
  ghost predicate IdleOk(s: Sched) {
    && s.idle < |s.tasks| && !s.tasks[s.idle].preemptible
    && Preempted !in s.tasks[s.idle].flags && NoQuantum !in s.tasks[s.idle].flags
    && exists r :: Blocked(r) in s.tasks[s.idle].flags
  }

  ghost predicate Inv(s: Sched) {
    Exact(s, NOBODY) && Bounded(s) && OnlyCurrent(s) && IdleOk(s)
  }

  // ------------------------------------------------------ elementary updates

  lemma InsertExact(s: Sched, p: nat, front: bool)
    requires p < |s.tasks| && Exact(s, p) && Runnable(s.tasks[p])
    ensures Exact(Insert(s, p, front), NOBODY)
  {
    var t := Insert(s, p, front);
    forall q | 0 <= q < |t.queues| ensures ExactAt(t, NOBODY, q) {
      assert ExactAt(s, p, q);
      assert p !in s.queues[q];
      assert forall x: nat :: Belongs(t, NOBODY, x, q) <==> Belongs(s, p, x, q) || (x == p && q == s.tasks[p].priority);
    }
  }

  lemma DequeueExact(s: Sched, p: nat)
    requires p < |s.tasks| && Exact(s, NOBODY) && Runnable(s.tasks[p])
    ensures Exact(Dequeue(s, p), p)
  {
    var t := Dequeue(s, p);
    forall q | 0 <= q < |t.queues| ensures ExactAt(t, p, q) {
      assert ExactAt(s, NOBODY, q);
      WithoutNoDup(s.queues[q], p);
      assert forall x: nat :: Belongs(t, p, x, q) <==> Belongs(s, NOBODY, x, q) && x != p;
    }
  }

  /** A task that is not accounted for may change. */
  lemma PutExact(s: Sched, p: nat, t: Task)
    requires p < |s.tasks| && Exact(s, p) && t.priority < NR_SCHED_QUEUES
    ensures Exact(Put(s, p, t), p)
  {
    var u := Put(s, p, t);
    forall q | 0 <= q < |u.queues| ensures ExactAt(u, p, q) {
      assert ExactAt(s, p, q);
      assert forall x: nat :: Belongs(u, p, x, q) <==> Belongs(s, p, x, q);
    }
  }

  /** A task that cannot run is accounted for by not being there. */
  lemma StoppedExact(s: Sched, p: nat, x: int)
    requires p < |s.tasks| && !Runnable(s.tasks[p]) && (x == p || x == NOBODY) && Exact(s, x)
    ensures Exact(s, p) && Exact(s, NOBODY)
  {
    forall q | 0 <= q < |s.queues| ensures ExactAt(s, p, q) && ExactAt(s, NOBODY, q) {
      assert ExactAt(s, x, q);
      assert forall y: nat :: (Belongs(s, p, y, q) <==> Belongs(s, NOBODY, y, q)) && (Belongs(s, x, y, q) <==> Belongs(s, p, y, q));
    }
  }

  /** A task that stays on its queue may change in other ways. */
  lemma TouchExact(s: Sched, p: nat, t: Task)
    requires p < |s.tasks| && Exact(s, NOBODY)
    requires t.priority == s.tasks[p].priority && t.flags == s.tasks[p].flags
    ensures Exact(Put(s, p, t), NOBODY)
  {
    var u := Put(s, p, t);
    forall q | 0 <= q < |u.queues| ensures ExactAt(u, NOBODY, q) {
      assert ExactAt(s, NOBODY, q);
      assert forall x: nat :: Belongs(u, NOBODY, x, q) <==> Belongs(s, NOBODY, x, q);
    }
  }

  // ------------------------------------------------------------- operations

  lemma SetExact(s: Sched, p: nat, f: Flag)
    requires p < |s.tasks| && Exact(s, NOBODY)
    ensures Exact(RtsSet(s, p, f), NOBODY)
  {
    var t := s.tasks[p].(flags := s.tasks[p].flags + {f});
    assert f in t.flags;
    if Runnable(s.tasks[p]) {
      DequeueExact(s, p);
      PutExact(Dequeue(s, p), p, t);
    } else {
      StoppedExact(s, p, NOBODY);
      PutExact(s, p, t);
    }
    StoppedExact(RtsSet(s, p, f), p, p);
  }

  lemma EnqueueExact(s: Sched, p: nat)
    requires p < |s.tasks| && Exact(s, p) && Runnable(s.tasks[p])
    ensures Exact(Enqueue(s, p), NOBODY)
  {
    var t := Policy(s.tasks[p]);
    PutExact(s, p, t);
    var s0 := Put(s, p, t);
    var s1 := Insert(s0, p, s.tasks[p].ticksLeft > 0);
    InsertExact(s0, p, s.tasks[p].ticksLeft > 0);
    SetExact(s1, s.current, Preempted);
  }

  lemma UnsetExact(s: Sched, p: nat, f: Flag)
    requires p < |s.tasks| && Exact(s, NOBODY)
    ensures Exact(RtsUnset(s, p, f), NOBODY)
  {
    var t := s.tasks[p].(flags := s.tasks[p].flags - {f});
    if s.tasks[p].flags == {} {
      TouchExact(s, p, t);
    } else {
      StoppedExact(s, p, NOBODY);
      PutExact(s, p, t);
      if Runnable(t) {
        EnqueueExact(Put(s, p, t), p);
      } else {
        StoppedExact(Put(s, p, t), p, p);
      }
    }
  }

  lemma SetFlagsExact(s: Sched, p: nat, flags: set<Flag>)
    requires p < |s.tasks| && Exact(s, NOBODY) && flags != {}
    ensures Exact(RtsSetFlags(s, p, flags), NOBODY)
  {
    var t := s.tasks[p].(flags := flags);
    if Runnable(s.tasks[p]) {
      DequeueExact(s, p);
      PutExact(Dequeue(s, p), p, t);
    } else {
      StoppedExact(s, p, NOBODY);
      PutExact(s, p, t);
    }
    StoppedExact(RtsSetFlags(s, p, flags), p, p);
  }

  lemma BalanceOneExact(s: Sched, p: nat)
    requires p < |s.tasks| && Exact(s, NOBODY)
    ensures Exact(BalanceOne(s, p), NOBODY)
  {
    var t := s.tasks[p];
    if t.flags != {SlotFree} {
      if t.priority > t.maxPriority {
        var t1 := t.(priority := t.priority - 1);
        if Runnable(t) {
          DequeueExact(s, p);
          PutExact(Dequeue(s, p), p, t1);
          EnqueueExact(Put(Dequeue(s, p), p, t1), p);
        } else {
          StoppedExact(s, p, NOBODY);
          PutExact(s, p, t1);
          StoppedExact(Put(s, p, t1), p, p);
        }
      } else {
        TouchExact(s, p, t.(ticksLeft := t.quantum));
      }
    }
  }

  lemma TickExact(s: Sched)
    requires Exact(s, NOBODY)
    ensures Exact(Tick(s), NOBODY)
  {
    var c := s.current;
    TouchExact(s, c, Charge(s.tasks[c]));
    var s1 := if s.tasks[c].preemptible then Put(s, c, Charge(s.tasks[c])) else s;
    TouchExact(s1, s.bill, Charge(s1.tasks[s.bill]));
    var s2 := if !s1.tasks[c].billable then Put(s1, s.bill, Charge(s1.tasks[s.bill])) else s1;
    SetExact(s2, c, NoQuantum);
  }

  lemma PutBackExact(s: Sched)
    requires Exact(s, NOBODY)
    ensures Exact(PutBack(s), NOBODY)
  {
    var c := s.current;
    var t := s.tasks[c];
    var s1 := s;
    if Preempted in t.flags {
      var t1 := t.(flags := t.flags - {Preempted});
      StoppedExact(s, c, NOBODY);
      PutExact(s, c, t1);
      if Runnable(t1) {
        s1 := Insert(Put(s, c, t1), c, true);
        InsertExact(Put(s, c, t1), c, true);
      } else {
        s1 := Put(s, c, t1);
        StoppedExact(s1, c, c);
      }
    }
    UnsetExact(s1, c, NoQuantum);
  }

  // -------------------------------------------------------------------- pick

  /** The pick takes the head of the first queue that is not empty. */
  lemma {:induction false} PickFirst(s: Sched, q: nat)
    requires |s.queues| == NR_SCHED_QUEUES && q <= NR_SCHED_QUEUES
    ensures var r := Pick(s, q);
      if r == None then forall k | q <= k < NR_SCHED_QUEUES :: s.queues[k] == []
      else exists k ::
        && q <= k < NR_SCHED_QUEUES && s.queues[k] != [] && r == Some(s.queues[k][0])
        && forall j | q <= j < k :: s.queues[j] == []
    decreases NR_SCHED_QUEUES - q
  {
    if q < NR_SCHED_QUEUES && s.queues[q] == [] {
      PickFirst(s, q + 1);
    }
  }

  /** A pick yields a runnable task of the best priority there is, and nothing only if nothing is runnable. */
  lemma PickBest(s: Sched)
    requires Exact(s, NOBODY)
    ensures var r := Pick(s, 0);
      if r == None then forall p | 0 <= p < |s.tasks| :: !Runnable(s.tasks[p])
      else
        && r.value < |s.tasks| && Runnable(s.tasks[r.value])
        && forall p | 0 <= p < |s.tasks| && Runnable(s.tasks[p]) :: s.tasks[r.value].priority <= s.tasks[p].priority
  {
    PickFirst(s, 0);
    forall p: nat | p < |s.tasks| && Runnable(s.tasks[p]) ensures p in s.queues[s.tasks[p].priority] {
      assert ExactAt(s, NOBODY, s.tasks[p].priority);
      assert Belongs(s, NOBODY, p, s.tasks[p].priority);
    }
    var r := Pick(s, 0);
    if r != None {
      var k :| 0 <= k < NR_SCHED_QUEUES && s.queues[k] != [] && r == Some(s.queues[k][0])
        && forall j | 0 <= j < k :: s.queues[j] == [];
      assert ExactAt(s, NOBODY, k) && s.queues[k][0] in s.queues[k];
      assert Belongs(s, NOBODY, r.value, k);
    }
  }

  // --------------------------------------------------------- marks and bounds

  /** Apart from its marks, nothing about a task changes but its priority and its ticks. */
  ghost predicate Rest(s: Sched) {
    Bounded(s) && OnlyCurrent(s) && IdleOk(s)
  }

  lemma SetRest(s: Sched, p: nat, f: Flag)
    requires Shaped(s) && p < |s.tasks| && Rest(s)
    requires f == Preempted || f == NoQuantum ==> p == s.current && p != s.idle
    ensures Rest(RtsSet(s, p, f))
  {
    var t := RtsSet(s, p, f);
    var r :| Blocked(r) in s.tasks[s.idle].flags;
    assert Blocked(r) in t.tasks[t.idle].flags;
  }

  lemma EnqueueRest(s: Sched, p: nat)
    requires Shaped(s) && p < |s.tasks| && Rest(s)
    ensures Rest(Enqueue(s, p))
  {
    var t := Policy(s.tasks[p]);
    var s1 := Insert(Put(s, p, t), p, s.tasks[p].ticksLeft > 0);
    var r :| Blocked(r) in s.tasks[s.idle].flags;
    assert Blocked(r) in s1.tasks[s1.idle].flags;
    assert Rest(s1);
    var c := s1.tasks[s.current];
    if c.priority > t.priority && c.preemptible {
      SetRest(s1, s.current, Preempted);
    }
  }

  lemma UnsetRest(s: Sched, p: nat, f: Flag)
    requires Shaped(s) && p < |s.tasks| && Rest(s) && p != s.idle
    ensures Rest(RtsUnset(s, p, f))
  {
    var s1 := Put(s, p, s.tasks[p].(flags := s.tasks[p].flags - {f}));
    var r :| Blocked(r) in s.tasks[s.idle].flags;
    assert Blocked(r) in s1.tasks[s1.idle].flags;
    assert Rest(s1);
    EnqueueRest(s1, p);
  }

  /** A task may change its priority, within bounds, and its quantum, and queues are nobody's business here. */
  lemma ClaimRest(s: Sched, p: nat, t: Task, queues: seq<seq<nat>>)
    requires Shaped(s) && p < |s.tasks| && Rest(s) && |queues| == NR_SCHED_QUEUES
    requires t.flags == s.tasks[p].flags && t.preemptible == s.tasks[p].preemptible
    requires t.maxPriority <= t.priority < NR_SCHED_QUEUES
    ensures Shaped(Put(s.(queues := queues), p, t)) && Rest(Put(s.(queues := queues), p, t))
  {
    var u := Put(s.(queues := queues), p, t);
    var r :| Blocked(r) in s.tasks[s.idle].flags;
    assert Blocked(r) in u.tasks[u.idle].flags;
  }

  lemma BalanceOneRest(s: Sched, p: nat)
    requires Shaped(s) && p < |s.tasks| && Rest(s)
    ensures Rest(BalanceOne(s, p))
  {
    hide Enqueue;
    var t := s.tasks[p];
    if t.flags != {SlotFree} {
      if t.priority > t.maxPriority {
        var s1 := if Runnable(t) then Dequeue(s, p) else s;
        ClaimRest(s, p, t.(priority := t.priority - 1), s1.queues);
        var s2 := Put(s1, p, t.(priority := t.priority - 1));
        assert s2 == Put(s.(queues := s1.queues), p, t.(priority := t.priority - 1));
        EnqueueRest(s2, p);
      } else {
        ClaimRest(s, p, t.(ticksLeft := t.quantum), s.queues);
      }
    }
  }

  lemma {:induction false} BalanceInv(s: Sched, p: nat)
    requires Inv(s)
    ensures Inv(Balance(s, p))
    decreases |s.tasks| - p
  {
    if p < |s.tasks| {
      BalanceOneExact(s, p);
      BalanceOneRest(s, p);
      BalanceInv(BalanceOne(s, p), p + 1);
    }
  }

  predicate SameClaim(t: Task, u: Task) {
    t.priority == u.priority && t.maxPriority == u.maxPriority && t.ticksLeft == u.ticksLeft && t.quantum == u.quantum
  }

  /** Where the sweep puts `y` there is reason to preempt the current task. */
  predicate Overtakes(s: Sched, y: nat)
    requires Shaped(s) && y < |s.tasks|
  {
    var t, c := s.tasks[y], s.tasks[s.current];
    && Runnable(t) && t.priority > t.maxPriority && c.preemptible
    && c.priority > if t.ticksLeft > 0 then t.priority - 1 else t.priority
  }

  /** `x` is the current task, and a sweep that starts at `p` preempts it before its turn. */
  ghost predicate Pushed(s: Sched, p: nat, x: nat)
    requires Shaped(s) && x < |s.tasks|
  {
    x == s.current && exists y: nat :: p <= y < x && Overtakes(s, y)
  }

  /** A round of the sweep gives only the task it visits a new priority or quantum. */
  lemma BalanceOneOther(s: Sched, p: nat, x: nat)
    requires Shaped(s) && p < |s.tasks| && x < |s.tasks| && x != p
    ensures SameClaim(s.tasks[x], BalanceOne(s, p).tasks[x])
    ensures BalanceOne(s, p).current == s.current
    ensures BalanceOne(s, p).tasks[x].flags ==
      if x == s.current && Overtakes(s, p) then s.tasks[x].flags + {Preempted} else s.tasks[x].flags
    ensures BalanceOne(s, p).tasks[x].preemptible == s.tasks[x].preemptible
  {
  }

  /**
   What the sweep does for a task: a new quantum at the best priority, one priority up below it. A runnable task that
   is out of time goes through the queues on its way up, and comes out with a new quantum where it was, unless it has
   been preempted before its turn.
   */
  predicate Raised(t: Task, u: Task, preempted: bool) {
    if t.priority > t.maxPriority && (t.ticksLeft > 0 || !Runnable(t) || preempted)
    then u.priority == t.priority - 1 && u.ticksLeft == t.ticksLeft
    else u.priority == t.priority && u.ticksLeft == t.quantum
  }

  lemma {:induction false} BalanceVisited(s: Sched, p: nat, x: nat)
    requires Shaped(s) && x < p && x < |s.tasks|
    ensures SameClaim(s.tasks[x], Balance(s, p).tasks[x])
    decreases |s.tasks| - p
  {
    if p < |s.tasks| {
      BalanceOneOther(s, p, x);
      BalanceVisited(BalanceOne(s, p), p + 1, x);
    }
  }

  /** A full sweep does that for every task in use, and leaves free slots alone. */
  lemma {:induction false} BalanceRaises(s: Sched, p: nat, x: nat)
    requires Shaped(s) && p <= x < |s.tasks|
    ensures var t, u := s.tasks[x], Balance(s, p).tasks[x];
      if t.flags == {SlotFree} && !Pushed(s, p, x) then SameClaim(t, u) else Raised(t, u, Pushed(s, p, x))
    decreases |s.tasks| - p
  {
    if p == x {
      BalanceOwn(s, x);
      BalanceVisited(BalanceOne(s, p), p + 1, x);
    } else {
      BalanceOneOther(s, p, x);
      PushedLater(s, p, x);
      BalanceRaises(BalanceOne(s, p), p + 1, x);
    }
  }

  /** The first visit of a sweep preempts the current task, or one of the others does. */
  lemma PushedLater(s: Sched, p: nat, x: nat)
    requires Shaped(s) && p < x < |s.tasks|
    ensures Pushed(s, p, x) <==> x == s.current && (Overtakes(s, p) || Pushed(BalanceOne(s, p), p + 1, x))
  {
    hide BalanceOne;
    var u := BalanceOne(s, p);
    BalanceOneOther(s, p, x);
    if x == s.current {
      forall y: nat | p < y < x ensures Overtakes(u, y) <==> Overtakes(s, y) {
        BalanceOneOther(s, p, y);
      }
    }
  }

  lemma BalanceOwn(s: Sched, x: nat)
    requires Shaped(s) && x < |s.tasks|
    ensures var t, u := s.tasks[x], BalanceOne(s, x).tasks[x];
      if t.flags == {SlotFree} then SameClaim(t, u) else Raised(t, u, false)
  {
  }

  lemma TickInv(s: Sched)
    requires Inv(s)
    ensures Inv(Tick(s))
  {
    TickExact(s);
    var c := s.current;
    var r :| Blocked(r) in s.tasks[s.idle].flags;
    var s1 := if s.tasks[c].preemptible then Put(s, c, Charge(s.tasks[c])) else s;
    var s2 := if !s1.tasks[c].billable then Put(s1, s.bill, Charge(s1.tasks[s.bill])) else s1;
    assert Blocked(r) in s2.tasks[s2.idle].flags;
    assert Rest(s2);
    if c != s.idle {
      SetRest(s2, c, NoQuantum);
    }
  }

  /** The first half of putting back: a preempted task goes to the front of its queue. */
  lemma PutBackFirst(s: Sched)
    requires Inv(s)
    ensures var s1 := Requeue(s);
      && Rest(s1) && s1.idle == s.idle && s1.current == s.current && |s1.tasks| == |s.tasks|
      && s1.tasks[s.current].flags == s.tasks[s.current].flags - {Preempted}
      && forall p | 0 <= p < |s.tasks| && p != s.current :: s1.tasks[p] == s.tasks[p]
  {
    var r :| Blocked(r) in s.tasks[s.idle].flags;
    assert Blocked(r) in Requeue(s).tasks[s.idle].flags;
  }

  /** After `PutBack` nobody is marked, and no other flag has changed. */
  lemma PutBackClears(s: Sched)
    requires Inv(s)
    ensures var t := PutBack(s);
      && t.idle == s.idle && t.current == s.current && Rest(t)
      && (forall p | 0 <= p < |t.tasks| :: Preempted !in t.tasks[p].flags && NoQuantum !in t.tasks[p].flags)
      && forall p | 0 <= p < |t.tasks| :: t.tasks[p].flags == s.tasks[p].flags - {Preempted, NoQuantum}
  {
    hide Requeue;
    var c := s.current;
    var s1 := Requeue(s);
    PutBackFirst(s);
    if NoQuantum in s1.tasks[c].flags {
      UnsetRest(s1, c, NoQuantum);
    }
    var u := PutBack(s);
    forall p | 0 <= p < |u.tasks| ensures u.tasks[p].flags == s.tasks[p].flags - {Preempted, NoQuantum} {
    }
  }

  lemma CheckInv(s: Sched)
    requires Inv(s)
    ensures Inv(SchedCheck(s))
  {
    if !Runnable(s.tasks[s.current]) {
      PutBackExact(s);
      PutBackClears(s);
      var s1 := PutBack(s);
      PickBest(s1);
      var next := Pick(s1, 0);
      RunExact(s1, if next == None then s.idle else next.value);
    }
  }

  lemma RunExact(s: Sched, p: nat)
    requires Exact(s, NOBODY) && p < |s.tasks|
    ensures Exact(Run(s, p), NOBODY)
  {
    forall q | 0 <= q < |s.queues| ensures ExactAt(Run(s, p), NOBODY, q) {
      assert ExactAt(s, NOBODY, q);
      assert forall x: nat :: Belongs(Run(s, p), NOBODY, x, q) <==> Belongs(s, NOBODY, x, q);
    }
  }

  // -------------------------------------------------------------------- runs

  datatype Step =
    | Block(task: nat, reason: nat)       // RTS_SET
    | Unblock(sleeper: nat, cause: nat)   // RTS_UNSET
    | Free(dead: nat)                     // RTS_LOCK_SETFLAGS(rp, RTS_SLOT_FREE)
    | Fill(slot: nat, with: Task)         // a new occupant of a free slot
    | BalanceQueues                       // balance_queues
    | TimerTick                           // ap_timer_int_handler
    | Reschedule                          // schedcheck

  ghost predicate Enabled(s: Sched, e: Step) {
    Shaped(s) &&
    match e
    case Block(p, _) => p < |s.tasks|
    case Unblock(p, _) => p < |s.tasks| && p != s.idle
    case Free(p) => p < |s.tasks| && p != s.idle
    case Fill(p, t) =>
      && p < |s.tasks| && p != s.idle && s.tasks[p].flags == {SlotFree}
      && t.flags != {} && Preempted !in t.flags && NoQuantum !in t.flags
      && t.maxPriority <= t.priority < NR_SCHED_QUEUES
    case BalanceQueues => true
    case TimerTick => true
    case Reschedule => true
  }

  ghost function Apply(s: Sched, e: Step): Sched
    requires Enabled(s, e)
  {
    match e
    case Block(p, r) => RtsSet(s, p, Blocked(r))
    case Unblock(p, r) => RtsUnset(s, p, Blocked(r))
    case Free(p) => RtsSetFlags(s, p, {SlotFree})
    case Fill(p, t) => Put(s, p, t)
    case BalanceQueues => Balance(s, 0)
    case TimerTick => Tick(s)
    case Reschedule => SchedCheck(s)
  }

  lemma FillInv(s: Sched, p: nat, t: Task)
    requires Inv(s) && Enabled(s, Fill(p, t))
    ensures Inv(Put(s, p, t))
  {
    StoppedExact(s, p, NOBODY);
    PutExact(s, p, t);
    StoppedExact(Put(s, p, t), p, p);
  }

  lemma FreeInv(s: Sched, p: nat)
    requires Inv(s) && p < |s.tasks| && p != s.idle
    ensures Inv(RtsSetFlags(s, p, {SlotFree}))
  {
    SetFlagsExact(s, p, {SlotFree});
  }

  lemma StepInv(s: Sched, e: Step)
    requires Inv(s) && Enabled(s, e)
    ensures Inv(Apply(s, e))
  {
    match e
    case Block(p, r) =>
      SetExact(s, p, Blocked(r));
      SetRest(s, p, Blocked(r));
    case Unblock(p, r) =>
      UnsetExact(s, p, Blocked(r));
      UnsetRest(s, p, Blocked(r));
    case Free(p) => FreeInv(s, p);
    case Fill(p, t) => FillInv(s, p, t);
    case BalanceQueues => BalanceInv(s, 0);
    case TimerTick => TickInv(s);
    case Reschedule => CheckInv(s);
  }

  /** All slots stopped, all queues empty, as at boot. */
  ghost predicate Start(s: Sched) {
    && Shaped(s) && Bounded(s) && IdleOk(s)
    && (forall q | 0 <= q < |s.queues| :: s.queues[q] == [])
    && forall p | 0 <= p < |s.tasks| ::
         s.tasks[p].flags != {} && Preempted !in s.tasks[p].flags && NoQuantum !in s.tasks[p].flags
  }

  ghost predicate IsRun(states: seq<Sched>, steps: seq<Step>) {
    && |states| == |steps| + 1 && Start(states[0])
    && forall i | 0 <= i < |steps| :: Enabled(states[i], steps[i]) && states[i + 1] == Apply(states[i], steps[i])
  }

  lemma StartInv(s: Sched)
    requires Start(s)
    ensures Inv(s)
  {
    forall q | 0 <= q < |s.queues| ensures ExactAt(s, NOBODY, q) {
      assert s.queues[q] == [];
    }
  }

  /** In every state of every run the queues hold exactly the runnable tasks, each at its priority, priorities
      stay in bounds, and only the current task is marked. */
  lemma {:induction false} RunInv(states: seq<Sched>, steps: seq<Step>, i: nat)
    requires IsRun(states, steps) && i < |states|
    ensures Inv(states[i]) && |states[i].tasks| == |states[0].tasks|
  {
    if i == 0 {
      StartInv(states[0]);
    } else {
      RunInv(states, steps, i - 1);
      StepInv(states[i - 1], steps[i - 1]);
    }
  }

  /** Rescheduling loses nobody: every task that nothing but a mark kept from running is on its queue, and
      if the current task could not go on, the one that replaces it is runnable and of the best priority, or
      it is the idle task and nobody is runnable. */
  lemma RescheduleLosesNobody(states: seq<Sched>, steps: seq<Step>, i: nat)
    requires IsRun(states, steps) && i < |steps| && steps[i] == Reschedule
    ensures var s, t := states[i], states[i + 1];
      && Shaped(t) && |t.tasks| == |s.tasks|
      && (forall p: nat | p < |t.tasks| :: Preempted !in t.tasks[p].flags && NoQuantum !in t.tasks[p].flags)
      && (forall p: nat | p < |s.tasks| && s.tasks[p].flags <= {Preempted, NoQuantum} :: p in t.queues[t.tasks[p].priority])
      && (!Runnable(s.tasks[s.current]) ==>
            if Runnable(t.tasks[t.current])
            then forall p: nat | p < |t.tasks| && Runnable(t.tasks[p]) :: t.tasks[t.current].priority <= t.tasks[p].priority
            else t.current == t.idle && forall p: nat | p < |t.tasks| :: !Runnable(t.tasks[p]))
  {
    RunInv(states, steps, i);
    RunInv(states, steps, i + 1);
    var s, t := states[i], states[i + 1];
    if !Runnable(s.tasks[s.current]) {
      PutBackExact(s);
      PutBackClears(s);
      PickBest(PutBack(s));
      assert t.tasks == PutBack(s).tasks;
    }
    forall p: nat | p < |s.tasks| && s.tasks[p].flags <= {Preempted, NoQuantum}
      ensures p in t.queues[t.tasks[p].priority]
    {
      assert t.tasks[p].flags == {};
      assert ExactAt(t, NOBODY, t.tasks[p].priority);
      assert Belongs(t, NOBODY, p, t.tasks[p].priority);
    }
  }
}

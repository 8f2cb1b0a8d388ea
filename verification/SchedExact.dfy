/** Who is charged, who joins which end of which queue, and who gives way. */
module SchedExact {
  import opened Basics
  import opened SchedModel
  import opened SchedRuns

  // -------------------------------------------------------------------- ticks

  /** What a tick costs `p`: one as the current task, if that can be preempted, and one as the task that is billed for it. */
  function Charged(s: Sched, p: nat): nat
    requires Shaped(s)
  {
    var c := s.tasks[s.current];
    (if p == s.current && c.preemptible then 1 else 0) + if p == s.bill && !c.billable then 1 else 0
  }

  /** A tick takes that time away, and marks the current task as out of quantum when it has none left. */
  lemma TickCharges(s: Sched, p: nat)
    requires Shaped(s) && p < |s.tasks|
    ensures var t, u := s.tasks[p], Tick(s).tasks[p]; var left := t.ticksLeft - Charged(s, p);
      u == t.(ticksLeft := left,
              flags := if p == s.current && t.flags == {} && t.preemptible && left <= 0 then {NoQuantum} else t.flags)
    ensures Tick(s).current == s.current && Tick(s).bill == s.bill && Tick(s).idle == s.idle
  {
  }

  function Ticks(s: Sched, k: nat): (r: Sched)
    requires Shaped(s)
    ensures Shaped(r) && |r.tasks| == |s.tasks|
  {
    if k == 0 then s else Tick(Ticks(s, k - 1))
  }

  /**
   A quantum lasts just as long as it says: a current task that is charged once for each tick has so many ticks less
   after `k` of them, and is marked as out of quantum exactly after the last. The billed task pays as much, and nobody
   else anything.
   */
  lemma {:induction false} QuantumLasts(s: Sched, k: nat, p: nat)
    requires Shaped(s) && p < |s.tasks| && Charged(s, s.current) == 1 && s.tasks[s.current].preemptible
    requires Runnable(s.tasks[s.current]) && k <= s.tasks[s.current].ticksLeft && 0 < s.tasks[s.current].ticksLeft
    ensures var u := Ticks(s, k); var c := s.tasks[s.current];
      && u.current == s.current && u.bill == s.bill
      && u.tasks[p] == s.tasks[p].(
           ticksLeft := s.tasks[p].ticksLeft - (if Charged(s, p) == 0 then 0 else k),
           flags := if p == s.current && k == c.ticksLeft then {NoQuantum} else s.tasks[p].flags)
  {
    hide Tick;
    if k > 0 {
      QuantumLasts(s, k - 1, p);
      QuantumLasts(s, k - 1, s.current);
      TickCharges(Ticks(s, k - 1), p);
    }
  }

  // ------------------------------------------------------------------- queues

  /** `v` is `w` with `x` taken out, in the same order. */
  ghost predicate Cut(w: seq<nat>, v: seq<nat>, x: nat) {
    exists i: nat :: i < |w| && w[i] == x && v == w[..i] + w[i + 1..]
  }

  lemma CutWithout(w: seq<nat>, x: nat)
    requires x in w
    ensures Cut(w, Without(w, x), x)
  {
    var k := WithoutCuts(w, x);
  }

  /** A task that is stopped leaves its queue, and nothing else changes. */
  lemma SetStops(s: Sched, p: nat, f: Flag)
    requires Exact(s, NOBODY) && p < |s.tasks|
    ensures var r := RtsSet(s, p, f); var q := s.tasks[p].priority;
      && r.tasks == s.tasks[p := s.tasks[p].(flags := s.tasks[p].flags + {f})]
      && r.current == s.current && r.bill == s.bill && r.idle == s.idle
      && (forall k | 0 <= k < NR_SCHED_QUEUES && k != q :: r.queues[k] == s.queues[k])
      && if Runnable(s.tasks[p]) then Cut(s.queues[q], r.queues[q], p) else r.queues[q] == s.queues[q]
  {
    var q := s.tasks[p].priority;
    assert ExactAt(s, NOBODY, q);
    if Runnable(s.tasks[p]) {
      assert Belongs(s, NOBODY, p, q);
      CutWithout(s.queues[q], p);
    }
  }

  /** A slot that is freed is off the queues, and nothing else changes. */
  lemma FreeStops(s: Sched, p: nat)
    requires Exact(s, NOBODY) && p < |s.tasks|
    ensures var r := RtsSetFlags(s, p, {SlotFree}); var q := s.tasks[p].priority;
      && r.tasks == s.tasks[p := s.tasks[p].(flags := {SlotFree})]
      && r.current == s.current && r.bill == s.bill && r.idle == s.idle
      && (forall k | 0 <= k < NR_SCHED_QUEUES && k != q :: r.queues[k] == s.queues[k])
      && if Runnable(s.tasks[p]) then Cut(s.queues[q], r.queues[q], p) else r.queues[q] == s.queues[q]
  {
    var q := s.tasks[p].priority;
    assert ExactAt(s, NOBODY, q);
    if Runnable(s.tasks[p]) {
      assert Belongs(s, NOBODY, p, q);
      CutWithout(s.queues[q], p);
    }
  }

  /** The queue that a task joins: one lower than its own if it is out of time, and there is one. */
  function Joins(t: Task): nat {
    if t.ticksLeft > 0 || t.priority == NR_SCHED_QUEUES - 1 then t.priority else t.priority + 1
  }

  /**
   A task with time left goes before all others of its priority. One that is out of time gets a new quantum and goes
   behind all others of a worse priority. Either way the current task gives way if it may and is worse off.
   */
  lemma EnqueuePlaces(s: Sched, p: nat)
    requires Exact(s, p) && p < |s.tasks| && Runnable(s.tasks[p])
    ensures var r := Enqueue(s, p); var t, c := s.tasks[p], s.tasks[s.current]; var q := Joins(t);
      var gives := p != s.current && c.preemptible && c.priority > q;
      && q < NR_SCHED_QUEUES && r.current == s.current && r.bill == s.bill && r.idle == s.idle
      && r.tasks[p] == t.(priority := q, ticksLeft := if t.ticksLeft > 0 then t.ticksLeft else t.quantum)
      && r.queues[q] == (if t.ticksLeft > 0 then [p] + s.queues[q] else s.queues[q] + [p])
      && (forall x | 0 <= x < |s.tasks| && x != p ::
            r.tasks[x] == if x == s.current && gives then c.(flags := c.flags + {Preempted}) else s.tasks[x])
      && (forall k | 0 <= k < NR_SCHED_QUEUES && k != q ::
            if gives && k == c.priority && Runnable(c) then Cut(s.queues[k], r.queues[k], s.current)
            else r.queues[k] == s.queues[k])
  {
    var c := s.tasks[s.current];
    if s.current != p && Runnable(c) {
      assert ExactAt(s, p, c.priority) && Belongs(s, p, s.current, c.priority);
      CutWithout(s.queues[c.priority], s.current);
    }
  }

  /** A task whose last reason to wait goes away joins a queue; before that, it waits on. */
  lemma UnsetStarts(s: Sched, p: nat, f: Flag)
    requires Exact(s, NOBODY) && p < |s.tasks|
    ensures var r := RtsUnset(s, p, f); var t := s.tasks[p].(flags := s.tasks[p].flags - {f});
      if s.tasks[p].flags == {f} then Exact(Put(s, p, t), p) && Runnable(t) && r == Enqueue(Put(s, p, t), p)
      else r == Put(s, p, t)
  {
    var t := s.tasks[p].(flags := s.tasks[p].flags - {f});
    if s.tasks[p].flags == {f} {
      StoppedExact(s, p, NOBODY);
      PutExact(s, p, t);
    }
  }

  // ------------------------------------------------------------- rescheduling

  /** A current task that was only preempted is the first of its queue again, with the time it had left. */
  lemma PreemptedFirst(s: Sched)
    requires Inv(s) && s.tasks[s.current].flags == {Preempted}
    ensures var r := PutBack(s); var c, t := s.current, s.tasks[s.current];
      r.tasks == s.tasks[c := t.(flags := {})] && r.queues == s.queues[t.priority := [c] + s.queues[t.priority]]
  {
    assert s.tasks[s.current].flags - {Preempted} == {};
  }

  /** One that is out of quantum joins the queue it is due. */
  lemma ExpiredJoins(s: Sched)
    requires Inv(s) && (s.tasks[s.current].flags == {NoQuantum} || s.tasks[s.current].flags == {Preempted, NoQuantum})
    ensures var r := PutBack(s); var c, t := s.current, s.tasks[s.current]; var q := Joins(t);
      && r.tasks == s.tasks[c := t.(flags := {}, priority := q, ticksLeft := if t.ticksLeft > 0 then t.ticksLeft else t.quantum)]
      && q < |s.queues| && r.queues == s.queues[q := if t.ticksLeft > 0 then [c] + s.queues[q] else s.queues[q] + [c]]
  {
    var c, t := s.current, s.tasks[s.current];
    assert t.flags == {Preempted, NoQuantum} ==> t.flags - {Preempted} == {NoQuantum};
    assert {NoQuantum} - {NoQuantum} == {};
    var s1 := Requeue(s);
    assert s1 == Put(s, c, t.(flags := {NoQuantum}));
  }

  /** One that waits for something else as well stays off the queues. */
  lemma WaitingStays(s: Sched)
    requires Inv(s) && !(s.tasks[s.current].flags <= {Preempted, NoQuantum})
    ensures var r := PutBack(s); var c, t := s.current, s.tasks[s.current];
      r.queues == s.queues && r.tasks == s.tasks[c := t.(flags := t.flags - {Preempted, NoQuantum})]
  {
    var c, t := s.current, s.tasks[s.current];
    var f :| f in t.flags && f !in {Preempted, NoQuantum};
    assert f in t.flags - {Preempted} && f in t.flags - {Preempted} - {NoQuantum};
    assert t.flags - {Preempted} - {NoQuantum} == t.flags - {Preempted, NoQuantum};
    var s1 := Requeue(s);
    assert Preempted !in t.flags ==> t.flags - {Preempted} == t.flags;
    assert s1 == Put(s, c, t.(flags := t.flags - {Preempted}));
    assert NoQuantum !in t.flags ==> t.flags - {Preempted} == t.flags - {Preempted, NoQuantum};
  }

  /**
   The current task changes only when it cannot run; the next one is billed if it is billable, and otherwise the one
   that was. Nothing else changes but by putting the old one back.
   */
  lemma CheckSwitches(s: Sched)
    requires Inv(s)
    ensures var r := SchedCheck(s);
      if Runnable(s.tasks[s.current]) then r == s
      else
        var u := PutBack(s);
        && r.tasks == u.tasks && r.queues == u.queues && r.idle == s.idle && r.current < |r.tasks|
        && r.bill == (if r.tasks[r.current].billable then r.current else s.bill)
        && (if forall q | 0 <= q < NR_SCHED_QUEUES :: u.queues[q] == [] then r.current == s.idle
            else Runnable(u.tasks[r.current]) && exists q | 0 <= q < NR_SCHED_QUEUES ::
              u.queues[q] != [] && u.queues[q][0] == r.current && forall k | 0 <= k < q :: u.queues[k] == [])
  {
    if !Runnable(s.tasks[s.current]) {
      hide PutBack;
      PutBackExact(s);
      PutBackClears(s);
      PickFirst(PutBack(s), 0);
      PickBest(PutBack(s));
    }
  }

  /** Round robin: a task that has used up its quantum is last in line, and with a new quantum, before the next one runs. */
  lemma RoundRobin(s: Sched)
    requires Inv(s) && s.tasks[s.current].flags == {NoQuantum} && s.tasks[s.current].ticksLeft <= 0
    ensures var r := SchedCheck(s); var c, t := s.current, s.tasks[s.current]; var q := Joins(t);
      && |r.tasks| == |s.tasks| && r.tasks[c] == t.(flags := {}, priority := q, ticksLeft := t.quantum)
      && |r.queues| == NR_SCHED_QUEUES && r.queues[q] == s.queues[q] + [c]
      && (s.queues[q] != [] ==> r.current != c)
  {
    hide PutBack;
    ExpiredJoins(s);
    CheckSwitches(s);
    forall k | 0 <= k < NR_SCHED_QUEUES ensures s.current !in s.queues[k] {
      assert ExactAt(s, NOBODY, k);
    }
  }
}

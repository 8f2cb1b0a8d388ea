/**
 The run queues as the kernel keeps them: `rdy_head`, `rdy_tail` and the links `p_nextready`, updated in
 place. Each routine computes the function of the same name in `SchedModel`; `CheckRunqueues` is the
 kernel's own sanity check, proved to pass exactly on well-formed queues.
 */
module SchedKernel {
  import opened Basics
  import M = SchedModel
  import opened SchedModel
  import opened SchedRuns

  function Last(w: seq<nat>): Link {
    if w == [] then None else Some(w[|w| - 1])
  }

  /** The linked structure: `p_ready`, `rdy_head`, `rdy_tail` and `p_nextready`. */
  datatype Links = Links(ready: seq<bool>, heads: seq<Link>, tails: seq<Link>, next: seq<Link>)

  ghost predicate Sized(l: Links, n: nat) {
    |l.heads| == |l.tails| == NR_SCHED_QUEUES && |l.ready| == |l.next| == n
  }

  /** Queue `q` is the list `w`, from its head to its tail. */
  ghost predicate IsQueue(l: Links, q: nat, w: seq<nat>)
    requires q < |l.heads| && q < |l.tails|
  {
    Chain(l.heads[q], l.next, w) && l.tails[q] == Last(w) && NoDup(w)
  }

  /** `p` may stand on queue `q`. */
  predicate Fit(tasks: seq<Task>, ready: seq<bool>, q: nat, p: nat) {
    p < |tasks| && p < |ready| && ready[p] && SlotFree !in tasks[p].flags && tasks[p].priority == q
  }

  ghost predicate AllFit(tasks: seq<Task>, ready: seq<bool>, q: nat, w: seq<nat>) {
    forall p | p in w :: Fit(tasks, ready, q, p)
  }

  ghost predicate GoodQueue(tasks: seq<Task>, l: Links, q: nat, w: seq<nat>)
    requires q < |l.heads| && q < |l.tails|
  {
    IsQueue(l, q, w) && AllFit(tasks, l.ready, q, w)
  }

  /** A ready task stands on its queue. */
  predicate Placed(tasks: seq<Task>, ready: seq<bool>, qs: seq<seq<nat>>, p: nat)
    requires p < |tasks| == |ready|
  {
    ready[p] ==> tasks[p].priority < |qs| && p in qs[tasks[p].priority]
  }

  /** The links make up the queues `qs`, of ready tasks each at its own priority. */
  ghost predicate WellFormed(tasks: seq<Task>, l: Links, qs: seq<seq<nat>>) {
    && Sized(l, |tasks|) && |qs| == NR_SCHED_QUEUES
    && (forall q | 0 <= q < |qs| :: GoodQueue(tasks, l, q, qs[q]))
    && forall p: nat | p < |tasks| :: Placed(tasks, l.ready, qs, p)
  }

  /** Another queue is not affected by new links at tasks that do not stand on it. */
  lemma OtherQueue(tasks: seq<Task>, l: Links, l': Links, q: nat, w: seq<nat>)
    requires Sized(l, |tasks|) && Sized(l', |tasks|) && q < NR_SCHED_QUEUES && GoodQueue(tasks, l, q, w)
    requires l'.heads[q] == l.heads[q] && l'.tails[q] == l.tails[q]
    requires forall x: nat | x < |tasks| && x in w :: l'.next[x] == l.next[x] && l'.ready[x] == l.ready[x]
    ensures GoodQueue(tasks, l', q, w)
  {
    forall x | x in w ensures x < |tasks| && l'.next[x] == l.next[x] {
      assert Fit(tasks, l.ready, q, x);
    }
    ChainFrame(l.heads[q], l.next, l'.next, w);
  }

  /** A task of another priority does not stand on queue `r`. */
  lemma OffOthers(tasks: seq<Task>, l: Links, qs: seq<seq<nat>>, x: nat, r: nat)
    requires WellFormed(tasks, l, qs) && r < |qs| && x < |tasks| && (tasks[x].priority != r || !l.ready[x])
    ensures x !in qs[r]
  {
    assert GoodQueue(tasks, l, r, qs[r]);
  }

  /** Unlink the `i`-th task of the queue `w` at `q`. */
  function Unlinked(l: Links, q: nat, w: seq<nat>, i: nat): Links
    requires q < |l.heads| == |l.tails| && i < |w| && forall p | p in w :: p < |l.next| == |l.ready|
  {
    var p := w[i];
    assert p in w && (i > 0 ==> w[i - 1] in w);
    Links(l.ready[p := false],
          if i == 0 then l.heads[q := l.next[p]] else l.heads,
          if l.tails[q] == Some(p) then l.tails[q := if i == 0 then None else Some(w[i - 1])] else l.tails,
          if i == 0 then l.next else l.next[w[i - 1] := l.next[p]])
  }

  lemma QueueRange(tasks: seq<Task>, l: Links, qs: seq<seq<nat>>, q: nat)
    requires WellFormed(tasks, l, qs) && q < |qs|
    ensures forall p | p in qs[q] :: p < |l.next| == |l.ready| == |tasks|
  {
    assert GoodQueue(tasks, l, q, qs[q]);
    forall p | p in qs[q] ensures p < |tasks| {
      assert Fit(tasks, l.ready, q, p);
    }
  }

  lemma UnlinkedQueue(tasks: seq<Task>, l: Links, q: nat, w: seq<nat>, i: nat)
    requires Sized(l, |tasks|) && q < NR_SCHED_QUEUES && GoodQueue(tasks, l, q, w) && i < |w|
    requires forall p | p in w :: p < |l.next| == |l.ready|
    ensures GoodQueue(tasks, Unlinked(l, q, w, i), q, RemoveAt(w, i))
  {
    var l', v := Unlinked(l, q, w, i), RemoveAt(w, i);
    assert w[i] in w;
    ChainRemove(l.heads[q], l.next, w, i);
    RemoveAtNoDup(w, i);
    assert l'.tails[q] == Last(v);
    forall p | p in v ensures Fit(tasks, l'.ready, q, p) {
      assert Fit(tasks, l.ready, q, p);
    }
  }

  lemma UnlinkedOther(tasks: seq<Task>, l: Links, q: nat, w: seq<nat>, i: nat, r: nat, v: seq<nat>)
    requires Sized(l, |tasks|) && q < NR_SCHED_QUEUES && GoodQueue(tasks, l, q, w) && i < |w|
    requires r < NR_SCHED_QUEUES && r != q && GoodQueue(tasks, l, r, v)
    requires forall p | p in w :: p < |l.next| == |l.ready|
    ensures GoodQueue(tasks, Unlinked(l, q, w, i), r, v)
  {
    assert w[i] in w && Fit(tasks, l.ready, q, w[i]);
    assert w[i] !in v by {
      assert w[i] in v ==> Fit(tasks, l.ready, r, w[i]);
    }
    if i > 0 {
      assert w[i - 1] in w && Fit(tasks, l.ready, q, w[i - 1]);
      assert w[i - 1] !in v by {
        assert w[i - 1] in v ==> Fit(tasks, l.ready, r, w[i - 1]);
      }
    }
    OtherQueue(tasks, l, Unlinked(l, q, w, i), r, v);
  }

  lemma UnlinkedPlaced(tasks: seq<Task>, ready: seq<bool>, qs: seq<seq<nat>>, q: nat, i: nat, x: nat)
    requires |tasks| == |ready| && q < |qs| && i < |qs[q]| && qs[q][i] < |tasks| && NoDup(qs[q])
    requires x < |tasks| && Placed(tasks, ready, qs, x)
    ensures Placed(tasks, ready[qs[q][i] := false], qs[q := RemoveAt(qs[q], i)], x)
  {
    RemoveAtNoDup(qs[q], i);
  }

  /** What unlinking leaves is well formed again. */
  lemma UnlinkedOk(tasks: seq<Task>, l: Links, qs: seq<seq<nat>>, q: nat, i: nat)
    requires WellFormed(tasks, l, qs) && q < |qs| && i < |qs[q]|
    requires forall p | p in qs[q] :: p < |l.next| == |l.ready|
    ensures WellFormed(tasks, Unlinked(l, q, qs[q], i), qs[q := RemoveAt(qs[q], i)])
  {
    var w := qs[q];
    var l', qs' := Unlinked(l, q, w, i), qs[q := RemoveAt(w, i)];
    assert GoodQueue(tasks, l, q, w) && w[i] in w;
    UnlinkedQueue(tasks, l, q, w, i);
    forall r | 0 <= r < |qs| ensures GoodQueue(tasks, l', r, qs'[r]) {
      if r != q {
        UnlinkedOther(tasks, l, q, w, i, r, qs[r]);
      }
    }
    forall x: nat | x < |tasks| ensures Placed(tasks, l'.ready, qs', x) {
      UnlinkedPlaced(tasks, l.ready, qs, q, i, x);
    }
  }

  /** Link `p` in at the front or at the back of the queue `w` at `q`. */
  function LinkedIn(l: Links, q: nat, w: seq<nat>, p: nat, front: bool): Links
    requires q < |l.heads| == |l.tails| && p < |l.next| == |l.ready| && forall x | x in w :: x < |l.next|
  {
    if w == [] then Links(l.ready[p := true], l.heads[q := Some(p)], l.tails[q := Some(p)], l.next[p := None])
    else if front then Links(l.ready[p := true], l.heads[q := Some(p)], l.tails, l.next[p := l.heads[q]])
    else
      assert w[|w| - 1] in w;
      Links(l.ready[p := true], l.heads, l.tails[q := Some(p)], l.next[w[|w| - 1] := Some(p)][p := None])
  }

  function Joined(w: seq<nat>, p: nat, front: bool): seq<nat> {
    if front then [p] + w else w + [p]
  }

  lemma LinkedQueue(tasks: seq<Task>, l: Links, w: seq<nat>, p: nat, front: bool)
    requires Sized(l, |tasks|) && p < |tasks| && !l.ready[p] && SlotFree !in tasks[p].flags
    requires tasks[p].priority < NR_SCHED_QUEUES && GoodQueue(tasks, l, tasks[p].priority, w)
    requires forall x | x in w :: x < |l.next|
    ensures GoodQueue(tasks, LinkedIn(l, tasks[p].priority, w, p, front), tasks[p].priority, Joined(w, p, front))
  {
    var q := tasks[p].priority;
    var l', v := LinkedIn(l, q, w, p, front), Joined(w, p, front);
    assert p !in w by {
      assert p in w ==> Fit(tasks, l.ready, q, p);
    }
    if w == [] {
      assert v == [p];
      ChainAppend(l.heads[q], l.next, w, p);
    } else if front {
      ChainPush(l.heads[q], l.next, w, p);
    } else {
      ChainAppend(l.heads[q], l.next, w, p);
    }
    assert l'.tails[q] == Last(v);
    forall x | x in v ensures Fit(tasks, l'.ready, q, x) {
      assert x != p ==> Fit(tasks, l.ready, q, x);
    }
  }

  /** What linking in leaves is well formed again. */
  lemma LinkedOther(tasks: seq<Task>, l: Links, qs: seq<seq<nat>>, p: nat, front: bool, r: nat)
    requires WellFormed(tasks, l, qs) && p < |tasks| && !l.ready[p] && SlotFree !in tasks[p].flags
    requires tasks[p].priority < NR_SCHED_QUEUES && r < NR_SCHED_QUEUES && r != tasks[p].priority
    requires forall x | x in qs[tasks[p].priority] :: x < |l.next|
    ensures GoodQueue(tasks, LinkedIn(l, tasks[p].priority, qs[tasks[p].priority], p, front), r, qs[r])
  {
    var q := tasks[p].priority;
    var w := qs[q];
    assert GoodQueue(tasks, l, q, w) && GoodQueue(tasks, l, r, qs[r]);
    OffOthers(tasks, l, qs, p, r);
    if w != [] {
      assert w[|w| - 1] in w && Fit(tasks, l.ready, q, w[|w| - 1]);
      OffOthers(tasks, l, qs, w[|w| - 1], r);
    }
    OtherQueue(tasks, l, LinkedIn(l, q, w, p, front), r, qs[r]);
  }

  lemma LinkedOk(tasks: seq<Task>, l: Links, qs: seq<seq<nat>>, p: nat, front: bool)
    requires WellFormed(tasks, l, qs) && p < |tasks| && !l.ready[p] && SlotFree !in tasks[p].flags
    requires tasks[p].priority < NR_SCHED_QUEUES
    requires forall x | x in qs[tasks[p].priority] :: x < |l.next|
    ensures var q := tasks[p].priority;
      WellFormed(tasks, LinkedIn(l, q, qs[q], p, front), qs[q := Joined(qs[q], p, front)])
  {
    var q := tasks[p].priority;
    var w := qs[q];
    var l' := LinkedIn(l, q, w, p, front);
    var qs' := qs[q := Joined(w, p, front)];
    assert GoodQueue(tasks, l, q, w);
    LinkedQueue(tasks, l, w, p, front);
    forall r | 0 <= r < |qs| ensures GoodQueue(tasks, l', r, qs'[r]) {
      if r != q {
        LinkedOther(tasks, l, qs, p, front, r);
      }
    }
    forall x: nat | x < |tasks| ensures Placed(tasks, l'.ready, qs', x) {
      assert Placed(tasks, l.ready, qs, x);
    }
  }

  /** A task on no queue may change. */
  lemma UnreadyOk(tasks: seq<Task>, l: Links, qs: seq<seq<nat>>, p: nat, t: Task)
    requires WellFormed(tasks, l, qs) && p < |tasks| && !l.ready[p]
    ensures WellFormed(tasks[p := t], l, qs)
  {
    forall q | 0 <= q < |qs| ensures GoodQueue(tasks[p := t], l, q, qs[q]) {
      assert GoodQueue(tasks, l, q, qs[q]);
      forall x | x in qs[q] ensures Fit(tasks[p := t], l.ready, q, x) {
        assert Fit(tasks, l.ready, q, x);
      }
    }
    var tasks' := tasks[p := t];
    forall x: nat | x < |tasks| ensures Placed(tasks', l.ready, qs, x) {
      assert Placed(tasks, l.ready, qs, x);
    }
  }

  /** A task may change in ways the queues do not show. */
  lemma TouchOk(tasks: seq<Task>, l: Links, qs: seq<seq<nat>>, p: nat, t: Task)
    requires WellFormed(tasks, l, qs) && p < |tasks| && t.priority == tasks[p].priority && t.flags == tasks[p].flags
    ensures WellFormed(tasks[p := t], l, qs)
  {
    var tasks' := tasks[p := t];
    forall q | 0 <= q < |qs| ensures GoodQueue(tasks', l, q, qs[q]) {
      assert GoodQueue(tasks, l, q, qs[q]);
      forall x | x in qs[q] ensures Fit(tasks', l.ready, q, x) {
        assert Fit(tasks, l.ready, q, x);
      }
    }
    forall x: nat | x < |tasks| ensures Placed(tasks', l.ready, qs, x) {
      assert Placed(tasks, l.ready, qs, x);
    }
  }

  /** A ready task in use stands on its queue; slots not in use are not looked at. */
  predicate PlacedIfUsed(tasks: seq<Task>, ready: seq<bool>, qs: seq<seq<nat>>, p: nat)
    requires p < |tasks| == |ready|
  {
    tasks[p].flags != {SlotFree} ==> Placed(tasks, ready, qs, p)
  }

  /** What the kernel's check is to establish. */
  ghost predicate Passes(tasks: seq<Task>, l: Links, qs: seq<seq<nat>>) {
    && Sized(l, |tasks|) && |qs| == NR_SCHED_QUEUES
    && (forall q | 0 <= q < |qs| :: GoodQueue(tasks, l, q, qs[q]))
    && forall p: nat | p < |tasks| :: PlacedIfUsed(tasks, l.ready, qs, p)
  }

  /** The element of `w` at `i`, or what comes after `w`. */
  function Then(w: seq<nat>, i: nat, xp: Link): Link {
    if i < |w| then Some(w[i]) else xp
  }

  /** The list from the head of `q` begins with `w` and goes on at `xp`. */
  ghost predicate Follows(l: Links, q: nat, w: seq<nat>, xp: Link)
    requires q < |l.heads|
  {
    && l.heads[q] == Then(w, 0, xp)
    && forall i: nat | i < |w| :: w[i] < |l.next| && l.next[w[i]] == Then(w, i + 1, xp)
  }

  lemma FollowsOn(l: Links, q: nat, w: seq<nat>, x: nat)
    requires q < |l.heads| && Follows(l, q, w, Some(x)) && x < |l.next|
    ensures Follows(l, q, w + [x], l.next[x])
  {
    var v := w + [x];
    forall i: nat | i < |v| ensures v[i] < |l.next| && l.next[v[i]] == Then(v, i + 1, l.next[x]) {
      if i < |w| {
        assert v[i] == w[i] && l.next[w[i]] == Then(w, i + 1, Some(x));
      }
    }
  }

  lemma FollowsAll(l: Links, q: nat, w: seq<nat>)
    requires q < |l.heads| && Follows(l, q, w, None)
    ensures Chain(l.heads[q], l.next, w)
  {
    forall i: nat | i < |w| ensures w[i] < |l.next| && l.next[w[i]] == At(w, i + 1) {
      assert l.next[w[i]] == Then(w, i + 1, None);
    }
  }

  lemma FollowsNone(tasks: seq<Task>, l: Links, q: nat)
    requires q < |l.heads|
    ensures Follows(l, q, [], l.heads[q]) && AllFit(tasks, l.ready, q, []) && NoDup<nat>([])
  {
  }

  lemma FollowsHead(l: Links, q: nat, w: seq<nat>)
    requires q < |l.heads| && Follows(l, q, w, None) && w == []
    ensures l.heads[q] == None
  {
  }

  lemma GoodBuilt(tasks: seq<Task>, l: Links, q: nat, w: seq<nat>)
    requires Sized(l, |tasks|) && q < NR_SCHED_QUEUES && Follows(l, q, w, None) && AllFit(tasks, l.ready, q, w) && NoDup(w)
    requires l.tails[q] == Last(w)
    ensures GoodQueue(tasks, l, q, w)
  {
    FollowsAll(l, q, w);
  }

  lemma Grown(tasks: seq<Task>, ready: seq<bool>, q: nat, w: seq<nat>, x: nat)
    requires AllFit(tasks, ready, q, w) && NoDup(w) && Fit(tasks, ready, q, x) && x !in w
    ensures AllFit(tasks, ready, q, w + [x]) && NoDup(w + [x]) && |w| < |tasks|
  {
    forall y | y in w + [x] ensures y < |tasks| {
      assert Fit(tasks, ready, q, y);
    }
    Distinct(w + [x], |tasks|);
  }

  /** `all` holds, each once, the tasks on the good queues `built`. */
  ghost predicate Collected(tasks: seq<Task>, l: Links, built: seq<seq<nat>>, all: seq<nat>) {
    && Sized(l, |tasks|) && |built| <= NR_SCHED_QUEUES && |all| <= |tasks| && NoDup(all)
    && (forall r | 0 <= r < |built| :: GoodQueue(tasks, l, r, built[r]))
    && (forall r, x | 0 <= r < |built| && x in built[r] :: x in all)
    && forall x | x in all :: x < |tasks| && tasks[x].priority < |built| && x in built[tasks[x].priority]
  }

  lemma CollectedNone(tasks: seq<Task>, l: Links)
    requires Sized(l, |tasks|)
    ensures Collected(tasks, l, [], [])
  {
  }

  lemma CollectedAll(tasks: seq<Task>, l: Links, built: seq<seq<nat>>, all: seq<nat>)
    requires Sized(l, |tasks|) && Collected(tasks, l, built, all)
    ensures |built| <= NR_SCHED_QUEUES && forall q | 0 <= q < |built| :: GoodQueue(tasks, l, q, built[q])
    ensures forall x: nat | x < |tasks| :: x in all <==> tasks[x].priority < |built| && x in built[tasks[x].priority]
    ensures forall x | x in all :: x < |tasks| && tasks[x].priority < |built|
  {
  }

  lemma Collect(tasks: seq<Task>, l: Links, built: seq<seq<nat>>, all: seq<nat>, w: seq<nat>)
    requires Collected(tasks, l, built, all) && |built| < NR_SCHED_QUEUES && GoodQueue(tasks, l, |built|, w)
    ensures Collected(tasks, l, built + [w], all + w)
  {
    var all', built' := all + w, built + [w];
    forall x | x in w ensures x < |tasks| && tasks[x].priority == |built| && x !in all {
      assert Fit(tasks, l.ready, |built|, x);
    }
    forall i, j | 0 <= i < j < |all'| ensures all'[i] != all'[j] {
      if i < |all| <= j {
        assert all[i] in all && w[j - |all|] in w;
      }
    }
    Distinct(all', |tasks|);
    forall r | 0 <= r < |built'| ensures GoodQueue(tasks, l, r, built'[r]) {
    }
    forall x | x in all' ensures x < |tasks| && tasks[x].priority < |built'| && x in built'[tasks[x].priority] {
    }
  }

  /** The ends of a good queue. */
  lemma GoodEnds(tasks: seq<Task>, l: Links, q: nat, v: seq<nat>)
    requires Sized(l, |tasks|) && q < NR_SCHED_QUEUES && GoodQueue(tasks, l, q, v)
    ensures l.heads[q] == None <==> l.tails[q] == None
    ensures l.tails[q] != None ==> l.tails[q].value < |l.next| && l.next[l.tails[q].value] == None
  {
  }

  lemma GoodEnd(tasks: seq<Task>, l: Links, q: nat, v: seq<nat>, k: nat)
    requires Sized(l, |tasks|) && q < NR_SCHED_QUEUES && GoodQueue(tasks, l, q, v) && k <= |v| && At(v, k) == None
    ensures k == |v|
  {
  }

  lemma GoodStart(tasks: seq<Task>, l: Links, q: nat, v: seq<nat>)
    requires Sized(l, |tasks|) && q < NR_SCHED_QUEUES && GoodQueue(tasks, l, q, v)
    ensures l.heads[q] == At(v, 0)
  {
  }

  /** What holds at each element of a good queue. */
  lemma GoodAt(tasks: seq<Task>, l: Links, q: nat, v: seq<nat>, k: nat)
    requires Sized(l, |tasks|) && q < NR_SCHED_QUEUES && GoodQueue(tasks, l, q, v) && k < |v|
    ensures Fit(tasks, l.ready, q, v[k]) && v[k] !in v[..k] && v[k] < |l.next|
    ensures l.next[v[k]] == At(v, k + 1) && (l.next[v[k]] == None ==> l.tails[q] == Some(v[k]))
  {
    assert v[k] in v;
  }

  class Scheduler {
    const task: array<Task>
    const ready: array<bool>
    const nextReady: array<Link>
    const rdyHead: array<Link>
    const rdyTail: array<Link>
    const idle: nat
    var current: nat
    var bill: nat
    ghost var queues: seq<seq<nat>>

    ghost function Struct(): Links
      reads ready, nextReady, rdyHead, rdyTail
    {
      Links(ready[..], rdyHead[..], rdyTail[..], nextReady[..])
    }

    ghost function Abs(): Sched
      reads this, task
    {
      Sched(task[..], queues, current, bill, idle)
    }

    ghost predicate Valid()
      reads this, task, ready, nextReady, rdyHead, rdyTail
    {
      && nextReady != rdyHead && nextReady != rdyTail && rdyHead != rdyTail
      && WellFormed(task[..], Struct(), queues)
      && Shaped(Abs())
    }

    /** Starts with every slot stopped and all queues empty. */
    constructor (tasks: array<Task>, idle: nat, first: nat)
      requires idle < tasks.Length && first < tasks.Length && !tasks[idle].preemptible
      requires exists r :: Blocked(r) in tasks[idle].flags
      requires forall p | 0 <= p < tasks.Length ::
        && tasks[p].flags != {} && Preempted !in tasks[p].flags && NoQuantum !in tasks[p].flags
        && tasks[p].maxPriority <= tasks[p].priority < NR_SCHED_QUEUES
      ensures task == tasks && Valid() && Start(Abs())
    {
      task := tasks;
      this.idle := idle;
      current, bill := first, first;
      ready := new bool[tasks.Length](_ => false);
      nextReady := new Link[tasks.Length](_ => None);
      rdyHead := new Link[NR_SCHED_QUEUES](_ => None);
      rdyTail := new Link[NR_SCHED_QUEUES](_ => None);
      queues := seq(NR_SCHED_QUEUES, _ => []);
    }

    /** Walk the queue of `p` up to `p`; `prev` is the task before it. */
    method Locate(p: nat) returns (prev: Link, ghost i: nat)
      requires Valid() && p < task.Length && ready[p]
      ensures var w := queues[task[p].priority];
        && i < |w| && w[i] == p && (forall j | 0 <= j < i :: w[j] != p)
        && prev == if i == 0 then None else Some(w[i - 1])
    {
      var q := task[p].priority;
      ghost var w, links := queues[q], nextReady[..];
      assert GoodQueue(task[..], Struct(), q, w);
      assert Chain(rdyHead[q], links, w);
      assert Placed(task[..], ready[..], queues, p);
      ghost var k :| 0 <= k < |w| && w[k] == p;
      prev, i := None, 0;
      var cur := rdyHead[q];
      while cur != Some(p)
        invariant i <= k && cur == At(w, i)
        invariant prev == if i == 0 then None else Some(w[i - 1])
        invariant forall j | 0 <= j < i :: w[j] != p
        decreases k - i
      {
        assert links[w[i]] == nextReady[w[i]];
        prev, cur, i := cur, nextReady[cur.value], i + 1;
      }
    }

    /** The assignments that unlink `p`. */
    method Cut(q: nat, prev: Link, p: nat, ghost w: seq<nat>, ghost i: nat)
      requires nextReady != rdyHead && nextReady != rdyTail && rdyHead != rdyTail
      requires q < rdyHead.Length == rdyTail.Length && i < |w| && w[i] == p
      requires forall x | x in w :: x < nextReady.Length == ready.Length
      requires prev == if i == 0 then None else Some(w[i - 1])
      modifies ready, nextReady, rdyHead, rdyTail
      ensures Struct() == Unlinked(old(Struct()), q, w, i)
    {
      assert w[i] in w && (i > 0 ==> w[i - 1] in w);
      if prev == None {
        rdyHead[q] := nextReady[p];
      } else {
        nextReady[prev.value] := nextReady[p];
      }
      if rdyTail[q] == Some(p) {
        rdyTail[q] := prev;
      }
      ready[p] := false;
    }

    /** Take `p` off its queue. */
    method Dequeue(p: nat)
      requires Valid() && p < task.Length && ready[p]
      modifies this`queues, ready, nextReady, rdyHead, rdyTail
      ensures Valid() && Abs() == M.Dequeue(old(Abs()), p) && !ready[p]
    {
      hide GoodQueue;
      var q := task[p].priority;
      ghost var w, l := queues[q], Struct();
      var prev, i := Locate(p);
      QueueRange(task[..], l, queues, q);
      UnlinkedOk(task[..], l, queues, q, i);
      WithoutFirst(w, p, i);
      Cut(q, prev, p, w, i);
      queues := queues[q := RemoveAt(w, i)];
      assert Struct().ready[p] == false;
    }

    /** The assignments that link `p` in. */
    method Join(q: nat, p: nat, front: bool, ghost w: seq<nat>)
      requires nextReady != rdyHead && nextReady != rdyTail && rdyHead != rdyTail
      requires q < rdyHead.Length == rdyTail.Length && p < nextReady.Length == ready.Length
      requires rdyHead[q] == At(w, 0) && rdyTail[q] == Last(w) && forall x | x in w :: x < nextReady.Length
      modifies ready, nextReady, rdyHead, rdyTail
      ensures Struct() == LinkedIn(old(Struct()), q, w, p, front)
    {
      assert w != [] ==> w[|w| - 1] in w;
      if rdyHead[q] == None {
        rdyHead[q] := Some(p);
        rdyTail[q] := Some(p);
        nextReady[p] := None;
      } else if front {
        nextReady[p] := rdyHead[q];
        rdyHead[q] := Some(p);
      } else {
        nextReady[rdyTail[q].value] := Some(p);
        rdyTail[q] := Some(p);
        nextReady[p] := None;
      }
      ready[p] := true;
    }

    /** Put `p` on the queue of its priority. */
    method Insert(p: nat, front: bool)
      requires Valid() && p < task.Length && !ready[p] && SlotFree !in task[p].flags
      modifies this`queues, ready, nextReady, rdyHead, rdyTail
      ensures Valid() && Abs() == M.Insert(old(Abs()), p, front)
    {
      var q := task[p].priority;
      ghost var w, l := queues[q], Struct();
      QueueRange(task[..], l, queues, q);
      assert GoodQueue(task[..], l, q, w);
      LinkedOk(task[..], l, queues, p, front);
      Join(q, p, front, w);
      queues := queues[q := Joined(w, p, front)];
    }

    /** Change a task that stands on no queue. */
    method Assign(p: nat, t: Task)
      requires Valid() && p < task.Length && !ready[p] && t.priority < NR_SCHED_QUEUES
      modifies task
      ensures Valid() && Abs() == M.Put(old(Abs()), p, t)
    {
      UnreadyOk(task[..], Struct(), queues, p, t);
      ghost var was := task[..];
      task[p] := t;
      assert task[..] == was[p := t];
      assert forall x | 0 <= x < task.Length :: was[x].priority < NR_SCHED_QUEUES;
    }

    /** A task is marked ready exactly when it is on a queue. */
    lemma ReadyIff(p: nat, x: int)
      requires Valid() && Exact(Abs(), x) && p < task.Length
      ensures ready[p] <==> Runnable(task[p]) && p != x
    {
      var q := task[p].priority;
      assert ExactAt(Abs(), x, q);
      assert GoodQueue(task[..], Struct(), q, queues[q]);
      assert Placed(task[..], ready[..], queues, p);
      assert p in queues[q] <==> Belongs(Abs(), x, p, q);
      assert p in queues[q] ==> Fit(task[..], ready[..], q, p);
    }

    method RtsSet(p: nat, f: Flag)
      requires Valid() && Exact(Abs(), NOBODY) && p < task.Length
      modifies this`queues, task, ready, nextReady, rdyHead, rdyTail
      ensures Valid() && Abs() == M.RtsSet(old(Abs()), p, f) && Exact(Abs(), NOBODY)
    {
      SetExact(Abs(), p, f);
      ReadyIff(p, NOBODY);
      if task[p].flags == {} {
        Dequeue(p);
      }
      Assign(p, task[p].(flags := task[p].flags + {f}));
    }

    /** Put the runnable task `p` on a queue, by policy, and preempt the current task if `p` beats it. */
    method Enqueue(p: nat)
      requires Valid() && p < task.Length && Exact(Abs(), p) && Runnable(task[p])
      modifies this`queues, task, ready, nextReady, rdyHead, rdyTail
      ensures Valid() && Abs() == M.Enqueue(old(Abs()), p) && Exact(Abs(), NOBODY)
    {
      ghost var s := Abs();
      ReadyIff(p, p);
      var t := task[p];
      var timeLeft := t.ticksLeft > 0;
      PutExact(s, p, Policy(t));
      InsertExact(M.Put(s, p, Policy(t)), p, timeLeft);
      if !timeLeft {
        t := t.(ticksLeft := t.quantum);
        if t.priority < NR_SCHED_QUEUES - 1 {
          t := t.(priority := t.priority + 1);
        }
      }
      Assign(p, t);
      Insert(p, timeLeft);
      var c := task[current];
      if c.priority > task[p].priority && c.preemptible {
        RtsSet(current, Preempted);
      }
    }

    method RtsUnset(p: nat, f: Flag)
      requires Valid() && Exact(Abs(), NOBODY) && p < task.Length
      modifies this`queues, task, ready, nextReady, rdyHead, rdyTail
      ensures Valid() && Abs() == M.RtsUnset(old(Abs()), p, f) && Exact(Abs(), NOBODY)
    {
      ghost var s := Abs();
      UnsetExact(s, p, f);
      ReadyIff(p, NOBODY);
      var was := task[p].flags;
      if was == {} {
        assert task[p] == task[p].(flags := was - {f});
        assert M.Put(s, p, task[p]) == s;
        return;
      }
      StoppedExact(s, p, NOBODY);
      PutExact(s, p, task[p].(flags := was - {f}));
      Assign(p, task[p].(flags := was - {f}));
      if task[p].flags == {} {
        Enqueue(p);
      }
    }

    method RtsSetFlags(p: nat, flags: set<Flag>)
      requires Valid() && Exact(Abs(), NOBODY) && p < task.Length && flags != {}
      modifies this`queues, task, ready, nextReady, rdyHead, rdyTail
      ensures Valid() && Abs() == M.RtsSetFlags(old(Abs()), p, flags) && Exact(Abs(), NOBODY)
    {
      SetFlagsExact(Abs(), p, flags);
      ReadyIff(p, NOBODY);
      if task[p].flags == {} {
        Dequeue(p);
      }
      Assign(p, task[p].(flags := flags));
    }

    /** The head of the first queue that is not empty. */
    method PickProc() returns (r: Link)
      requires Valid()
      ensures r == Pick(Abs(), 0)
    {
      ghost var s := Abs();
      var q := 0;
      while q < NR_SCHED_QUEUES
        invariant q <= NR_SCHED_QUEUES && Pick(s, 0) == Pick(s, q)
      {
        assert GoodQueue(task[..], Struct(), q, queues[q]) && rdyHead[q] == Struct().heads[q];
        if rdyHead[q] != None {
          return rdyHead[q];
        }
        q := q + 1;
      }
      return None;
    }

    /** `enqueue_head`: a preempted task goes back to the front of its queue. */
    method EnqueueHead(p: nat)
      requires Valid() && p < task.Length && !ready[p] && SlotFree !in task[p].flags
      modifies this`queues, ready, nextReady, rdyHead, rdyTail
      ensures Valid() && Abs() == M.Insert(old(Abs()), p, true)
    {
      var q := task[p].priority;
      ghost var w, l := queues[q], Struct();
      QueueRange(task[..], l, queues, q);
      assert GoodQueue(task[..], l, q, w);
      LinkedOk(task[..], l, queues, p, true);
      if rdyHead[q] == None {
        rdyHead[q] := Some(p);
        rdyTail[q] := Some(p);
        nextReady[p] := None;
      } else {
        nextReady[p] := rdyHead[q];
      }
      rdyHead[q] := Some(p);
      ready[p] := true;
      queues := queues[q := Joined(w, p, true)];
      assert Struct() == LinkedIn(l, q, w, p, true);
    }

    /** One round of `balance_queues`. */
    method BalanceOne(p: nat)
      requires Valid() && Exact(Abs(), NOBODY) && p < task.Length
      modifies this`queues, task, ready, nextReady, rdyHead, rdyTail
      ensures Valid() && Abs() == M.BalanceOne(old(Abs()), p) && Exact(Abs(), NOBODY)
    {
      ghost var s := Abs();
      BalanceOneExact(s, p);
      ReadyIff(p, NOBODY);
      var t := task[p];
      if t.flags != {SlotFree} {
        if t.priority > t.maxPriority {
          if t.flags == {} {
            DequeueExact(s, p);
            Dequeue(p);
          }
          Assign(p, t.(priority := t.priority - 1));
          if t.flags == {} {
            PutExact(M.Dequeue(s, p), p, t.(priority := t.priority - 1));
            Enqueue(p);
          }
        } else {
          Touch(p, t.(ticksLeft := t.quantum));
        }
      }
    }

    /** Change the ticks of a task wherever it stands. */
    method Touch(p: nat, t: Task)
      requires Valid() && p < task.Length && t.priority == task[p].priority && t.flags == task[p].flags
      modifies task
      ensures Valid() && Abs() == M.Put(old(Abs()), p, t)
    {
      TouchOk(task[..], Struct(), queues, p, t);
      ghost var was := task[..];
      task[p] := t;
      assert task[..] == was[p := t];
      assert forall x | 0 <= x < task.Length :: was[x].priority < NR_SCHED_QUEUES;
    }

    method BalanceQueues()
      requires Valid() && Inv(Abs())
      modifies this`queues, task, ready, nextReady, rdyHead, rdyTail
      ensures Valid() && Abs() == Balance(old(Abs()), 0) && Inv(Abs())
    {
      ghost var s := Abs();
      BalanceInv(s, 0);
      var p := 0;
      while p < task.Length
        invariant p <= task.Length && Valid() && Exact(Abs(), NOBODY)
        invariant Balance(s, 0) == Balance(Abs(), p)
      {
        BalanceOne(p);
        p := p + 1;
      }
    }

    /** The clock interrupt, as far as it charges ticks. */
    method TimerTick()
      requires Valid() && Inv(Abs())
      modifies this`queues, task, ready, nextReady, rdyHead, rdyTail
      ensures Valid() && Abs() == M.Tick(old(Abs())) && Inv(Abs())
    {
      ghost var s := Abs();
      TickInv(s);
      var c := current;
      if task[c].preemptible {
        TouchExact(s, c, Charge(s.tasks[c]));
        Touch(c, Charge(task[c]));
      }
      ghost var s1 := Abs();
      if !task[c].billable {
        TouchExact(s1, s.bill, Charge(s1.tasks[s.bill]));
        Touch(bill, Charge(task[bill]));
      }
      if task[c].flags == {} && task[c].ticksLeft <= 0 && task[c].preemptible {
        RtsSet(c, NoQuantum);
      }
    }

    /** Clear the marks of the current task and put it back on its queue if nothing else stops it. */
    method PutBack()
      requires Valid() && Exact(Abs(), NOBODY)
      modifies this`queues, task, ready, nextReady, rdyHead, rdyTail
      ensures Valid() && Abs() == M.PutBack(old(Abs())) && Exact(Abs(), NOBODY)
    {
      ghost var s := Abs();
      PutBackExact(s);
      var c := current;
      ReadyIff(c, NOBODY);
      if Preempted in task[c].flags {
        var t := task[c].(flags := task[c].flags - {Preempted});
        StoppedExact(s, c, NOBODY);
        PutExact(s, c, t);
        Assign(c, t);
        if task[c].flags == {} {
          InsertExact(M.Put(s, c, t), c, true);
          EnqueueHead(c);
        } else {
          StoppedExact(M.Put(s, c, t), c, c);
        }
      }
      if NoQuantum in task[c].flags {
        RtsUnset(c, NoQuantum);
      }
    }

    /** `schedcheck`: decide who runs next. */
    method SchedCheck()
      requires Valid() && Inv(Abs())
      modifies this, task, ready, nextReady, rdyHead, rdyTail
      ensures Valid() && Abs() == M.SchedCheck(old(Abs())) && Inv(Abs())
    {
      hide M.PutBack;
      ghost var s := Abs();
      CheckInv(s);
      if task[current].flags == {} {
        return;
      }
      PutBack();
      PickBest(Abs());
      var next := PickProc();
      current := if next == None then idle else next.value;
      if task[current].billable {
        bill := current;
      }
    }

    /** The loop of the check along one queue. `v` is what the queue is, should it be `good`. */
    method CheckQueue(q: nat, found: array<bool>, ghost seen: set<nat>, ghost good: bool, ghost v: seq<nat>)
        returns (ok: bool, ghost w: seq<nat>)
      requires Sized(Struct(), task.Length) && q < NR_SCHED_QUEUES && found.Length == task.Length && found != ready
      requires rdyTail[q] != None ==> rdyTail[q].value < task.Length
      requires good ==> GoodQueue(task[..], Struct(), q, v)
      requires forall x: nat | x < task.Length :: found[x] <==> x in seen
      requires forall x | x in seen :: x < task.Length && task[x].priority < q
      modifies found
      ensures ok ==> GoodQueue(task[..], Struct(), q, w)
      ensures ok ==> forall x: nat | x < task.Length :: found[x] <==> x in seen || x in w
      ensures good ==> ok && w == v
    {
      hide GoodQueue, Follows, AllFit, NoDup;
      ghost var l, tasks := Struct(), task[..];
      w := [];
      FollowsNone(tasks, l, q);
      if good {
        GoodEnds(tasks, l, q, v);
        GoodStart(tasks, l, q, v);
      }
      if rdyHead[q] != None && rdyTail[q] == None {
        return false, w;
      }
      if rdyHead[q] == None && rdyTail[q] != None {
        return false, w;
      }
      if rdyTail[q] != None && nextReady[rdyTail[q].value] != None {
        return false, w;
      }
      var xp := rdyHead[q];
      while xp != None
        invariant Follows(l, q, w, xp) && AllFit(tasks, l.ready, q, w) && NoDup(w)
        invariant w != [] && xp == None ==> rdyTail[q] == Last(w)
        invariant forall x: nat | x < task.Length :: found[x] <==> x in seen || x in w
        invariant good ==> |w| <= |v| && w == v[..|w|] && xp == At(v, |w|)
        decreases task.Length - |w|
      {
        var x := xp.value;
        if good {
          GoodAt(tasks, l, q, v, |w|);
        }
        if x >= task.Length || SlotFree in task[x].flags || !ready[x] || task[x].priority != q {
          return false, w;
        }
        if found[x] {
          return false, w;
        }
        if nextReady[x] == None && rdyTail[q] != Some(x) {
          return false, w;
        }
        FollowsOn(l, q, w, x);
        Grown(tasks, l.ready, q, w, x);
        found[x] := true;
        w := w + [x];
        xp := nextReady[x];
      }
      assert rdyTail[q] == Last(w) by {
        if w == [] {
          FollowsHead(l, q, w);
        }
      }
      GoodBuilt(tasks, l, q, w);
      if good {
        GoodEnd(tasks, l, q, v, |w|);
      }
      return true, w;
    }

    /** The first part of the check: every queue in turn. `qs` is what the queues are, should they be `good`. */
    method CheckQueues(found: array<bool>, ghost good: bool, ghost qs: seq<seq<nat>>)
        returns (ok: bool, ghost built: seq<seq<nat>>)
      requires Sized(Struct(), task.Length) && found.Length == task.Length && found != ready
      requires forall q | 0 <= q < rdyTail.Length && rdyTail[q] != None :: rdyTail[q].value < task.Length
      requires forall x: nat | x < task.Length :: !found[x]
      requires good ==> |qs| == NR_SCHED_QUEUES && forall q | 0 <= q < |qs| :: GoodQueue(task[..], Struct(), q, qs[q])
      modifies found
      ensures good ==> ok && built == qs
      ensures ok ==> |built| == NR_SCHED_QUEUES && forall q | 0 <= q < |built| :: GoodQueue(task[..], Struct(), q, built[q])
      ensures ok ==> forall x: nat | x < task.Length ::
        found[x] <==> task[x].priority < NR_SCHED_QUEUES && x in built[task[x].priority]
    {
      ghost var l, tasks := Struct(), task[..];
      hide GoodQueue, Collected, NoDup;
      ghost var all: seq<nat> := [];
      built := [];
      CollectedNone(tasks, l);
      var q := 0;
      while q < NR_SCHED_QUEUES
        invariant q <= NR_SCHED_QUEUES && |built| == q
        invariant good ==> built == qs[..q]
        invariant Collected(tasks, l, built, all)
        invariant forall x: nat | x < task.Length :: found[x] <==> x in all
      {
        ghost var w;
        CollectedAll(tasks, l, built, all);
        ok, w := CheckQueue(q, found, (set x | x in all), good, if good then qs[q] else []);
        if !ok {
          return;
        }
        Collect(tasks, l, built, all, w);
        all := all + w;
        built := built + [w];
        q := q + 1;
      }
      CollectedAll(tasks, l, built, all);
      ok := true;
    }

    /** `check_runqueues_f`: passes exactly when the links make up queues of ready tasks, each at its priority. */
    method CheckRunqueues() returns (ok: bool)
      requires Sized(Struct(), task.Length)
      requires forall q | 0 <= q < rdyTail.Length && rdyTail[q] != None :: rdyTail[q].value < task.Length
      ensures ok <==> exists qs :: Passes(task[..], Struct(), qs)
    {
      ghost var l, tasks := Struct(), task[..];
      ghost var good := exists qs :: Passes(tasks, l, qs);
      ghost var qs: seq<seq<nat>> := [];
      if good {
        qs :| Passes(tasks, l, qs);
      }
      var found := new bool[task.Length](_ => false);
      assert Struct() == l && task[..] == tasks;
      ghost var built;
      ok, built := CheckQueues(found, good, qs);
      assert Struct() == l && task[..] == tasks;
      if !ok {
        return;
      }
      var p := 0;
      while p < task.Length
        invariant p <= task.Length
        invariant forall x: nat | x < p :: PlacedIfUsed(tasks, l.ready, built, x)
      {
        if task[p].flags != {SlotFree} && ready[p] && !found[p] {
          assert !PlacedIfUsed(tasks, l.ready, built, p);
          return false;
        }
        p := p + 1;
      }
      assert Passes(tasks, l, built);
    }

    /** The check never fails while the scheduler runs. */
    method CheckPasses() returns (ok: bool)
      requires Valid()
      ensures ok
    {
      forall p: nat | p < task.Length ensures PlacedIfUsed(task[..], ready[..], queues, p) {
        assert Placed(task[..], ready[..], queues, p);
      }
      assert Passes(task[..], Struct(), queues);
      forall q | 0 <= q < rdyTail.Length && rdyTail[q] != None ensures rdyTail[q].value < task.Length {
        assert GoodQueue(task[..], Struct(), q, queues[q]);
        GoodEnds(task[..], Struct(), q, queues[q]);
      }
      ghost var l, tasks := Struct(), task[..];
      ok := CheckRunqueues();
      assert Struct() == l && task[..] == tasks;
    }
  }
}

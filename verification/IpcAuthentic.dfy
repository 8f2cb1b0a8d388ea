/** Every message in the kernel's hands was given to it by the process it is from, for the endpoint it goes to. */
module IpcAuthentic {
  import opened Basics
  import opened IpcModel
  import opened IpcInvariants
  import opened IpcSteps
  import opened IpcCauses
  import opened IpcLog
  import opened IpcArrivals
  import opened IpcNotices
  import opened IpcAsync

  predicate Occupies(s: State, e: Endpoint) {
    e.Ep? && e.slot < |s.procs| && e == EpOf(s, e.slot)
  }

  /** The process `source` is asleep sending `body` to `to`. */
  predicate Asleep(s: State, source: Endpoint, to: Endpoint, body: Body) {
    && Occupies(s, source)
    && var x := s.procs[source.slot]; x.sending && x.sendTo == to && x.sendMsg == body
  }

  predicate Lists(table: seq<Entry>, to: Endpoint, body: Body) {
    exists x | x in table :: Undone(x, to) && x.body == body
  }

  /** The process `source` has an unserved request to send `body` to `to`. */
  predicate Tabled(s: State, source: Endpoint, to: Endpoint, body: Body) {
    Occupies(s, source) && Lists(s.procs[source.slot].table, to, body)
  }

  /** The process `to` has been handed `body` from `source`. */
  predicate HandedOver(s: State, source: Endpoint, to: Endpoint, body: Body) {
    Occupies(s, to) && s.procs[to.slot].inbox == Letter(source, body)
  }

  /** The kernel has the message: in a sleeping sender, in a table or in an inbox. */
  predicate Has(s: State, source: Endpoint, to: Endpoint, body: Body) {
    Asleep(s, source, to, body) || Tabled(s, source, to, body) || HandedOver(s, source, to, body)
  }

  /** The step is a call of `source` that gives the kernel the message. */
  predicate Gives(s: State, e: Step, source: Endpoint, to: Endpoint, body: Body) {
    && e.Trap? && Occupies(s, source) && source.slot == e.caller
    && match e.call
      case Send(d, b, _) => d == to && b == body
      case SendRec(d, b, _) => d == to && b == body
      case Senda(table) => Lists(table, to, body)
      case _ => false
  }

  // ------------------------------------------------------------------ one step

  /** A slot changes hands only when a fork fills it, and the new process has nothing with the kernel. */
  lemma StepHands(s: State, e: Step, p: nat)
    requires Inv(s) && Enabled(s, e) && p < |s.procs|
    ensures |Apply(s, e).procs| == |s.procs|
    ensures var x, y := s.procs[p], Apply(s, e).procs[p];
      y.gen == x.gen || (x.life == Free && !y.sending && y.table == [] && y.inbox == Vacant)
  {
    hide KipcCall, ClearEndpoint;
    match e {
      case Trap(c, call, io) => CallArrives(s, c, call, io);
      case Clear(rc) => ClearHands(s, rc, p);
      case Exit(rc) => ClearHands(s, rc, p);
      case _ =>
    }
  }

  lemma ClearHands(s: State, rc: nat, p: nat)
    requires Shaped(s) && rc < |s.procs| && s.procs[rc].life != Free && p < |s.procs|
    ensures |ClearEndpoint(s, rc).procs| == |s.procs| && ClearEndpoint(s, rc).procs[p].gen == s.procs[p].gen
  {
    hide CallOffs, Without;
  }

  /** A send that is open was open before, or has been accepted since. */
  lemma {:induction false} OpenSince(log: seq<Event>, n: nat, p: nat)
    requires n <= |log| && Open(log, p).Some?
    ensures Open(log[..n], p) == Open(log, p) ||
      exists k | n <= k < |log| :: log[k] == Accepted(p, Open(log, p).value.0, Open(log, p).value.1)
  {
    if n == |log| {
      assert log[..n] == log;
    } else if !About(log[|log| - 1], p) {
      var past := log[..|log| - 1];
      assert past[..n] == log[..n];
      OpenSince(past, n, p);
      if k :| n <= k < |past| && past[k] == Accepted(p, Open(past, p).value.0, Open(past, p).value.1) {
        assert log[k] == past[k];
      }
    }
  }

  lemma StepAsleep(s: State, e: Step, source: Endpoint, to: Endpoint, body: Body)
    requires Inv(s) && Told(s) && Enabled(s, e) && Asleep(Apply(s, e), source, to, body)
    ensures Asleep(s, source, to, body) || Gives(s, e, source, to, body)
  {
    var t, p := Apply(s, e), source.slot;
    StepInv(s, e);
    StepTold(s, e);
    StepCaused(s, e);
    assert WaitsOk(t, p);
    SleepsSince(s, t, e, p);
    StepHands(s, e, p);
    StepHands(s, e, to.slot);
    assert WaitsOk(s, p);
  }

  /** Who sleeps in `t` slept in `s`, or the step is its call. */
  lemma SleepsSince(s: State, t: State, e: Step, p: nat)
    requires Told(s) && Told(t) && AllCaused(s, t, e) && p < |t.procs| && t.procs[p].sending && t.procs[p].sendTo.Ep?
    ensures var y := t.procs[p];
      || (SendsTo(s, p, y.sendTo.slot) && s.procs[p].sendMsg == y.sendMsg)
      || Asks(s, e, p, y.sendTo.slot, y.sendMsg)
  {
    hide Open;
    OpenSince(t.log, |s.log|, p);
    assert t.log[..|s.log|] == s.log;
    ToldMeans(s);
  }

  lemma ShrinksLists(x: seq<Entry>, y: seq<Entry>, to: Endpoint, body: Body)
    requires TableShrinks(x, y) && Lists(y, to, body)
    ensures Lists(x, to, body)
  {
    var i :| 0 <= i < |y| && Undone(y[i], to) && y[i].body == body;
    assert SameOrDone(x[i], y[i]);
    assert x[i] in x;
  }

  /** After an asynchronous send the caller's table is what is left of the one it gave, or as before. */
  lemma SendaTable(s: State, c: nat, table: seq<Entry>, io: Io)
    requires c < |s.procs|
    ensures var t := MiniSenda(s, c, table, io).state;
      && |t.procs| == |s.procs|
      && (t.procs[c].table == s.procs[c].table || TableShrinks(table, t.procs[c].table))
  {
    hide SendaLoop;
    var s0 := Put(s, c, s.procs[c].(table := []));
    OnceSendaLoop(s0, c, table, 0, io);
    SendaLoopEases(s0, c, table, 0, io);
  }

  lemma StepTabled(s: State, e: Step, source: Endpoint, to: Endpoint, body: Body)
    requires Inv(s) && Enabled(s, e) && Tabled(Apply(s, e), source, to, body)
    ensures Tabled(s, source, to, body) || Gives(s, e, source, to, body)
  {
    hide Lists, KipcCall;
    var t, p := Apply(s, e), source.slot;
    SameNumber(s, e);
    StepHands(s, e, p);
    NoLists(to, body);
    if SendsTable(e, p) {
      SendaLists(s, e, to, body);
    } else {
      StepOnce(s, e, p);
      ShrinksLists(s.procs[p].table, t.procs[p].table, to, body);
    }
  }

  lemma NoLists(to: Endpoint, body: Body)
    ensures !Lists([], to, body)
  {
  }

  lemma SendaLists(s: State, e: Step, to: Endpoint, body: Body)
    requires Inv(s) && Enabled(s, e) && e.Trap? && e.call.Senda? && e.caller < |Apply(s, e).procs|
    requires Lists(Apply(s, e).procs[e.caller].table, to, body)
    ensures Lists(s.procs[e.caller].table, to, body) || Lists(e.call.requests, to, body)
  {
    hide Lists, MiniSenda;
    var c, table := e.caller, e.call.requests;
    if Screen(s, c, e.call) == Ok {
      SendaTable(s, c, table, e.io);
      var t := MiniSenda(s, c, table, e.io).state;
      if TableShrinks(table, t.procs[c].table) {
        ShrinksLists(table, t.procs[c].table, to, body);
      }
    }
  }

  lemma StepHandedOver(s: State, e: Step, source: Endpoint, to: Endpoint, body: Body)
    requires Inv(s) && Enabled(s, e) && HandedOver(Apply(s, e), source, to, body)
    ensures Has(s, source, to, body) || Gives(s, e, source, to, body)
  {
    hide KipcCall, Lists, Apply, Inv, Enabled;
    var t, q := Apply(s, e), to.slot;
    SameNumber(s, e);
    StepHands(s, e, q);
    StepExplains(s, e, q);
    if t.procs[q].inbox != s.procs[q].inbox {
      var k :| |s.log| <= k < |t.log| && Carries(t.log[k]) && t.log[k].dst == q && t.log[k].src < |s.procs|
        && Caused(s, e, t.log[k]) && t.procs[q].inbox == Letter(EpOf(s, t.log[k].src), t.log[k].body);
      CausedHas(s, e, t.log[k]);
    }
  }

  /** A message that is logged for a reason was already with the kernel, or is given to it by the step. */
  lemma CausedHas(s: State, e: Step, x: Event)
    requires Inv(s) && Caused(s, e, x) && Carries(x) && x.src < |s.procs|
    ensures x.dst < |s.procs|
    ensures var source, to := EpOf(s, x.src), EpOf(s, x.dst); Has(s, source, to, x.body) || Gives(s, e, source, to, x.body)
  {
    assert WaitsOk(s, x.src);
    if x.Posted? {
      assert x.index < |s.procs[x.src].table| ==> s.procs[x.src].table[x.index] in s.procs[x.src].table;
      assert e.Trap? && e.call.Senda? && x.index < |e.call.requests| ==> e.call.requests[x.index] in e.call.requests;
    }
  }

  lemma StepAuthentic(s: State, e: Step, source: Endpoint, to: Endpoint, body: Body)
    requires Inv(s) && Told(s) && Enabled(s, e) && Has(Apply(s, e), source, to, body)
    ensures Has(s, source, to, body) || Gives(s, e, source, to, body)
  {
    hide Inv, Told, Enabled, Apply, Asleep, Tabled, HandedOver, Gives;
    if Asleep(Apply(s, e), source, to, body) {
      StepAsleep(s, e, source, to, body);
    } else if Tabled(Apply(s, e), source, to, body) {
      StepTabled(s, e, source, to, body);
    } else {
      StepHandedOver(s, e, source, to, body);
    }
  }

  // -------------------------------------------------------------------- a run

  lemma StartHasNothing(s: State, source: Endpoint, to: Endpoint, body: Body)
    requires Start(s)
    ensures !Has(s, source, to, body)
  {
  }

  /**
   In every state of every run, a message that is asleep in its sender, tabled or in an inbox was given to the kernel
   before, in a call of the very process it is from, for the very process it goes to, with the body it has.
   */
  lemma {:induction false} RunAuthentic(states: seq<State>, steps: seq<Step>, n: nat, source: Endpoint, to: Endpoint, body: Body)
    requires IsRun(states, steps) && n < |states| && Has(states[n], source, to, body)
    ensures exists m: nat | m < n :: Gives(states[m], steps[m], source, to, body)
  {
    hide Has, Gives, Inv, Told, Enabled, Apply, Start;
    if n == 0 {
      StartHasNothing(states[0], source, to, body);
    } else {
      RunInv(states, steps, n - 1);
      RunTold(states, steps, n - 1);
      assert states[n - 1 + 1] == Apply(states[n - 1], steps[n - 1]);
      StepAuthentic(states[n - 1], steps[n - 1], source, to, body);
      if Has(states[n - 1], source, to, body) {
        RunAuthentic(states, steps, n - 1, source, to, body);
      }
    }
  }
}

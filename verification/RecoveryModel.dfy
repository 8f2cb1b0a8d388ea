/**
 How the filter driver deals with disk drivers that misbehave: retries, restarts, and giving up the mirror.

 What happens outside the filter is an answer: whether a driver was found at a new endpoint, and whether
 opening the device on it worked.
 */
module RecoveryModel {
  import opened Basics

  datatype Problem = NoProblem | Dead | Proto | Data

  datatype Driver = Driver(problem: Problem, error: int, retries: nat, kills: nat)

  /** NR_RETRIES and NR_RESTARTS. */
  datatype Limits = Limits(retries: nat, restarts: nat)

  datatype State = State(mirror: bool, main: Driver, backup: Driver)

  datatype Which = Main | Backup

  datatype Answer = Answer(reappeared: bool, works: bool)

  /** `Fine`: go on. `Restart`: -EAGAIN. `Fail`: tell the user. */
  datatype Verdict = Fine | Restart | Fail(error: int)

  const EAGAIN := -11
  const EIO := -5

  function Get(s: State, w: Which): Driver {
    if w == Main then s.main else s.backup
  }

  function Put(s: State, w: Which, d: Driver): State {
    if w == Main then s.(main := d) else s.(backup := d)
  }

  /** `bad_driver`. */
  function Mark(s: State, w: Which, p: Problem, error: int): State {
    Put(s, w, Get(s, w).(problem := p, error := error))
  }

  /** What a transfer reports about a driver. */
  datatype Fault = Fault(problem: Problem, error: int)

  datatype Transfer = Over(result: int) | Again(main: Option<Fault>, backup: Option<Fault>)

  predicate FaultOk(f: Option<Fault>) {
    f.Some? ==> f.value.problem != NoProblem && f.value.error != 0
  }

  /** RET_REDO comes with a report about some driver. */
  predicate TransferOk(t: Transfer) {
    t.Again? ==> FaultOk(t.main) && FaultOk(t.backup) && (t.main.Some? || t.backup.Some?)
  }

  function Note(s: State, w: Which, f: Option<Fault>): State {
    match f
    case Some(fault) => Mark(s, w, fault.problem, fault.error)
    case None => s
  }

  /** What is on record once a transfer has reported. */
  function Noted(s: State, t: Transfer): State {
    if t.Over? then s else Note(Note(s, Main, t.main), Backup, t.backup)
  }

  /** `reset_kills`. */
  function Reset(s: State): State {
    s.(main := s.main.(kills := 0, retries := 0), backup := s.backup.(kills := 0, retries := 0))
  }

  /** The end of `check_problem`: one restart more, or the end of the driver. */
  function Kill(l: Limits, s: State, w: Which): (State, Verdict) {
    var d := Get(s, w).(retries := 0, kills := Get(s, w).kills + 1);
    if d.kills < l.restarts then (Put(s, w, d), Restart)
    else if s.mirror then
      (State(false, if w == Main then s.backup else s.main, if w == Main then s.backup else d), Fine)
    else (Put(s, w, d), Fail(if d.error == EAGAIN then EIO else d.error))
  }

  /** `check_problem`, the `attempt`-th time around in `check_driver`. */
  function CheckProblem(l: Limits, s: State, w: Which, p: Problem, attempt: nat, a: Answer): (State, Verdict) {
    if a.reappeared && a.works then (s, Fine)
    else if a.reappeared || p != Dead then
      var d := Get(s, w).(retries := Get(s, w).retries + 1);
      if d.retries < l.retries && attempt == 1 then (Put(s, w, d), Fine)
      else Kill(l, Put(s, w, d), w)
    else Kill(l, s, w)
  }

  /** The outside world, question by question: answers for `check_problem`, and whether a restarted driver opens. */
  datatype World = World(checks: nat -> Answer, opens: nat -> bool)

  /** A round of checking: the new state, what came out, and whether a driver had reappeared and was taken as it was. */
  datatype Checked = Checked(state: State, verdict: Verdict, explained: bool, time: nat)

  function Left(limit: nat, used: nat): nat {
    if used < limit then limit - used else 0
  }

  /** The loop of `check_driver`. */
  function CheckLoop(l: Limits, s: State, w: Which, p: Problem, attempt: nat, world: World, t: nat): Checked
    decreases Left(l.restarts, Get(s, w).kills)
  {
    var s0 := Put(s, w, Get(s, w).(problem := NoProblem));
    var a := world.checks(t);
    var (s1, v) := CheckProblem(l, s0, w, p, attempt, a);
    if v != Restart then Checked(s1, v, a.reappeared && a.works, t + 1)
    else if world.opens(t) then Checked(s1, Fine, false, t + 1)
    else CheckLoop(l, s1, w, Proto, attempt + 1, world, t + 1)
  }

  /** `check_driver`. */
  function CheckDriver(l: Limits, s: State, w: Which, world: World, t: nat): Checked {
    if Get(s, w).problem == NoProblem then Checked(s, Fine, false, t)
    else CheckLoop(l, s, w, Get(s, w).problem, 1, world, t)
  }

  /** What follows a transfer that is to be redone: both drivers are checked. */
  function Round(l: Limits, s: State, world: World, t: nat): Checked {
    var c := CheckDriver(l, s, Main, world, t);
    if c.verdict != Fine then c
    else
      var d := CheckDriver(l, c.state, Backup, world, c.time);
      d.(explained := c.explained || d.explained)
  }

  // ---------------------------------------------------------------- progress

  /** Restarts left, and retries left, of both drivers. */
  function Restarts(l: Limits, s: State): nat {
    Left(l.restarts, s.main.kills) + Left(l.restarts, s.backup.kills)
  }

  function Retries(l: Limits, s: State): nat {
    Left(l.retries, s.main.retries) + Left(l.retries, s.backup.retries)
  }

  /** `s'` is nearer to the end than `s`: mirroring, restarts left, retries left. */
  predicate Nearer(l: Limits, s': State, s: State) {
    || (s.mirror && !s'.mirror)
    || (s.mirror == s'.mirror && Restarts(l, s') < Restarts(l, s))
    || (s.mirror == s'.mirror && Restarts(l, s') == Restarts(l, s) && Retries(l, s') < Retries(l, s))
  }

  predicate Level(l: Limits, s': State, s: State) {
    s.mirror == s'.mirror && Restarts(l, s') == Restarts(l, s) && Retries(l, s') == Retries(l, s)
  }

  /** A problem is recorded with the error to report for it. */
  predicate Sound(d: Driver) {
    d.problem != NoProblem ==> d.error != 0
  }

  predicate AllSound(s: State) {
    Sound(s.main) && Sound(s.backup)
  }

  lemma KillNearer(l: Limits, s: State, w: Which)
    ensures var (s', v) := Kill(l, s, w);
      && (v != Fine ==> s'.mirror == s.mirror)
      && (!v.Fail? ==> Nearer(l, s', s))
      && (v.Restart? ==> Get(s', w).kills == Get(s, w).kills + 1 < l.restarts && Get(s', w).problem == Get(s, w).problem)
  {
  }

  lemma CheckNearer(l: Limits, s: State, w: Which, p: Problem, attempt: nat, a: Answer)
    ensures var (s', v) := CheckProblem(l, s, w, p, attempt, a);
      && (v.Restart? ==> Nearer(l, s', s))
      && (v.Fine? ==> if a.reappeared && a.works then s' == s else Nearer(l, s', s))
  {
    hide Kill;
    if !(a.reappeared && a.works) && (a.reappeared || p != Dead) {
      var d := Get(s, w).(retries := Get(s, w).retries + 1);
      KillNearer(l, Put(s, w, d), w);
    } else if !(a.reappeared && a.works) {
      KillNearer(l, s, w);
    }
  }

  lemma NearerTwice(l: Limits, s'': State, s': State, s: State)
    requires Nearer(l, s'', s') || Level(l, s'', s')
    requires Nearer(l, s', s) || Level(l, s', s)
    ensures Nearer(l, s'', s) || (Level(l, s'', s') && Level(l, s', s) && Level(l, s'', s))
  {
  }

  /** Errors are passed up as they were recorded, -EAGAIN as -EIO. */
  predicate Reportable(v: Verdict) {
    v.Fail? ==> v.error != 0 && v.error != EAGAIN
  }

  lemma CheckSound(l: Limits, s: State, w: Which, p: Problem, attempt: nat, a: Answer)
    requires AllSound(s) && Get(s, w).error != 0 && Get(s, w).problem == NoProblem
    ensures var (s', v) := CheckProblem(l, s, w, p, attempt, a);
      && AllSound(s') && Reportable(v)
      && (v.Restart? ==> Get(s', w).error != 0 && Get(s', w).problem == NoProblem)
  {
  }

  lemma Cleared(l: Limits, s: State, w: Which)
    ensures Level(l, Put(s, w, Get(s, w).(problem := NoProblem)), s)
  {
  }

  lemma {:induction false} LoopNearer(l: Limits, s: State, w: Which, p: Problem, attempt: nat, world: World, t: nat)
    requires AllSound(s) && Get(s, w).error != 0
    ensures var c := CheckLoop(l, s, w, p, attempt, world, t);
      && c.verdict != Restart && AllSound(c.state) && Reportable(c.verdict)
      && (c.verdict == Fine ==> Nearer(l, c.state, s) || (c.explained && Level(l, c.state, s)))
    decreases Left(l.restarts, Get(s, w).kills)
  {
    hide Nearer, Level, CheckProblem, AllSound, Reportable;
    var s0 := Put(s, w, Get(s, w).(problem := NoProblem));
    var a := world.checks(t);
    var (s1, v) := CheckProblem(l, s0, w, p, attempt, a);
    Cleared(l, s, w);
    ClearedSound(s, w);
    CheckSound(l, s0, w, p, attempt, a);
    CheckNearer(l, s0, w, p, attempt, a);
    FineIsReportable();
    if v == Restart {
      NearerTwice(l, s1, s0, s);
      NearerNotLevel(l, s1, s0);
      if !world.opens(t) {
        RestartKills(l, s0, w, p, attempt, a);
        LoopNearer(l, s1, w, Proto, attempt + 1, world, t + 1);
        var c := CheckLoop(l, s1, w, Proto, attempt + 1, world, t + 1);
        if c.verdict == Fine {
          NearerTwice(l, c.state, s1, s);
          NearerNotLevel(l, s1, s);
        }
      }
    } else if v == Fine && !(a.reappeared && a.works) {
      NearerTwice(l, s1, s0, s);
      NearerNotLevel(l, s1, s0);
    }
  }

  lemma FineIsReportable()
    ensures Reportable(Fine)
  {
  }

  lemma ClearedSound(s: State, w: Which)
    requires AllSound(s)
    ensures AllSound(Put(s, w, Get(s, w).(problem := NoProblem)))
  {
  }

  lemma NearerNotLevel(l: Limits, s': State, s: State)
    requires Nearer(l, s', s)
    ensures !Level(l, s', s)
  {
  }

  lemma RestartKills(l: Limits, s: State, w: Which, p: Problem, attempt: nat, a: Answer)
    requires CheckProblem(l, s, w, p, attempt, a).1 == Restart
    ensures Get(CheckProblem(l, s, w, p, attempt, a).0, w).kills == Get(s, w).kills + 1 < l.restarts
  {
  }

  /**
   After a transfer that a driver was reported for, checking the drivers ends in an error to report, or brings the
   filter nearer to the end, unless a driver had come back at a new endpoint by itself.
   */
  lemma RoundNearer(l: Limits, s: State, world: World, t: nat)
    requires AllSound(s) && (s.main.problem != NoProblem || s.backup.problem != NoProblem)
    ensures var c := Round(l, s, world, t);
      && c.verdict != Restart && AllSound(c.state) && Reportable(c.verdict)
      && (c.verdict == Fine ==> Nearer(l, c.state, s) || (c.explained && Level(l, c.state, s)))
  {
    hide Nearer, Level, CheckLoop, Reportable;
    FineIsReportable();
    var c := CheckDriver(l, s, Main, world, t);
    LevelSelf(l, s);
    if s.main.problem != NoProblem {
      LoopNearer(l, s, Main, s.main.problem, 1, world, t);
    }
    if c.verdict == Fine {
      var d := CheckDriver(l, c.state, Backup, world, c.time);
      LevelSelf(l, c.state);
      if c.state.backup.problem != NoProblem {
        LoopNearer(l, c.state, Backup, c.state.backup.problem, 1, world, c.time);
      }
      if d.verdict == Fine {
        NearerTwice(l, d.state, c.state, s);
        if Nearer(l, c.state, s) {
          NearerNotLevel(l, c.state, s);
        }
        if Nearer(l, d.state, c.state) {
          NearerNotLevel(l, d.state, c.state);
        }
      }
    }
  }

  lemma LevelSelf(l: Limits, s: State)
    ensures Level(l, s, s)
  {
  }

  // -------------------------------------------------------------------- runs

  /** The three measures as one number. */
  function Rank(l: Limits, s: State): nat {
    var span := 2 * l.retries + 1;
    (if s.mirror then (2 * l.restarts + 1) * span else 0) + Restarts(l, s) * span + Retries(l, s)
  }

  lemma RankLess(l: Limits, s': State, s: State)
    ensures Nearer(l, s', s) ==> Rank(l, s') < Rank(l, s)
    ensures Level(l, s', s) ==> Rank(l, s') == Rank(l, s)
  {
    hide Restarts, Retries;
    var span := 2 * l.retries + 1;
    Bounds(l, s');
    Bounds(l, s);
    if s.mirror && !s'.mirror {
      MulStep(Restarts(l, s'), 2 * l.restarts + 1, span);
    } else if Restarts(l, s') < Restarts(l, s) {
      MulStep(Restarts(l, s'), Restarts(l, s), span);
    }
  }

  lemma Bounds(l: Limits, s: State)
    ensures Retries(l, s) < 2 * l.retries + 1 && Restarts(l, s) <= 2 * l.restarts
    ensures Restarts(l, s) * (2 * l.retries + 1) >= 0
  {
  }

  /** A transfer that is to be redone: nothing but problems and errors changed, and some driver is reported. */
  ghost predicate Reported(s: State, s': State) {
    && s'.mirror == s.mirror
    && s'.main.retries == s.main.retries && s'.main.kills == s.main.kills
    && s'.backup.retries == s.backup.retries && s'.backup.kills == s.backup.kills
    && AllSound(s') && (s'.main.problem != NoProblem || s'.backup.problem != NoProblem)
  }

  /** One time around the loop of a request: a transfer to be redone, then a round of checks that lets it go on. */
  datatype Turn = Turn(reported: State, world: World, time: nat)

  ghost predicate Goes(l: Limits, s: State, turn: Turn, s': State) {
    && Reported(s, turn.reported)
    && var c := Round(l, turn.reported, turn.world, turn.time);
      c.verdict == Fine && s' == c.state
  }

  ghost predicate IsRun(l: Limits, states: seq<State>, turns: seq<Turn>) {
    |states| == |turns| + 1 && forall i | 0 <= i < |turns| :: Goes(l, states[i], turns[i], states[i + 1])
  }

  predicate Explained(l: Limits, turn: Turn) {
    Round(l, turn.reported, turn.world, turn.time).explained
  }

  /** Turns in which no driver had come back by itself. */
  function Unexplained(l: Limits, turns: seq<Turn>): nat {
    if turns == [] then 0
    else Unexplained(l, turns[..|turns| - 1]) + if Explained(l, turns[|turns| - 1]) then 0 else 1
  }

  /** However drivers misbehave, a request is redone only so often, not counting drivers that came back by themselves. */
  lemma {:induction false} RunBounded(l: Limits, states: seq<State>, turns: seq<Turn>)
    requires IsRun(l, states, turns)
    ensures Unexplained(l, turns) + Rank(l, states[|turns|]) <= Rank(l, states[0])
  {
    if turns != [] {
      var k := |turns| - 1;
      RunBounded(l, states[..k + 1], turns[..k]);
      var s, turn := states[k], turns[k];
      assert Goes(l, s, turn, states[k + 1]);
      RoundNearer(l, turn.reported, turn.world, turn.time);
      assert Level(l, turn.reported, s);
      RankLess(l, turn.reported, s);
      RankLess(l, states[k + 1], turn.reported);
    }
  }

  /** The limit for a request in numbers. */
  lemma RequestBounded(l: Limits, states: seq<State>, turns: seq<Turn>)
    requires IsRun(l, states, turns)
    ensures Unexplained(l, turns) < (2 * l.restarts + 1) * (2 * l.retries + 1) * (if states[0].mirror then 2 else 1)
  {
    RunBounded(l, states, turns);
    RankBound(l, states[0]);
  }

  lemma RankBound(l: Limits, s: State)
    ensures Rank(l, s) < (2 * l.restarts + 1) * (2 * l.retries + 1) * (if s.mirror then 2 else 1)
  {
    hide Restarts, Retries;
    Bounds(l, s);
    MulStep(Restarts(l, s), 2 * l.restarts + 1, 2 * l.retries + 1);
  }

  // ----------------------------------------------------------- what is decided

  /** A report is on record as it was made, and nothing else changes. */
  lemma NotedIs(s: State, t: Transfer, w: Which)
    requires t.Again?
    ensures var f := if w == Main then t.main else t.backup;
      && Noted(s, t).mirror == s.mirror
      && Get(Noted(s, t), w) ==
           if f.Some? then Get(s, w).(problem := f.value.problem, error := f.value.error) else Get(s, w)
  {
  }

  /** A request starts with all its restarts and retries, and what was on record stays there. */
  lemma ResetGives(s: State, w: Which)
    ensures Reset(s).mirror == s.mirror && Get(Reset(s), w) == Get(s, w).(kills := 0, retries := 0)
  {
  }

  function Other(w: Which): Which {
    if w == Main then Backup else Main
  }

  /** An error is passed up as it was recorded, but -EAGAIN as -EIO. */
  function PassedUp(error: int): int {
    if error == -11 then -5 else error
  }

  predicate Back(a: Answer) {
    a.reappeared && a.works
  }

  /** There is still a retry for the problem, and it is the first time around. */
  predicate MayRetry(l: Limits, d: Driver, p: Problem, attempt: nat, a: Answer) {
    (a.reappeared || p != Dead) && d.retries + 1 < l.retries && attempt == 1
  }

  /**
   A driver that is back is let off. One that may be retried is, at the cost of a retry. Any other is killed; it is
   restarted as long as restarts last, with all its retries. After that the mirror goes on with the other one; without
   a mirror the user gets the error.
   */
  lemma CheckDecides(l: Limits, s: State, w: Which, p: Problem, attempt: nat, a: Answer)
    ensures var (s', v) := CheckProblem(l, s, w, p, attempt, a); var d, d' := Get(s, w), Get(s', w);
      var retry, last := MayRetry(l, d, p, attempt, a), d.kills + 1 >= l.restarts;
      && (Back(a) ==> s' == s && v == Fine)
      && (!Back(a) && retry ==> s' == Put(s, w, d.(retries := d.retries + 1)) && v == Fine)
      && (!Back(a) && !retry && !last ==> s' == Put(s, w, d.(retries := 0, kills := d.kills + 1)) && v == Restart)
      && (!Back(a) && !retry && last && s.mirror ==> !s'.mirror && s'.main == Get(s, Other(w)) && v == Fine)
      && (!Back(a) && !retry && last && !s.mirror ==>
            s' == Put(s, w, d.(retries := 0, kills := d.kills + 1)) && v == Fail(PassedUp(d.error)))
  {
  }

  lemma {:induction false} LoopPasses(l: Limits, s: State, w: Which, p: Problem, attempt: nat, world: World, t: nat)
    ensures var c := CheckLoop(l, s, w, p, attempt, world, t);
      c.verdict.Fail? ==> c.verdict == Fail(PassedUp(Get(s, w).error)) && !s.mirror
    decreases Left(l.restarts, Get(s, w).kills)
  {
    hide CheckProblem;
    var s0 := Put(s, w, Get(s, w).(problem := NoProblem));
    var a := world.checks(t);
    var (s1, v) := CheckProblem(l, s0, w, p, attempt, a);
    CheckDecides(l, s0, w, p, attempt, a);
    if v == Restart && !world.opens(t) {
      RestartKills(l, s0, w, p, attempt, a);
      LoopPasses(l, s1, w, Proto, attempt + 1, world, t + 1);
    }
  }

  /**
   A round that fails gives the error on record of the driver that was given up, and there was no mirror to fall back
   on. If it is the backup's, the main driver had passed.
   */
  lemma RoundPasses(l: Limits, s: State, world: World, t: nat)
    ensures var c := CheckDriver(l, s, Main, world, t); var r := Round(l, s, world, t);
      && (c.verdict.Fail? ==> r == c && s.main.problem != NoProblem && !s.mirror && r.verdict == Fail(PassedUp(s.main.error)))
      && (c.verdict == Fine && r.verdict.Fail? ==>
            s.backup.problem != NoProblem && !c.state.mirror && r.verdict == Fail(PassedUp(s.backup.error)))
  {
    hide CheckLoop;
    var c := CheckDriver(l, s, Main, world, t);
    LoopPasses(l, s, Main, s.main.problem, 1, world, t);
    LoopClears(l, s, Main, s.main.problem, 1, world, t);
    LoopPasses(l, c.state, Backup, c.state.backup.problem, 1, world, c.time);
  }

  /** The state and the time after `k` transfers that were redone. */
  function After(l: Limits, s: State, transfers: nat -> Transfer, world: World, t: nat, k: nat): (State, nat) {
    if k == 0 then (s, t)
    else
      var (s1, t1) := After(l, s, transfers, world, t, k - 1);
      var c := Round(l, Noted(s1, transfers(k - 1)), world, t1);
      (c.state, c.time)
  }

  /** What the round after transfer `k` comes to. */
  function Outcome(l: Limits, s: State, transfers: nat -> Transfer, world: World, t: nat, k: nat): Checked {
    var (s1, t1) := After(l, s, transfers, world, t, k);
    Round(l, Noted(s1, transfers(k)), world, t1)
  }

  /** One transfer further on. */
  lemma AfterNext(l: Limits, s: State, transfers: nat -> Transfer, world: World, t: nat, k: nat, s1: State, t1: nat)
    requires After(l, s, transfers, world, t, k) == (s1, t1)
    ensures var c := Outcome(l, s, transfers, world, t, k);
      c == Round(l, Noted(s1, transfers(k)), world, t1) && After(l, s, transfers, world, t, k + 1) == (c.state, c.time)
  {
    hide Round, Noted;
  }

  lemma AfterNone(l: Limits, s: State, transfers: nat -> Transfer, world: World, t: nat)
    ensures After(l, s, transfers, world, t, 0) == (s, t)
  {
  }

  // ------------------------------------------------------- problems on record

  lemma KillClears(l: Limits, s: State, w: Which)
    requires Get(s, w).problem == NoProblem
    ensures var (s', v) := Kill(l, s, w);
      && (w == Main ==> s'.backup == s.backup) && (w == Backup ==> s'.main == s.main)
      && (w == Main && s.mirror && !s'.mirror ==> s'.main == s.backup)
      && (w == Backup || s'.mirror == s.mirror ==> Get(s', w).problem == NoProblem)
      && (!s.mirror ==> !s'.mirror) && (v == Restart ==> s'.mirror == s.mirror)
  {
  }

  lemma CheckClears(l: Limits, s: State, w: Which, p: Problem, attempt: nat, a: Answer)
    requires Get(s, w).problem == NoProblem
    ensures var (s', v) := CheckProblem(l, s, w, p, attempt, a);
      && (w == Main ==> s'.backup == s.backup) && (w == Backup ==> s'.main == s.main)
      && (w == Main && s.mirror && !s'.mirror ==> s'.main == s.backup)
      && (w == Backup || s'.mirror == s.mirror ==> Get(s', w).problem == NoProblem)
      && (!s.mirror ==> !s'.mirror) && (v == Restart ==> s'.mirror == s.mirror)
  {
    hide Kill;
    KillClears(l, s, w);
    KillClears(l, Put(s, w, Get(s, w).(retries := Get(s, w).retries + 1)), w);
  }

  lemma {:induction false} LoopClears(l: Limits, s: State, w: Which, p: Problem, attempt: nat, world: World, t: nat)
    ensures var s' := CheckLoop(l, s, w, p, attempt, world, t).state;
      && (w == Main ==> s'.backup == s.backup) && (w == Backup ==> s'.main == s.main)
      && (w == Main && s.mirror && !s'.mirror ==> s'.main == s.backup)
      && (w == Backup || s'.mirror == s.mirror ==> Get(s', w).problem == NoProblem)
      && (!s.mirror ==> !s'.mirror)
    decreases Left(l.restarts, Get(s, w).kills)
  {
    hide CheckProblem;
    var s0 := Put(s, w, Get(s, w).(problem := NoProblem));
    var a := world.checks(t);
    var (s1, v) := CheckProblem(l, s0, w, p, attempt, a);
    CheckClears(l, s0, w, p, attempt, a);
    if v == Restart && !world.opens(t) {
      RestartKills(l, s0, w, p, attempt, a);
      LoopClears(l, s1, w, Proto, attempt + 1, world, t + 1);
    }
  }

  /** How often the driver is killed before it is given up. */
  function KillsLeft(l: Limits, d: Driver): nat {
    if d.kills + 1 < l.restarts then l.restarts - d.kills else 1
  }

  /** At none of the `n` checks from time `t` on is the driver back, and none of the restarts between them works. */
  ghost predicate NeverUp(world: World, t: nat, n: nat) {
    (forall k: nat | t <= k < t + n :: !Back(world.checks(k))) && forall k: nat | t <= k < t + n - 1 :: !world.opens(k)
  }

  /** The driver is reported, the report is not met with a retry, and no restart that is left to it works. */
  ghost predicate GivenUp(l: Limits, d: Driver, world: World, t: nat) {
    && d.problem != NoProblem
    && !((world.checks(t).reappeared || d.problem != Dead) && d.retries + 1 < l.retries)
    && NeverUp(world, t, KillsLeft(l, d))
  }

  lemma {:induction false} LoopDrops(l: Limits, s: State, w: Which, p: Problem, attempt: nat, world: World, t: nat)
    requires s.mirror && attempt > 0
    ensures var d := Get(s, w);
      !CheckLoop(l, s, w, p, attempt, world, t).state.mirror <==>
        && !((world.checks(t).reappeared || p != Dead) && d.retries + 1 < l.retries && attempt == 1)
        && NeverUp(world, t, KillsLeft(l, d))
    decreases Left(l.restarts, Get(s, w).kills)
  {
    var s0 := Put(s, w, Get(s, w).(problem := NoProblem));
    var a := world.checks(t);
    var (s1, v) := CheckProblem(l, s0, w, p, attempt, a);
    if v == Restart {
      RestartKills(l, s0, w, p, attempt, a);
      var n := KillsLeft(l, Get(s, w));
      assert KillsLeft(l, Get(s1, w)) == n - 1 > 0;
      NeverUpLater(world, t, n);
      if !world.opens(t) {
        LoopDrops(l, s1, w, Proto, attempt + 1, world, t + 1);
      }
    }
  }

  lemma NeverUpLater(world: World, t: nat, n: nat)
    requires n > 1
    ensures NeverUp(world, t, n) <==> !Back(world.checks(t)) && !world.opens(t) && NeverUp(world, t + 1, n - 1)
  {
  }

  /** Checking a driver ends mirroring exactly when that driver is given up. */
  lemma MirrorDropped(l: Limits, s: State, w: Which, world: World, t: nat)
    requires s.mirror
    ensures !CheckDriver(l, s, w, world, t).state.mirror <==> GivenUp(l, Get(s, w), world, t)
  {
    hide CheckLoop;
    if Get(s, w).problem != NoProblem {
      LoopDrops(l, s, w, Get(s, w).problem, 1, world, t);
    }
  }

  /**
   A round that lets a request go on leaves a problem on record exactly when it gives up the main driver while the
   backup is reported too: the backup's record is then dealt with, and its copy is not.
   */
  lemma RoundLeaves(l: Limits, s: State, world: World, t: nat)
    ensures var c := Round(l, s, world, t);
      c.verdict == Fine ==>
        && c.state.backup.problem == NoProblem
        && (c.state.main.problem != NoProblem <==>
              s.mirror && GivenUp(l, s.main, world, t) && s.backup.problem != NoProblem)
  {
    hide CheckLoop, GivenUp;
    var c := CheckDriver(l, s, Main, world, t);
    if s.mirror {
      MirrorDropped(l, s, Main, world, t);
    }
    LoopClears(l, s, Main, s.main.problem, 1, world, t);
    LoopClears(l, c.state, Backup, c.state.backup.problem, 1, world, c.time);
  }

  /** Both drivers are reported, the main one has no restarts left, and the other's problem is still there afterwards. */
  lemma LeftOnRecord()
    ensures exists l: Limits, s: State, world: World ::
      && AllSound(s) && Round(l, s, world, 0).verdict == Fine && Round(l, s, world, 0).state.main.problem != NoProblem
  {
    var l, s := Limits(3, 1), State(true, HEALTHY.(problem := Dead, error := EIO), HEALTHY.(problem := Proto, error := EIO));
    var world := World(_ => Answer(false, true), _ => true);
    assert CheckDriver(l, s, Main, world, 0) == Checked(State(false, s.backup, s.backup), Fine, false, 1);
    assert Round(l, s, world, 0).verdict == Fine;
    MirrorDropped(l, s, Main, world, 0);
    RoundLeaves(l, s, world, 0);
  }

  // ---------------------------------------------------------------- endings

  /** From time `n` on, no driver comes back by itself. */
  ghost predicate Calm(world: World, n: nat) {
    forall t: nat | t >= n :: !(world.checks(t).reappeared && world.checks(t).works)
  }

  lemma {:induction false} LoopAsks(l: Limits, s: State, w: Which, p: Problem, attempt: nat, world: World, t: nat, n: nat)
    requires Calm(world, n)
    ensures var c := CheckLoop(l, s, w, p, attempt, world, t); c.time > t && (t >= n ==> !c.explained)
    decreases Left(l.restarts, Get(s, w).kills)
  {
    hide CheckProblem;
    var s0 := Put(s, w, Get(s, w).(problem := NoProblem));
    var a := world.checks(t);
    var (s1, v) := CheckProblem(l, s0, w, p, attempt, a);
    if v == Restart && !world.opens(t) {
      RestartKills(l, s0, w, p, attempt, a);
      LoopAsks(l, s1, w, Proto, attempt + 1, world, t + 1, n);
    }
  }

  /** A round after a report puts some question to the outside world; once that is calm, no round is explained. */
  lemma RoundAsks(l: Limits, s: State, world: World, t: nat, n: nat)
    requires Calm(world, n) && AllSound(s) && (s.main.problem != NoProblem || s.backup.problem != NoProblem)
    ensures var c := Round(l, s, world, t); c.time >= t && (c.verdict == Fine ==> c.time > t) && (t >= n ==> !c.explained)
  {
    hide CheckLoop;
    var c := CheckDriver(l, s, Main, world, t);
    LoopAsks(l, s, Main, s.main.problem, 1, world, t, n);
    LoopAsks(l, c.state, Backup, c.state.backup.problem, 1, world, c.time, n);
  }

  const HEALTHY := Driver(NoProblem, 0, 0, 0)

  /** A world in which every driver in trouble is back before anyone asks. */
  function Jumpy(): World {
    World(_ => Answer(true, true), _ => true)
  }

  /** There a request can be redone any number of times: each report is met with a driver that has come back. */
  lemma NeverEnds(l: Limits, mirror: bool, n: nat)
    ensures exists states: seq<State>, turns: seq<Turn> ::
      |turns| == n && IsRun(l, states, turns) && forall i | 0 <= i < n :: Explained(l, turns[i])
  {
    var s := State(mirror, HEALTHY, HEALTHY);
    var turn := Turn(Mark(s, Main, Proto, EIO), Jumpy(), 0);
    var c := Round(l, turn.reported, turn.world, turn.time);
    assert CheckDriver(l, turn.reported, Main, turn.world, 0) == Checked(s.(main := HEALTHY.(error := EIO)), Fine, true, 1);
    var s' := s.(main := HEALTHY.(error := EIO));
    assert c == Checked(s', Fine, true, 1);
    assert Goes(l, s, turn, s') && Goes(l, s', turn, s');
    var states := seq(n + 1, i => if i == 0 then s else s');
    var turns := seq(n, _ => turn);
    assert IsRun(l, states, turns);
  }
}

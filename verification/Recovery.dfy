/** The filter driver's table of disk drivers, and the loop around a request. */
module Recovery {
  import opened Basics
  import M = RecoveryModel
  import opened RecoveryModel

  function Slot(w: Which): nat {
    if w == Main then 0 else 1
  }

  /** The error is that of a fault in the last report, or else the one that was on record for the main driver before it. */
  predicate Blamed(l: Limits, s: State, transfers: nat -> Transfer, world: World, t: nat, rounds: nat, error: int) {
    var (s1, t1) := After(l, Reset(s), transfers, world, t, rounds);
    var last := transfers(rounds);
    last.Again? &&
    (|| (last.main.Some? && error == PassedUp(last.main.value.error))
     || (last.backup.Some? && error == PassedUp(last.backup.value.error))
     || (last.main == None && s1.main.problem != NoProblem && error == PassedUp(s1.main.error))
     || (last.backup == None && s1.backup.problem != NoProblem && error == PassedUp(s1.backup.error)))
  }

  lemma NamesFault(l: Limits, s: State, transfers: nat -> Transfer, world: World, t: nat, rounds: nat)
    requires transfers(rounds).Again?
    ensures var v := Outcome(l, Reset(s), transfers, world, t, rounds).verdict;
      v.Fail? ==> Blamed(l, s, transfers, world, t, rounds, v.error)
  {
    hide CheckDriver, After, Reset;
    var (s1, t1) := After(l, Reset(s), transfers, world, t, rounds);
    RoundPasses(l, Noted(s1, transfers(rounds)), world, t1);
    NotedIs(s1, transfers(rounds), Main);
    NotedIs(s1, transfers(rounds), Backup);
  }

  lemma ResetStaysSound(s: State)
    requires AllSound(s)
    ensures AllSound(Reset(s))
  {
  }

  class Drivers {
    const limits: Limits
    const world: World
    var mirror: bool
    const driver: array<Driver>
    /** Questions put to the outside world so far. */
    var time: nat

    ghost predicate Valid() {
      driver.Length == 2
    }

    ghost function Abs(): State
      reads this, driver
      requires Valid()
    {
      State(mirror, driver[0], driver[1])
    }

    constructor (limits: Limits, world: World, mirror: bool)
      ensures Valid() && fresh(driver) && this.limits == limits && this.world == world
      ensures Abs() == State(mirror, Driver(NoProblem, 0, 0, 0), Driver(NoProblem, 0, 0, 0)) && time == 0
    {
      this.limits := limits;
      this.world := world;
      this.mirror := mirror;
      driver := new Driver[2](_ => Driver(NoProblem, 0, 0, 0));
      time := 0;
    }

    /** `reset_kills`. */
    method ResetKills()
      requires Valid()
      modifies driver
      ensures Abs() == Reset(old(Abs()))
    {
      driver[0] := driver[0].(kills := 0, retries := 0);
      driver[1] := driver[1].(kills := 0, retries := 0);
    }

    /** `bad_driver`. */
    method BadDriver(w: Which, problem: Problem, error: int)
      requires Valid()
      modifies driver
      ensures Abs() == Mark(old(Abs()), w, problem, error)
    {
      driver[Slot(w)] := driver[Slot(w)].(problem := problem, error := error);
    }

    /** `check_problem`. */
    method CheckProblem(w: Which, reported: Problem, attempt: nat) returns (v: Verdict)
      requires Valid()
      modifies this, driver
      ensures (Abs(), v) == M.CheckProblem(limits, old(Abs()), w, reported, attempt, world.checks(old(time)))
      ensures time == old(time) + 1
    {
      var i, problem, a := Slot(w), reported, world.checks(time);
      time := time + 1;
      if a.reappeared {
        if a.works {
          return Fine;
        }
        problem := Proto;
      }
      if problem != Dead {
        driver[i] := driver[i].(retries := driver[i].retries + 1);
        if driver[i].retries < limits.retries && attempt == 1 {
          return Fine;
        }
      }
      driver[i] := driver[i].(retries := 0, kills := driver[i].kills + 1);
      if driver[i].kills < limits.restarts {
        return Restart;
      }
      if mirror {
        mirror := false;
        if w == Main {
          driver[0] := driver[1];
        }
        return Fine;
      }
      return Fail(if driver[i].error == EAGAIN then EIO else driver[i].error);
    }

    /** `check_driver`: see if a driver was reported, and deal with it. */
    method CheckDriver(w: Which) returns (v: Verdict, ghost explained: bool)
      requires Valid()
      modifies this, driver
      ensures Checked(Abs(), v, explained, time) == M.CheckDriver(limits, old(Abs()), w, world, old(time))
    {
      hide M.CheckProblem;
      explained := false;
      var i := Slot(w);
      var problem := driver[i].problem;
      if problem == NoProblem {
        return Fine, false;
      }
      ghost var all := CheckLoop(limits, Abs(), w, problem, 1, world, time);
      var attempt := 0;
      while true
        invariant CheckLoop(limits, Abs(), w, if attempt > 0 then Proto else problem, attempt + 1, world, time) == all
        decreases Left(limits.restarts, driver[i].kills)
      {
        if attempt > 0 {
          problem := Proto;
        }
        attempt := attempt + 1;
        driver[i] := driver[i].(problem := NoProblem);
        ghost var t, s0 := time, Abs();
        v := CheckProblem(w, problem, attempt);
        if v == Restart {
          RestartKills(limits, s0, w, problem, attempt, world.checks(t));
        }
        if v != Restart {
          explained := world.checks(t).reappeared && world.checks(t).works;
          return;
        }
        // the driver is restarted, and the device opened on it
        if world.opens(time - 1) {
          return Fine, false;
        }
      }
    }

    /** The checks that follow a transfer to be redone. */
    method CheckBoth() returns (v: Verdict, ghost explained: bool)
      requires Valid()
      modifies this, driver
      ensures Checked(Abs(), v, explained, time) == Round(limits, old(Abs()), world, old(time))
    {
      v, explained := CheckDriver(Main);
      if v != Fine {
        return;
      }
      ghost var e;
      v, e := CheckDriver(Backup);
      explained := explained || e;
    }

    method Report(t: Transfer)
      requires Valid() && TransferOk(t) && t.Again? && AllSound(Abs())
      modifies driver
      ensures Abs() == Noted(old(Abs()), t) && Reported(old(Abs()), Abs())
    {
      if t.main.Some? {
        BadDriver(Main, t.main.value.problem, t.main.value.error);
      }
      if t.backup.Some? {
        BadDriver(Backup, t.backup.value.problem, t.backup.value.error);
      }
    }

    /**
     The loop of a request, with what each transfer comes to. It ends once drivers stop coming back by themselves, in
     the result of a transfer or in the error of a driver that was given up.
     */
    method Serve(transfers: nat -> Transfer, ghost calm: nat) returns (r: int, ghost rounds: nat, ghost unexplained: nat)
      requires Valid() && AllSound(Abs()) && Calm(world, calm) && forall k: nat :: TransferOk(transfers(k))
      modifies this, driver
      ensures forall k: nat | k < rounds :: transfers(k).Again?
      ensures forall k: nat | k < rounds :: Outcome(limits, Reset(old(Abs())), transfers, world, old(time), k).verdict == Fine
      ensures var t := transfers(rounds); if t.Over? then r == t.result else r != 0 && r != EAGAIN
      ensures var t := transfers(rounds); var c := Outcome(limits, Reset(old(Abs())), transfers, world, old(time), rounds);
        if t.Over? then (Abs(), time) == After(limits, Reset(old(Abs())), transfers, world, old(time), rounds)
        else c.verdict == Fail(r) && Abs() == c.state && Blamed(limits, old(Abs()), transfers, world, old(time), rounds, r)
      ensures unexplained <= rounds
      ensures unexplained < (2 * limits.restarts + 1) * (2 * limits.retries + 1) * (if old(mirror) then 2 else 1)
    {
      hide Round, Noted, Blamed, After, Outcome, Rank, Calm, AllSound;
      ResetStaysSound(Abs());
      ResetKills();
      ghost var start := Abs();
      AfterNone(limits, start, transfers, world, time);
      rounds, unexplained := 0, 0;
      RankBound(limits, start);
      var k := 0;
      while true
        invariant AllSound(Abs()) && k == rounds && unexplained <= rounds
        invariant (Abs(), time) == After(limits, start, transfers, world, old(time), rounds)
        invariant forall j: nat | j < rounds :: Outcome(limits, start, transfers, world, old(time), j).verdict == Fine
        invariant forall j: nat | j < rounds :: transfers(j).Again?
        invariant unexplained + Rank(limits, Abs()) <= Rank(limits, start)
        decreases Left(calm, time), Rank(limits, Abs())
      {
        var t := transfers(k);
        assert TransferOk(t);
        if t.Over? {
          return t.result, rounds, unexplained;
        }
        AfterNext(limits, start, transfers, world, old(time), rounds, Abs(), time);
        var v;
        ghost var e;
        v, e := Redo(t, calm);
        if v != Fine {
          NamesFault(limits, old(Abs()), transfers, world, old(time), rounds);
          return v.error, rounds, unexplained;
        }
        k, rounds := k + 1, rounds + 1;
        unexplained := unexplained + if e then 0 else 1;
      }
    }

    /** What is done about a transfer that did not work out. */
    method Redo(t: Transfer, ghost calm: nat) returns (v: Verdict, ghost explained: bool)
      requires Valid() && AllSound(Abs()) && Calm(world, calm) && TransferOk(t) && t.Again?
      modifies this, driver
      ensures Checked(Abs(), v, explained, time) == Round(limits, Noted(old(Abs()), t), world, old(time))
      ensures v != Restart && Reportable(v) && AllSound(Abs()) && time >= old(time)
      ensures v == Fine ==> time > old(time) && (old(time) >= calm ==> !explained)
      ensures v == Fine ==> Rank(limits, Abs()) + (if explained then 0 else 1) <= old(Rank(limits, Abs()))
    {
      ghost var s := Abs();
      Report(t);
      ghost var s' := Abs();
      RoundNearer(limits, s', world, time);
      RoundAsks(limits, s', world, time, calm);
      assert Level(limits, s', s);
      RankLess(limits, s', s);
      v, explained := CheckBoth();
      RankLess(limits, Abs(), s');
    }
  }
}

/** Once nobody holds a worker, the background threads come to rest under any
    schedule, with every slot that was not lost back in the queue. */
module Quiescence {
  import opened Common
  import opened Protocol
  import opened Invariant
  import opened Guarantees

  /** A step of a wipe thread or of a replacement thread. */
  predicate Background(e: Event) {
    || e.WipeCheck? || e.WipeOk? || e.WipeFail? || e.DeleteOk? || e.DeleteRaise?
    || e.SpawnCheck? || e.SpawnOk? || e.SpawnFail?
  }

  /** How many more steps a thread can take at most. */
  function StepsLeft(c: Custodian): nat {
    match c
    case Holding(_, _, _, _) => 0
    case Wiping(_, checked) => if checked then 8 else 9
    case Deleting(_) => 7
    case Waiting(attempt, _) => if attempt <= 2 then 6 - 2 * attempt else 0
    case Spawning(attempt, _, _) => if attempt <= 2 then 5 - 2 * attempt else 0
  }

  ghost function Remaining(s: State): map<Ticket, nat> {
    map t | t in s.custody :: if t in s.custody then StepsLeft(s.custody[t]) else 0
  }

  ghost function Measure(s: State): nat { Total(Remaining(s)) }

  ghost predicate NoHolders(s: State) { forall t | t in s.custody :: !s.custody[t].Holding? }

  /** One step less for the ticket that moved, or one ticket less. */
  ghost predicate Advances(s: State, s': State, t: Ticket) {
    && t in s.custody && s'.closed == s.closed && StepsLeft(s.custody[t]) > 0
    && if t in s'.custody
       then s'.custody == s.custody[t := s'.custody[t]] && !s'.custody[t].Holding?
            && StepsLeft(s'.custody[t]) < StepsLeft(s.custody[t])
       else s'.custody == s.custody - {t}
  }

  lemma WipeAdvances(cfg: Config, s: State, e: Event)
    requires Enabled(cfg, s, e) && (e.WipeCheck? || e.WipeOk? || e.WipeFail?)
    ensures Advances(s, Apply(cfg, s, e), e.t)
  {}

  lemma ReplaceAdvances(cfg: Config, s: State, e: Event)
    requires Enabled(cfg, s, e) && Replaces(e)
    requires s.custody[e.t].Waiting? || s.custody[e.t].Spawning? ==> s.custody[e.t].attempt <= 2
    ensures Advances(s, Apply(cfg, s, e), e.t)
  {}

  lemma OwnStep(cfg: Config, placed: nat, s: State, e: Event)
    requires Inv(cfg, placed, s) && Enabled(cfg, s, e) && Background(e)
    ensures Advances(s, Apply(cfg, s, e), e.t)
  {
    if Replaces(e) {
      assert CustodyOk(cfg, e.t, s.custody[e.t], s.heap);
      ReplaceAdvances(cfg, s, e);
    } else {
      WipeAdvances(cfg, s, e);
    }
  }

  lemma StepDecreases(cfg: Config, placed: nat, s: State, e: Event)
    requires Inv(cfg, placed, s) && NoHolders(s) && Enabled(cfg, s, e) && Background(e)
    ensures NoHolders(Apply(cfg, s, e)) && Apply(cfg, s, e).closed == s.closed
    ensures Measure(Apply(cfg, s, e)) < Measure(s)
  {
    OwnStep(cfg, placed, s, e);
    MeasureDecreases(s, Apply(cfg, s, e), e.t);
  }

  lemma MeasureDecreases(s: State, s': State, t: Ticket)
    requires Advances(s, s', t)
    ensures Measure(s') < Measure(s)
  {
    var m := Remaining(s);
    TotalRemove(m, t);
    if t in s'.custody {
      assert Remaining(s') == m[t := StepsLeft(s'.custody[t])];
      TotalUpdate(m, t, StepsLeft(s'.custody[t]));
    } else {
      assert Remaining(s') == m - {t};
    }
  }

  lemma WritesKeep(cfg: Config, s: State, e: Event)
    requires Enabled(cfg, s, e) && e.UserWrites?
    ensures Measure(Apply(cfg, s, e)) == Measure(s)
  {
    assert Remaining(Apply(cfg, s, e)) == Remaining(s);
  }

  function BackgroundSteps(log: seq<Event>): nat {
    if log == [] then 0 else (if Background(log[0]) then 1 else 0) + BackgroundSteps(log[1..])
  }

  /** Any schedule of the background threads, runaway commands included, is over
      after `Measure(s)` of their steps. */
  lemma {:induction false} ScheduleEnds(cfg: Config, placed: nat, s: State, log: seq<Event>)
    requires Inv(cfg, placed, s) && NoHolders(s) && Legal(cfg, s, log)
    requires forall e | e in log :: Background(e) || e.UserWrites?
    ensures BackgroundSteps(log) + Measure(Replay(cfg, s, log)) <= Measure(s)
    ensures NoHolders(Replay(cfg, s, log)) && Replay(cfg, s, log).closed == s.closed
    decreases |log|
  {
    if log != [] {
      var e := log[0];
      assert e in log;
      InvStep(cfg, placed, s, e);
      if Background(e) {
        StepDecreases(cfg, placed, s, e);
      } else {
        WritesKeep(cfg, s, e);
      }
      ScheduleEnds(cfg, placed, Apply(cfg, s, e), log[1..]);
    }
  }

  /** While a background thread is left, it can take a step. */
  lemma NoDeadlock(cfg: Config, placed: nat, s: State, t: Ticket)
    requires Inv(cfg, placed, s) && NoHolders(s) && t in s.custody
    ensures exists e :: Background(e) && Actor(e) == Some(t) && Enabled(cfg, s, e)
  {
    var e := match s.custody[t]
             case Wiping(_, checked) => if checked then WipeOk(t, {}) else WipeCheck(t)
             case Deleting(_) => DeleteOk(t)
             case Waiting(_, _) => SpawnCheck(t)
             case _ => SpawnOk(t);
    assert Enabled(cfg, s, e);
  }

  /** From a reachable open state without holders, a schedule the background
      threads cannot extend ends with every slot free that was not lost. */
  lemma ComesToRest(cfg: Config, placed: nat, init: State, before: seq<Event>, log: seq<Event>)
    requires Init(cfg, placed, init) && Legal(cfg, init, before)
    requires var s := Replay(cfg, init, before);
             && !s.closed && NoHolders(s) && Legal(cfg, s, log)
             && (forall e | e in log :: Background(e) || e.UserWrites?)
             && forall e | Background(e) :: !Enabled(cfg, Replay(cfg, s, log), e)
    ensures Legal(cfg, init, before + log)
    ensures |Replay(cfg, init, before + log).free| == placed - Losses(cfg, init, before + log)
    ensures BackgroundSteps(log) <= Measure(Replay(cfg, init, before))
  {
    var s := Replay(cfg, init, before);
    InitInv(cfg, placed, init);
    RunInv(cfg, placed, init, before);
    ScheduleEnds(cfg, placed, s, log);
    RunInv(cfg, placed, s, log);
    Extend(cfg, init, before, log);
    SlotsConserved(cfg, placed, init, before + log);
    var s' := Replay(cfg, s, log);
    if t :| t in s'.custody {
      NoDeadlock(cfg, placed, s', t);
    }
    assert s'.custody == map[];
  }

  /** A replacement sleeps two seconds after its first failure and four after its
      second: at most six in all. */
  lemma SleepBound(cfg: Config, placed: nat, init: State, log: seq<Event>, t: Ticket)
    requires Init(cfg, placed, init) && Legal(cfg, init, log)
    requires var s := Replay(cfg, init, log);
             t in s.custody && (s.custody[t].Waiting? || s.custody[t].Spawning?)
    ensures var c := Replay(cfg, init, log).custody[t];
            c.attempt <= 2 && c.slept == if c.attempt == 0 then 0 else if c.attempt == 1 then 2 else 6
  {
    InitInv(cfg, placed, init);
    RunInv(cfg, placed, init, log);
    var s := Replay(cfg, init, log);
    AttemptSleep(cfg, t, s.custody[t], s.heap);
  }

  lemma AttemptSleep(cfg: Config, t: Ticket, c: Custodian, heap: map<Wid, Worker>)
    requires (c.Waiting? || c.Spawning?) && CustodyOk(cfg, t, c, heap)
    ensures c.attempt <= 2 && c.slept == if c.attempt == 0 then 0 else if c.attempt == 1 then 2 else 6
  {
    assert Slept(0) == 0 && Slept(1) == 2 && Slept(2) == 6;
  }
}

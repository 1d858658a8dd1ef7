/** Starting the pool: filling it once, and what a start that falls short or
    raises leaves behind. */
module Startup {
  import opened Common
  import opened Spawn

  datatype Report = Report(requested: nat, placed: nat, reasons: nat)

  /** `leaked` are the placed workers a raise leaves running. */
  datatype StartResult = Started(report: Report) | BelowFloor(placed: nat) | StartRaised(leaked: seq<Name>)

  ghost predicate CleanSpawns(answers: seq<Answers>) {
    forall i | 0 <= i < |answers| :: answers[i].before.SeenGone? && answers[i].cleanup.SeenGone?
  }

  /** Distinct new names, each with a pod and an open client. */
  ghost predicate Fresh(names: seq<Name>, after: nat, last: nat, pods: set<Name>, clients: set<Name>) {
    && (forall i, j | 0 <= i < j < |names| :: names[i] < names[j])
    && (forall i | 0 <= i < |names| :: after < names[i] <= last && names[i] in pods && names[i] in clients)
  }

  /** How many attempts in a row place their worker, from the first on. */
  ghost function Leading(answers: seq<Answers>): (n: nat)
    ensures n <= |answers|
    ensures forall i | 0 <= i < n :: Places(answers[i], false)
    ensures n < |answers| ==> !Places(answers[n], false)
  {
    if answers == [] || !Places(answers[0], false) then 0 else 1 + Leading(answers[1..])
  }

  lemma {:induction false} LeadingIs(answers: seq<Answers>, n: nat)
    requires n <= |answers| && forall i | 0 <= i < n :: Places(answers[i], false)
    requires n < |answers| ==> !Places(answers[n], false)
    ensures Leading(answers) == n
  {
    if n > 0 {
      LeadingIs(answers[1..], n - 1);
    }
  }

  /** The attempt that ends the filling raises instead of being turned down. */
  ghost predicate Breaks(answers: seq<Answers>) {
    Leading(answers) < |answers| && !TurnedDown(answers[Leading(answers)], false)
  }

  /** The pods after filling: stale ones of the names tried are gone. */
  ghost predicate Swapped(before: set<Name>, after: set<Name>, first: nat, last: nat, placed: seq<Name>) {
    forall p :: p in after <==> p in placed || (p in before && !(first < p <= last))
  }

  class Starter {
    const requested: nat
    const floor: nat
    const spawner: Spawner
    var free: seq<Name>
    var clients: set<Name>
    var report: Option<Report>
    var started: bool

    /** `minimum` is `min_pool_size`; without one every worker must be placed. */
    constructor (requested: nat, minimum: Option<nat>, spawner: Spawner)
      requires requested >= 1 && (minimum.Some? ==> 1 <= minimum.value <= requested)
      ensures this.requested == requested && this.spawner == spawner
      ensures 1 <= this.floor <= requested && this.floor == if minimum.Some? then minimum.value else requested
      ensures free == [] && clients == {} && report.None? && !started
    {
      this.requested := requested;
      this.floor := if minimum.Some? then minimum.value else requested;
      this.spawner := spawner;
      free, clients, report, started := [], {}, None, false;
    }

    // Spawn until `requested` are placed or the cluster takes no more.
    method Fill(answers: seq<Answers>) returns (placed: seq<Name>, reasons: nat, raised: bool)
      requires |answers| == requested
      modifies this`clients, spawner
      ensures spawner.serial >= old(spawner.serial)
      ensures Fresh(placed, old(spawner.serial), spawner.serial, spawner.pods, clients) && |placed| <= requested
      ensures clients == old(clients) + (set n | n in placed)
      ensures forall p | p <= old(spawner.serial) :: p in spawner.pods <==> p in old(spawner.pods)
      ensures !raised ==> reasons <= 1 && (reasons == 1 <==> |placed| < requested)
      ensures CleanSpawns(answers) ==> |placed| == Leading(answers) && (raised <==> Breaks(answers))
      ensures !raised && CleanSpawns(answers) ==>
                Swapped(old(spawner.pods), spawner.pods, old(spawner.serial), spawner.serial, placed)
    {
      placed, reasons, raised := [], 0, false;
      var k := 0;
      while k < requested
        invariant 0 <= k <= requested && |placed| == k && reasons == 0
        invariant spawner.serial == old(spawner.serial) + k
        invariant Fresh(placed, old(spawner.serial), spawner.serial, spawner.pods, clients)
        invariant clients == old(clients) + (set n | n in placed)
        invariant forall p | p <= old(spawner.serial) :: p in spawner.pods <==> p in old(spawner.pods)
        invariant CleanSpawns(answers) ==> forall i | 0 <= i < k :: Places(answers[i], false)
        invariant CleanSpawns(answers) ==>
                    Swapped(old(spawner.pods), spawner.pods, old(spawner.serial), spawner.serial, placed)
      {
        ghost var before := spawner.pods;
        var r := spawner.TrySpawn(answers[k]);
        ghost var s := spawner.serial;
        forall p | p != s ensures p in spawner.pods <==> p in before {
          assert p in spawner.pods - {s} <==> p in before - {s};
        }
        match r {
          case NewWorker(name) =>
            placed := placed + [name];
            clients := clients + {name};
          case NotPlaced =>
            reasons := 1;
            if CleanSpawns(answers) {
              LeadingIs(answers, k);
            }
            return;
          case SpawnRaised =>
            raised := true;
            if CleanSpawns(answers) {
              LeadingIs(answers, k);
            }
            return;
        }
        k := k + 1;
      }
      if CleanSpawns(answers) {
        LeadingIs(answers, k);
      }
    }

    // Delete a partial pool; stops at the first delete that raises.
    method TearDown(placed: seq<Name>, deletions: seq<Deletion>) returns (done: nat)
      requires |deletions| >= |placed|
      requires forall i, j | 0 <= i < j < |placed| :: placed[i] != placed[j]
      modifies this`clients, spawner`pods
      ensures done <= |placed|
      ensures done == |placed| <==> forall i | 0 <= i < |placed| :: !deletions[i].DeleteRaises?
      ensures clients == old(clients) - (set n | n in placed[..done])
      ensures (forall i | 0 <= i < done :: deletions[i].SeenGone?) ==>
                spawner.pods == old(spawner.pods) - (set n | n in placed[..done])
      ensures forall i | done <= i < |placed| :: placed[i] in old(spawner.pods) ==> placed[i] in spawner.pods
    {
      done := 0;
      while done < |placed|
        invariant 0 <= done <= |placed|
        invariant forall i | 0 <= i < done :: !deletions[i].DeleteRaises?
        invariant clients == old(clients) - (set n | n in placed[..done])
        invariant (forall i | 0 <= i < done :: deletions[i].SeenGone?) ==>
                    spawner.pods == old(spawner.pods) - (set n | n in placed[..done])
        invariant forall i | done <= i < |placed| :: placed[i] in old(spawner.pods) ==> placed[i] in spawner.pods
      {
        var ok := spawner.Delete(placed[done], deletions[done]);
        if !ok {
          return;
        }
        clients := clients - {placed[done]};
        assert placed[..done + 1] == placed[..done] + [placed[done]];
        done := done + 1;
      }
    }

    /** The body of `start` under its lock, from the first spawn on. */
    method Provision(answers: seq<Answers>, deletions: seq<Deletion>) returns (r: StartResult)
      requires |answers| == requested && |deletions| == requested && requested >= floor
      modifies this, spawner
      ensures CleanSpawns(answers) ==>
                var n := Leading(answers);
                var torn := forall i | 0 <= i < n :: !deletions[i].DeleteRaises?;
                && (r.Started? <==> !Breaks(answers) && n >= floor)
                && (r.BelowFloor? <==> !Breaks(answers) && n < floor && torn)
                && (r.Started? ==> r.report.placed == n)
                && (r.BelowFloor? ==> r.placed == n)
      ensures match r
              case Started(rep) =>
                && started && report == Some(rep) && rep.requested == requested
                && floor <= rep.placed <= requested && rep.reasons <= 1
                && (rep.reasons > 0 <==> rep.placed < requested)
                && |free| == |old(free)| + rep.placed && free[..|old(free)|] == old(free)
                && Fresh(free[|old(free)|..], old(spawner.serial), spawner.serial, spawner.pods, clients)
                && (forall i | |old(free)| <= i < |free| ::
                      old(spawner.serial) < free[i] <= spawner.serial && free[i] in spawner.pods && free[i] in clients)
                && (forall i, j | |old(free)| <= i < j < |free| :: free[i] != free[j])
              case BelowFloor(placed) =>
                && placed < floor && free == old(free) && report == old(report) && started == old(started)
                && ((forall c | c in old(clients) :: c <= old(spawner.serial)) ==> clients == old(clients))
                && (CleanSpawns(answers) && (forall i | 0 <= i < placed :: deletions[i].SeenGone?) ==>
                      forall p :: p in spawner.pods
                                  <==> p in old(spawner.pods) && !(old(spawner.serial) < p <= spawner.serial))
              case StartRaised(leaked) =>
                && free == old(free) && report == old(report) && started == old(started)
                && Fresh(leaked, old(spawner.serial), spawner.serial, spawner.pods, clients)
    {
      var placed, reasons, raised := Fill(answers);
      if raised {
        return StartRaised(placed);
      }
      if |placed| < floor {
        var done := TearDown(placed, deletions);
        if done < |placed| {
          var left := placed[done..];
          assert forall i | 0 <= i < |left| :: left[i] == placed[done + i];
          return StartRaised(left);
        }
        assert placed[..done] == placed;
        return BelowFloor(|placed|);
      }
      free := free + placed;
      var rep := Report(requested, |placed|, reasons);
      report := Some(rep);
      started := true;
      r := Started(rep);
    }
  }
}

/** Concurrent callers of `start`: an unlocked look at `_started`, the start lock,
    and a second look under it. */
module Starters {
  import opened Common
  import opened Startup

  type Caller = nat

  // Where a caller of `start` is.
  datatype Pc =
    | AtCheck
    | AtLock
    | AtRecheck
    | Warming
    | Reporting(warm: Report)
    | Marking(warm: Report)
    | Returned(result: Option<Report>)
    | Raised

  datatype Shared = Shared(pcs: map<Caller, Pc>, lock: Option<Caller>, started: bool, report: Option<Report>,
                           warmed: nat)

  datatype Move =
    | Call(c: Caller)
    | Check(c: Caller)
    | Lock(c: Caller)
    | Recheck(c: Caller)
    | Warm(c: Caller, filled: Option<Report>)   // None: below the floor, or raised
    | SetReport(c: Caller)
    | SetStarted(c: Caller)

  predicate At(s: Shared, c: Caller, pc: Pc) { c in s.pcs && s.pcs[c] == pc }

  predicate Can(s: Shared, m: Move) {
    match m
    case Call(c) => c !in s.pcs
    case Check(c) => At(s, c, AtCheck)
    case Lock(c) => At(s, c, AtLock) && s.lock.None?
    case Recheck(c) => At(s, c, AtRecheck)
    case Warm(c, _) => At(s, c, Warming)
    case SetReport(c) => c in s.pcs && s.pcs[c].Reporting?
    case SetStarted(c) => c in s.pcs && s.pcs[c].Marking?
  }

  function Goto(s: Shared, c: Caller, pc: Pc): Shared { s.(pcs := s.pcs[c := pc]) }

  function Do(s: Shared, m: Move): Shared
    requires Can(s, m)
  {
    match m
    case Call(c) => Goto(s, c, AtCheck)
    case Check(c) => Goto(s, c, if s.started then Returned(s.report) else AtLock)
    case Lock(c) => Goto(s, c, AtRecheck).(lock := Some(c))
    case Recheck(c) =>
      if s.started then Goto(s, c, Returned(s.report)).(lock := None) else Goto(s, c, Warming)
    case Warm(c, filled) =>
      if filled.None? then Goto(s, c, Raised).(lock := None)
      else Goto(s, c, Reporting(filled.value)).(warmed := s.warmed + 1)
    case SetReport(c) => Goto(s, c, Marking(s.pcs[c].warm)).(report := Some(s.pcs[c].warm))
    case SetStarted(c) => Goto(s, c, Returned(Some(s.pcs[c].warm))).(started := true, lock := None)
  }

  ghost predicate Legal(s: Shared, moves: seq<Move>)
    decreases |moves|
  {
    moves == [] || (Can(s, moves[0]) && Legal(Do(s, moves[0]), moves[1..]))
  }

  ghost function End(s: Shared, moves: seq<Move>): Shared
    requires Legal(s, moves)
    decreases |moves|
  {
    if moves == [] then s else End(Do(s, moves[0]), moves[1..])
  }

  predicate Inside(pc: Pc) { pc.AtRecheck? || pc.Warming? || pc.Reporting? || pc.Marking? }

  ghost predicate Ok(s: Shared) {
    && (forall c | c in s.pcs && Inside(s.pcs[c]) :: s.lock == Some(c))
    && (s.started ==> s.report.Some? && s.warmed == 1)
    && (s.lock.None? ==> s.started || s.warmed == 0)
    && (s.lock.Some? ==>
          && s.lock.value in s.pcs && Inside(s.pcs[s.lock.value])
          && match s.pcs[s.lock.value]
             case AtRecheck => s.started || s.warmed == 0
             case Warming => !s.started && s.warmed == 0
             case Marking(warm) => !s.started && s.warmed == 1 && s.report == Some(warm)
             case _ => !s.started && s.warmed == 1)
    && (forall c | c in s.pcs && s.pcs[c].Returned? :: s.started && s.pcs[c].result == s.report)
  }

  lemma {:induction false} AlwaysOk(s: Shared, moves: seq<Move>)
    requires Ok(s) && Legal(s, moves)
    ensures Ok(End(s, moves))
    decreases |moves|
  {
    if moves != [] {
      AlwaysOk(Do(s, moves[0]), moves[1..]);
    }
  }

  const NOT_STARTED := Shared(map[], None, false, None, 0)

  /** However calls of `start` interleave, the pool is warmed at most once, every
      call that returns returns the one report, and it is never missing. */
  lemma StartOnce(moves: seq<Move>)
    requires Legal(NOT_STARTED, moves)
    ensures var s := End(NOT_STARTED, moves);
            && s.warmed <= 1 && (s.started ==> s.warmed == 1 && s.report.Some?)
            && forall c | c in s.pcs && s.pcs[c].Returned? :: s.pcs[c].result.Some? && s.pcs[c].result == s.report
  {
    AlwaysOk(NOT_STARTED, moves);
  }
}

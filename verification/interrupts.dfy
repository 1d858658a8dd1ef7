/** Releases that do not retire, whatever was left running: what a `BaseException`
    makes of `_dispatch`, what closing a session makes of one that interrupted a
    call, and what exiting a stream makes of a generator left suspended. */
module Interrupts {
  import opened Common
  import opened Protocol
  import opened Invariant
  import opened Guarantees

  /** A step of the protocol, or a release from any stage that does not retire. */
  datatype Step = Usual(e: Event) | Interrupt(t: Ticket, aged: bool)

  ghost predicate Can(cfg: Config, s: State, m: Step) {
    match m
    case Usual(e) => Enabled(cfg, s, e)
    case Interrupt(t, _) => t in s.custody && s.custody[t].Holding? && s.custody[t].w in s.heap
  }

  ghost function Do(cfg: Config, s: State, m: Step): State
    requires Can(cfg, s, m)
  {
    match m
    case Usual(e) => Apply(cfg, s, e)
    case Interrupt(t, aged) => Released(cfg, s, t, false, aged)
  }

  ghost predicate IsRun(cfg: Config, s: State, run: seq<Step>)
    decreases |run|
  {
    run == [] || (Can(cfg, s, run[0]) && IsRun(cfg, Do(cfg, s, run[0]), run[1..]))
  }

  ghost predicate LiveAt(s: State, w: Wid) { w in s.heap && s.heap[w].live.Some? }

  /** The queue has a worker with a live command, or a wipe does. */
  ghost predicate Exposed(s: State) {
    || (exists i :: 0 <= i < |s.free| && LiveAt(s, s.free[i]))
    || (exists t :: t in s.custody && s.custody[t].Wiping? && LiveAt(s, s.custody[t].w))
  }

  /** An interrupt that finds a command running on a worker neither spent nor aged. */
  ghost predicate Harmful(cfg: Config, s: State, m: Step)
    requires Can(cfg, s, m)
  {
    && m.Interrupt? && !m.aged
    && var r := s.heap[s.custody[m.t].w]; r.live.Some? && r.uses + 1 < cfg.maxUses
  }

  ghost predicate EverExposed(cfg: Config, s: State, run: seq<Step>)
    requires IsRun(cfg, s, run)
    decreases |run|
  {
    Exposed(s) || (run != [] && EverExposed(cfg, Do(cfg, s, run[0]), run[1..]))
  }

  ghost predicate EverHarmful(cfg: Config, s: State, run: seq<Step>)
    requires IsRun(cfg, s, run)
    decreases |run|
  {
    run != [] && (Harmful(cfg, s, run[0]) || EverHarmful(cfg, Do(cfg, s, run[0]), run[1..]))
  }

  // ---- what harmless runs keep ----------------------------------------------

  ghost predicate Quiet(c: Custodian, heap: map<Wid, Worker>)
    requires HasWorker(c) ==> c.w in heap
  {
    match c
    case Holding(_, w, stage, _) => heap[w].live.Some? ==> stage in {Running, Doomed}
    case Wiping(w, _) => heap[w].live.None?
    case _ => true
  }

  ghost predicate QuietCustody(s: State)
    requires Exclusive(s)
  {
    forall t | t in s.custody :: Quiet(s.custody[t], s.heap)
  }

  ghost predicate QuietQueue(s: State)
    requires Exclusive(s)
  {
    forall i | 0 <= i < |s.free| :: s.heap[s.free[i]].live.None?
  }

  ghost predicate Safe(s: State) { Exclusive(s) && Named(s) && QuietCustody(s) && QuietQueue(s) }

  lemma SafeNotExposed(s: State)
    requires Safe(s)
    ensures !Exposed(s)
  {
    forall t | t in s.custody && s.custody[t].Wiping? ensures !LiveAt(s, s.custody[t].w) {
      assert Quiet(s.custody[t], s.heap);
    }
  }

  lemma QuietLocal(s: State, s': State, t: Ticket)
    requires Exclusive(s) && QuietCustody(s) && QuietQueue(s) && Exclusive(s') && Settles(s, s', t)
    requires t in s'.custody ==> Quiet(s'.custody[t], s'.heap)
    ensures QuietCustody(s') && QuietQueue(s')
  {
    forall u | u in s'.custody ensures Quiet(s'.custody[u], s'.heap) {
      if u != t {
        assert Quiet(s.custody[u], s.heap);
      }
    }
  }

  // Every remaining ticket and queued worker is as it was, but for one that joins
  // the queue without a live command.
  lemma QuietKept(s: State, s': State)
    requires Exclusive(s) && QuietCustody(s) && QuietQueue(s) && Exclusive(s')
    requires forall u | u in s'.custody ::
               && u in s.custody && s'.custody[u] == s.custody[u]
               && (HasWorker(s.custody[u]) ==> s'.heap[s.custody[u].w].live == s.heap[s.custody[u].w].live)
    requires forall i | 0 <= i < |s'.free| ::
               var w := s'.free[i];
               s'.heap[w].live.None? || (w in s.free && s'.heap[w].live == s.heap[w].live)
    ensures QuietCustody(s') && QuietQueue(s')
  {
    forall u | u in s'.custody ensures Quiet(s'.custody[u], s'.heap) {
      assert Quiet(s.custody[u], s.heap);
    }
  }

  lemma QuietMoves(cfg: Config, s: State, e: Event)
    requires Enabled(cfg, s, e) && Moves(e) && Quiet(s.custody[e.t], s.heap)
    ensures var s' := Apply(cfg, s, e);
            && e.t in s'.custody && s'.custody[e.t].Holding? && s'.custody[e.t].w in s'.heap
            && Quiet(s'.custody[e.t], s'.heap)
  {}

  lemma QuietGivesUp(cfg: Config, s: State, e: Event)
    requires Exclusive(s) && Enabled(cfg, s, e) && GivesUp(e) && Quiet(s.custody[e.t], s.heap)
    ensures var s' := Apply(cfg, s, e);
            e.t in s'.custody ==>
              && (HasWorker(s'.custody[e.t]) ==> s'.custody[e.t].w in s'.heap)
              && Quiet(s'.custody[e.t], s'.heap)
  {}

  // A release that pools no live command.
  lemma QuietReleased(cfg: Config, s: State, t: Ticket, retire: bool, aged: bool)
    requires Safe(s) && t in s.custody && s.custody[t].Holding?
    requires var r := s.heap[s.custody[t].w];
             r.live.Some? ==> retire || aged || r.uses + 1 >= cfg.maxUses
    ensures Safe(Released(cfg, s, t, retire, aged))
  {
    var s', w := Released(cfg, s, t, retire, aged), s.custody[t].w;
    ExclusiveReleased(cfg, s, t, retire, aged);
    ReleasedNamed(cfg, s, t, retire, aged);
    ReleaseSafety(cfg, s, t, retire, aged);
    if t in s'.custody {
      QuietLocal(s, s', t);
    } else {
      assert s'.free == s.free + [w];
      QuietKept(s, s');
    }
  }

  lemma ReleasedNamed(cfg: Config, s: State, t: Ticket, retire: bool, aged: bool)
    requires Exclusive(s) && Named(s) && t in s.custody && s.custody[t].Holding?
    ensures Named(Released(cfg, s, t, retire, aged))
  {
    NamedLocal(s, Released(cfg, s, t, retire, aged), t);
  }

  lemma SafeRelease(cfg: Config, s: State, e: Event)
    requires Safe(s) && Enabled(cfg, s, e) && e.Release?
    ensures Safe(Apply(cfg, s, e))
  {
    assert Quiet(s.custody[e.t], s.heap);
    QuietReleased(cfg, s, e.t, e.retire, e.aged);
  }

  lemma SafeQueue(cfg: Config, s: State, e: Event)
    requires Safe(s) && Enabled(cfg, s, e) && (e.Drain? || e.WipeOk? || e.SpawnOk? || e.UserWrites? || e.Close?)
    ensures Safe(Apply(cfg, s, e))
  {
    ExclusiveStep(cfg, s, e);
    NamedStep(cfg, s, e);
    if e.WipeOk? {
      assert Quiet(s.custody[e.t], s.heap);
    }
    QuietKept(s, Apply(cfg, s, e));
  }

  lemma SafeLease(cfg: Config, s: State, e: Event)
    requires Safe(s) && Enabled(cfg, s, e) && e.Lease?
    ensures Safe(Apply(cfg, s, e))
  {
    ExclusiveStep(cfg, s, e);
    NamedStep(cfg, s, e);
    var s' := Apply(cfg, s, e);
    forall u | u in s'.custody ensures Quiet(s'.custody[u], s'.heap) {
      if u in s.custody {
        assert Quiet(s.custody[u], s.heap);
      }
    }
    forall i | 0 <= i < |s'.free| ensures s'.heap[s'.free[i]].live.None? {
      assert s'.free[i] == s.free[i + 1];
    }
  }

  lemma SafeUsual(cfg: Config, s: State, e: Event)
    requires Safe(s) && Enabled(cfg, s, e)
    ensures Safe(Apply(cfg, s, e))
  {
    if e.Release? {
      SafeRelease(cfg, s, e);
    } else if e.Lease? {
      SafeLease(cfg, s, e);
    } else if Moves(e) || GivesUp(e) || (Replaces(e) && !e.SpawnOk?) {
      SafeSettles(cfg, s, e);
    } else {
      SafeQueue(cfg, s, e);
    }
  }

  lemma SafeSettles(cfg: Config, s: State, e: Event)
    requires Safe(s) && Enabled(cfg, s, e) && (Moves(e) || GivesUp(e) || (Replaces(e) && !e.SpawnOk?))
    ensures Safe(Apply(cfg, s, e))
  {
    var s' := Apply(cfg, s, e);
    assert Quiet(s.custody[e.t], s.heap);
    ExclusiveStep(cfg, s, e);
    NamedStep(cfg, s, e);
    if Moves(e) {
      MovesShape(cfg, s, e);
      QuietMoves(cfg, s, e);
    } else if GivesUp(e) {
      GivesUpSettles(cfg, s, e);
      QuietGivesUp(cfg, s, e);
    } else {
      ReplacesSettles(cfg, s, e);
    }
    QuietLocal(s, s', e.t);
  }

  lemma SafeStep(cfg: Config, s: State, m: Step)
    requires Safe(s) && Can(cfg, s, m) && !Harmful(cfg, s, m)
    ensures Safe(Do(cfg, s, m))
  {
    match m {
      case Usual(e) => SafeUsual(cfg, s, e);
      case Interrupt(t, aged) => QuietReleased(cfg, s, t, false, aged);
    }
  }

  lemma HarmExposes(cfg: Config, s: State, m: Step)
    requires Safe(s) && Can(cfg, s, m) && Harmful(cfg, s, m)
    ensures Exposed(Do(cfg, s, m))
  {
    var s', w := Do(cfg, s, m), s.custody[m.t].w;
    ReleaseSafety(cfg, s, m.t, false, m.aged);
    assert LiveAt(s', w);
    if m.t !in s'.custody {
      assert s'.free[|s.free|] == w;
    }
  }

  lemma {:induction false} ExposedExactly(cfg: Config, s: State, run: seq<Step>)
    requires Safe(s) && IsRun(cfg, s, run)
    ensures EverExposed(cfg, s, run) <==> EverHarmful(cfg, s, run)
    decreases |run|
  {
    SafeNotExposed(s);
    if run != [] {
      var s' := Do(cfg, s, run[0]);
      if Harmful(cfg, s, run[0]) {
        HarmExposes(cfg, s, run[0]);
        assert EverExposed(cfg, s', run[1..]);
      } else {
        SafeStep(cfg, s, run[0]);
        ExposedExactly(cfg, s', run[1..]);
      }
    }
  }

  /** Over every run with interrupts: the queue or a wipe gets a worker with a live
      command if and only if some interrupt finds a command running on a worker
      that is neither spent nor aged. */
  lemma ReleaseDiscipline(cfg: Config, placed: nat, init: State, run: seq<Step>)
    requires Init(cfg, placed, init) && IsRun(cfg, init, run)
    ensures EverExposed(cfg, init, run) <==> EverHarmful(cfg, init, run)
  {
    InitInv(cfg, placed, init);
    ExposedExactly(cfg, init, run);
  }

  /** It happens in every pool with a worker to lease that may be used twice: the
      first call is interrupted while its command runs. */
  lemma InterruptHandsOverLive(cfg: Config, placed: nat, init: State)
    requires Init(cfg, placed, init) && placed >= 1 && cfg.maxUses >= 2
    ensures var t := init.tickets;
            var run := [Usual(Lease(t, Run)), Usual(Upload(t, map[])), Usual(Start(t)), Interrupt(t, false)];
            IsRun(cfg, init, run) && EverExposed(cfg, init, run)
  {
    var t := init.tickets;
    var run := [Usual(Lease(t, Run)), Usual(Upload(t, map[])), Usual(Start(t)), Interrupt(t, false)];
    var s1 := Apply(cfg, init, Lease(t, Run));
    var s2 := Apply(cfg, s1, Upload(t, map[]));
    var s3 := Apply(cfg, s2, Start(t));
    assert run[1..][0] == Usual(Upload(t, map[])) && run[1..][1..][0] == Usual(Start(t));
    assert run[1..][1..][1..] == [Interrupt(t, false)];
    assert Harmful(cfg, s3, Interrupt(t, false));
    InterruptLast(cfg, s3, Interrupt(t, false));
    ConsRun(cfg, s2, run[1..][1..]);
    ConsRun(cfg, s1, run[1..]);
    ConsRun(cfg, init, run);
    ReleaseDiscipline(cfg, placed, init, run);
  }

  lemma ConsRun(cfg: Config, s: State, run: seq<Step>)
    requires run != [] && Can(cfg, s, run[0]) && IsRun(cfg, Do(cfg, s, run[0]), run[1..])
    ensures IsRun(cfg, s, run)
    ensures EverHarmful(cfg, Do(cfg, s, run[0]), run[1..]) ==> EverHarmful(cfg, s, run)
  {}

  lemma InterruptLast(cfg: Config, s: State, m: Step)
    requires Can(cfg, s, m) && Harmful(cfg, s, m)
    ensures IsRun(cfg, s, [m]) && EverHarmful(cfg, s, [m])
  {
    assert [m][1..] == [];
  }
}

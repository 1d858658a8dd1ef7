/** The pool's promises, over every run of the protocol. */
module Guarantees {
  import opened Common
  import opened Protocol
  import opened Invariant

  lemma {:induction false} RunInv(cfg: Config, placed: nat, s: State, log: seq<Event>)
    requires Inv(cfg, placed, s) && Legal(cfg, s, log)
    ensures Inv(cfg, placed, Replay(cfg, s, log))
    decreases |log|
  {
    if log != [] {
      InvStep(cfg, placed, s, log[0]);
      RunInv(cfg, placed, Apply(cfg, s, log[0]), log[1..]);
    }
  }

  // ---- ownership and slots --------------------------------------------------

  /** A slot is lost: deleting the old pod raised, or the third spawn failed. */
  ghost predicate LosesSlot(s: State, e: Event) {
    e.DeleteRaise? || (e.SpawnFail? && e.t in s.custody && s.custody[e.t].Spawning? && s.custody[e.t].attempt == 2)
  }

  ghost function Losses(cfg: Config, s: State, log: seq<Event>): nat
    requires Legal(cfg, s, log)
    decreases |log|
  {
    if log == [] then 0
    else (if LosesSlot(s, log[0]) then 1 else 0) + Losses(cfg, Apply(cfg, s, log[0]), log[1..])
  }

  lemma LostStep(cfg: Config, s: State, e: Event)
    requires Exclusive(s) && Statuses(cfg, s) && Enabled(cfg, s, e)
    ensures Apply(cfg, s, e).lost == s.lost + (if LosesSlot(s, e) then 1 else 0)
  {
    assert e.SpawnFail? ==> CustodyOk(cfg, e.t, s.custody[e.t], s.heap);
  }

  lemma {:induction false} LostCount(cfg: Config, placed: nat, s: State, log: seq<Event>)
    requires Inv(cfg, placed, s) && Legal(cfg, s, log)
    ensures Replay(cfg, s, log).lost == s.lost + Losses(cfg, s, log)
    decreases |log|
  {
    if log != [] {
      InvStep(cfg, placed, s, log[0]);
      LostStep(cfg, s, log[0]);
      LostCount(cfg, placed, Apply(cfg, s, log[0]), log[1..]);
    }
  }

  ghost function Holders(s: State): set<Ticket> { set t | t in s.custody && s.custody[t].Holding? }

  /** While the pool is open, free workers, held workers, workers being wiped and
      workers being replaced account for every slot not lost, each worker is in
      one place only, and no more than `pool_size` leases are out. */
  lemma SlotsConserved(cfg: Config, placed: nat, init: State, log: seq<Event>)
    requires Init(cfg, placed, init) && Legal(cfg, init, log)
    ensures var s := Replay(cfg, init, log);
            && Exclusive(s)
            && (!s.closed ==> |s.free| + |s.custody| == placed - Losses(cfg, init, log))
            && |s.free| + |s.custody| <= placed
            && |Holders(s)| + |s.free| <= cfg.poolSize
  {
    InitInv(cfg, placed, init);
    RunInv(cfg, placed, init, log);
    LostCount(cfg, placed, init, log);
    var s := Replay(cfg, init, log);
    SubsetSize(Holders(s), s.custody.Keys);
  }

  lemma {:induction false} SubsetSize<T>(a: set<T>, b: set<T>)
    requires a <= b
    ensures |a| <= |b|
  {
    if a != {} {
      var x :| x in a;
      SubsetSize(a - {x}, b - {x});
    }
  }

  // ---- nothing live in the queue --------------------------------------------

  /** A worker in the queue, or being wiped before it returns there, has no user
      command whose channel was not seen closed. */
  lemma QueueHoldsNothingLive(cfg: Config, placed: nat, init: State, log: seq<Event>, w: Wid)
    requires Init(cfg, placed, init) && Legal(cfg, init, log)
    ensures var s := Replay(cfg, init, log);
            (w in s.free || exists t | t in s.custody :: s.custody[t].Wiping? && s.custody[t].w == w)
            ==> w in s.heap && s.heap[w].live.None?
  {
    InitInv(cfg, placed, init);
    RunInv(cfg, placed, init, log);
    var s := Replay(cfg, init, log);
    if t :| t in s.custody && s.custody[t].Wiping? && s.custody[t].w == w {
      assert CustodyOk(cfg, t, s.custody[t], s.heap);
    }
  }

  /** What `_release` needs of its caller: not retiring is safe exactly when no
      command is left running (or the worker was spent anyway). */
  lemma ReleaseSafety(cfg: Config, s: State, t: Ticket, retire: bool, aged: bool)
    requires Exclusive(s) && t in s.custody && s.custody[t].Holding?
    ensures var w := s.custody[t].w;
            var s' := Released(cfg, s, t, retire, aged);
            var pooled := w in s'.free || (t in s'.custody && s'.custody[t].Wiping?);
            (pooled && s'.heap[w].live.Some?)
            <==> (s.heap[w].live.Some? && !retire && !aged && s.heap[w].uses + 1 < cfg.maxUses)
  {}

  // ---- where a released worker goes -----------------------------------------

  /** A healthy worker goes straight to the end of the queue in persist mode, with
      the files its run left; it goes to a wipe first if runs are wiped or it was a
      session's; a spent, aged or retired one goes to be replaced. */
  lemma ReleaseGoes(cfg: Config, s: State, t: Ticket, retire: bool, aged: bool)
    requires Enabled(cfg, s, Release(t, retire, aged))
    ensures var c, s' := s.custody[t], Apply(cfg, s, Release(t, retire, aged));
            var spent := retire || aged || s.heap[c.w].uses + 1 >= cfg.maxUses;
            && c.w in s'.heap && s'.heap[c.w].files == s.heap[c.w].files && s'.heap[c.w].uses == s.heap[c.w].uses + 1
            && (!spent && !cfg.wipePerRun && !c.kind.Session? ==> s'.free == s.free + [c.w] && t !in s'.custody)
            && (!spent && (cfg.wipePerRun || c.kind.Session?) ==>
                  s'.free == s.free && t in s'.custody && s'.custody[t] == Wiping(c.w, false))
            && (spent ==> s'.free == s.free && t in s'.custody && s'.custody[t] == Deleting(c.w))
  {}

  // A ticket that no session drew holds no session's worker, and none being wiped.
  ghost predicate Unforced(s: State, t: Ticket) {
    t in s.custody ==> !s.custody[t].Wiping? && (s.custody[t].Holding? ==> !s.custody[t].kind.Session?)
  }

  lemma UnforcedStep(cfg: Config, s: State, e: Event, t: Ticket)
    requires Exclusive(s) && Named(s) && Enabled(cfg, s, e)
    requires Unforced(s, t) && !cfg.wipePerRun && e != Lease(t, Session)
    ensures Unforced(Apply(cfg, s, e), t)
  {
    if Actor(e) != Some(t) {
      if t in s.custody {
        OthersKeep(cfg, s, e, t);
      } else if Actor(e).Some? && !e.Lease? {
        StepLocal(cfg, s, e);
      }
    } else if e.Release? {
      ReleaseGoes(cfg, s, t, e.retire, e.aged);
    }
  }

  lemma {:induction false} UnforcedRun(cfg: Config, placed: nat, s: State, log: seq<Event>, t: Ticket)
    requires Inv(cfg, placed, s) && Legal(cfg, s, log) && Unforced(s, t) && !cfg.wipePerRun && Lease(t, Session) !in log
    ensures Unforced(Replay(cfg, s, log), t)
    decreases |log|
  {
    if log != [] {
      assert log[0] in log;
      UnforcedStep(cfg, s, log[0], t);
      InvStep(cfg, placed, s, log[0]);
      UnforcedRun(cfg, placed, Apply(cfg, s, log[0]), log[1..], t);
    }
  }

  /** In persist mode only a session's worker is ever wiped. */
  lemma PersistNeverWipes(cfg: Config, placed: nat, init: State, log: seq<Event>, t: Ticket)
    requires Init(cfg, placed, init) && Legal(cfg, init, log) && !cfg.wipePerRun
    requires var s := Replay(cfg, init, log); t in s.custody && s.custody[t].Wiping?
    ensures Lease(t, Session) in log
  {
    InitInv(cfg, placed, init);
    if Lease(t, Session) !in log {
      UnforcedRun(cfg, placed, init, log, t);
    }
  }

  // ---- the queue is first in, first out -------------------------------------

  /** The worker that joins the queue in a step, and the one that leaves it: for a
      lease, the worker its new ticket has. */
  ghost function Joins(s: State, s': State): seq<Wid> {
    if |s'.free| > |s.free| then [s'.free[|s'.free| - 1]] else []
  }

  ghost function Leaves(s: State, e: Event, s': State): seq<Wid> {
    if e.Lease? && e.t in s'.custody && s'.custody[e.t].Holding? then [s'.custody[e.t].w]
    else if |s'.free| < |s.free| then [s.free[0]] else []
  }

  ghost function Joined(cfg: Config, s: State, log: seq<Event>): seq<Wid>
    requires Legal(cfg, s, log)
    decreases |log|
  {
    if log == [] then []
    else Joins(s, Apply(cfg, s, log[0])) + Joined(cfg, Apply(cfg, s, log[0]), log[1..])
  }

  ghost function Gone(cfg: Config, s: State, log: seq<Event>): seq<Wid>
    requires Legal(cfg, s, log)
    decreases |log|
  {
    if log == [] then []
    else Leaves(s, log[0], Apply(cfg, s, log[0])) + Gone(cfg, Apply(cfg, s, log[0]), log[1..])
  }

  lemma QueueStep(cfg: Config, s: State, e: Event)
    requires Enabled(cfg, s, e)
    ensures s.free + Joins(s, Apply(cfg, s, e)) == Leaves(s, e, Apply(cfg, s, e)) + Apply(cfg, s, e).free
  {
    if e.Lease? || e.Drain? {
      assert s.free == [s.free[0]] + s.free[1..];
    } else if Moves(e) {
      MovesShape(cfg, s, e);
    } else if e.Release? {
      ReleaseGoes(cfg, s, e.t, e.retire, e.aged);
    }
  }

  /** Over every run, the workers taken from the queue, in the order they were
      taken, and then the ones still in it are the ones first there, and then the
      ones that joined, in the order they joined. */
  lemma {:induction false} QueueIsFifo(cfg: Config, s: State, log: seq<Event>)
    requires Legal(cfg, s, log)
    ensures s.free + Joined(cfg, s, log) == Gone(cfg, s, log) + Replay(cfg, s, log).free
    decreases |log|
  {
    if log != [] {
      var s' := Apply(cfg, s, log[0]);
      var joins, leaves := Joins(s, s'), Leaves(s, log[0], s');
      QueueStep(cfg, s, log[0]);
      QueueIsFifo(cfg, s', log[1..]);
      Regroup(s.free, joins, leaves, s'.free, Joined(cfg, s', log[1..]), Gone(cfg, s', log[1..]),
              Replay(cfg, s, log).free);
    }
  }

  lemma Regroup(a: seq<Wid>, b: seq<Wid>, c: seq<Wid>, d: seq<Wid>, e: seq<Wid>, f: seq<Wid>, g: seq<Wid>)
    requires a + b == c + d && d + e == f + g
    ensures a + (b + e) == (c + f) + g
  {
    assert a + (b + e) == (a + b) + e;
    assert (c + d) + e == c + (d + e);
    assert c + (f + g) == (c + f) + g;
  }

  // ---- after closing --------------------------------------------------------

  ghost predicate Begun(s: State, t: Ticket) {
    t in s.custody && (s.custody[t].Spawning? || (s.custody[t].Wiping? && s.custody[t].checked))
  }

  lemma ClosedOther(cfg: Config, s: State, e: Event, t: Ticket)
    requires Exclusive(s) && Named(s) && Enabled(cfg, s, e) && Actor(e) != Some(t)
    ensures Begun(Apply(cfg, s, e), t) ==> Begun(s, t)
  {
    if t in s.custody {
      OthersKeep(cfg, s, e, t);
    } else if Actor(e).Some? && !e.Lease? {
      StepLocal(cfg, s, e);
    }
  }

  lemma ClosedOwn(cfg: Config, s: State, e: Event)
    requires Enabled(cfg, s, e) && s.closed && Actor(e).Some?
    ensures Begun(Apply(cfg, s, e), e.t) ==> Begun(s, e.t)
  {}

  lemma ClosedShared(cfg: Config, s: State, e: Event)
    requires Enabled(cfg, s, e) && s.closed
    ensures Apply(cfg, s, e).closed && Apply(cfg, s, e).serial == s.serial
  {}

  lemma ClosedStep(cfg: Config, s: State, e: Event, t: Ticket)
    requires Exclusive(s) && Named(s) && Enabled(cfg, s, e) && s.closed
    ensures var s' := Apply(cfg, s, e);
            s'.closed && s'.serial == s.serial && (Begun(s', t) ==> Begun(s, t))
  {
    ClosedShared(cfg, s, e);
    if Actor(e) == Some(t) {
      ClosedOwn(cfg, s, e);
    } else {
      ClosedOther(cfg, s, e, t);
    }
  }

  /** Once the pool is closed no wipe and no spawn begins, and no pod is named. */
  lemma {:induction false} ClosedBeginsNothing(cfg: Config, placed: nat, s: State, log: seq<Event>, t: Ticket)
    requires Inv(cfg, placed, s) && Legal(cfg, s, log) && s.closed
    ensures var s' := Replay(cfg, s, log);
            s'.closed && s'.serial == s.serial && (Begun(s', t) ==> Begun(s, t))
    decreases |log|
  {
    if log != [] {
      ClosedStep(cfg, s, log[0], t);
      InvStep(cfg, placed, s, log[0]);
      ClosedBeginsNothing(cfg, placed, Apply(cfg, s, log[0]), log[1..], t);
    }
  }

  // ---- use bound ------------------------------------------------------------

  ghost predicate Takes(s: State, e: Event, w: Wid) { e.Lease? && |s.free| > 0 && s.free[0] == w }

  /** The step gives `w` to a replacement thread. */
  ghost predicate HandsOver(cfg: Config, s: State, e: Event, w: Wid)
    requires Enabled(cfg, s, e)
  {
    && (e.Release? || e.RetireNow? || e.WipeFail?)
    && s.custody[e.t].w == w
    && var s' := Apply(cfg, s, e); e.t in s'.custody && s'.custody[e.t].Deleting?
  }

  ghost function LeasesOf(cfg: Config, s: State, log: seq<Event>, w: Wid): nat
    requires Legal(cfg, s, log)
    decreases |log|
  {
    if log == [] then 0
    else (if Takes(s, log[0], w) then 1 else 0) + LeasesOf(cfg, Apply(cfg, s, log[0]), log[1..], w)
  }

  ghost function HandoversOf(cfg: Config, s: State, log: seq<Event>, w: Wid): nat
    requires Legal(cfg, s, log)
    decreases |log|
  {
    if log == [] then 0
    else (if HandsOver(cfg, s, log[0], w) then 1 else 0) + HandoversOf(cfg, Apply(cfg, s, log[0]), log[1..], w)
  }

  ghost function LeasesSoFar(s: State, w: Wid): nat { if w in s.heap then s.heap[w].leases else 0 }
  ghost function RetiresSoFar(s: State, w: Wid): nat { if w in s.heap then s.heap[w].retires else 0 }

  ghost predicate Counted(cfg: Config, s: State, e: Event, w: Wid)
    requires Enabled(cfg, s, e)
  {
    && LeasesSoFar(Apply(cfg, s, e), w) == LeasesSoFar(s, w) + (if Takes(s, e, w) then 1 else 0)
    && RetiresSoFar(Apply(cfg, s, e), w) == RetiresSoFar(s, w) + (if HandsOver(cfg, s, e, w) then 1 else 0)
  }

  lemma CountMoves(cfg: Config, s: State, e: Event, w: Wid)
    requires Enabled(cfg, s, e) && Moves(e)
    ensures Counted(cfg, s, e, w)
  {}

  lemma CountReturns(cfg: Config, s: State, e: Event, w: Wid)
    requires Exclusive(s) && Enabled(cfg, s, e) && Returns(e)
    ensures Counted(cfg, s, e, w)
  {}

  lemma CountReplaces(cfg: Config, s: State, e: Event, w: Wid)
    requires Named(s) && Enabled(cfg, s, e) && Replaces(e)
    ensures Counted(cfg, s, e, w)
  {}

  lemma CountStep(cfg: Config, placed: nat, s: State, e: Event, w: Wid)
    requires Inv(cfg, placed, s) && Enabled(cfg, s, e)
    ensures Counted(cfg, s, e, w)
  {
    if Moves(e) {
      CountMoves(cfg, s, e, w);
    } else if Returns(e) {
      CountReturns(cfg, s, e, w);
    } else if Replaces(e) {
      CountReplaces(cfg, s, e, w);
    }
  }

  lemma {:induction false} CountRun(cfg: Config, placed: nat, s: State, log: seq<Event>, w: Wid)
    requires Inv(cfg, placed, s) && Legal(cfg, s, log)
    ensures LeasesSoFar(Replay(cfg, s, log), w) == LeasesSoFar(s, w) + LeasesOf(cfg, s, log, w)
    ensures RetiresSoFar(Replay(cfg, s, log), w) == RetiresSoFar(s, w) + HandoversOf(cfg, s, log, w)
    decreases |log|
  {
    if log != [] {
      CountStep(cfg, placed, s, log[0], w);
      InvStep(cfg, placed, s, log[0]);
      CountRun(cfg, placed, Apply(cfg, s, log[0]), log[1..], w);
    }
  }

  /** No worker is leased more than `max_uses` times, none is handed to
      `_replace` twice, and a free worker always has a use left. */
  lemma UseBound(cfg: Config, placed: nat, init: State, log: seq<Event>, w: Wid)
    requires Init(cfg, placed, init) && Legal(cfg, init, log)
    ensures LeasesOf(cfg, init, log, w) <= cfg.maxUses
    ensures HandoversOf(cfg, init, log, w) <= 1
    ensures var s := Replay(cfg, init, log);
            w in s.free ==> w in s.heap && s.heap[w].uses == LeasesOf(cfg, init, log, w) < cfg.maxUses
                            && HandoversOf(cfg, init, log, w) == 0
  {
    InitInv(cfg, placed, init);
    RunInv(cfg, placed, init, log);
    CountRun(cfg, placed, init, log, w);
  }

  // ---- wipes that remove everything -----------------------------------------

  /** Every wipe in the run removed all it found. */
  ghost predicate NothingLeft(log: seq<Event>) {
    forall e | e in log :: (e.WipeOk? || e.SessionClean?) ==> e.left == {}
  }

  ghost predicate NoResidue(s: State) { forall w | w in s.heap :: s.heap[w].residue == map[] }

  ghost predicate Removes(e: Event) { (e.WipeOk? || e.SessionClean?) ==> e.left == {} }

  lemma NoResidueMoves(cfg: Config, s: State, e: Event)
    requires Enabled(cfg, s, e) && Moves(e) && Removes(e) && NoResidue(s)
    ensures NoResidue(Apply(cfg, s, e))
  {}

  lemma NoResidueReturns(cfg: Config, s: State, e: Event)
    requires Enabled(cfg, s, e) && Returns(e) && Removes(e) && NoResidue(s)
    ensures NoResidue(Apply(cfg, s, e))
  {}

  lemma NoResidueStep(cfg: Config, s: State, e: Event)
    requires Enabled(cfg, s, e) && Removes(e) && NoResidue(s)
    ensures NoResidue(Apply(cfg, s, e))
  {
    if Moves(e) {
      NoResidueMoves(cfg, s, e);
    } else if Returns(e) {
      NoResidueReturns(cfg, s, e);
    }
  }

  lemma {:induction false} RunNoResidue(cfg: Config, s: State, log: seq<Event>)
    requires Legal(cfg, s, log) && NothingLeft(log) && NoResidue(s)
    ensures NoResidue(Replay(cfg, s, log))
    decreases |log|
  {
    if log != [] {
      assert log[0] in log;
      NoResidueStep(cfg, s, log[0]);
      RunNoResidue(cfg, Apply(cfg, s, log[0]), log[1..]);
    }
  }

  /** The files of an upload hold the bytes that were sent, under the same paths. */
  lemma TagHolds(m: map<Str, Bytes>, o: Origin)
    ensures Tag(m, o).Keys == m.Keys
    ensures forall p | p in m :: Tag(m, o)[p].data == m[p] && Tag(m, o)[p].origin == o
  {}

  // ---- workspaces -----------------------------------------------------------

  /** With `fresh_workdir_per_run`, a run's or stream's command starts with its
      own input files on top of whatever the last wipe failed to remove, and with
      nothing else. */
  lemma StartWorkspace(cfg: Config, placed: nat, init: State, log: seq<Event>, t: Ticket)
    requires Init(cfg, placed, init) && Legal(cfg, init, log) && cfg.wipePerRun
    requires Enabled(cfg, Replay(cfg, init, log), Start(t))
    ensures var s := Replay(cfg, init, log);
            var c := s.custody[t];
            !c.kind.Session? ==>
              && s.heap[c.w].files == s.heap[c.w].residue + Tag(c.inputs, ByRun(t))
              && (s.heap[c.w].files == Tag(c.inputs, ByRun(t)) <==> s.heap[c.w].residue.Keys <= c.inputs.Keys)
              && (NothingLeft(log) ==>
                    && s.heap[c.w].files.Keys == c.inputs.Keys
                    && forall p | p in c.inputs :: s.heap[c.w].files[p].data == c.inputs[p])
  {
    InitInv(cfg, placed, init);
    RunInv(cfg, placed, init, log);
    if NothingLeft(log) {
      RunNoResidue(cfg, init, log);
    }
    var s := Replay(cfg, init, log);
    var c := s.custody[t];
    assert CustodyOk(cfg, t, c, s.heap);
    if !c.kind.Session? {
      Overlay(s.heap[c.w].residue, Tag(c.inputs, ByRun(t)));
      assert Tag(c.inputs, ByRun(t)).Keys == c.inputs.Keys;
    }
  }

  lemma Overlay(below: Files, above: Files)
    ensures below + above == above <==> below.Keys <= above.Keys
  {
    if below + above == above {
      forall p | p in below ensures p in above {
        assert p in below + above;
      }
    }
  }

  lemma Unroll(cfg: Config, s: State, log: seq<Event>)
    requires log != [] && Enabled(cfg, s, log[0])
    ensures Legal(cfg, s, log) <==> Legal(cfg, Apply(cfg, s, log[0]), log[1..])
    ensures Legal(cfg, s, log) ==> Replay(cfg, s, log) == Replay(cfg, Apply(cfg, s, log[0]), log[1..])
  {}

  lemma OneStep(cfg: Config, s: State, a: Event)
    requires Enabled(cfg, s, a)
    ensures Legal(cfg, s, [a]) && Replay(cfg, s, [a]) == Apply(cfg, s, a)
  {
    Unroll(cfg, s, [a]);
    assert [a][1..] == [];
  }

  lemma TwoSteps(cfg: Config, s: State, a: Event, b: Event)
    requires Enabled(cfg, s, a) && Enabled(cfg, Apply(cfg, s, a), b)
    ensures Legal(cfg, s, [a, b]) && Replay(cfg, s, [a, b]) == Apply(cfg, Apply(cfg, s, a), b)
  {
    OneStep(cfg, s, a);
    OneStep(cfg, Apply(cfg, s, a), b);
    Extend(cfg, s, [a], [b]);
    assert [a] + [b] == [a, b];
  }

  // A run without input files on the only free worker finds what is on it.
  lemma NextRunFinds(cfg: Config, s: State, w: Wid)
    requires s.free == [w] && w in s.heap
    ensures var n := s.tickets;
            var log := [Lease(n, Run), Upload(n, map[])];
            && Legal(cfg, s, log)
            && var s' := Replay(cfg, s, log);
               && n in s'.custody && s'.custody[n] == Holding(Run, w, Ready, map[])
               && w in s'.heap && s'.heap[w].files == s.heap[w].files
  {
    var n := s.tickets;
    TwoSteps(cfg, s, Lease(n, Run), Upload(n, map[]));
    assert s.heap[w].files + Tag(map[], ByRun(n)) == s.heap[w].files;
  }

  lemma WipeLeaves(cfg: Config, s: State, t: Ticket, p: Str)
    requires Enabled(cfg, s, WipeOk(t, {p})) && p in s.heap[s.custody[t].w].files
    ensures var s', w := Apply(cfg, s, WipeOk(t, {p})), s.custody[t].w;
            && s'.free == s.free + [w] && s'.tickets == s.tickets
            && w in s'.heap && s'.heap[w].files == map[p := s.heap[w].files[p]]
  {
    assert Keep(s.heap[s.custody[t].w].files, {p}) == map[p := s.heap[s.custody[t].w].files[p]];
  }

  /** The cleaner reports success although it passes over files it cannot remove,
      so without that assumption isolation fails: whenever a wipe leaves a file
      behind and the queue is empty, the next run, given no files, starts with it. */
  lemma LeftoverReachesNextRun(cfg: Config, s: State, t: Ticket, p: Str)
    requires Enabled(cfg, s, WipeOk(t, {p})) && s.free == [] && p in s.heap[s.custody[t].w].files
    ensures var w, n := s.custody[t].w, s.tickets;
            var log := [WipeOk(t, {p})] + [Lease(n, Run), Upload(n, map[])];
            && Legal(cfg, s, log)
            && var s' := Replay(cfg, s, log);
               && n in s'.custody && s'.custody[n] == Holding(Run, w, Ready, map[])
               && w in s'.heap && s'.heap[w].files == map[p := s.heap[w].files[p]]
  {
    var w, n := s.custody[t].w, s.tickets;
    OneStep(cfg, s, WipeOk(t, {p}));
    WipeLeaves(cfg, s, t, p);
    NextRunFinds(cfg, Apply(cfg, s, WipeOk(t, {p})), w);
    Extend(cfg, s, [WipeOk(t, {p})], [Lease(n, Run), Upload(n, map[])]);
  }

  // A run writes a file and exits; its wipe thread starts.
  lemma DirtyRun(cfg: Config, s: State, w: Wid, p: Str, data: Bytes)
    requires s.free == [w] && w in s.heap && s.heap[w] == FRESH_WORKER && !s.closed
    requires cfg.wipePerRun && cfg.maxUses >= 2
    ensures var t := s.tickets;
            var file := File(data, ByRun(t));
            var log := [Lease(t, Run), Upload(t, map[])] + [Start(t), UserWrites(w, map[p := file])]
                       + [Exit(t), Release(t, false, false)] + [WipeCheck(t)];
            && Legal(cfg, s, log)
            && var s' := Replay(cfg, s, log);
               && s'.free == [] && s'.tickets == t + 1 && w in s'.heap && s'.heap[w].files == map[p := file]
               && t in s'.custody && s'.custody[t] == Wiping(w, true)
  {
    var t := s.tickets;
    var file := File(data, ByRun(t));
    NextRunFinds(cfg, s, w);
    var s1 := Apply(cfg, Apply(cfg, s, Lease(t, Run)), Upload(t, map[]));
    TwoSteps(cfg, s, Lease(t, Run), Upload(t, map[]));
    RunWrites(cfg, s1, t, map[p := file]);
    Extend(cfg, s, [Lease(t, Run), Upload(t, map[])], [Start(t), UserWrites(w, map[p := file])]);
    var s2 := Replay(cfg, s1, [Start(t), UserWrites(w, map[p := file])]);
    RunEnds(cfg, s2, t);
    Extend(cfg, s, [Lease(t, Run), Upload(t, map[])] + [Start(t), UserWrites(w, map[p := file])],
           [Exit(t), Release(t, false, false)]);
    var s3 := Replay(cfg, s2, [Exit(t), Release(t, false, false)]);
    OneStep(cfg, s3, WipeCheck(t));
    Extend(cfg, s, [Lease(t, Run), Upload(t, map[])] + [Start(t), UserWrites(w, map[p := file])]
                   + [Exit(t), Release(t, false, false)], [WipeCheck(t)]);
  }

  lemma RunWrites(cfg: Config, s: State, t: Ticket, after: Files)
    requires HeldAt(s, t, {Ready}) && s.custody[t].kind.Run?
    requires WrittenBy(s.heap[s.custody[t].w].files, after, ByRun(t))
    ensures var c := s.custody[t];
            var log := [Start(t), UserWrites(c.w, after)];
            && Legal(cfg, s, log)
            && Replay(cfg, s, log)
               == SetCustody(SetWorker(s, c.w, s.heap[c.w].(live := Some(ByRun(t)), files := after)),
                             t, c.(stage := Running))
  {
    TwoSteps(cfg, s, Start(t), UserWrites(s.custody[t].w, after));
  }

  lemma RunEnds(cfg: Config, s: State, t: Ticket)
    requires HeldAt(s, t, {Running}) && s.custody[t].kind.Run?
    requires cfg.wipePerRun && s.heap[s.custody[t].w].uses + 1 < cfg.maxUses
    ensures var w := s.custody[t].w;
            var log := [Exit(t), Release(t, false, false)];
            && Legal(cfg, s, log)
            && var s' := Replay(cfg, s, log);
               && s'.free == s.free && s'.tickets == s.tickets && s'.closed == s.closed
               && w in s'.heap && s'.heap[w].files == s.heap[w].files
               && t in s'.custody && s'.custody[t] == Wiping(w, false)
  {
    TwoSteps(cfg, s, Exit(t), Release(t, false, false));
  }

  // In persist mode a healthy run's worker goes back with its files.
  lemma RunKeeps(cfg: Config, s: State, t: Ticket)
    requires HeldAt(s, t, {Running}) && s.custody[t].kind.Run?
    requires !cfg.wipePerRun && s.heap[s.custody[t].w].uses + 1 < cfg.maxUses
    ensures var w := s.custody[t].w;
            var log := [Exit(t), Release(t, false, false)];
            && Legal(cfg, s, log)
            && var s' := Replay(cfg, s, log);
               s'.free == s.free + [w] && s'.tickets == s.tickets && w in s'.heap && s'.heap[w].files == s.heap[w].files
  {
    TwoSteps(cfg, s, Exit(t), Release(t, false, false));
  }

  // A run writes a file, exits, and gives its worker back.
  lemma PersistRun(cfg: Config, s: State, w: Wid, after: Files)
    requires s.free == [w] && w in s.heap && s.heap[w] == FRESH_WORKER
    requires !cfg.wipePerRun && cfg.maxUses >= 2 && WrittenBy(map[], after, ByRun(s.tickets))
    ensures var t := s.tickets;
            var log := [Lease(t, Run), Upload(t, map[])] + [Start(t), UserWrites(w, after)]
                       + [Exit(t), Release(t, false, false)];
            && Legal(cfg, s, log)
            && var s' := Replay(cfg, s, log);
               s'.free == [w] && s'.tickets == t + 1 && w in s'.heap && s'.heap[w].files == after
  {
    var t := s.tickets;
    var a, b := [Lease(t, Run), Upload(t, map[])], [Start(t), UserWrites(w, after)];
    var c := [Exit(t), Release(t, false, false)];
    NextRunFinds(cfg, s, w);
    TwoSteps(cfg, s, Lease(t, Run), Upload(t, map[]));
    var s1 := Replay(cfg, s, a);
    RunWrites(cfg, s1, t, after);
    Extend(cfg, s, a, b);
    var s2 := Replay(cfg, s1, b);
    RunKeeps(cfg, s2, t);
    Extend(cfg, s, a + b, c);
  }

  /** Without `fresh_workdir_per_run`, a run's files are there for the next run on
      the same worker: a second command, given no files, starts with them. */
  lemma PersistKeeps(cfg: Config, s: State, w: Wid, after: Files)
    requires s.free == [w] && w in s.heap && s.heap[w] == FRESH_WORKER
    requires !cfg.wipePerRun && cfg.maxUses >= 2 && WrittenBy(map[], after, ByRun(s.tickets))
    ensures var t := s.tickets;
            var log := [Lease(t, Run), Upload(t, map[])] + [Start(t), UserWrites(w, after)]
                       + [Exit(t), Release(t, false, false)] + [Lease(t + 1, Run), Upload(t + 1, map[])];
            && Legal(cfg, s, log)
            && var s' := Replay(cfg, s, log);
               && t + 1 in s'.custody && s'.custody[t + 1] == Holding(Run, w, Ready, map[])
               && w in s'.heap && s'.heap[w].files == after
  {
    var t := s.tickets;
    var first := [Lease(t, Run), Upload(t, map[])] + [Start(t), UserWrites(w, after)]
                 + [Exit(t), Release(t, false, false)];
    PersistRun(cfg, s, w, after);
    NextRunFinds(cfg, Replay(cfg, s, first), w);
    Extend(cfg, s, first, [Lease(t + 1, Run), Upload(t + 1, map[])]);
  }

  /** Such a wipe is reached: in every pool of one worker that wipes between runs
      there is a run in which a second caller's command, given no files, starts
      with the first one's. */
  lemma LeftoverHappens(cfg: Config, init: State, p: Str, data: Bytes)
    requires Init(cfg, 1, init) && cfg.wipePerRun && cfg.maxUses >= 2
    ensures exists log, t, n ::
              && Legal(cfg, init, log) && Enabled(cfg, Replay(cfg, init, log), Start(n)) && n != t
              && var s := Replay(cfg, init, log);
                 s.custody[n].inputs == map[] && s.heap[s.custody[n].w].files == map[p := File(data, ByRun(t))]
  {
    var t, w := init.tickets, init.free[0];
    assert init.free == [w];
    DirtyRun(cfg, init, w, p, data);
    var before := [Lease(t, Run), Upload(t, map[])] + [Start(t), UserWrites(w, map[p := File(data, ByRun(t))])]
                  + [Exit(t), Release(t, false, false)] + [WipeCheck(t)];
    var s := Replay(cfg, init, before);
    LeftoverReachesNextRun(cfg, s, t, p);
    var after := [WipeOk(t, {p})] + [Lease(t + 1, Run), Upload(t + 1, map[])];
    Extend(cfg, init, before, after);
    assert Enabled(cfg, Replay(cfg, init, before + after), Start(t + 1));
  }

  lemma Reached(cfg: Config, placed: nat, init: State, log: seq<Event>)
    requires Init(cfg, placed, init) && Legal(cfg, init, log)
    ensures Inv(cfg, placed, Replay(cfg, init, log))
    ensures NothingLeft(log) ==> NoResidue(Replay(cfg, init, log))
  {
    InitInv(cfg, placed, init);
    RunInv(cfg, placed, init, log);
    if NothingLeft(log) {
      RunNoResidue(cfg, init, log);
    }
  }

  /** The workspace `files` is the map `m` over what the last wipe left. */
  ghost predicate Over(r: Worker, files: Files, m: Files) {
    files == r.residue + m && (r.residue == map[] ==> files == m)
  }

  // The restore step of a session that has just wiped its worker.
  lemma RestoreStep(cfg: Config, s: State, t: Ticket, restore: map<Str, Bytes>)
    requires Enabled(cfg, s, Upload(t, restore)) && s.custody[t].stage.Wiped?
    requires HoldingOk(cfg, t, s.custody[t], s.heap[s.custody[t].w])
    ensures var s', w := Apply(cfg, s, Upload(t, restore)), s.custody[t].w;
            && t in s'.custody && s'.custody[t] == Holding(Session, w, Ready, restore)
            && w in s'.heap && Over(s.heap[w], s'.heap[w].files, Tag(restore, Seed(t)))
  {
    var none: Files := map[];
    assert none + Tag(restore, Seed(t)) == Tag(restore, Seed(t));
  }

  /** A session begins with exactly its restore map (and the last wipe's
      leftovers), whether or not runs are wiped. */
  lemma SessionBegins(cfg: Config, placed: nat, init: State, log: seq<Event>, t: Ticket, restore: map<Str, Bytes>)
    requires Init(cfg, placed, init) && Legal(cfg, init, log)
    requires Enabled(cfg, Replay(cfg, init, log), Upload(t, restore))
    requires Replay(cfg, init, log).custody[t].stage.Wiped?
    ensures var s := Replay(cfg, init, log);
            var s', w := Apply(cfg, s, Upload(t, restore)), s.custody[t].w;
            && t in s'.custody && s'.custody[t] == Holding(Session, w, Ready, restore)
            && w in s'.heap && Over(s.heap[w], s'.heap[w].files, Tag(restore, Seed(t)))
            && (NothingLeft(log) ==>
                  && s'.heap[w].files.Keys == restore.Keys
                  && forall p | p in restore :: s'.heap[w].files[p].data == restore[p])
  {
    Reached(cfg, placed, init, log);
    var s := Replay(cfg, init, log);
    assert CustodyOk(cfg, t, s.custody[t], s.heap);
    RestoreStep(cfg, s, t, restore);
  }

  // What ticket `t` and its worker keep while something else happens.
  ghost predicate Kept(s: State, s': State, t: Ticket) {
    && t in s.custody && t in s'.custody && s'.custody[t] == s.custody[t]
    && (HasWorker(s.custody[t]) ==>
          var w := s.custody[t].w;
          && w in s.heap && w in s'.heap
          && s'.heap[w] == s.heap[w].(files := s'.heap[w].files)
          && (s.heap[w].live.None? ==> s'.heap[w].files == s.heap[w].files))
  }

  lemma KeptLocal(s: State, s': State, t: Ticket, u: Ticket)
    requires Exclusive(s) && Local(s, s', t) && u in s.custody && u != t
    ensures Kept(s, s', u)
  {}

  lemma KeptShared(cfg: Config, s: State, e: Event, u: Ticket)
    requires Exclusive(s) && Enabled(cfg, s, e) && (Actor(e).None? || e.Lease?) && u in s.custody
    ensures Kept(s, Apply(cfg, s, e), u)
  {
    assert e.Lease? ==> s.free[0] in s.free;
  }

  /** No other thread touches a held worker or its ticket; its files change only
      while a command runs. */
  lemma OthersKeep(cfg: Config, s: State, e: Event, t: Ticket)
    requires Exclusive(s) && Named(s) && Enabled(cfg, s, e) && Actor(e) != Some(t) && t in s.custody
    ensures Kept(s, Apply(cfg, s, e), t)
  {
    if Actor(e).None? || e.Lease? {
      KeptShared(cfg, s, e, t);
    } else {
      StepLocal(cfg, s, e);
      KeptLocal(s, Apply(cfg, s, e), e.t, t);
    }
  }

  lemma StepLocal(cfg: Config, s: State, e: Event)
    requires Named(s) && Enabled(cfg, s, e) && Actor(e).Some? && !e.Lease?
    ensures Local(s, Apply(cfg, s, e), e.t)
  {
    if Moves(e) {
      MovesLocal(cfg, s, e);
    } else if Returns(e) {
      ReturnsLocal(cfg, s, e);
    } else {
      ReplacesLocal(cfg, s, e);
    }
  }

  /** `t` is an idle session: between calls, or wiped and not yet restored. */
  ghost predicate Idle(s: State, t: Ticket) {
    t in s.custody && s.custody[t].Holding? && s.custody[t].stage in {Wiped, Ready}
  }

  ghost predicate Same(s: State, s': State, t: Ticket)
    requires Idle(s, t)
  {
    && t in s'.custody && s'.custody[t] == s.custody[t]
    && var w := s.custody[t].w; w in s.heap && w in s'.heap && s'.heap[w] == s.heap[w]
  }

  lemma IdleStep(cfg: Config, s: State, e: Event, t: Ticket)
    requires Exclusive(s) && Named(s) && Statuses(cfg, s) && Enabled(cfg, s, e) && Actor(e) != Some(t) && Idle(s, t)
    ensures Same(s, Apply(cfg, s, e), t)
  {
    assert CustodyOk(cfg, t, s.custody[t], s.heap);
    OthersKeep(cfg, s, e, t);
  }

  /** Between two of its own steps an idle session sees its workspace unchanged,
      so a later call starts from what earlier calls left. */
  lemma {:induction false} SessionContinuity(cfg: Config, placed: nat, s: State, log: seq<Event>, t: Ticket)
    requires Inv(cfg, placed, s) && Legal(cfg, s, log) && Idle(s, t)
    requires forall e | e in log :: Actor(e) != Some(t)
    ensures Same(s, Replay(cfg, s, log), t)
    decreases |log|
  {
    if log != [] {
      assert log[0] in log;
      IdleStep(cfg, s, log[0], t);
      InvStep(cfg, placed, s, log[0]);
      SessionContinuity(cfg, placed, Apply(cfg, s, log[0]), log[1..], t);
    }
  }

  /** Even in persist mode, no file a session wrote or restored is on a free
      worker, nor on one a run or a pool stream holds. */
  lemma SessionFilesGone(cfg: Config, placed: nat, init: State, log: seq<Event>, w: Wid, p: Str)
    requires Init(cfg, placed, init) && Legal(cfg, init, log) && NothingLeft(log)
    requires var s := Replay(cfg, init, log);
             w in s.free || exists t | t in s.custody ::
               s.custody[t].Holding? && !s.custody[t].kind.Session? && s.custody[t].w == w
    ensures var s := Replay(cfg, init, log);
            w in s.heap && (p in s.heap[w].files ==> s.heap[w].files[p].origin.ByRun?)
  {
    InitInv(cfg, placed, init);
    RunInv(cfg, placed, init, log);
    RunNoResidue(cfg, init, log);
    var s := Replay(cfg, init, log);
    if w !in s.free {
      var t :| t in s.custody && s.custody[t].Holding? && !s.custody[t].kind.Session? && s.custody[t].w == w;
      assert CustodyOk(cfg, t, s.custody[t], s.heap);
    }
  }
}

/** Warm reuse refines a fresh pod per run.

    The abstract machine gives every run, stream and session a box of its own
    that starts empty and is thrown away. With complete wipes, every run of the
    pool is a run of that machine. */
module Isolation {
  import opened Common
  import opened Protocol
  import opened Invariant
  import opened Guarantees

  // ---- the abstract machine -------------------------------------------------

  datatype Box = Box(files: Files, running: bool)
  type Boxes = map<Ticket, Box>

  datatype Act =
    | New(t: Ticket)
    | Put(t: Ticket, input: Files)
    | Go(t: Ticket)
    | Write(t: Ticket, after: Files, author: Origin)
    | Stop(t: Ticket)
    | Discard(t: Ticket)
    | Silent

  /** What an act asks of the box it acts on, and what it makes of it. */
  ghost predicate CanBox(o: Option<Box>, a: Act) {
    match a
    case New(_) => o.None?
    case Put(_, _) => o.Some? && !o.value.running
    case Go(_) => o.Some? && !o.value.running
    case Write(t, after, author) =>
      o.Some? && o.value.running && author.ticket == t && WrittenBy(o.value.files, after, author)
    case Stop(_) => o.Some? && o.value.running
    case Discard(_) => o.Some?
    case Silent => true
  }

  function DoBox(o: Option<Box>, a: Act): Option<Box>
    requires o.Some? || a.New? || a.Silent?
  {
    match a
    case New(_) => Some(Box(map[], false))
    case Put(_, input) => Some(o.value.(files := o.value.files + input))
    case Go(_) => Some(o.value.(running := true))
    case Write(_, after, _) => Some(o.value.(files := after))
    case Stop(_) => Some(o.value.(running := false))
    case Discard(_) => None
    case Silent => o
  }

  function Get(b: Boxes, t: Ticket): Option<Box> { if t in b then Some(b[t]) else None }

  function Set(b: Boxes, t: Ticket, o: Option<Box>): Boxes {
    match o
    case Some(x) => b[t := x]
    case None => b - {t}
  }

  ghost predicate Can(b: Boxes, a: Act) { a.Silent? || CanBox(Get(b, a.t), a) }

  ghost function Do(b: Boxes, a: Act): Boxes
    requires Can(b, a)
  {
    if a.Silent? then b else Set(b, a.t, DoBox(Get(b, a.t), a))
  }

  ghost predicate IsRun(b: Boxes, acts: seq<Act>, b': Boxes)
    decreases |acts|
  {
    if acts == [] then b == b' else Can(b, acts[0]) && IsRun(Do(b, acts[0]), acts[1..], b')
  }

  // ---- the abstraction ------------------------------------------------------

  /** A holder the promise covers and that has not failed. In persist mode only
      sessions are promised a clean start, and only from their own wipe on. */
  predicate Promised(cfg: Config, c: Custodian) {
    c.Holding? && !c.stage.Doomed? && (if c.kind.Session? then !c.stage.Leased? else cfg.wipePerRun)
  }

  ghost predicate Visible(cfg: Config, s: State, t: Ticket) {
    t in s.custody && Promised(cfg, s.custody[t]) && s.custody[t].w in s.heap
  }

  ghost function BoxOf(cfg: Config, s: State, t: Ticket): Option<Box> {
    if Visible(cfg, s, t) then Some(Box(s.heap[s.custody[t].w].files, s.custody[t].stage.Running?)) else None
  }

  ghost function Abs(cfg: Config, s: State): Boxes {
    map t | t in s.custody && BoxOf(cfg, s, t).Some? ::
      if BoxOf(cfg, s, t).Some? then BoxOf(cfg, s, t).value else Box(map[], false)
  }

  /** The abstract act a step amounts to. */
  ghost function AbsAct(cfg: Config, s: State, e: Event): Act
    requires Enabled(cfg, s, e)
  {
    match e
    case Lease(t, kind) => if cfg.wipePerRun && !kind.Session? then New(t) else Silent
    case SessionClean(t, _) => New(t)
    case Upload(t, input) => if Visible(cfg, s, t) then Put(t, Tag(input, UploadOrigin(s.custody[t], t))) else Silent
    case Start(t) => if Visible(cfg, s, t) then Go(t) else Silent
    case UserWrites(w, after) =>
      var author := s.heap[w].live.value;
      if Visible(cfg, s, author.ticket) && s.custody[author.ticket].w == w
      then Write(author.ticket, after, author) else Silent
    case Exit(t) => if Visible(cfg, s, t) then Stop(t) else Silent
    case Fail(t, _) => if Visible(cfg, s, t) then Discard(t) else Silent
    case Release(t, _, _) => if Visible(cfg, s, t) then Discard(t) else Silent
    case RetireNow(t) => if Visible(cfg, s, t) then Discard(t) else Silent
    case _ => Silent
  }

  ghost function AbsActs(cfg: Config, s: State, log: seq<Event>): seq<Act>
    requires Legal(cfg, s, log)
    decreases |log|
  {
    if log == [] then [] else [AbsAct(cfg, s, log[0])] + AbsActs(cfg, Apply(cfg, s, log[0]), log[1..])
  }

  // ---- simulation -----------------------------------------------------------

  ghost predicate Simulates(cfg: Config, s: State, e: Event)
    requires Enabled(cfg, s, e)
  {
    var a := AbsAct(cfg, s, e);
    Can(Abs(cfg, s), a) && Do(Abs(cfg, s), a) == Abs(cfg, Apply(cfg, s, e))
  }

  lemma AbsGet(cfg: Config, s: State, t: Ticket)
    ensures Get(Abs(cfg, s), t) == BoxOf(cfg, s, t)
  {}

  // Only the box of `a.t` changes, and as the act says.
  lemma Lift(cfg: Config, s: State, s': State, a: Act)
    requires !a.Silent? && CanBox(BoxOf(cfg, s, a.t), a)
    requires BoxOf(cfg, s', a.t) == DoBox(BoxOf(cfg, s, a.t), a)
    requires forall u | u != a.t :: BoxOf(cfg, s', u) == BoxOf(cfg, s, u)
    ensures Can(Abs(cfg, s), a) && Do(Abs(cfg, s), a) == Abs(cfg, s')
  {
    AbsGet(cfg, s, a.t);
    var b := Do(Abs(cfg, s), a);
    forall u ensures Get(b, u) == Get(Abs(cfg, s'), u) {
      AbsGet(cfg, s, u);
      AbsGet(cfg, s', u);
    }
    SameBoxes(b, Abs(cfg, s'));
  }

  lemma LiftSilent(cfg: Config, s: State, s': State)
    requires forall u :: BoxOf(cfg, s', u) == BoxOf(cfg, s, u)
    ensures Abs(cfg, s) == Abs(cfg, s')
  {
    forall u ensures Get(Abs(cfg, s), u) == Get(Abs(cfg, s'), u) {
      AbsGet(cfg, s, u);
      AbsGet(cfg, s', u);
    }
    SameBoxes(Abs(cfg, s), Abs(cfg, s'));
  }

  lemma SameBoxes(a: Boxes, b: Boxes)
    requires forall u :: Get(a, u) == Get(b, u)
    ensures a == b
  {
    forall u ensures (u in a <==> u in b) && (u in a ==> a[u] == b[u]) {
      assert Get(a, u) == Get(b, u);
    }
  }

  lemma LocalBox(cfg: Config, s: State, s': State, t: Ticket, u: Ticket)
    requires Exclusive(s) && Local(s, s', t) && u != t
    ensures BoxOf(cfg, s', u) == BoxOf(cfg, s, u)
  {}

  lemma SharedBox(cfg: Config, s: State, e: Event, u: Ticket)
    requires Exclusive(s) && Enabled(cfg, s, e) && (e.Lease? || e.Close? || e.Drain?) && Actor(e) != Some(u)
    ensures BoxOf(cfg, Apply(cfg, s, e), u) == BoxOf(cfg, s, u)
  {
    assert e.Lease? ==> s.free[0] in s.free;
  }

  lemma OtherBox(cfg: Config, placed: nat, s: State, e: Event, u: Ticket)
    requires Inv(cfg, placed, s) && Enabled(cfg, s, e) && Actor(e) != Some(u) && !e.UserWrites?
    ensures BoxOf(cfg, Apply(cfg, s, e), u) == BoxOf(cfg, s, u)
  {
    if e.Lease? || e.Close? || e.Drain? {
      SharedBox(cfg, s, e, u);
    } else {
      StepLocal(cfg, s, e);
      LocalBox(cfg, s, Apply(cfg, s, e), e.t, u);
    }
  }

  lemma SimulateQuiet(cfg: Config, placed: nat, s: State, e: Event)
    requires Inv(cfg, placed, s) && Enabled(cfg, s, e) && !e.UserWrites? && !e.Lease?
    requires Actor(e).None? || !s.custody[e.t].Holding?
    ensures Simulates(cfg, s, e)
  {
    var s' := Apply(cfg, s, e);
    forall u: Ticket ensures BoxOf(cfg, s', u) == BoxOf(cfg, s, u) {
      if Actor(e) != Some(u) {
        OtherBox(cfg, placed, s, e, u);
      }
    }
    LiftSilent(cfg, s, s');
  }

  lemma SimulateLease(cfg: Config, placed: nat, s: State, e: Event)
    requires Inv(cfg, placed, s) && NoResidue(s) && Enabled(cfg, s, e) && e.Lease?
    ensures Simulates(cfg, s, e)
  {
    var s' := Apply(cfg, s, e);
    assert FreeOk(cfg, s.heap[s.free[0]]);
    forall u | u != e.t ensures BoxOf(cfg, s', u) == BoxOf(cfg, s, u) {
      OtherBox(cfg, placed, s, e, u);
    }
    if AbsAct(cfg, s, e).Silent? {
      LiftSilent(cfg, s, s');
    } else {
      Lift(cfg, s, s', AbsAct(cfg, s, e));
    }
  }

  // What the holder's own step does to its box.
  lemma BoxStep(cfg: Config, s: State, e: Event)
    requires Exclusive(s) && Enabled(cfg, s, e) && Removes(e)
    requires Actor(e).Some? && e.t in s.custody && s.custody[e.t].Holding?
    requires CustodyOk(cfg, e.t, s.custody[e.t], s.heap)
    ensures var a, o := AbsAct(cfg, s, e), BoxOf(cfg, s, e.t);
            && CanBox(o, a) && BoxOf(cfg, Apply(cfg, s, e), e.t) == DoBox(o, a)
            && (!a.Silent? ==> a.t == e.t)
  {
    var c := s.custody[e.t];
    assert e.SessionClean? ==> Keep(s.heap[c.w].files, e.left) == map[];
    if e.Release? {
      assert !Visible(cfg, Apply(cfg, s, e), e.t);
    }
  }

  lemma SimulateHolder(cfg: Config, placed: nat, s: State, e: Event)
    requires Inv(cfg, placed, s) && Enabled(cfg, s, e) && Removes(e)
    requires Actor(e).Some? && e.t in s.custody && s.custody[e.t].Holding?
    ensures Simulates(cfg, s, e)
  {
    var s', t := Apply(cfg, s, e), e.t;
    assert CustodyOk(cfg, t, s.custody[t], s.heap);
    forall u | u != t ensures BoxOf(cfg, s', u) == BoxOf(cfg, s, u) {
      OtherBox(cfg, placed, s, e, u);
    }
    BoxStep(cfg, s, e);
    if AbsAct(cfg, s, e).Silent? {
      LiftSilent(cfg, s, s');
    } else {
      Lift(cfg, s, s', AbsAct(cfg, s, e));
    }
  }

  lemma SimulateWrites(cfg: Config, placed: nat, s: State, e: Event)
    requires Inv(cfg, placed, s) && Enabled(cfg, s, e) && e.UserWrites?
    ensures Simulates(cfg, s, e)
  {
    var s' := Apply(cfg, s, e);
    var t := s.heap[e.writer].live.value.ticket;
    forall u | u != t || !(t in s.custody && Visible(cfg, s, t) && s.custody[t].w == e.writer)
      ensures BoxOf(cfg, s', u) == BoxOf(cfg, s, u)
    {
      if u in s.custody && s.custody[u].Holding? && s.custody[u].w == e.writer {
        assert CustodyOk(cfg, u, s.custody[u], s.heap);
      }
    }
    if AbsAct(cfg, s, e).Silent? {
      LiftSilent(cfg, s, s');
    } else {
      assert CustodyOk(cfg, t, s.custody[t], s.heap);
      Lift(cfg, s, s', AbsAct(cfg, s, e));
    }
  }

  lemma SimulateStep(cfg: Config, placed: nat, s: State, e: Event)
    requires Inv(cfg, placed, s) && NoResidue(s) && Enabled(cfg, s, e) && Removes(e)
    ensures Simulates(cfg, s, e)
  {
    if e.UserWrites? {
      SimulateWrites(cfg, placed, s, e);
    } else if e.Lease? {
      SimulateLease(cfg, placed, s, e);
    } else if Actor(e).None? || !s.custody[e.t].Holding? {
      SimulateQuiet(cfg, placed, s, e);
    } else {
      SimulateHolder(cfg, placed, s, e);
    }
  }

  lemma {:induction false} Simulation(cfg: Config, placed: nat, s: State, log: seq<Event>)
    requires Inv(cfg, placed, s) && NoResidue(s) && Legal(cfg, s, log) && NothingLeft(log)
    ensures IsRun(Abs(cfg, s), AbsActs(cfg, s, log), Abs(cfg, Replay(cfg, s, log)))
    decreases |log|
  {
    if log != [] {
      assert log[0] in log;
      SimulateStep(cfg, placed, s, log[0]);
      InvStep(cfg, placed, s, log[0]);
      NoResidueStep(cfg, s, log[0]);
      var s1 := Apply(cfg, s, log[0]);
      Simulation(cfg, placed, s1, log[1..]);
      RunCons(Abs(cfg, s), AbsAct(cfg, s, log[0]), AbsActs(cfg, s1, log[1..]), Abs(cfg, Replay(cfg, s, log)));
    }
  }

  lemma RunCons(b: Boxes, a: Act, acts: seq<Act>, b': Boxes)
    requires Can(b, a) && IsRun(Do(b, a), acts, b')
    ensures IsRun(b, [a] + acts, b')
  {
    assert ([a] + acts)[1..] == acts;
  }

  /** Every run of the pool whose wipes removed all they found is, seen through
      the workspaces of its live holders, a run of the machine that gives each
      run, stream and session a new empty box. */
  lemma WarmReuseRefinesFreshPods(cfg: Config, placed: nat, init: State, log: seq<Event>)
    requires Init(cfg, placed, init) && Legal(cfg, init, log) && NothingLeft(log)
    ensures IsRun(map[], AbsActs(cfg, init, log), Abs(cfg, Replay(cfg, init, log)))
  {
    InitInv(cfg, placed, init);
    assert Abs(cfg, init) == map[];
    Simulation(cfg, placed, init, log);
  }
}

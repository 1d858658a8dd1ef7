/** A stream inside the pool: what its caller does to the stream, the steps this
    amounts to in the pool protocol, and the steps everyone else takes meanwhile.

    A call to the stream leaves a list of things still to be done to its worker;
    any other thread may step before each of them. Nothing here supposes that a
    step is enabled or what the verdict is: both are proved, for a stream of the
    pool and for one that borrows a session's worker. */
module Streaming {
  import opened Common
  import P = Protocol
  import I = Invariant
  import G = Guarantees
  import opened Streams

  /** What a stream still has to do with its worker. */
  datatype Task =
    | Stage(input: map<Str, Bytes>)   // by the paths the files land at
    | Launch
    | SeeExit
    | Spoil            // the upload, the command or the connection failed
    | HandBack(retire: bool, aged: bool)

  datatype Pair = Pair(pool: P.State, log: seq<P.Event>, ops: seq<Op>, t: Option<P.Ticket>, todo: seq<Task>)

  datatype Move =
    | Other(e: P.Event)
    | Call(op: Op, input: map<Str, Bytes>, aged: bool)
    | Continue(partial: P.Files)

  /** The pool, and whose streams these are: `kind` is Stream for the pool's own
      and Session for those that borrow a session's worker. */
  datatype Setting = Setting(cfg: P.Config, placed: nat, init: P.State, kind: P.Kind)

  ghost predicate ValidSetting(x: Setting) { P.Init(x.cfg, x.placed, x.init) && !x.kind.Run? }

  // ---- what a call amounts to -----------------------------------------------

  function SignalTasks(signal: Signal): seq<Task> {
    match signal
    case Chunk => []
    case ExitSeen(_, _) => [SeeExit]
    case Deadline => [Spoil]
    case Error => [Spoil]
  }

  /** `on_finish`: the pool's releases or retires the worker; a session's retires
      it, or leaves it to the session. */
  function FinishTasks(kind: P.Kind, s: StreamState, s': StreamState, aged: bool): seq<Task> {
    if |s'.verdicts| <= |s.verdicts| then []
    else
      var retire := s'.verdicts[|s'.verdicts| - 1].1;
      if kind.Session? && !retire then [] else [HandBack(retire, aged)]
  }

  function TasksOf(kind: P.Kind, s: StreamState, op: Op, input: map<Str, Bytes>, aged: bool): seq<Task> {
    match op
    case Enter(None, _) => []
    case Enter(Some(_), prepared) =>
      (if prepared then [Stage(input)] else [Spoil]) + FinishTasks(kind, s, Streams.Perform(s, op), aged)
    case First(envOk, signal) =>
      if s.iterated || s.worker.None? || !envOk then [] else [Launch] + SignalTasks(signal)
    case Next(signal) => if s.gen.Suspended? then SignalTasks(signal) else []
    case CloseGen => if s.gen.Suspended? then [Spoil] else []
    case Exit(_) => FinishTasks(kind, s, Streams.Perform(s, op), aged)
  }

  ghost predicate Held(p: P.State, t: P.Ticket) {
    t in p.custody && p.custody[t].Holding? && p.custody[t].w in p.heap
  }

  /** The step of the protocol that does the task. */
  ghost function EventOf(kind: P.Kind, p: P.State, t: P.Ticket, task: Task, partial: P.Files): P.Event
    requires Held(p, t)
  {
    match task
    case Stage(input) => P.Upload(t, input)
    case Launch => P.Start(t)
    case SeeExit => P.Event.Exit(t)
    case Spoil =>
      var c := p.custody[t];
      var files := p.heap[c.w].files;
      P.Fail(t, if P.WrittenBy(files, partial, P.UploadOrigin(c, t)) then partial else files)
    case HandBack(retire, aged) => if kind.Session? then P.RetireNow(t) else P.Release(t, retire, aged)
  }

  // ---- moves ----------------------------------------------------------------

  /** The stream has its worker, or is not yet done with handing it back. */
  predicate Busy(d: Pair) { d.todo != [] || Run(d.ops).worker.Some? }

  /** What the stream's `acquire` hands it: the head of the queue, or the worker of
      the live session it was made in. */
  ghost predicate Takes(x: Setting, d: Pair, w: P.Wid) {
    if x.kind.Session?
    then d.t.Some? && P.HeldAt(d.pool, d.t.value, {P.Ready})
         && d.pool.custody[d.t.value].kind.Session? && d.pool.custody[d.t.value].w == w
    else P.Enabled(x.cfg, d.pool, P.Lease(d.pool.tickets, P.Stream)) && d.pool.free[0] == w
  }

  /** A stream is entered at most once, not after it was exited, and exited with
      its generator exhausted or closed; otherwise anything goes. */
  ghost predicate CanMove(x: Setting, d: Pair, m: Move) {
    match m
    case Other(e) => P.Enabled(x.cfg, d.pool, e) && (Busy(d) ==> P.Actor(e) != d.t)
    case Call(op, _, _) =>
      && d.todo == []
      && (op.Exit? ==> !Run(d.ops).gen.Suspended?)
      && (Acquires(op) ==> Acquisitions(d.ops) == 0 && !Run(d.ops).finished && Takes(x, d, op.acquired.value))
    case Continue(partial) =>
      && d.todo != [] && d.t.Some? && Held(d.pool, d.t.value)
      && P.Enabled(x.cfg, d.pool, EventOf(x.kind, d.pool, d.t.value, d.todo[0], partial))
  }

  ghost function Advance(x: Setting, d: Pair, e: P.Event): Pair
    requires P.Enabled(x.cfg, d.pool, e)
  {
    d.(pool := P.Apply(x.cfg, d.pool, e), log := d.log + [e])
  }

  ghost function Acquired(x: Setting, d: Pair, op: Op): Pair
    requires Acquires(op) ==> Takes(x, d, op.acquired.value)
  {
    if Acquires(op) && !x.kind.Session?
    then Advance(x, d, P.Lease(d.pool.tickets, P.Stream)).(t := Some(d.pool.tickets)) else d
  }

  ghost function Do(x: Setting, d: Pair, m: Move): Pair
    requires CanMove(x, d, m)
  {
    match m
    case Other(e) => Advance(x, d, e)
    case Call(op, input, aged) =>
      Acquired(x, d, op).(ops := d.ops + [op], todo := TasksOf(x.kind, Run(d.ops), op, input, aged))
    case Continue(partial) =>
      Advance(x, d, EventOf(x.kind, d.pool, d.t.value, d.todo[0], partial)).(todo := d.todo[1..])
  }

  ghost predicate Legal(x: Setting, d: Pair, moves: seq<Move>)
    decreases |moves|
  {
    moves == [] || (CanMove(x, d, moves[0]) && Legal(x, Do(x, d, moves[0]), moves[1..]))
  }

  ghost function End(x: Setting, d: Pair, moves: seq<Move>): Pair
    requires Legal(x, d, moves)
    decreases |moves|
  {
    if moves == [] then d else End(x, Do(x, d, moves[0]), moves[1..])
  }

  /** A new stream, in any state a run of the pool leads to. */
  ghost predicate Starts(x: Setting, d: Pair) {
    && ValidSetting(x) && InPool(x, d) && d.ops == [] && d.todo == []
  }

  ghost predicate InPool(x: Setting, d: Pair) {
    P.Legal(x.cfg, x.init, d.log) && d.pool == P.Replay(x.cfg, x.init, d.log)
  }

  // ---- where the worker stands ----------------------------------------------

  /** Where the protocol has the holder of a stream with nothing left to do. */
  function StageOf(kind: P.Kind, s: StreamState): P.Stage {
    match s.channel
    case Unopened => P.Ready
    case Open => P.Running
    case SeenClosed => if kind.Session? then P.Ready else P.Stage.Exited
    case Abandoned => P.Doomed
  }

  predicate CanDo(kind: P.Kind, stage: P.Stage, task: Task) {
    match task
    case Stage(_) => stage == if kind.Session? then P.Ready else P.Leased
    case Launch => stage.Ready?
    case SeeExit => stage.Running?
    case Spoil => stage in {P.Leased, P.Ready, P.Running, P.Stage.Exited}
    case HandBack(retire, _) =>
      stage in {P.Ready, P.Stage.Exited} || ((kind.Session? || retire) && stage in {P.Running, P.Doomed})
  }

  function After(kind: P.Kind, task: Task): P.Stage {
    match task
    case Stage(_) => P.Ready
    case Launch => P.Running
    case SeeExit => if kind.Session? then P.Ready else P.Stage.Exited
    case _ => P.Doomed
  }

  /** From `stage` all that is left to do can be done, and ends as `s` says. */
  predicate Plays(kind: P.Kind, stage: P.Stage, todo: seq<Task>, s: StreamState)
    decreases |todo|
  {
    if todo == [] then s.worker.Some? && stage == StageOf(kind, s)
    else
      && CanDo(kind, stage, todo[0])
      && if todo[0].HandBack? then |todo| == 1 && s.worker.None?
         else Plays(kind, After(kind, todo[0]), todo[1..], s)
  }

  ghost predicate HasWorkerFor(x: Setting, d: Pair) {
    && d.t.Some? && Held(d.pool, d.t.value)
    && var c, s := d.pool.custody[d.t.value], Run(d.ops);
       && c.kind == x.kind && (s.worker.Some? ==> s.worker.value == c.w)
       && (s.worker.None? ==> s.verdicts != [] && s.verdicts[|s.verdicts| - 1].0 == c.w)
       && Plays(x.kind, c.stage, d.todo, s)
  }

  ghost predicate Orderly(s: StreamState) {
    (s.gen.Suspended? ==> s.worker.Some?) && (s.worker.Some? ==> !s.finished && s.verdicts == [])
  }

  ghost predicate Coupled(x: Setting, d: Pair) {
    && ValidSetting(x) && InPool(x, d)
    && Orderly(Run(d.ops)) && (Busy(d) ==> Acquisitions(d.ops) > 0 && HasWorkerFor(x, d))
  }

  // ---- what every interleaving keeps ----------------------------------------

  lemma PoolInv(x: Setting, d: Pair)
    requires ValidSetting(x) && InPool(x, d)
    ensures I.Inv(x.cfg, x.placed, d.pool)
  {
    I.InitInv(x.cfg, x.placed, x.init);
    G.RunInv(x.cfg, x.placed, x.init, d.log);
  }

  lemma AdvanceInPool(x: Setting, d: Pair, e: P.Event)
    requires InPool(x, d) && P.Enabled(x.cfg, d.pool, e)
    ensures InPool(x, Advance(x, d, e))
  {
    assert [e][1..] == [];
    P.Extend(x.cfg, x.init, d.log, [e]);
  }

  // A task that fits the stage is enabled, and leads to the next stage.
  lemma TaskStep(x: Setting, p: P.State, t: P.Ticket, task: Task, partial: P.Files)
    requires Held(p, t) && p.custody[t].kind == x.kind && !x.kind.Run? && CanDo(x.kind, p.custody[t].stage, task)
    ensures var e, c := EventOf(x.kind, p, t, task, partial), p.custody[t];
            && P.Enabled(x.cfg, p, e)
            && (!task.HandBack? ==>
                  var p' := P.Apply(x.cfg, p, e);
                  && Held(p', t) && p'.custody[t].kind == c.kind && p'.custody[t].w == c.w
                  && p'.custody[t].stage == After(x.kind, task))
  {}

  lemma OtherStep(x: Setting, d: Pair, e: P.Event)
    requires Coupled(x, d) && CanMove(x, d, Other(e))
    ensures Coupled(x, Do(x, d, Other(e)))
  {
    AdvanceInPool(x, d, e);
    PoolInv(x, d);
    if Busy(d) {
      G.OthersKeep(x.cfg, d.pool, e, d.t.value);
    }
  }

  lemma ContinueStep(x: Setting, d: Pair, partial: P.Files)
    requires Coupled(x, d) && CanMove(x, d, Continue(partial))
    ensures Coupled(x, Do(x, d, Continue(partial)))
  {
    var e := EventOf(x.kind, d.pool, d.t.value, d.todo[0], partial);
    AdvanceInPool(x, d, e);
    TaskStep(x, d.pool, d.t.value, d.todo[0], partial);
  }

  lemma RunNext(ops: seq<Op>, op: Op)
    ensures Run(ops + [op]) == Streams.Perform(Run(ops), op)
    ensures Acquisitions(ops + [op]) == Acquisitions(ops) + if Acquires(op) then 1 else 0
  {
    assert (ops + [op])[..|ops|] == ops;
  }

  // Entering: the worker is leased, or is the session's, and its inputs are next.
  lemma EnterStep(x: Setting, d: Pair, op: Op, input: map<Str, Bytes>, aged: bool)
    requires Coupled(x, d) && CanMove(x, d, Call(op, input, aged)) && Acquires(op)
    ensures Coupled(x, Do(x, d, Call(op, input, aged)))
  {
    NoneAcquired(d.ops);
    AlwaysOk(d.ops);
    RunNext(d.ops, op);
    if !x.kind.Session? {
      AdvanceInPool(x, d, P.Lease(d.pool.tickets, P.Stream));
    }
    var s, s' := Run(d.ops), Streams.Perform(Run(d.ops), op);
    var d' := Acquired(x, d, op);
    var stage := d'.pool.custody[d'.t.value].stage;
    EnterPlays(x.kind, stage, s, op, input, aged);
  }

  lemma EnterPlays(kind: P.Kind, stage: P.Stage, s: StreamState, op: Op, input: map<Str, Bytes>, aged: bool)
    requires Acquires(op) && !s.finished && s.verdicts == [] && s.channel.Unopened?
    requires stage == if kind.Session? then P.Ready else P.Leased
    ensures Plays(kind, stage, TasksOf(kind, s, op, input, aged), Streams.Perform(s, op))
  {
    var todo := TasksOf(kind, s, op, input, aged);
    if op.prepared {
      assert todo == [Stage(input)];
      assert todo[1..] == [];
    } else {
      assert todo == [Spoil, HandBack(true, aged)];
      assert todo[1..] == [HandBack(true, aged)];
    }
  }

  lemma SignalPlays(kind: P.Kind, s: StreamState, signal: Signal)
    requires s.worker.Some?
    ensures Plays(kind, P.Running, SignalTasks(signal), Resume(s, signal))
  {
    assert SignalTasks(signal) != [] ==> SignalTasks(signal)[1..] == [];
  }

  lemma CallPlays(kind: P.Kind, s: StreamState, op: Op, input: map<Str, Bytes>, aged: bool)
    requires Streams.Ok(s) && s.worker.Some? && !s.finished && s.verdicts == [] && !Acquires(op)
    requires op.Exit? ==> !s.gen.Suspended?
    ensures var todo, s' := TasksOf(kind, s, op, input, aged), Streams.Perform(s, op);
            todo != [] || s'.worker.Some? ==> Plays(kind, StageOf(kind, s), todo, s')
  {
    var todo := TasksOf(kind, s, op, input, aged);
    match op {
      case First(envOk, signal) =>
        if todo != [] {
          SignalPlays(kind, s.(iterated := true), signal);
          assert todo[1..] == SignalTasks(signal);
        }
      case Next(signal) =>
        if s.gen.Suspended? {
          SignalPlays(kind, s, signal);
        }
      case CloseGen =>
        if s.gen.Suspended? {
          assert todo == [Spoil] && todo[1..] == [];
        }
      case _ =>
    }
  }

  lemma IdleCall(kind: P.Kind, s: StreamState, op: Op, input: map<Str, Bytes>, aged: bool)
    requires Streams.Ok(s) && Orderly(s) && s.worker.None? && !Acquires(op)
    ensures TasksOf(kind, s, op, input, aged) == [] && Streams.Perform(s, op).worker.None?
    ensures Orderly(Streams.Perform(s, op))
  {}

  // The verdict, if the call has one, is about the worker the stream had.
  lemma CallOrderly(s: StreamState, op: Op)
    requires Streams.Ok(s) && Orderly(s) && s.worker.Some? && !Acquires(op)
    requires op.Exit? ==> !s.gen.Suspended?
    ensures var s' := Streams.Perform(s, op);
            && Orderly(s')
            && if s'.worker.Some? then s'.worker == s.worker
               else s'.verdicts != [] && s'.verdicts[|s'.verdicts| - 1].0 == s.worker.value
  {}

  lemma CallHolds(x: Setting, d: Pair, op: Op, todo: seq<Task>)
    requires Orderly(Run(d.ops)) && Run(d.ops).worker.Some? && d.todo == [] && HasWorkerFor(x, d) && !Acquires(op)
    requires op.Exit? ==> !Run(d.ops).gen.Suspended?
    requires Plays(x.kind, StageOf(x.kind, Run(d.ops)), todo, Streams.Perform(Run(d.ops), op))
    ensures HasWorkerFor(x, d.(ops := d.ops + [op], todo := todo))
  {
    AlwaysOk(d.ops);
    RunNext(d.ops, op);
    CallOrderly(Run(d.ops), op);
  }

  lemma CallStep(x: Setting, d: Pair, op: Op, input: map<Str, Bytes>, aged: bool)
    requires Coupled(x, d) && CanMove(x, d, Call(op, input, aged)) && !Acquires(op)
    ensures Coupled(x, Do(x, d, Call(op, input, aged)))
  {
    var s, todo := Run(d.ops), TasksOf(x.kind, Run(d.ops), op, input, aged);
    AlwaysOk(d.ops);
    RunNext(d.ops, op);
    if s.worker.None? {
      IdleCall(x.kind, s, op, input, aged);
    } else {
      CallOrderly(s, op);
      CallPlays(x.kind, s, op, input, aged);
      if todo != [] || Streams.Perform(s, op).worker.Some? {
        CallHolds(x, d, op, todo);
      }
    }
  }

  lemma CoupledStep(x: Setting, d: Pair, m: Move)
    requires Coupled(x, d) && CanMove(x, d, m)
    ensures Coupled(x, Do(x, d, m))
  {
    match m {
      case Other(e) => OtherStep(x, d, e);
      case Continue(partial) => ContinueStep(x, d, partial);
      case Call(op, input, aged) =>
        if Acquires(op) {
          EnterStep(x, d, op, input, aged);
        } else {
          CallStep(x, d, op, input, aged);
        }
    }
  }

  lemma {:induction false} AlwaysCoupled(x: Setting, d: Pair, moves: seq<Move>)
    requires Coupled(x, d) && Legal(x, d, moves)
    ensures Coupled(x, End(x, d, moves))
    decreases |moves|
  {
    if moves != [] {
      CoupledStep(x, d, moves[0]);
      AlwaysCoupled(x, Do(x, d, moves[0]), moves[1..]);
    }
  }

  lemma StartsCoupled(x: Setting, d: Pair)
    requires Starts(x, d)
    ensures Coupled(x, d)
  {}

  // ---- the results ----------------------------------------------------------

  /** However calls to a stream and steps of other threads interleave, the pool's
      record stays a legal run, whatever the stream has to do next is enabled, and
      with nothing left to do its worker is held where the stream's channel says. */
  lemma StreamFollowsProtocol(x: Setting, d0: Pair, moves: seq<Move>, partial: P.Files)
    requires Starts(x, d0) && Legal(x, d0, moves)
    ensures var d := End(x, d0, moves);
            && P.Legal(x.cfg, x.init, d.log) && d.pool == P.Replay(x.cfg, x.init, d.log)
            && (d.todo != [] ==>
                  && d.t.Some? && Held(d.pool, d.t.value)
                  && P.Enabled(x.cfg, d.pool, EventOf(x.kind, d.pool, d.t.value, d.todo[0], partial)))
            && (d.todo == [] && Run(d.ops).worker.Some? ==>
                  && d.t.Some? && Held(d.pool, d.t.value)
                  && var c := d.pool.custody[d.t.value];
                     c.kind == x.kind && Some(c.w) == Run(d.ops).worker && c.stage == StageOf(x.kind, Run(d.ops)))
  {
    StartsCoupled(x, d0);
    AlwaysCoupled(x, d0, moves);
    var d := End(x, d0, moves);
    if d.todo != [] {
      TaskStep(x, d.pool, d.t.value, d.todo[0], partial);
    }
  }

  /** Exited with its generator exhausted or closed, a stream reports its worker
      once, and the protocol allows what `on_finish` then does: the pool's release
      with that verdict; for a session, retirement, or nothing, with the worker
      ready for its next call. A worker not retired has no live command. */
  lemma VerdictFitsProtocol(x: Setting, d0: Pair, moves: seq<Move>, error: bool, aged: bool)
    requires Starts(x, d0) && Legal(x, d0, moves)
    requires var d := End(x, d0, moves);
             d.todo == [] && Run(d.ops).worker.Some? && !Run(d.ops).gen.Suspended?
    ensures var d := End(x, d0, moves);
            && d.t.Some? && Held(d.pool, d.t.value)
            && var s, s', t := Run(d.ops), Run(d.ops + [Exit(error)]), d.t.value;
               var c, retire := d.pool.custody[t], s.retire || error;
               && s'.verdicts == [(c.w, retire)]
               && (!x.kind.Session? ==> P.Enabled(x.cfg, d.pool, P.Release(t, retire, aged)))
               && (x.kind.Session? ==> if retire then P.Enabled(x.cfg, d.pool, P.RetireNow(t)) else c.stage.Ready?)
               && (!retire ==> d.pool.heap[c.w].live.None?)
  {
    StartsCoupled(x, d0);
    AlwaysCoupled(x, d0, moves);
    var d := End(x, d0, moves);
    AlwaysOk(d.ops);
    RunNext(d.ops, Exit(error));
    PoolInv(x, d);
    var t := d.t.value;
    assert I.CustodyOk(x.cfg, t, d.pool.custody[t], d.pool.heap);
  }

  lemma Sends(x: Setting, p: P.State, t: P.Ticket, input: map<Str, Bytes>, partial: P.Files)
    requires Held(p, t) && p.custody[t].kind == x.kind && !x.kind.Run?
    requires CanDo(x.kind, p.custody[t].stage, Stage(input))
    ensures var e := EventOf(x.kind, p, t, Stage(input), partial);
            && e == P.Upload(t, input) && P.Enabled(x.cfg, p, e)
            && var p' := P.Apply(x.cfg, p, e);
               Held(p', t) && p'.custody[t].w == p.custody[t].w && p'.custody[t].inputs == input
  {}

  lemma SendsNow(x: Setting, d: Pair, input: map<Str, Bytes>, partial: P.Files)
    requires !x.kind.Run? && HasWorkerFor(x, d) && d.todo == [Stage(input)]
    ensures CanMove(x, d, Continue(partial))
    ensures var d2 := Do(x, d, Continue(partial));
            && d2.todo == [] && d2.t == d.t && Held(d2.pool, d2.t.value)
            && d2.pool.custody[d2.t.value].w == d.pool.custody[d.t.value].w
            && d2.pool.custody[d2.t.value].inputs == input && d2.log == d.log + [P.Upload(d2.t.value, input)]
  {
    Sends(x, d.pool, d.t.value, input, partial);
  }

  // Entering, before its inputs are sent.
  lemma EnterTakes(x: Setting, d: Pair, w: P.Wid, input: map<Str, Bytes>, aged: bool)
    requires Coupled(x, d) && CanMove(x, d, Call(Enter(Some(w), true), input, aged))
    ensures var d1 := Do(x, d, Call(Enter(Some(w), true), input, aged));
            && HasWorkerFor(x, d1) && d1.todo == [Stage(input)] && d1.pool.custody[d1.t.value].w == w
            && d1.log == d.log + if x.kind.Session? then [] else [P.Lease(d.pool.tickets, P.Stream)]
  {
    var op := Enter(Some(w), true);
    var d1 := Do(x, d, Call(op, input, aged));
    EnterStep(x, d, op, input, aged);
    assert d1.todo == [Stage(input)] && Busy(d1);
  }

  /** Entering a stream of the pool leases the head of the queue and sends it the
      stream's inputs; a session's stream sends them to the session's worker. */
  lemma EnterSends(x: Setting, d: Pair, w: P.Wid, input: map<Str, Bytes>, aged: bool, partial: P.Files)
    requires Coupled(x, d) && CanMove(x, d, Call(Enter(Some(w), true), input, aged))
    ensures var d1 := Do(x, d, Call(Enter(Some(w), true), input, aged));
            && CanMove(x, d1, Continue(partial))
            && var d2 := Do(x, d1, Continue(partial));
               && d2.todo == [] && d2.t.Some? && Held(d2.pool, d2.t.value)
               && d2.pool.custody[d2.t.value].w == w && d2.pool.custody[d2.t.value].inputs == input
               && d2.log == d.log + (if x.kind.Session? then [] else [P.Lease(d.pool.tickets, P.Stream)])
                            + [P.Upload(d2.t.value, input)]
  {
    EnterTakes(x, d, w, input, aged);
    SendsNow(x, Do(x, d, Call(Enter(Some(w), true), input, aged)), input, partial);
  }

  /** Exiting a stream does to its worker what its verdict says, and nothing else:
      the pool's stream releases it with the retire flag of the verdict; a
      session's retires it if the verdict says so, and otherwise does nothing. */
  lemma ExitTells(x: Setting, d: Pair, error: bool, input: map<Str, Bytes>, aged: bool, partial: P.Files)
    requires Coupled(x, d) && d.todo == [] && Run(d.ops).worker.Some? && !Run(d.ops).gen.Suspended?
    ensures CanMove(x, d, Call(Exit(error), input, aged))
    ensures var d1, t := Do(x, d, Call(Exit(error), input, aged)), d.t.value;
            && |Run(d1.ops).verdicts| == 1 && d1.log == d.log
            && var retire := Run(d1.ops).verdicts[0].1;
               if x.kind.Session? && !retire then d1.todo == []
               else && CanMove(x, d1, Continue(partial))
                    && var d2 := Do(x, d1, Continue(partial));
                       && d2.todo == []
                       && d2.log == d.log + [if x.kind.Session? then P.RetireNow(t) else P.Release(t, retire, aged)]
  {
    var m := Call(Exit(error), input, aged);
    AlwaysOk(d.ops);
    RunNext(d.ops, Exit(error));
    CallStep(x, d, Exit(error), input, aged);
    var d1 := Do(x, d, m);
    if d1.todo != [] {
      TaskStep(x, d1.pool, d1.t.value, d1.todo[0], partial);
    }
  }

  // ---- every orderly use can be carried out ---------------------------------

  lemma {:induction false} ThenDo(x: Setting, d: Pair, moves: seq<Move>, m: Move)
    requires Legal(x, d, moves) && CanMove(x, End(x, d, moves), m)
    ensures Legal(x, d, moves + [m]) && End(x, d, moves + [m]) == Do(x, End(x, d, moves), m)
    decreases |moves|
  {
    if moves == [] {
      assert moves + [m] == [m] && [m][1..] == [];
      assert Legal(x, Do(x, d, m), [m][1..]);
    } else {
      assert (moves + [m])[1..] == moves[1..] + [m];
      ThenDo(x, Do(x, d, moves[0]), moves[1..], m);
    }
  }

  /** What is left to do can be done without help. */
  lemma {:induction false} WorksOff(x: Setting, d0: Pair, moves: seq<Move>) returns (more: seq<Move>)
    requires Coupled(x, d0) && Legal(x, d0, moves)
    ensures Legal(x, d0, more)
    ensures End(x, d0, more).todo == [] && End(x, d0, more).ops == End(x, d0, moves).ops
    ensures End(x, d0, moves).todo == [] ==> more == moves
    decreases |End(x, d0, moves).todo|
  {
    AlwaysCoupled(x, d0, moves);
    var d := End(x, d0, moves);
    if d.todo == [] {
      more := moves;
    } else {
      TaskStep(x, d.pool, d.t.value, d.todo[0], map[]);
      ThenDo(x, d0, moves, Continue(map[]));
      more := WorksOff(x, d0, moves + [Continue(map[])]);
    }
  }

  /** The caller enters the stream at most once, not after exiting it, and exits it
      with the generator exhausted or closed. */
  predicate Proper(ops: seq<Op>) {
    forall i | 0 <= i < |ops| ::
      && (ops[i].Exit? ==> !Run(ops[..i]).gen.Suspended?)
      && (Acquires(ops[i]) ==> Acquisitions(ops[..i]) == 0 && !Run(ops[..i]).finished)
  }

  /** From any state of the pool in which the worker a stream is to get is there to
      be had, every proper list of calls can be carried out to the end. */
  lemma {:induction false} ProperUseRuns(x: Setting, d0: Pair, ops: seq<Op>) returns (moves: seq<Move>)
    requires Starts(x, d0) && Proper(ops)
    requires forall i | 0 <= i < |ops| && Acquires(ops[i]) :: Takes(x, d0, ops[i].acquired.value)
    ensures Legal(x, d0, moves) && End(x, d0, moves).ops == ops && End(x, d0, moves).todo == []
    ensures Acquisitions(ops) == 0 ==> End(x, d0, moves) == d0.(ops := ops)
    decreases |ops|
  {
    StartsCoupled(x, d0);
    if ops == [] {
      moves := [];
    } else {
      var front, op := ops[..|ops| - 1], ops[|ops| - 1];
      assert ops == front + [op];
      assert forall i | 0 <= i <= |front| :: front[..i] == ops[..i];
      assert forall i | 0 <= i < |front| :: front[i] == ops[i];
      moves := ProperUseRuns(x, d0, front);
      var d := End(x, d0, moves);
      AlwaysCoupled(x, d0, moves);
      assert ops[..|ops| - 1] == front && (op.Exit? ==> !Run(front).gen.Suspended?);
      ThenDo(x, d0, moves, Call(op, map[], false));
      if Acquisitions(ops) == 0 {
        NoneAcquired(front);
        AlwaysOk(front);
        IdleCall(x.kind, Run(front), op, map[], false);
      }
      moves := WorksOff(x, d0, moves + [Call(op, map[], false)]);
    }
  }
}

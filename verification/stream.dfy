/** The life of a `SandboxStream`: a context manager around one streamed command.

    `Op` lists what a caller can do to it, in any order; the class does each one
    the way the methods do, and `Perform` is the same step on values, so what is
    proved of all sequences of operations holds of the object. */
module Streams {
  import opened Common
  import P = Protocol

  // What the exec channel shows the next time the generator is resumed.
  datatype Signal = Chunk | ExitSeen(code: int, collects: bool) | Deadline | Error

  datatype Gen = NotStarted | Suspended | Finished
  datatype Channel = Unopened | Open | SeenClosed | Abandoned
  datatype Answer = Exited(code: int) | TimedOut

  datatype Op =
    | Enter(acquired: Option<P.Wid>, prepared: bool)
    | First(envOk: bool, signal: Signal)   // the first resumption of a generator
    | Next(signal: Signal)
    | CloseGen                             // break, or an exception in the loop body
    | Exit(error: bool)

  datatype StreamState = StreamState(
    worker: Option<P.Wid>, result: Option<Answer>, retire: bool, iterated: bool, finished: bool,
    gen: Gen, channel: Channel, acquired: seq<P.Wid>, verdicts: seq<(P.Wid, bool)>)

  const NEW_STREAM := StreamState(None, None, false, false, false, NotStarted, Unopened, [], [])

  // ---- the step, on values --------------------------------------------------

  function Finish(s: StreamState): StreamState {
    if s.finished then s
    else s.(finished := true, worker := None,
            verdicts := s.verdicts + if s.worker.Some? then [(s.worker.value, s.retire)] else [])
  }

  /** The generator, inside its `try`, is resumed by `signal`. */
  function Resume(s: StreamState, signal: Signal): StreamState {
    match signal
    case Chunk => s.(gen := Suspended, channel := Open)
    case ExitSeen(code, collects) =>
      if collects && s.worker.Some? then s.(gen := Finished, channel := SeenClosed, result := Some(Exited(code)))
      else s.(gen := Finished, channel := SeenClosed, retire := true)
    case Deadline =>
      var s1 := s.(gen := Finished, channel := Abandoned, retire := true);
      if s.worker.Some? then s1.(result := Some(TimedOut)) else s1
    case Error => s.(gen := Finished, channel := Abandoned, retire := true)
  }

  function Perform(s: StreamState, op: Op): StreamState {
    match op
    case Enter(None, _) => s
    case Enter(Some(w), prepared) =>
      var s1 := s.(worker := Some(w), acquired := s.acquired + [w]);
      if prepared then s1 else Finish(s1.(retire := true))
    case First(envOk, signal) =>
      if s.iterated || s.worker.None? then s
      else if !envOk then s.(iterated := true, gen := Finished)
      else Resume(s.(iterated := true), signal)
    case Next(signal) => if s.gen.Suspended? then Resume(s, signal) else s
    case CloseGen => if s.gen.Suspended? then s.(gen := Finished, channel := Abandoned, retire := true) else s
    case Exit(error) => Finish(if error then s.(retire := true) else s)
  }

  function Run(ops: seq<Op>): StreamState {
    if ops == [] then NEW_STREAM else Perform(Run(ops[..|ops| - 1]), ops[|ops| - 1])
  }

  // ---- what every sequence of operations keeps ------------------------------

  ghost predicate Ok(s: StreamState) {
    && (s.gen.Suspended? <==> s.channel.Open?)
    && (s.gen.NotStarted? <==> !s.iterated)
    && (s.gen.NotStarted? ==> s.channel.Unopened? && s.result.None?)
    && (s.channel.Abandoned? ==> s.retire)
    && (s.result.Some? ==> if s.result.value.TimedOut? then s.channel.Abandoned? else s.channel.SeenClosed?)
    && (s.result.Some? ==> s.gen.Finished?)
    && |s.verdicts| <= (if s.finished then 1 else 0)
  }

  lemma ResumeOk(s: StreamState, signal: Signal)
    requires |s.verdicts| <= (if s.finished then 1 else 0) && s.result.None? && s.iterated
    ensures Ok(Resume(s, signal))
  {}

  lemma OkStep(s: StreamState, op: Op)
    requires Ok(s)
    ensures Ok(Perform(s, op))
  {
    match op {
      case First(envOk, signal) => ResumeOk(s.(iterated := true, result := None), signal);
      case Next(signal) => ResumeOk(s.(iterated := true, result := None), signal);
      case _ =>
    }
  }

  lemma {:induction false} AlwaysOk(ops: seq<Op>)
    ensures Ok(Run(ops))
  {
    if ops != [] {
      AlwaysOk(ops[..|ops| - 1]);
      OkStep(Run(ops[..|ops| - 1]), ops[|ops| - 1]);
    }
  }

  predicate Acquires(op: Op) { op.Enter? && op.acquired.Some? }

  function Acquisitions(ops: seq<Op>): nat {
    if ops == [] then 0
    else Acquisitions(ops[..|ops| - 1]) + if Acquires(ops[|ops| - 1]) then 1 else 0
  }

  ghost function Finishers(s: StreamState): seq<P.Wid> {
    seq(|s.verdicts|, i requires 0 <= i < |s.verdicts| => s.verdicts[i].0)
  }

  lemma {:induction false} AcquiredCount(ops: seq<Op>)
    ensures |Run(ops).acquired| == Acquisitions(ops)
  {
    if ops != [] {
      AcquiredCount(ops[..|ops| - 1]);
    }
  }

  predicate ExitIn(ops: seq<Op>, from: nat, to: nat) { exists j :: from <= j < to <= |ops| && ops[j].Exit? }

  lemma ExitNext(ops: seq<Op>, from: nat)
    requires from < |ops|
    ensures ExitIn(ops, from, |ops|) <==> ExitIn(ops[..|ops| - 1], from, |ops| - 1) || ops[|ops| - 1].Exit?
  {
    var front := ops[..|ops| - 1];
    assert forall j | 0 <= j < |front| :: front[j] == ops[j];
  }

  lemma {:induction false} NoneAcquired(ops: seq<Op>)
    requires Acquisitions(ops) == 0
    ensures var s := Run(ops);
            && s.worker.None? && s.verdicts == [] && s.acquired == [] && s.channel.Unopened? && !s.iterated
            && (s.finished <==> ExitIn(ops, 0, |ops|))
  {
    AlwaysOk(ops);
    if ops != [] {
      NoneAcquired(ops[..|ops| - 1]);
      ExitNext(ops, 0);
    }
  }

  lemma {:induction false} AcquiresSomewhere(ops: seq<Op>)
    requires Acquisitions(ops) >= 1
    ensures exists i :: 0 <= i < |ops| && Acquires(ops[i])
  {
    var front := ops[..|ops| - 1];
    if !Acquires(ops[|ops| - 1]) {
      AcquiresSomewhere(front);
      var i :| 0 <= i < |front| && Acquires(front[i]);
      assert ops[i] == front[i];
    }
  }

  lemma {:induction false} AcquiredAt(ops: seq<Op>, i: nat)
    requires i < |ops| && Acquires(ops[i])
    ensures Acquisitions(ops) >= 1
  {
    if i < |ops| - 1 {
      AcquiredAt(ops[..|ops| - 1], i);
    }
  }

  lemma ExitBefore(ops: seq<Op>, i: nat)
    requires i < |ops|
    ensures ExitIn(ops[..|ops| - 1], 0, i) <==> ExitIn(ops, 0, i)
  {
    assert forall j | 0 <= j < i :: ops[..|ops| - 1][j] == ops[j];
  }

  // An operation that acquires nothing leaves the worker be, unless it exits.
  lemma KeepsWorker(s: StreamState, op: Op)
    requires !Acquires(op)
    ensures var s' := Perform(s, op);
            && s'.acquired == s.acquired
            && (!op.Exit? || s.finished ==>
                  s'.worker == s.worker && s'.verdicts == s.verdicts && s'.finished == s.finished)
            && (op.Exit? ==> s'.finished)
  {}

  // What becomes of a worker acquired once, at `i`.
  lemma {:induction false} OneWorker(ops: seq<Op>, i: nat)
    requires i < |ops| && Acquires(ops[i]) && Acquisitions(ops) == 1
    ensures var s, w := Run(ops), ops[i].acquired.value;
            && s.acquired == [w]
            && if ExitIn(ops, 0, i) then s.finished && s.worker == Some(w) && s.verdicts == []
               else if !ops[i].prepared || ExitIn(ops, i, |ops|)
               then s.finished && s.worker.None? && Finishers(s) == [w]
               else !s.finished && s.worker == Some(w) && s.verdicts == []
  {
    var front, last := ops[..|ops| - 1], ops[|ops| - 1];
    ExitNext(ops, i);
    ExitBefore(ops, i);
    if i == |ops| - 1 {
      NoneAcquired(front);
    } else {
      AcquiredAt(front, i);
      OneWorker(front, i);
      KeepsWorker(Run(front), last);
    }
  }

  /** The stream was entered at most once; if it was, not after it had been exited,
      and it has been exited since or its preparation failed. */
  predicate UsedOnce(ops: seq<Op>) {
    || Acquisitions(ops) == 0
    || (Acquisitions(ops) == 1
        && exists i :: 0 <= i < |ops| && Acquires(ops[i]) && !ExitIn(ops, 0, i)
                       && (!ops[i].prepared || ExitIn(ops, i, |ops|)))
  }

  /** `on_finish` has been told about every worker the stream acquired, exactly
      once, if and only if the stream was used once and is done. */
  lemma FinishesEachWorkerOnce(ops: seq<Op>)
    ensures Finishers(Run(ops)) == Run(ops).acquired <==> UsedOnce(ops)
  {
    AlwaysOk(ops);
    AcquiredCount(ops);
    if Acquisitions(ops) == 0 {
      NoneAcquired(ops);
    } else if Acquisitions(ops) == 1 {
      AcquiresSomewhere(ops);
      forall i | 0 <= i < |ops| && Acquires(ops[i])
        ensures Finishers(Run(ops)) == Run(ops).acquired
                <==> !ExitIn(ops, 0, i) && (!ops[i].prepared || ExitIn(ops, i, |ops|))
      {
        OneWorker(ops, i);
      }
    }
  }

  // ---- one use of a stream --------------------------------------------------

  /** What has become of the command in the body of the `with` statement: it was
      never tried, it could not be put together, it runs, it was seen to exit with
      its outputs collected, or anything else. */
  datatype Fate = Untried | Invalid | Going | Worked(code: int) | Overdue | Broke

  function FateBy(signal: Signal): Fate {
    match signal
    case Chunk => Going
    case ExitSeen(code, collects) => if collects then Worked(code) else Broke
    case Deadline => Overdue
    case Error => Broke
  }

  function FateOf(body: seq<Op>): Fate {
    if body == [] then Untried
    else
      var f, op := FateOf(body[..|body| - 1]), body[|body| - 1];
      if f.Untried? && op.First? then (if op.envOk then FateBy(op.signal) else Invalid)
      else if f.Going? && op.Next? then FateBy(op.signal)
      else if f.Going? && op.CloseGen? then Broke
      else f
  }

  /** Neither enters the stream nor exits it. */
  predicate Inner(ops: seq<Op>) { forall i | 0 <= i < |ops| :: !Acquires(ops[i]) && !ops[i].Exit? }

  lemma InnerFront(ops: seq<Op>)
    requires ops != [] && Inner(ops)
    ensures Inner(ops[..|ops| - 1]) && !Acquires(ops[|ops| - 1]) && !ops[|ops| - 1].Exit?
  {
    assert forall i | 0 <= i < |ops| - 1 :: ops[..|ops| - 1][i] == ops[i];
  }

  lemma {:induction false} BeforeEntering(before: seq<Op>)
    requires Inner(before)
    ensures Run(before) == NEW_STREAM
  {
    if before != [] {
      InnerFront(before);
      BeforeEntering(before[..|before| - 1]);
    }
  }

  // A stream whose command has met `f`, inside its `with` statement.
  ghost predicate Meets(s: StreamState, w: P.Wid, f: Fate) {
    && s.worker == Some(w) && !s.finished && s.verdicts == []
    && s.retire == (f.Overdue? || f.Broke?)
    && s.iterated == !f.Untried? && s.gen.Suspended? == f.Going?
    && s.result == match f
                   case Worked(code) => Some(Exited(code))
                   case Overdue => Some(TimedOut)
                   case _ => None
  }

  lemma MeetsNext(s: StreamState, w: P.Wid, f: Fate, op: Op)
    requires Meets(s, w, f) && !Acquires(op) && !op.Exit?
    ensures Meets(Perform(s, op), w,
                  if f.Untried? && op.First? then (if op.envOk then FateBy(op.signal) else Invalid)
                  else if f.Going? && op.Next? then FateBy(op.signal)
                  else if f.Going? && op.CloseGen? then Broke
                  else f)
  {}

  lemma {:induction false} InsideMeets(before: seq<Op>, w: P.Wid, body: seq<Op>)
    requires Inner(before) && Inner(body)
    ensures Meets(Run(before + [Enter(Some(w), true)] + body), w, FateOf(body))
  {
    var start := before + [Enter(Some(w), true)];
    if body == [] {
      BeforeEntering(before);
      assert start + body == start && start[..|start| - 1] == before;
    } else {
      var front, op := body[..|body| - 1], body[|body| - 1];
      InnerFront(body);
      InsideMeets(before, w, front);
      assert (start + body)[..|start + body| - 1] == start + front;
      MeetsNext(Run(start + front), w, FateOf(front), op);
    }
  }

  /** A stream entered once and exited retires its worker if and only if an error
      escaped the `with` statement, or the command's deadline passed, or the
      generator was left or ended otherwise than by an observed exit whose outputs
      were collected. One whose preparation failed always does. */
  lemma RetiredExactly(before: seq<Op>, w: P.Wid, body: seq<Op>, error: bool)
    requires Inner(before) && Inner(body)
    ensures var s := Run(before + [Enter(Some(w), true)] + body + [Exit(error)]);
            && s.verdicts == [(w, error || FateOf(body).Overdue? || FateOf(body).Broke?)]
            && s.result == match FateOf(body)
                           case Worked(code) => Some(Exited(code))
                           case Overdue => Some(TimedOut)
                           case _ => None
    ensures Run(before + [Enter(Some(w), false)]).verdicts == [(w, true)]
  {
    InsideMeets(before, w, body);
    BeforeEntering(before);
    var ops := before + [Enter(Some(w), true)] + body;
    assert (ops + [Exit(error)])[..|ops|] == ops;
    assert (before + [Enter(Some(w), false)])[..|before|] == before;
  }

  /** `n` chunks, and then the operation `last`. */
  function Reads(n: nat, last: Op): seq<Op>
    requires last.Next? || last.CloseGen?
  {
    [First(true, Chunk)] + seq(n, i => Next(Chunk)) + [last]
  }

  lemma {:induction false} ChunksGoOn(n: nat)
    ensures FateOf([First(true, Chunk)] + seq(n, i => Next(Chunk))) == Going
  {
    var ops := [First(true, Chunk)] + seq(n, i => Next(Chunk));
    if n > 0 {
      ChunksGoOn(n - 1);
      assert ops[..|ops| - 1] == [First(true, Chunk)] + seq(n - 1, i => Next(Chunk));
    } else {
      assert ops[..|ops| - 1] == [];
    }
  }

  lemma ReadsFate(n: nat, last: Op)
    requires last.Next? || last.CloseGen?
    ensures FateOf(Reads(n, last)) == if last.CloseGen? then Broke else FateBy(last.signal)
    ensures Inner(Reads(n, last))
  {
    ChunksGoOn(n);
    var ops := Reads(n, last);
    assert ops[..|ops| - 1] == [First(true, Chunk)] + seq(n, i => Next(Chunk));
  }

  /** The ordinary uses of a stream, however many chunks it yields: read to an exit
      that is collected, it keeps its worker and has the exit code; cut off by the
      deadline, broken off by the caller, or failing, it retires the worker. */
  lemma OrdinaryUses(w: P.Wid, n: nat, code: int)
    ensures var s := Run([] + [Enter(Some(w), true)] + Reads(n, Next(ExitSeen(code, true))) + [Exit(false)]);
            s.verdicts == [(w, false)] && s.result == Some(Exited(code))
    ensures var s := Run([] + [Enter(Some(w), true)] + Reads(n, Next(Deadline)) + [Exit(false)]);
            s.verdicts == [(w, true)] && s.result == Some(TimedOut)
    ensures var s := Run([] + [Enter(Some(w), true)] + Reads(n, CloseGen) + [Exit(false)]);
            s.verdicts == [(w, true)] && s.result == None
    ensures var s := Run([] + [Enter(Some(w), true)] + Reads(n, Next(Error)) + [Exit(false)]);
            s.verdicts == [(w, true)] && s.result == None
    ensures var s := Run([] + [Enter(Some(w), true)] + Reads(n, Next(ExitSeen(code, false))) + [Exit(false)]);
            s.verdicts == [(w, true)] && s.result == None
  {
    OrdinaryUse(w, n, Next(ExitSeen(code, true)));
    OrdinaryUse(w, n, Next(Deadline));
    OrdinaryUse(w, n, CloseGen);
    OrdinaryUse(w, n, Next(Error));
    OrdinaryUse(w, n, Next(ExitSeen(code, false)));
  }

  lemma OrdinaryUse(w: P.Wid, n: nat, last: Op)
    requires last.Next? || last.CloseGen?
    ensures var s, f := Run([] + [Enter(Some(w), true)] + Reads(n, last) + [Exit(false)]),
                        if last.CloseGen? then Broke else FateBy(last.signal);
            && s.verdicts == [(w, f.Overdue? || f.Broke?)]
            && s.result == match f
                           case Worked(code) => Some(Exited(code))
                           case Overdue => Some(TimedOut)
                           case _ => None
  {
    ReadsFate(n, last);
    RetiredExactly([], w, Reads(n, last), false);
  }

  /** A stream that yields nothing before its exit, and one whose environment is
      refused before anything runs. */
  lemma SilentUse(w: P.Wid, code: int, signal: Signal)
    ensures var s := Run([Enter(Some(w), true), First(true, ExitSeen(code, true)), Exit(false)]);
            s.verdicts == [(w, false)] && s.result == Some(Exited(code))
    ensures var s := Run([Enter(Some(w), true), First(false, signal), Exit(false)]);
            s.verdicts == [(w, false)] && s.result == None
  {
    var refused := [First(false, signal)];
    assert refused[..0] == [];
    assert FateOf(refused) == Invalid;
    RetiredExactly([], w, refused, false);
    assert [] + [Enter(Some(w), true)] + refused + [Exit(false)]
           == [Enter(Some(w), true), First(false, signal), Exit(false)];
    var body := [First(true, ExitSeen(code, true))];
    assert body[..0] == [];
    assert FateOf(body) == Worked(code);
    RetiredExactly([], w, body, false);
    assert [] + [Enter(Some(w), true)] + body + [Exit(false)]
           == [Enter(Some(w), true), First(true, ExitSeen(code, true)), Exit(false)];
  }

  /** A worker is handed back as healthy although its command's channel was never
      seen closed exactly when the generator is still suspended at exit and no
      error sets the retire flag. Exhausting or closing the generator first rules
      that out. */
  lemma HealthyVerdict(ops: seq<Op>, error: bool)
    ensures var s, s' := Run(ops), Run(ops + [Exit(error)]);
            var told := |s'.verdicts| > |s.verdicts|;
            && (told <==> s.worker.Some? && !s.finished)
            && (told ==>
                  var retire := s'.verdicts[|s.verdicts|].1;
                  && (!retire && !(s.channel.Unopened? || s.channel.SeenClosed?)
                      <==> s.gen.Suspended? && !s.retire && !error))
  {
    AlwaysOk(ops);
    assert (ops + [Exit(error)])[..|ops|] == ops;
  }

  /** Such a stream: entered, one chunk read, and exited with the generator left
      where it was. */
  lemma SuspendedHandsBackLive(w: P.Wid)
    ensures var s := Run([Enter(Some(w), true), First(true, Chunk), Exit(false)]);
            s.channel.Open? && s.verdicts == [(w, false)]
  {
    var ops := [Enter(Some(w), true), First(true, Chunk), Exit(false)];
    assert ops[..2] == [Enter(Some(w), true), First(true, Chunk)];
    assert ops[..2][..1] == [Enter(Some(w), true)] && ops[..2][..1][..0] == [];
    assert Run(ops[..2][..1]) == Perform(NEW_STREAM, Enter(Some(w), true));
    assert Run(ops[..2]) == Perform(Run(ops[..2][..1]), First(true, Chunk));
    assert Run(ops) == Perform(Run(ops[..2]), Exit(false));
  }

  /** An observed exit or a timeout, and nothing else, sets `result`, once. */
  lemma ResultOnlyFromTheChannel(ops: seq<Op>, op: Op)
    ensures var s, s' := Run(ops), Run(ops + [op]);
            && (s.result.Some? ==> s'.result == s.result)
            && (s.result.None? && s'.result.Some? <==>
                  && s.worker.Some?
                  && ((s.gen.Suspended? && op.Next?) || (op.First? && !s.iterated && op.envOk))
                  && (op.signal.Deadline? || (op.signal.ExitSeen? && op.signal.collects)))
            && (s'.result.Some? && s.result.None? ==>
                  s'.result.value == if op.signal.Deadline? then TimedOut else Exited(op.signal.code))
  {
    AlwaysOk(ops);
    assert (ops + [op])[..|ops|] == ops;
  }

  // ---- the object -----------------------------------------------------------

  class SandboxStream {
    var worker: Option<P.Wid>
    var result: Option<Answer>
    var retire: bool
    var iterated: bool
    var finished: bool
    // The generator `__iter__` makes, and its exec channel.
    var gen: Gen
    var channel: Channel
    // The calls made to `acquire` and to `on_finish`.
    var acquired: seq<P.Wid>
    var verdicts: seq<(P.Wid, bool)>
    ghost var ops: seq<Op>

    ghost function View(): StreamState
      reads this
    {
      StreamState(worker, result, retire, iterated, finished, gen, channel, acquired, verdicts)
    }

    ghost predicate Valid()
      reads this
    {
      View() == Run(ops)
    }

    constructor ()
      ensures Valid() && ops == [] && worker.None? && verdicts == []
    {
      worker, result, retire, iterated, finished := None, None, false, false, false;
      gen, channel, acquired, verdicts, ops := NotStarted, Unopened, [], [], [];
    }

    ghost method Note(before: StreamState, op: Op)
      requires before == Run(ops) && View() == Perform(before, op)
      modifies this`ops
      ensures Valid() && ops == old(ops) + [op]
    {
      assert (ops + [op])[..|ops|] == ops;
      ops := ops + [op];
    }

    method FinishOnce()
      modifies this`finished, this`worker, this`verdicts
      ensures View() == Finish(old(View()))
    {
      if finished {
        return;
      }
      finished := true;
      var w := worker;
      worker := None;
      if w.Some? {
        verdicts := verdicts + [(w.value, retire)];
      }
    }

    /** `__enter__`; false when it raises. */
    method Begin(w: Option<P.Wid>, prepared: bool) returns (entered: bool)
      requires Valid()
      modifies this
      ensures Valid() && ops == old(ops) + [Enter(w, prepared)] && (entered <==> w.Some? && prepared)
    {
      ghost var before := View();
      entered := w.Some? && prepared;
      if w.Some? {
        worker := w;
        acquired := acquired + [w.value];
        if !prepared {
          retire := true;
          FinishOnce();
        }
      }
      Note(before, Enter(w, prepared));
    }

    // The body of the generator from where it stands to its next yield.
    method Step(signal: Signal)
      modifies this
      ensures View() == Resume(old(View()), signal) && ops == old(ops)
    {
      var completed := false;
      match signal {
        case Chunk =>
          gen, channel := Suspended, Open;
          return;
        case ExitSeen(code, collects) =>
          channel := SeenClosed;
          if collects && worker.Some? {
            result := Some(Exited(code));
            completed := true;
          } else {
            retire := true;
          }
        case Deadline =>
          channel, retire := Abandoned, true;
          if worker.Some? {
            result := Some(TimedOut);
            completed := true;
          }
        case Error =>
          channel, retire := Abandoned, true;
      }
      gen := Finished;
      if !completed {
        retire := true;
      }
    }

    /** The first `next` on a generator of this stream. */
    method FirstNext(envOk: bool, signal: Signal)
      requires Valid()
      modifies this
      ensures Valid() && ops == old(ops) + [First(envOk, signal)]
    {
      ghost var before := View();
      if !iterated && worker.Some? {
        iterated := true;
        if envOk {
          Step(signal);
        } else {
          gen := Finished;
        }
      }
      Note(before, First(envOk, signal));
    }

    method NextChunk(signal: Signal)
      requires Valid()
      modifies this
      ensures Valid() && ops == old(ops) + [Next(signal)]
    {
      ghost var before := View();
      if gen.Suspended? {
        Step(signal);
      }
      Note(before, Next(signal));
    }

    method CloseGenerator()
      requires Valid()
      modifies this
      ensures Valid() && ops == old(ops) + [CloseGen]
    {
      ghost var before := View();
      if gen.Suspended? {
        gen, channel := Finished, Abandoned;
        retire := true;
      }
      Note(before, CloseGen);
    }

    /** `__exit__`. */
    method Leave(error: bool)
      requires Valid()
      modifies this
      ensures Valid() && ops == old(ops) + [Exit(error)] && finished && (!old(finished) ==> worker.None?)
    {
      ghost var before := View();
      if error {
        retire := true;
      }
      FinishOnce();
      Note(before, Exit(error));
    }
  }
}

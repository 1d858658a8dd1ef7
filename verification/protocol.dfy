/** The warm-pool worker protocol as interleaved atomic steps.

    Callers, streams, sessions, background wipes and background replacements all
    act on one free queue. Every choice the cluster, the sandboxed code or the
    scheduler makes is carried by the event, so a run is a list of events.

    The files of an upload are keyed by the paths they land at, below the root. For
    keys that are normal relative paths those are the keys themselves. */
module Protocol {
  import opened Common

  type Wid = nat       // the serial number in a worker's name
  type Ticket = nat    // one lease, and then whatever looks after its worker

  // Who wrote a file, or whose command is running.
  datatype Origin = Seed(ticket: Ticket) | ByRun(ticket: Ticket) | BySession(ticket: Ticket)
  datatype File = File(data: Bytes, origin: Origin)
  type Files = map<Str, File>

  // What a comprehension gives outside its keys.
  const NO_FILE := File([], Seed(0))

  /** One worker. `uses` is the field the pool keeps; the rest is history and the
      state of the pod: its files, what its last wipe failed to remove, whose
      command may still be running, how often it was leased and retired. */
  datatype Worker = Worker(uses: nat, files: Files, residue: Files, live: Option<Origin>,
                           leases: nat, retires: nat)

  const FRESH_WORKER := Worker(0, map[], map[], None, 0, 0)

  datatype Kind = Run | Stream | Session

  // Where a holder has got to with its worker.
  datatype Stage = Leased | Wiped | Ready | Running | Exited | Doomed

  /** Who has a ticket: a caller, a wipe thread (before or after its closed
      check), a replacement thread deleting the old pod, sleeping before an
      attempt, or creating the pod named `id`. */
  datatype Custodian =
    | Holding(kind: Kind, w: Wid, stage: Stage, inputs: map<Str, Bytes>)
    | Wiping(w: Wid, checked: bool)
    | Deleting(w: Wid)
    | Waiting(attempt: nat, slept: nat)
    | Spawning(attempt: nat, slept: nat, id: Wid)

  datatype Config = Config(poolSize: nat, maxUses: nat, wipePerRun: bool)

  ghost predicate ValidConfig(cfg: Config) { cfg.poolSize >= 1 && cfg.maxUses >= 1 }

  datatype State = State(free: seq<Wid>, heap: map<Wid, Worker>, custody: map<Ticket, Custodian>,
                         serial: nat, tickets: nat, lost: nat, dropped: nat, closed: bool)

  datatype Event =
    | Lease(t: Ticket, kind: Kind)
    | SessionClean(t: Ticket, left: set<Str>)
    | Upload(t: Ticket, input: map<Str, Bytes>)
    | Start(t: Ticket)
    | UserWrites(writer: Wid, after: Files)
    | Exit(t: Ticket)
    | Fail(t: Ticket, after: Files)
    | Release(t: Ticket, retire: bool, aged: bool)
    | RetireNow(t: Ticket)
    | WipeCheck(t: Ticket)
    | WipeOk(t: Ticket, left: set<Str>)
    | WipeFail(t: Ticket, after: Files)
    | DeleteOk(t: Ticket)
    | DeleteRaise(t: Ticket)
    | SpawnCheck(t: Ticket)
    | SpawnOk(t: Ticket)
    | SpawnFail(t: Ticket)
    | Close
    | Drain

  // ---- files ----------------------------------------------------------------

  function Tag(m: map<Str, Bytes>, o: Origin): Files {
    map p | p in m :: if p in m then File(m[p], o) else NO_FILE
  }

  function Keep(files: Files, left: set<Str>): Files {
    files - (files.Keys - left)
  }

  /** `after` differs from `before` only by removals and by files `o` wrote. */
  predicate WrittenBy(before: Files, after: Files, o: Origin) {
    forall p | p in after :: (p in before && after[p] == before[p]) || after[p].origin == o
  }

  function OriginOf(kind: Kind, t: Ticket): Origin {
    if kind.Session? then BySession(t) else ByRun(t)
  }

  // A restore map is the session's starting state, not something it wrote.
  function UploadOrigin(c: Custodian, t: Ticket): Origin
    requires c.Holding?
  {
    if c.stage.Wiped? then Seed(t) else OriginOf(c.kind, t)
  }

  // ---- steps ----------------------------------------------------------------

  predicate HasWorker(c: Custodian) { c.Holding? || c.Wiping? || c.Deleting? }

  predicate HeldAt(s: State, t: Ticket, stages: set<Stage>) {
    t in s.custody && s.custody[t].Holding? && s.custody[t].stage in stages && s.custody[t].w in s.heap
  }

  function Backoff(attempt: nat): nat {
    var b := if attempt == 0 then 2 else if attempt == 1 then 4 else 8;
    if b < 8 then b else 8
  }

  /** The step `e` can happen in `s`. */
  predicate Enabled(cfg: Config, s: State, e: Event) {
    match e
    case Lease(t, kind) => t == s.tickets && |s.free| > 0 && s.free[0] in s.heap
    case SessionClean(t, left) => HeldAt(s, t, {Leased}) && s.custody[t].kind.Session?
    case Upload(t, input) =>
      && HeldAt(s, t, {Leased, Wiped, Ready})
      && (s.custody[t].stage.Leased? ==> !s.custody[t].kind.Session?)
      && (s.custody[t].stage.Ready? ==> s.custody[t].kind.Session?)
    case Start(t) => HeldAt(s, t, {Ready})
    case UserWrites(w, after) =>
      && w in s.heap && s.heap[w].live.Some?
      && WrittenBy(s.heap[w].files, after, s.heap[w].live.value)
    case Exit(t) => HeldAt(s, t, {Running})
    case Fail(t, after) =>
      && HeldAt(s, t, {Leased, Wiped, Ready, Running, Exited})
      && var c := s.custody[t];
         WrittenBy(s.heap[c.w].files, after, UploadOrigin(c, t))
    case Release(t, retire, aged) =>
      && HeldAt(s, t, {Ready, Running, Exited, Doomed})
      && var c := s.custody[t];
         match c.kind {
           case Run => c.stage in {Exited, Doomed} && retire == c.stage.Doomed?
           case Stream => c.stage in {Running, Doomed} ==> retire
           case Session => c.stage.Ready? && !retire
         }
    case RetireNow(t) => HeldAt(s, t, {Leased, Wiped, Ready, Running, Exited, Doomed}) && s.custody[t].kind.Session?
    case WipeCheck(t) => t in s.custody && s.custody[t].Wiping? && !s.custody[t].checked
    case WipeOk(t, left) => t in s.custody && s.custody[t].Wiping? && s.custody[t].checked && s.custody[t].w in s.heap
    case WipeFail(t, after) =>
      && t in s.custody && s.custody[t].Wiping? && s.custody[t].checked && s.custody[t].w in s.heap
      && after.Items <= s.heap[s.custody[t].w].files.Items
    case DeleteOk(t) => t in s.custody && s.custody[t].Deleting?
    case DeleteRaise(t) => t in s.custody && s.custody[t].Deleting?
    case SpawnCheck(t) => t in s.custody && s.custody[t].Waiting?
    case SpawnOk(t) => t in s.custody && s.custody[t].Spawning?
    case SpawnFail(t) => t in s.custody && s.custody[t].Spawning?
    case Close => true
    case Drain => s.closed && |s.free| > 0
  }

  function SetWorker(s: State, w: Wid, r: Worker): State { s.(heap := s.heap[w := r]) }

  function SetCustody(s: State, t: Ticket, c: Custodian): State { s.(custody := s.custody[t := c]) }

  /** The thread looking after `t` ends. */
  function Drop(s: State, t: Ticket): State { s.(custody := s.custody - {t}) }

  function Leave(s: State, t: Ticket): State
    requires t in s.custody && HasWorker(s.custody[t])
  {
    Drop(s, t).(free := s.free + [s.custody[t].w])
  }

  function SendToReplace(s: State, t: Ticket): State
    requires t in s.custody && HasWorker(s.custody[t]) && s.custody[t].w in s.heap
  {
    var w := s.custody[t].w;
    SetCustody(SetWorker(s, w, s.heap[w].(retires := s.heap[w].retires + 1)), t, Deleting(w))
  }

  function Released(cfg: Config, s: State, t: Ticket, retire: bool, aged: bool): State
    requires t in s.custody && s.custody[t].Holding? && s.custody[t].w in s.heap
  {
    var c := s.custody[t];
    var r := s.heap[c.w].(uses := s.heap[c.w].uses + 1);
    var s1 := SetWorker(s, c.w, r);
    if retire || r.uses >= cfg.maxUses || aged then SendToReplace(s1, t)
    else if c.kind.Session? || cfg.wipePerRun then SetCustody(s1, t, Wiping(c.w, false))
    else Leave(s1, t)
  }

  /** The state after `e`. */
  function Apply(cfg: Config, s: State, e: Event): State
    requires Enabled(cfg, s, e)
  {
    match e
    case Lease(t, kind) =>
      var w := s.free[0];
      s.(free := s.free[1..],
         heap := s.heap[w := s.heap[w].(leases := s.heap[w].leases + 1)],
         custody := s.custody[t := Holding(kind, w, Leased, map[])],
         tickets := t + 1)
    case SessionClean(t, left) =>
      var c := s.custody[t];
      var kept := Keep(s.heap[c.w].files, left);
      SetCustody(SetWorker(s, c.w, s.heap[c.w].(files := kept, residue := kept)), t, c.(stage := Wiped))
    case Upload(t, input) =>
      var c := s.custody[t];
      var r := s.heap[c.w];
      SetCustody(SetWorker(s, c.w, r.(files := r.files + Tag(input, UploadOrigin(c, t)))),
                 t, c.(stage := Ready, inputs := input))
    case Start(t) =>
      var c := s.custody[t];
      SetCustody(SetWorker(s, c.w, s.heap[c.w].(live := Some(OriginOf(c.kind, t)))), t, c.(stage := Running))
    case UserWrites(w, after) => SetWorker(s, w, s.heap[w].(files := after))
    case Exit(t) =>
      var c := s.custody[t];
      SetCustody(SetWorker(s, c.w, s.heap[c.w].(live := None)), t,
                 c.(stage := if c.kind.Session? then Ready else Exited))
    case Fail(t, after) =>
      var c := s.custody[t];
      SetCustody(SetWorker(s, c.w, s.heap[c.w].(files := after)), t, c.(stage := Doomed))
    case Release(t, retire, aged) => Released(cfg, s, t, retire, aged)
    case RetireNow(t) => SendToReplace(s, t)
    case WipeCheck(t) =>
      if s.closed then Drop(s, t).(dropped := s.dropped + 1)
      else SetCustody(s, t, Wiping(s.custody[t].w, true))
    case WipeOk(t, left) =>
      var w := s.custody[t].w;
      var kept := Keep(s.heap[w].files, left);
      Leave(SetWorker(s, w, s.heap[w].(files := kept, residue := kept)), t)
    case WipeFail(t, after) =>
      var w := s.custody[t].w;
      SendToReplace(SetWorker(s, w, s.heap[w].(files := after)), t)
    case DeleteOk(t) => SetCustody(s, t, Waiting(0, 0))
    case DeleteRaise(t) => Drop(s, t).(lost := s.lost + 1)
    case SpawnCheck(t) =>
      var c := s.custody[t];
      if s.closed then Drop(s, t).(dropped := s.dropped + 1)
      else SetCustody(s, t, Spawning(c.attempt, c.slept, s.serial + 1)).(serial := s.serial + 1)
    case SpawnOk(t) =>
      var id := s.custody[t].id;
      Drop(s, t).(heap := s.heap[id := FRESH_WORKER], free := s.free + [id])
    case SpawnFail(t) =>
      var c := s.custody[t];
      if c.attempt >= 2 then Drop(s, t).(lost := s.lost + 1)
      else SetCustody(s, t, Waiting(c.attempt + 1, c.slept + Backoff(c.attempt)))
    case Close => s.(closed := true)
    case Drain => s.(free := s.free[1..], dropped := s.dropped + 1)
  }

  // The ticket whose holder or background thread makes the step.
  function Actor(e: Event): Option<Ticket> {
    if e.UserWrites? || e.Close? || e.Drain? then None else Some(e.t)
  }

  // Steps of a holder, of whoever gives a worker up, and of a replacement.
  predicate Moves(e: Event) { e.SessionClean? || e.Upload? || e.Start? || e.Exit? || e.Fail? }
  predicate Returns(e: Event) { e.Release? || e.RetireNow? || e.WipeCheck? || e.WipeOk? || e.WipeFail? }
  predicate Replaces(e: Event) { e.DeleteOk? || e.DeleteRaise? || e.SpawnCheck? || e.SpawnOk? || e.SpawnFail? }

  /** At most ticket `t` and the worker it had change, and no worker goes. */
  ghost predicate Local(s: State, s': State, t: Ticket) {
    && s'.tickets == s.tickets && s.heap.Keys <= s'.heap.Keys
    && (forall u | u != t :: u in s'.custody <==> u in s.custody)
    && (forall u | u != t && u in s.custody :: s'.custody[u] == s.custody[u])
    && (forall w | w in s.heap && !(t in s.custody && HasWorker(s.custody[t]) && w == s.custody[t].w) ::
          s'.heap[w] == s.heap[w])
  }

  lemma MovesLocal(cfg: Config, s: State, e: Event)
    requires Enabled(cfg, s, e) && Moves(e)
    ensures Local(s, Apply(cfg, s, e), e.t)
    ensures Apply(cfg, s, e).heap.Keys == s.heap.Keys && Apply(cfg, s, e).serial == s.serial
    ensures e.t in Apply(cfg, s, e).custody && !Apply(cfg, s, e).custody[e.t].Spawning?
  {}

  lemma ReleaseLocal(cfg: Config, s: State, t: Ticket, retire: bool, aged: bool)
    requires t in s.custody && s.custody[t].Holding? && s.custody[t].w in s.heap
    ensures var s' := Released(cfg, s, t, retire, aged);
            && Local(s, s', t) && s'.heap.Keys == s.heap.Keys && s'.serial == s.serial
            && (t in s'.custody ==> !s'.custody[t].Spawning?)
  {}

  lemma ReturnsLocal(cfg: Config, s: State, e: Event)
    requires Enabled(cfg, s, e) && Returns(e)
    ensures Local(s, Apply(cfg, s, e), e.t)
    ensures Apply(cfg, s, e).heap.Keys == s.heap.Keys && Apply(cfg, s, e).serial == s.serial
    ensures e.t in Apply(cfg, s, e).custody ==> !Apply(cfg, s, e).custody[e.t].Spawning?
  {
    if e.Release? {
      ReleaseLocal(cfg, s, e.t, e.retire, e.aged);
    }
  }

  lemma ReplacesLocal(cfg: Config, s: State, e: Event)
    requires Enabled(cfg, s, e) && Replaces(e)
    requires e.SpawnOk? ==> s.custody[e.t].id !in s.heap
    ensures Local(s, Apply(cfg, s, e), e.t)
    ensures !e.SpawnOk? ==> Apply(cfg, s, e).heap == s.heap
    ensures !e.SpawnCheck? ==> Apply(cfg, s, e).serial == s.serial
    ensures e.t in Apply(cfg, s, e).custody && Apply(cfg, s, e).custody[e.t].Spawning? ==>
              e.SpawnCheck? && Apply(cfg, s, e).serial == s.serial + 1
              && Apply(cfg, s, e).custody[e.t].id == s.serial + 1
  {}

  // ---- runs -----------------------------------------------------------------

  /** `start` has put `placed` distinct new workers in the queue. */
  ghost predicate Init(cfg: Config, placed: nat, s: State) {
    && ValidConfig(cfg) && placed <= cfg.poolSize && |s.free| == placed
    && s.custody == map[] && s.lost == 0 && s.dropped == 0 && !s.closed
    && (forall i, j | 0 <= i < j < |s.free| :: s.free[i] != s.free[j])
    && (forall i | 0 <= i < |s.free| :: s.free[i] in s.heap)
    && (forall w | w in s.heap :: w <= s.serial && s.heap[w] == FRESH_WORKER)
  }

  ghost predicate Legal(cfg: Config, s: State, log: seq<Event>)
    decreases |log|
  {
    log == [] || (Enabled(cfg, s, log[0]) && Legal(cfg, Apply(cfg, s, log[0]), log[1..]))
  }

  ghost function Replay(cfg: Config, s: State, log: seq<Event>): State
    requires Legal(cfg, s, log)
    decreases |log|
  {
    if log == [] then s else Replay(cfg, Apply(cfg, s, log[0]), log[1..])
  }

  lemma {:induction false} Extend(cfg: Config, s: State, log: seq<Event>, more: seq<Event>)
    requires Legal(cfg, s, log) && Legal(cfg, Replay(cfg, s, log), more)
    ensures Legal(cfg, s, log + more)
    ensures Replay(cfg, s, log + more) == Replay(cfg, Replay(cfg, s, log), more)
    decreases |log|
  {
    if log == [] {
      assert log + more == more;
    } else {
      Extend(cfg, Apply(cfg, s, log[0]), log[1..], more);
      assert (log + more)[1..] == log[1..] + more;
    }
  }
}
